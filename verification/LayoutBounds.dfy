/**
 How far the layout of a multi-threaded test on real addresses reaches.
 */
module LayoutBounds {
  import opened Rand
  import opened DmaMachine
  import opened TransferLists
  import opened Ranges
  import opened PhysicalLayout
  import opened ProgramWriter
  import opened MultithreadTest
  import opened Generation

  /** Every thread takes at most GAP bytes and an alignment. */
  lemma {:induction false} LayoutFits(side: Side, lists: seq<seq<Transfer>>, bases: seq<nat>, start: nat, position: nat)
    requires |bases| <= |lists| && LaidOut(side, lists, bases, start, position)
    requires forall i :: 0 <= i < |lists| ==> End(ThreadRanges(side, lists[i], 0), 0) <= GAP
    requires forall i :: 0 <= i < |lists| && lists[i] != [] ==> Width(lists[i][0].size) <= 32
    ensures position <= start + |bases| * (GAP + 32)
  {
    if bases != [] {
      var n := |bases| - 1;
      var before := AllRanges(side, lists[..n], bases[..n]);
      LaidOutBefore(side, lists, bases, start, position);
      LayoutFits(side, lists, bases[..n], start, End(before, start));
      assert PlacedAfter(side, lists, bases, start, n);
      ThreadFits(side, lists[n], bases[n], End(before, start));
    }
  }

  lemma ThreadFits(side: Side, list: seq<Transfer>, base: nat, position: nat)
    requires list != [] ==> base == NextAligned(position, Width(list[0].size)) && Width(list[0].size) <= 32
    requires End(ThreadRanges(side, list, 0), 0) <= GAP
    ensures End(ThreadRanges(side, list, base), position) <= position + GAP + 32
  {
    if list != [] {
      NextAlignedIsLeast(position, Width(list[0].size), 0);
      var last := |list| - 1;
      assert ThreadRanges(side, list, base)[last].start == base + ThreadRanges(side, list, 0)[last].start;
    }
  }

  lemma InOrderBefore(rs: seq<Range>, qs: seq<Range>, lo: nat, hi: nat)
    requires InOrder(rs + qs, lo, hi)
    ensures InOrder(rs, lo, End(rs, lo))
  {
    assert forall k :: 0 <= k < |rs| ==> (rs + qs)[k] == rs[k];
  }

  lemma LaidOutBefore(side: Side, lists: seq<seq<Transfer>>, bases: seq<nat>, start: nat, position: nat)
    requires 0 < |bases| <= |lists| && LaidOut(side, lists, bases, start, position)
    ensures var n := |bases| - 1;
            var middle := End(AllRanges(side, lists[..n], bases[..n]), start);
            LaidOut(side, lists, bases[..n], start, middle) && position == End(ThreadRanges(side, lists[n], bases[n]), middle)
  {
    var n := |bases| - 1;
    var before := AllRanges(side, lists[..n], bases[..n]);
    assert bases == bases[..n] + [bases[n]];
    RangesNext(side, lists, bases[..n], bases[n]);
    EndNext(side, before, lists[n], bases[n], start);
    InOrderBefore(before, ThreadRanges(side, lists[n], bases[n]), start, position);
    forall i | 0 <= i < n ensures PlacedAfter(side, lists, bases[..n], start, i) {
      PlacedBefore(side, lists, bases, start, i);
    }
  }

  lemma PlacedBefore(side: Side, lists: seq<seq<Transfer>>, bases: seq<nat>, start: nat, i: nat)
    requires i + 1 < |bases| <= |lists| && PlacedAfter(side, lists, bases, start, i)
    ensures PlacedAfter(side, lists, bases[..|bases| - 1], start, i)
  {
    assert bases[..|bases| - 1][..i] == bases[..i];
  }

  /** A generated thread takes at most GAP bytes on either side. */
  lemma GeneratedFits(floor: nat, rs: seq<Recipe>, states: seq<State>, seed: State, i: nat, side: Side)
    requires MadeFrom(rs, states, seed) && AllWritable(rs) && i < |rs|
    ensures var list := Lists(floor, Threads(rs))[i];
            End(ThreadRanges(side, list, 0), 0) <= GAP && (list != [] ==> Width(list[0].size) <= 32)
  {
    var r := rs[i];
    MadeFacts(rs, states, seed, i);
    assert Writable(r);
    StaysBelowGap(floor, r.code, r.size);
    NeverOverwrites(floor, r.code, r.size, 0, 0);
    WidthBound(r.size);
    EndOfClimb(side, Eval(floor, r.code, r.size, 0, 0), r.size);
  }

  lemma EndOfClimb(side: Side, e: Effect, size: nat)
    requires Climbs(e, size, 0, 0)
    ensures End(ThreadRanges(side, e.made, 0), 0) <= if side.Source? then e.source else e.destination
    ensures e.made != [] ==> e.made[0].size == size
  {
    if e.made != [] {
      var k := |e.made| - 1;
      assert ThreadRanges(side, e.made, 0)[k].start
          == if side.Source? then Sources(e.made)[k] else Destinations(e.made)[k];
      assert e.made[k].size == size;
    }
  }

  const THREADS: nat := 0x1_0000_0000         // thread counts are unsigned ints

  /** For every seed and number of threads, the layout stays inside the 64-bit address space. */
  lemma AddressesFit(floor: nat, rs: seq<Recipe>, states: seq<State>, seed: State,
                     sources: seq<nat>, dests: seq<nat>, middle: nat, end: nat)
    requires MadeFrom(rs, states, seed) && AllWritable(rs) && |rs| == |sources| == |dests| <= THREADS
    requires LaidOut(Source, Lists(floor, Threads(rs)), sources, DRAM_START, middle)
    requires LaidOut(Destination, Lists(floor, Threads(rs)), dests, middle, end)
    ensures middle <= end < 0x1_0000_0000_0000_0000
    ensures forall k :: 0 <= k < |AllRanges(Source, Lists(floor, Threads(rs)), sources)| ==>
              Below(AllRanges(Source, Lists(floor, Threads(rs)), sources)[k])
    ensures forall k :: 0 <= k < |AllRanges(Destination, Lists(floor, Threads(rs)), dests)| ==>
              Below(AllRanges(Destination, Lists(floor, Threads(rs)), dests)[k])
  {
    var lists := Lists(floor, Threads(rs));
    forall i, side | 0 <= i < |lists|
      ensures End(ThreadRanges(side, lists[i], 0), 0) <= GAP && (lists[i] != [] ==> Width(lists[i][0].size) <= 32)
    {
      GeneratedFits(floor, rs, states, seed, i, side);
    }
    LayoutFits(Source, lists, sources, DRAM_START, middle);
    LayoutFits(Destination, lists, dests, middle, end);
    assert lists[..|sources|] == lists;
    MultiplyBoth(|rs|, THREADS, GAP + 32);
  }

  predicate Below(r: Range) { r.start + r.width < 0x1_0000_0000_0000_0000 }
}
