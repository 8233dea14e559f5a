/**
 Where the threads of a multi-threaded test read and write: one region after another in DRAM,
 first the sources of all threads and then their destinations.
 */
module PhysicalLayout {
  import opened DmaMachine
  import opened TransferLists
  import opened Ranges
  import opened Interleaving

  const DRAM_START: nat := 0x9000_0000_1000_0000

  datatype Side = Source | Destination {
    /** current->source or current->destination */
    function Of(t: Transfer): nat {
      match this case Source => t.source case Destination => t.destination
    }
  }

  // -------------------------------------------------------------- alignment

  function NextAligned(address: nat, width: nat): nat
    requires width > 0
  {
    (address + width - 1) / width * width
  }

  lemma DivideUp(x: nat, w: nat)
    requires w > 0
    ensures x == w * (x / w) + x % w && 0 <= x % w < w && x / w * w == w * (x / w)
  {
  }

  /** next_aligned gives the least multiple of the width at or above the address. */
  lemma NextAlignedIsLeast(address: nat, width: nat, other: nat)
    requires width > 0
    ensures MultipleOf(width, NextAligned(address, width))
    ensures address <= NextAligned(address, width) < address + width
    ensures MultipleOf(width, other) && address <= other ==> NextAligned(address, width) <= other
  {
    var x := address + width - 1;
    DivideUp(x, width);
    var r := NextAligned(address, width);
    assert r == width * (x / width);
    if MultipleOf(width, other) && address <= other && other < r {
      var q: nat :| other == width * q;
      NoMultipleBetween(width, q, x / width);
    }
  }

  lemma NoMultipleBetween(w: nat, p: nat, q: nat)
    requires w * p < w * q
    ensures w * p + w <= w * q
  {
    if q <= p {
      MultiplyBoth(q, p, w);
    } else {
      MultiplyBoth(p + 1, q, w);
      assert w * (p + 1) == w * p + w;
    }
  }

  // ----------------------------------------------------------------- ranges

  /** The ranges on one side of a thread's transfers when its region starts at base. */
  function ThreadRanges(side: Side, list: seq<Transfer>, base: nat): (r: seq<Range>)
    ensures |r| == |list|
  {
    seq(|list|, k requires 0 <= k < |list| => Range(base + side.Of(list[k]), Width(list[k].size)))
  }

  function AllRanges(side: Side, lists: seq<seq<Transfer>>, bases: seq<nat>): seq<Range>
    requires |bases| == |lists|
  {
    if lists == [] then []
    else
      var last := |lists| - 1;
      AllRanges(side, lists[..last], bases[..last]) + ThreadRanges(side, lists[last], bases[last])
  }

  /** The first address after the ranges. */
  function End(rs: seq<Range>, start: nat): nat {
    if rs == [] then start else rs[|rs| - 1].start + rs[|rs| - 1].width
  }

  /** Within a thread's region the ranges follow one another. */
  ghost predicate Rises(side: Side, list: seq<Transfer>) {
    InOrder(ThreadRanges(side, list, 0), 0, End(ThreadRanges(side, list, 0), 0))
  }

  lemma ProgramRises(floor: nat, c: Code, size: nat, side: Side)
    ensures Rises(side, Eval(floor, c, size, 0, 0).made)
  {
    NeverOverwrites(floor, c, size, 0, 0);
    var e := Eval(floor, c, size, 0, 0);
    if side.Source? {
      AscendingRises(side, e.made, size, Sources(e.made), e.source);
    } else {
      AscendingRises(side, e.made, size, Destinations(e.made), e.destination);
    }
  }

  lemma AscendingRises(side: Side, list: seq<Transfer>, size: nat, starts: seq<nat>, end: nat)
    requires |starts| == |list| && forall k :: 0 <= k < |list| ==> starts[k] == side.Of(list[k]) && list[k].size == size
    requires Ascending(starts, Width(size), 0, end)
    ensures Rises(side, list)
  {
    var rs := ThreadRanges(side, list, 0);
    assert forall k :: 0 <= k < |rs| ==> rs[k] == Range(starts[k], Width(size));
  }

  lemma AppendThread(side: Side, rs: seq<Range>, list: seq<Transfer>, base: nat, lo: nat)
    requires Rises(side, list) && InOrder(rs, lo, End(rs, lo)) && (list != [] ==> End(rs, lo) <= base)
    ensures InOrder(rs + ThreadRanges(side, list, base), lo, End(rs + ThreadRanges(side, list, base), lo))
  {
    var here := ThreadRanges(side, list, base);
    if list == [] {
      assert rs + here == rs;
    } else {
      RegionInOrder(side, list, base);
      EndNext(side, rs, list, base, lo);
      InOrderAppend(rs, here, lo, End(rs, lo), base, End(here, base));
    }
  }

  lemma RegionInOrder(side: Side, list: seq<Transfer>, base: nat)
    requires Rises(side, list)
    ensures InOrder(ThreadRanges(side, list, base), base, End(ThreadRanges(side, list, base), base))
  {
    var relative, here := ThreadRanges(side, list, 0), ThreadRanges(side, list, base);
    assert forall k :: 0 <= k < |list| ==> here[k].start == relative[k].start + base && here[k].width == relative[k].width;
  }

  lemma InOrderAppend(rs: seq<Range>, qs: seq<Range>, lo: nat, mid: nat, base: nat, hi: nat)
    requires InOrder(rs, lo, mid) && InOrder(qs, base, hi) && mid <= base
    ensures InOrder(rs + qs, lo, hi)
  {
  }

  // ----------------------------------------------------------------- layout

  lemma NumberedAppend(cells: seq<nat>, a: nat)
    ensures Numbered(cells + [a]) == Numbered(cells) + [Cell(a, |cells| % 256)]
  {
  }

  lemma NextNumber(n: nat)
    ensures (n % 256 + 1) % 256 == (n + 1) % 256
  {
  }

  lemma OneMoreByte(addresses: seq<nat>, start: nat, j: nat)
    ensures Numbered(addresses + Bytes(start, j + 1))
         == Numbered(addresses + Bytes(start, j)) + [Cell(start + j, |addresses + Bytes(start, j)| % 256)]
  {
    assert addresses + Bytes(start, j + 1) == addresses + Bytes(start, j) + [start + j];
    NumberedAppend(addresses + Bytes(start, j), start + j);
  }

  /** The bytes of one transfer. */
  method VisitTransfer(start: nat, width: nat, cells0: seq<Cell>, accessNumber0: UInt8, ghost addresses: seq<nat>)
    returns (cells: seq<Cell>, position: nat, accessNumber: UInt8)
    requires cells0 == Numbered(addresses) && accessNumber0 == |addresses| % 256
    ensures position == start + width
    ensures cells == Numbered(addresses + Bytes(start, width))
    ensures accessNumber == |cells| % 256
  {
    cells, position, accessNumber := cells0, start, accessNumber0;
    assert addresses + Bytes(start, 0) == addresses;
    for j := 0 to width
      invariant position == start + j
      invariant cells == Numbered(addresses + Bytes(start, j))
      invariant accessNumber == |cells| % 256
    {
      NextNumber(|cells|);
      OneMoreByte(addresses, start, j);
      cells := cells + [Cell(position, accessNumber)];
      position := position + 1;
      accessNumber := (accessNumber + 1) % 256;
    }
  }

  lemma CellsAppend(rs: seq<Range>, r: Range)
    ensures Cells(rs + [r]) == Cells(rs) + Bytes(r.start, r.width)
  {
    assert (rs + [r])[..|rs|] == rs;
  }

  lemma OneMoreRange(rs: seq<Range>, here: seq<Range>, k: nat, r: Range, position0: nat)
    requires k < |here| && here[k] == r
    ensures Cells(rs + here[..k + 1]) == Cells(rs + here[..k]) + Bytes(r.start, r.width)
    ensures End(here[..k + 1], position0) == r.start + r.width
  {
    CellsAppend(rs + here[..k], r);
    assert rs + here[..k + 1] == rs + here[..k] + [r];
    assert here[..k + 1][k] == here[k];
  }

  /** The transfers of one thread. */
  method VisitThread(side: Side, list: seq<Transfer>, base: nat, cells0: seq<Cell>, position0: nat, accessNumber0: UInt8,
                     ghost rs: seq<Range>)
    returns (cells: seq<Cell>, position: nat, accessNumber: UInt8)
    requires cells0 == Numbered(Cells(rs)) && accessNumber0 == |cells0| % 256
    ensures cells == Numbered(Cells(rs + ThreadRanges(side, list, base))) && accessNumber == |cells| % 256
    ensures position == End(ThreadRanges(side, list, base), position0)
  {
    cells, position, accessNumber := cells0, position0, accessNumber0;
    ghost var here := ThreadRanges(side, list, base);
    assert rs + here[..0] == rs;
    for k := 0 to |list|
      invariant cells == Numbered(Cells(rs + here[..k])) && accessNumber == |cells| % 256
      invariant position == End(here[..k], position0)
    {
      OneMoreRange(rs, here, k, Range(base + side.Of(list[k]), Width(list[k].size)), position0);
      cells, position, accessNumber :=
        VisitTransfer(base + side.Of(list[k]), Width(list[k].size), cells, accessNumber, Cells(rs + here[..k]));
    }
    assert here[..|list|] == here;
  }

  /** Thread i's region starts at the first aligned address after the regions before it. */
  ghost predicate PlacedAfter(side: Side, lists: seq<seq<Transfer>>, bases: seq<nat>, start: nat, i: nat)
    requires i < |bases| <= |lists|
  {
    lists[i] != [] ==>
      bases[i] == NextAligned(End(AllRanges(side, lists[..i], bases[..i]), start), Width(lists[i][0].size))
  }

  /** The threads from the first to the last one with a base have their regions. */
  ghost predicate LaidOut(side: Side, lists: seq<seq<Transfer>>, bases: seq<nat>, start: nat, position: nat)
    requires |bases| <= |lists|
  {
    var rs := AllRanges(side, lists[..|bases|], bases);
    && position == End(rs, start) && InOrder(rs, start, position)
    && forall i :: 0 <= i < |bases| ==> PlacedAfter(side, lists, bases, start, i)
  }

  lemma RangesNext(side: Side, lists: seq<seq<Transfer>>, bases: seq<nat>, base: nat)
    requires |bases| < |lists|
    ensures AllRanges(side, lists[..|bases| + 1], bases + [base])
         == AllRanges(side, lists[..|bases|], bases) + ThreadRanges(side, lists[|bases|], base)
  {
    var n := |bases|;
    assert lists[..n + 1][..n] == lists[..n] && (bases + [base])[..n] == bases;
  }

  lemma PlacedNext(side: Side, lists: seq<seq<Transfer>>, bases: seq<nat>, start: nat, base: nat, i: nat)
    requires |bases| < |lists| && i <= |bases|
    requires i < |bases| ==> PlacedAfter(side, lists, bases, start, i)
    requires i == |bases| && lists[i] != [] ==>
               base == NextAligned(End(AllRanges(side, lists[..i], bases), start), Width(lists[i][0].size))
    ensures PlacedAfter(side, lists, bases + [base], start, i)
  {
    assert (bases + [base])[..i] == bases[..i];
    if i == |bases| {
      assert bases[..i] == bases;
    }
  }

  lemma EndNext(side: Side, rs: seq<Range>, list: seq<Transfer>, base: nat, start: nat)
    ensures End(rs + ThreadRanges(side, list, base), start) == End(ThreadRanges(side, list, base), End(rs, start))
  {
    var here := ThreadRanges(side, list, base);
    if list != [] {
      assert (rs + here)[|rs + here| - 1] == here[|here| - 1];
    } else {
      assert rs + here == rs;
    }
  }

  lemma LaidOutNext(side: Side, lists: seq<seq<Transfer>>, bases: seq<nat>, start: nat, position: nat, base: nat)
    requires |bases| < |lists| && LaidOut(side, lists, bases, start, position) && Rises(side, lists[|bases|])
    requires lists[|bases|] != [] ==> base == NextAligned(position, Width(lists[|bases|][0].size))
    ensures LaidOut(side, lists, bases + [base], start, End(ThreadRanges(side, lists[|bases|], base), position))
  {
    var n, list := |bases|, lists[|bases|];
    var rs := AllRanges(side, lists[..n], bases);
    if list != [] {
      NextAlignedIsLeast(position, Width(list[0].size), 0);
    }
    AppendThread(side, rs, list, base, start);
    EndNext(side, rs, list, base, start);
    RangesNext(side, lists, bases, base);
    forall i | 0 <= i < n + 1 ensures PlacedAfter(side, lists, bases + [base], start, i) {
      PlacedNext(side, lists, bases, start, base, i);
    }
  }

  /** Place one thread's region, if it makes transfers, and number their bytes. */
  method LayOutThread(side: Side, list: seq<Transfer>, base0: nat, cells0: seq<Cell>, position0: nat, accessNumber0: UInt8,
                      ghost lists: seq<seq<Transfer>>, ghost placed: seq<nat>, ghost start: nat)
    returns (base: nat, cells: seq<Cell>, position: nat, accessNumber: UInt8)
    requires |placed| < |lists| && list == lists[|placed|] && Rises(side, list)
    requires LaidOut(side, lists, placed, start, position0)
    requires cells0 == Numbered(Cells(AllRanges(side, lists[..|placed|], placed))) && accessNumber0 == |cells0| % 256
    ensures LaidOut(side, lists, placed + [base], start, position)
    ensures cells == Numbered(Cells(AllRanges(side, lists[..|placed| + 1], placed + [base]))) && accessNumber == |cells| % 256
  {
    base, position := base0, position0;
    if list != [] {
      position := NextAligned(position, Width(list[0].size));
      base := position;
    }
    LaidOutNext(side, lists, placed, start, position0, base);
    RangesNext(side, lists, placed, base);
    cells, position, accessNumber :=
      VisitThread(side, list, base, cells0, position, accessNumber0, AllRanges(side, lists[..|placed|], placed));
  }

  lemma NothingLaidOut(side: Side, lists: seq<seq<Transfer>>, start: nat)
    ensures LaidOut(side, lists, [], start, start) && Cells(AllRanges(side, lists[..0], [])) == []
  {
    assert lists[..0] == [] && AllRanges(side, [], []) == [];
  }

  /** One side of print_test_information: place a region for every thread that makes transfers, and
      number the bytes of its transfers.  A thread without transfers is left with whatever its base was. */
  method LayOut(side: Side, lists: seq<seq<Transfer>>, start: nat)
    returns (bases: array<nat>, cells: seq<Cell>, position: nat)
    requires forall i :: 0 <= i < |lists| ==> Rises(side, lists[i])
    ensures fresh(bases) && bases.Length == |lists|
    ensures LaidOut(side, lists, bases[..], start, position)
    ensures cells == Numbered(Cells(AllRanges(side, lists, bases[..])))
  {
    bases := new nat[|lists|];
    cells, position := [], start;
    var accessNumber: UInt8 := 0;
    ghost var placed: seq<nat> := [];
    NothingLaidOut(side, lists, start);
    for i := 0 to |lists|
      invariant placed == bases[..i]
      invariant LaidOut(side, lists, placed, start, position)
      invariant cells == Numbered(Cells(AllRanges(side, lists[..i], placed))) && accessNumber == |cells| % 256
    {
      var base;
      base, cells, position, accessNumber :=
        LayOutThread(side, lists[i], bases[i], cells, position, accessNumber, lists, placed, start);
      bases[i] := base;
      placed := placed + [base];
    }
    assert lists[..|lists|] == lists && placed == bases[..];
  }

  /** The transfers of a thread that starts at these addresses. */
  function Absolute(lists: seq<seq<Transfer>>, sources: seq<nat>, dests: seq<nat>): (r: seq<seq<Transfer>>)
    requires |sources| == |dests| == |lists|
    ensures |r| == |lists|
  {
    seq(|lists|, i requires 0 <= i < |lists| => Shifted(lists[i], sources[i], dests[i]))
  }

  lemma {:induction false} RangesOfAll(lists: seq<seq<Transfer>>, sources: seq<nat>, dests: seq<nat>)
    requires |sources| == |dests| == |lists|
    ensures SourceRanges(Concat(Absolute(lists, sources, dests))) == AllRanges(Source, lists, sources)
    ensures DestRanges(Concat(Absolute(lists, sources, dests))) == AllRanges(Destination, lists, dests)
  {
    if lists != [] {
      var n := |lists| - 1;
      RangesOfAll(lists[..n], sources[..n], dests[..n]);
      var all := Absolute(lists, sources, dests);
      assert all[..n] == Absolute(lists[..n], sources[..n], dests[..n]);
      var before, last := Concat(all[..n]), Shifted(lists[n], sources[n], dests[n]);
      assert SourceRanges(before + last) == SourceRanges(before) + SourceRanges(last);
      assert DestRanges(before + last) == DestRanges(before) + DestRanges(last);
      assert SourceRanges(last) == ThreadRanges(Source, lists[n], sources[n]);
      assert DestRanges(last) == ThreadRanges(Destination, lists[n], dests[n]);
    }
  }

  // -------------------------------------------------------------- alignment

  /** Both ends of the transfer are aligned to its width. */
  ghost predicate InPlace(t: Transfer) {
    MultipleOf(Width(t.size), t.source) && MultipleOf(Width(t.size), t.destination)
  }

  ghost predicate AllInPlace(ts: seq<Transfer>) {
    forall k :: 0 <= k < |ts| ==> InPlace(ts[k])
  }

  /** The transfers are of one size and, relative to their start, aligned to it. */
  ghost predicate AlignedList(list: seq<Transfer>) {
    AllInPlace(list) && forall k :: 0 <= k < |list| ==> list[k].size == list[0].size
  }

  lemma ProgramAligned(floor: nat, c: Code, size: nat)
    requires Generated(c, size)
    ensures AlignedList(Eval(floor, c, size, 0, 0).made)
  {
    assert 0 == Width(size) * 0;
    StaysAligned(floor, c, size, 0, 0);
    NeverOverwrites(floor, c, size, 0, 0);
    var list := Eval(floor, c, size, 0, 0).made;
    forall k | 0 <= k < |list| ensures InPlace(list[k]) && list[k].size == size {
    }
  }

  /** Started at aligned addresses, the transfers stay aligned. */
  lemma ShiftedInPlace(list: seq<Transfer>, source: nat, destination: nat)
    requires AlignedList(list)
    requires list != [] ==> MultipleOf(Width(list[0].size), source) && MultipleOf(Width(list[0].size), destination)
    ensures AllInPlace(Shifted(list, source, destination))
  {
    forall k | 0 <= k < |list| ensures InPlace(Shifted(list, source, destination)[k]) {
      assert InPlace(list[k]);
      SumOfMultiples(Width(list[k].size), list[k].source, source);
      SumOfMultiples(Width(list[k].size), list[k].destination, destination);
    }
  }

  /** Multiples of 32 are aligned for every size of transfer. */
  lemma BaseAligned(q: nat, size: nat)
    requires size < 6
    ensures MultipleOf(Width(size), 32 * q)
  {
    assert Width(0) == 1 && Width(1) == 2 && Width(2) == 4 && Width(3) == 8 && Width(4) == 16 && Width(5) == 32;
    var k: nat := if size == 0 then 32 else if size == 1 then 16 else if size == 2 then 8 else if size == 3 then 4
                  else if size == 4 then 2 else 1;
    assert Width(size) * (k * q) == (Width(size) * k) * q == 32 * q;
  }

  lemma {:induction false} ConcatInPlace(lists: seq<seq<Transfer>>)
    requires forall i :: 0 <= i < |lists| ==> AllInPlace(lists[i])
    ensures AllInPlace(Concat(lists))
  {
    if lists != [] {
      ConcatInPlace(lists[..|lists| - 1]);
    }
  }

  /** Every transfer address of a layout is aligned to the width of its transfer. */
  lemma LayoutInPlace(lists: seq<seq<Transfer>>, sources: seq<nat>, dests: seq<nat>, start: nat, middle: nat)
    requires |sources| == |dests| == |lists| && forall i :: 0 <= i < |lists| ==> AlignedList(lists[i])
    requires forall i :: 0 <= i < |lists| ==> PlacedAfter(Source, lists, sources, start, i)
    requires forall i :: 0 <= i < |lists| ==> PlacedAfter(Destination, lists, dests, middle, i)
    ensures AllInPlace(Concat(Absolute(lists, sources, dests)))
  {
    forall i | 0 <= i < |lists| ensures AllInPlace(Absolute(lists, sources, dests)[i]) {
      assert PlacedAfter(Source, lists, sources, start, i) && PlacedAfter(Destination, lists, dests, middle, i);
      if lists[i] != [] {
        var w := Width(lists[i][0].size);
        NextAlignedIsLeast(End(AllRanges(Source, lists[..i], sources[..i]), start), w, 0);
        NextAlignedIsLeast(End(AllRanges(Destination, lists[..i], dests[..i]), middle), w, 0);
      }
      ShiftedInPlace(lists[i], sources[i], dests[i]);
    }
    ConcatInPlace(Absolute(lists, sources, dests));
  }

  // ------------------------------------------------------- the printed test

  /** print_test_information for real addresses: the two address arrays, the writes that
      set up the sources, and the asserts on the destinations. */
  method PrintTestInformation(lists: seq<seq<Transfer>>)
    returns (sourceAddrs: array<nat>, destAddrs: array<nat>, writes: seq<Cell>, asserts: seq<Cell>)
    requires forall i, side :: 0 <= i < |lists| ==> Rises(side, lists[i])
    ensures sourceAddrs.Length == destAddrs.Length == |lists|
    ensures var all := Concat(Absolute(lists, sourceAddrs[..], destAddrs[..]));
            && Separate(SourceRanges(all), DestRanges(all))
            && writes == Numbered(Cells(SourceRanges(all))) && asserts == Numbered(Cells(DestRanges(all)))
    ensures var middle := End(AllRanges(Source, lists, sourceAddrs[..]), DRAM_START);
            && LaidOut(Source, lists, sourceAddrs[..], DRAM_START, middle)
            && LaidOut(Destination, lists, destAddrs[..], middle, End(AllRanges(Destination, lists, destAddrs[..]), middle))
    ensures (forall i :: 0 <= i < |lists| ==> AlignedList(lists[i])) ==>
              AllInPlace(Concat(Absolute(lists, sourceAddrs[..], destAddrs[..])))
  {
    var position, end;
    sourceAddrs, writes, position := LayOut(Source, lists, DRAM_START);
    destAddrs, asserts, end := LayOut(Destination, lists, position);
    assert lists[..|lists|] == lists;
    RangesOfAll(lists, sourceAddrs[..], destAddrs[..]);
    ghost var all := Concat(Absolute(lists, sourceAddrs[..], destAddrs[..]));
    SeparateWhenInOrder(SourceRanges(all), DestRanges(all), DRAM_START, position, end);
    if forall i :: 0 <= i < |lists| ==> AlignedList(lists[i]) {
      LayoutInPlace(lists, sourceAddrs[..], destAddrs[..], DRAM_START, position);
    }
  }
}
