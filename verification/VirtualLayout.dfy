/**
 Tests on virtual addresses: every thread reads from one run of randomly placed double pages and writes to another,
 and TLB entries map them to two runs of randomly placed physical pages.
 */
module VirtualLayout {
  import opened DmaMachine
  import opened Ranges
  import opened Interleaving
  import opened PhysicalLayout
  import opened PageChoice

  const PAGE: nat := 0x1000
  const WINDOW: nat := 0x9000_0000_0000_0000     // unmapped, uncached view of physical memory

  /** phys_pn_to_addr */
  function PhysAddress(pn: nat): nat { WINDOW + pn * PAGE }

  /** virt_pn_to_addr */
  function VirtAddress(pn: nat): nat { pn * PAGE }

  // -------------------------------------------------------------------- TLB

  /** add_tlb_mapping: an entry maps a pair of virtual pages to two physical pages. */
  datatype Entry = Entry(virtualPn: nat, physicalPn0: nat, physicalPn1: nat) {
    /** The virtual address is in the pair of pages of this entry. */
    predicate Matches(va: nat) { virtualPn * PAGE <= va < virtualPn * PAGE + DOUBLE_PAGE }

    function Translate(va: nat): nat
      requires Matches(va)
    {
      var offset := va - virtualPn * PAGE;
      if offset < PAGE then physicalPn0 * PAGE + offset else physicalPn1 * PAGE + (offset - PAGE)
    }
  }

  ghost predicate MapsPages(tlb: seq<Entry>, usedPhys: seq<nat>, usedVirt: seq<nat>) {
    && |tlb| == |usedPhys| == |usedVirt|
    && forall i :: 0 <= i < |tlb| ==> tlb[i] == Entry(2 * usedVirt[i], 2 * usedPhys[i], 2 * usedPhys[i] + 1)
  }

  /** The mappings printed for the pages in use. */
  method PrintMappings(usedPhys: seq<nat>, usedVirt: seq<nat>) returns (tlb: seq<Entry>)
    requires |usedPhys| == |usedVirt|
    ensures MapsPages(tlb, usedPhys, usedVirt)
  {
    tlb := [];
    for i := 0 to |usedPhys|
      invariant |tlb| == i
      invariant forall h :: 0 <= h < i ==> tlb[h] == Entry(2 * usedVirt[h], 2 * usedPhys[h], 2 * usedPhys[h] + 1)
    {
      tlb := tlb + [Entry(2 * usedVirt[i], 2 * usedPhys[i], 2 * usedPhys[i] + 1)];
    }
  }

  /** The virtual address is mapped, and whichever entry matches it gives this physical address. */
  ghost predicate Translates(tlb: seq<Entry>, va: nat, pa: nat) {
    && (exists e :: 0 <= e < |tlb| && tlb[e].Matches(va))
    && (forall e :: 0 <= e < |tlb| && tlb[e].Matches(va) ==> WINDOW + tlb[e].Translate(va) == pa)
  }

  /** Every address in a page in use is translated to the same offset of the physical page. */
  lemma PageTranslates(tlb: seq<Entry>, usedPhys: seq<nat>, usedVirt: seq<nat>, e: nat, offset: nat)
    requires MapsPages(tlb, usedPhys, usedVirt) && NoDuplicates(usedVirt) && e < |tlb| && offset < DOUBLE_PAGE
    ensures Translates(tlb, VirtAddress(2 * usedVirt[e]) + offset, PhysAddress(2 * usedPhys[e]) + offset)
  {
    var va := VirtAddress(2 * usedVirt[e]) + offset;
    assert tlb[e].Matches(va);
    forall i | 0 <= i < |tlb| && tlb[i].Matches(va) ensures i == e {
      assert usedVirt[i] == usedVirt[e];
    }
  }

  // ------------------------------------------------------------------ threads

  /** Where the run of thread i on one side starts in the list of pages in use. */
  function RunStart(lists: seq<seq<Transfer>>, i: nat, side: Side): nat
    requires i < |lists|
  {
    PagesNeeded(lists, i) + if side.Source? then 0 else UsagePages(lists[i]) + 1
  }

  lemma {:induction false} RunInUse(pairs: seq<Pair>, lists: seq<seq<Transfer>>, i: nat, side: Side, j: nat)
    requires i < |pairs| <= |lists| && j <= UsagePages(lists[i])
    ensures RunStart(lists, i, side) + j < PagesNeeded(lists, i + 1) <= |InUse(pairs, lists)|
    ensures InUse(pairs, lists)[RunStart(lists, i, side) + j] == pairs[i].Of(side) + j
  {
    var n := |pairs| - 1;
    InUseLength(pairs[..n], lists);
    InUseLength(pairs, lists);
    if i < n {
      RunInUse(pairs[..n], lists, i, side, j);
    }
  }

  /** The room a thread has on each side. */
  function Room(list: seq<Transfer>): nat { (UsagePages(list) + 1) * DOUBLE_PAGE }

  /** The mappings cover the threads' runs, and no virtual page is in use twice. */
  ghost predicate Covers(tlb: seq<Entry>, phys: seq<Pair>, virt: seq<Pair>, lists: seq<seq<Transfer>>) {
    && |phys| == |virt| == |lists|
    && MapsPages(tlb, InUse(phys, lists), InUse(virt, lists)) && NoDuplicates(InUse(virt, lists))
  }

  /** Every address a thread accesses, on either side, is translated to the address at which the test
      program sets up its sources and checks its destinations. */
  lemma ThreadTranslates(tlb: seq<Entry>, phys: seq<Pair>, virt: seq<Pair>, lists: seq<seq<Transfer>>,
                         i: nat, side: Side, offset: nat)
    requires Covers(tlb, phys, virt, lists) && i < |lists| && offset < Room(lists[i])
    ensures Translates(tlb, VirtAddress(2 * virt[i].Of(side)) + offset, PhysAddress(2 * phys[i].Of(side)) + offset)
  {
    var j, rest := offset / DOUBLE_PAGE, offset % DOUBLE_PAGE;
    RunInUse(phys, lists, i, side, j);
    RunInUse(virt, lists, i, side, j);
    PageTranslates(tlb, InUse(phys, lists), InUse(virt, lists), RunStart(lists, i, side) + j, rest);
  }

  /** The physical addresses of the threads' runs. */
  function Bases(side: Side, phys: seq<Pair>): (r: seq<nat>)
    ensures |r| == |phys|
  {
    seq(|phys|, i requires 0 <= i < |phys| => PhysAddress(2 * phys[i].Of(side)))
  }

  /** The virtual addresses of the threads' runs. */
  function VirtBases(side: Side, virt: seq<Pair>): (r: seq<nat>)
    ensures |r| == |virt|
  {
    seq(|virt|, i requires 0 <= i < |virt| => VirtAddress(2 * virt[i].Of(side)))
  }

  // ------------------------------------------------------------- separation

  /** A thread stays within its run. */
  lemma ThreadStaysInRun(side: Side, list: seq<Transfer>, base: nat)
    requires Rises(side, list)
    ensures InOrder(ThreadRanges(side, list, base), base, base + Room(list))
  {
    var relative, here := ThreadRanges(side, list, 0), ThreadRanges(side, list, base);
    assert forall k :: 0 <= k < |list| ==> here[k].start == relative[k].start + base && here[k].width == relative[k].width;
  }

  /** Where the transfers on one side end, relative to the start of the run. */
  function Extent(side: Side, list: seq<Transfer>): nat { End(ThreadRanges(side, list, 0), 0) }

  /** The number of double pages beyond the first is determined by where the transfers end: on both sides they end before the
      room is used up, and on some side not before the last double page. */
  lemma PagesTaken(list: seq<Transfer>, more: nat)
    ensures UsagePages(list) == more <==>
              && (forall side :: Extent(side, list) < (more + 1) * DOUBLE_PAGE)
              && (exists side :: more * DOUBLE_PAGE <= Extent(side, list))
  {
    if list == [] {
      assert Extent(Source, list) == Extent(Destination, list) == 0;
    } else {
      var last := list[|list| - 1];
      assert Extent(Source, list) == last.source + Width(last.size);
      assert Extent(Destination, list) == last.destination + Width(last.size);
    }
  }

  /** No thread takes a second page exactly when the transfers of all threads end within their first double page. */
  lemma OnePageEach(lists: seq<seq<Transfer>>)
    ensures SinglePages(lists) <==> forall i, side :: 0 <= i < |lists| ==> Extent(side, lists[i]) < DOUBLE_PAGE
  {
    forall i | 0 <= i < |lists|
      ensures UsagePages(lists[i]) == 0 <==> forall side :: Extent(side, lists[i]) < DOUBLE_PAGE
    {
      PagesTaken(lists[i], 0);
      assert 0 * DOUBLE_PAGE <= Extent(Source, lists[i]);
    }
  }

  /** The range lies in the run of thread i. */
  ghost predicate InRun(r: Range, bases: seq<nat>, lists: seq<seq<Transfer>>, i: nat)
    requires i < |bases| && i < |lists|
  {
    bases[i] <= r.start && r.start + r.width <= bases[i] + Room(lists[i])
  }

  lemma {:induction false} WhichRun(side: Side, lists: seq<seq<Transfer>>, bases: seq<nat>, p: nat) returns (i: nat)
    requires |bases| == |lists| && p < |AllRanges(side, lists, bases)|
    requires forall h :: 0 <= h < |lists| ==> Rises(side, lists[h])
    ensures i < |lists| && InRun(AllRanges(side, lists, bases)[p], bases, lists, i)
  {
    var n := |lists| - 1;
    var before := AllRanges(side, lists[..n], bases[..n]);
    if p < |before| {
      i := WhichRun(side, lists[..n], bases[..n], p);
    } else {
      i := n;
      ThreadStaysInRun(side, lists[n], bases[n]);
    }
  }

  /** Regions of rooms' sizes do not meet. */
  ghost predicate RoomsApart(x: nat, y: nat, a: seq<Transfer>, b: seq<Transfer>) {
    x + Room(a) <= y || y + Room(b) <= x
  }

  ghost predicate BasesApart(lists: seq<seq<Transfer>>, bases: seq<nat>)
    requires |bases| == |lists|
  {
    forall i, j :: 0 <= i < j < |bases| ==> RoomsApart(bases[i], bases[j], lists[i], lists[j])
  }

  lemma {:induction false} RangesApart(side: Side, lists: seq<seq<Transfer>>, bases: seq<nat>)
    requires |bases| == |lists| && BasesApart(lists, bases)
    requires forall h :: 0 <= h < |lists| ==> Rises(side, lists[h])
    ensures PairwiseApart(AllRanges(side, lists, bases))
  {
    if lists != [] {
      var n := |lists| - 1;
      var before, here := AllRanges(side, lists[..n], bases[..n]), ThreadRanges(side, lists[n], bases[n]);
      RangesApart(side, lists[..n], bases[..n]);
      ThreadStaysInRun(side, lists[n], bases[n]);
      forall j, k | 0 <= j < |before| && 0 <= k < |here| ensures before[j].Apart(here[k]) {
        var i := WhichRun(side, lists[..n], bases[..n], j);
        assert RoomsApart(bases[i], bases[n], lists[i], lists[n]);
      }
    }
  }

  lemma {:induction false} NeededGrows(lists: seq<seq<Transfer>>, m: nat, n: nat)
    requires m <= n <= |lists|
    ensures PagesNeeded(lists, m) <= PagesNeeded(lists, n)
    decreases n
  {
    if m < n {
      NeededGrows(lists, m, n - 1);
    }
  }

  /** Runs of different threads, or on different sides, start at different places in the list of pages in use. */
  lemma RunsApart(lists: seq<seq<Transfer>>, i: nat, j: nat, a: Side, b: Side, m: nat, n: nat)
    requires i < |lists| && j < |lists| && (i != j || a != b)
    requires m <= UsagePages(lists[i]) && n <= UsagePages(lists[j])
    ensures RunStart(lists, i, a) + m != RunStart(lists, j, b) + n
  {
    if i < j {
      NeededGrows(lists, i + 1, j);
    } else if j < i {
      NeededGrows(lists, j + 1, i);
    }
  }

  /** So they have no page in common. */
  lemma PagesDiffer(pairs: seq<Pair>, lists: seq<seq<Transfer>>, i: nat, j: nat, a: Side, b: Side, m: nat, n: nat)
    requires |pairs| == |lists| && NoDuplicates(InUse(pairs, lists))
    requires i < |pairs| && j < |pairs| && (i != j || a != b)
    requires m <= UsagePages(lists[i]) && n <= UsagePages(lists[j])
    ensures pairs[i].Of(a) + m != pairs[j].Of(b) + n
  {
    RunInUse(pairs, lists, i, a, m);
    RunInUse(pairs, lists, j, b, n);
    RunsApart(lists, i, j, a, b, m, n);
  }

  lemma PagesApart(phys: seq<Pair>, lists: seq<seq<Transfer>>, i: nat, j: nat, a: Side, b: Side)
    requires |phys| == |lists| && NoDuplicates(InUse(phys, lists))
    requires i < |phys| && j < |phys| && (i != j || a != b)
    ensures RoomsApart(Bases(a, phys)[i], Bases(b, phys)[j], lists[i], lists[j])
  {
    var p, q := phys[i].Of(a), phys[j].Of(b);
    var m: nat := if p <= q <= p + UsagePages(lists[i]) then q - p else 0;
    var n: nat := if q <= p <= q + UsagePages(lists[j]) then p - q else 0;
    PagesDiffer(phys, lists, i, j, a, b, m, n);
  }

  /** When no physical page is in use twice, all threads' ranges are separate in physical memory. */
  lemma VirtualIsSeparate(phys: seq<Pair>, lists: seq<seq<Transfer>>)
    requires |phys| == |lists| && NoDuplicates(InUse(phys, lists))
    requires forall h, side :: 0 <= h < |lists| ==> Rises(side, lists[h])
    ensures Separate(AllRanges(Source, lists, Bases(Source, phys)), AllRanges(Destination, lists, Bases(Destination, phys)))
  {
    var s, d := Bases(Source, phys), Bases(Destination, phys);
    forall side ensures BasesApart(lists, Bases(side, phys)) {
      forall i, j | 0 <= i < j < |phys| ensures RoomsApart(Bases(side, phys)[i], Bases(side, phys)[j], lists[i], lists[j]) {
        PagesApart(phys, lists, i, j, side, side);
      }
    }
    RangesApart(Source, lists, s);
    RangesApart(Destination, lists, d);
    var rs, qs := AllRanges(Source, lists, s), AllRanges(Destination, lists, d);
    forall p, q | 0 <= p < |rs| && 0 <= q < |qs| ensures rs[p].Apart(qs[q]) {
      var i := WhichRun(Source, lists, s, p);
      var j := WhichRun(Destination, lists, d, q);
      PagesApart(phys, lists, i, j, Source, Destination);
    }
    RangesOfAll(lists, s, d);
  }

  // ------------------------------------------------------- the printed test

  /** The writes or the asserts of all threads. */
  method NumberAll(side: Side, lists: seq<seq<Transfer>>, bases: seq<nat>) returns (cells: seq<Cell>)
    requires |bases| == |lists|
    ensures cells == Numbered(Cells(AllRanges(side, lists, bases)))
  {
    cells := [];
    var accessNumber: UInt8, position := 0, 0;
    assert lists[..0] == [] && bases[..0] == [];
    for i := 0 to |lists|
      invariant cells == Numbered(Cells(AllRanges(side, lists[..i], bases[..i]))) && accessNumber == |cells| % 256
    {
      RangesNext(side, lists, bases[..i], bases[i]);
      assert bases[..i + 1] == bases[..i] + [bases[i]];
      cells, position, accessNumber :=
        VisitThread(side, lists[i], bases[i], cells, position, accessNumber, AllRanges(side, lists[..i], bases[..i]));
    }
    assert lists[..|lists|] == lists && bases[..|bases|] == bases;
  }

  /** print_virtualised_test_information.  It succeeds whenever the random engine yields as many different pages as the
      threads need. */
  method PrintVirtualisedTestInformation(lists: seq<seq<Transfer>>, physDraws: seq<nat>, virtDraws: seq<nat>)
    returns (ok: bool, phys: seq<Pair>, virt: seq<Pair>, tlb: seq<Entry>, writes: seq<Cell>, asserts: seq<Cell>)
    requires forall i, side :: 0 <= i < |lists| ==> Rises(side, lists[i])
    ensures |Different(physDraws)| >= PagesNeeded(lists, |lists|) && |Different(virtDraws)| >= PagesNeeded(lists, |lists|) ==> ok
    ensures ok <==> Choice(lists, |lists|, physDraws).Some? && Choice(lists, |lists|, virtDraws).Some?
    ensures ok ==> phys == Choice(lists, |lists|, physDraws).value.pairs && virt == Choice(lists, |lists|, virtDraws).value.pairs
    ensures ok ==> MapsPages(tlb, InUse(phys, lists), InUse(virt, lists)) && |tlb| == PagesNeeded(lists, |lists|)
    ensures ok ==> var all := Concat(Absolute(lists, Bases(Source, phys), Bases(Destination, phys)));
                   && writes == Numbered(Cells(SourceRanges(all))) && asserts == Numbered(Cells(DestRanges(all)))
                   && (NoDuplicates(InUse(phys, lists)) ==> Separate(SourceRanges(all), DestRanges(all)))
  {
    var usedPhys, usedVirt;
    tlb, writes, asserts := [], [], [];
    ok, phys, virt, usedPhys, usedVirt := ChoosePages(lists, physDraws, virtDraws);
    if ok {
      InUseLength(phys, lists);
      InUseLength(virt, lists);
      tlb := PrintMappings(usedPhys, usedVirt);
      writes := NumberAll(Source, lists, Bases(Source, phys));
      asserts := NumberAll(Destination, lists, Bases(Destination, phys));
      RangesOfAll(lists, Bases(Source, phys), Bases(Destination, phys));
      if NoDuplicates(InUse(phys, lists)) {
        VirtualIsSeparate(phys, lists);
      }
    } else if Choice(lists, |lists|, physDraws).None? {
      TooFewPages(lists, |lists|, physDraws);
    } else {
      TooFewPages(lists, |lists|, virtDraws);
    }
  }
}
