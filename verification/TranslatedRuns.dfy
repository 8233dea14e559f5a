/**
 Running a test on virtual addresses: the threads' transfers go through the TLB, while
 the test program sets up sources and checks destinations at physical addresses.
 */
module TranslatedRuns {
  import opened DmaMachine
  import opened TransferLists
  import opened Ranges
  import opened Interleaving
  import opened PhysicalLayout
  import opened MultithreadTest
  import opened PageChoice
  import opened VirtualLayout

  // ----------------------------------------------- transfers through the TLB

  predicate Mapped(tlb: seq<Entry>, va: nat) {
    exists e :: 0 <= e < |tlb| && tlb[e].Matches(va)
  }

  /** Where in the window on physical memory a virtual address ends up, by the first entry that matches it. */
  function Through(tlb: seq<Entry>, va: nat): (pa: nat)
    requires Mapped(tlb, va)
  {
    if tlb[0].Matches(va) then WINDOW + tlb[0].Translate(va)
    else
      assert Mapped(tlb[1..], va) by {
        var e :| 0 <= e < |tlb| && tlb[e].Matches(va);
        assert tlb[1..][e - 1].Matches(va);
      }
      Through(tlb[1..], va)
  }

  lemma {:induction false} ThroughIsTranslated(tlb: seq<Entry>, va: nat, pa: nat)
    requires Translates(tlb, va, pa)
    ensures Mapped(tlb, va) && Through(tlb, va) == pa
  {
    var e :| 0 <= e < |tlb| && tlb[e].Matches(va);
    if !tlb[0].Matches(va) {
      assert tlb[1..][e - 1].Matches(va);
      ThroughIsTranslated(tlb[1..], va, pa);
    }
  }

  predicate MappedAt(tlb: seq<Entry>, va: nat, x: nat) {
    Mapped(tlb, va + x)
  }

  /** n bytes from a virtual address on are mapped. */
  predicate MappedRun(tlb: seq<Entry>, va: nat, n: nat) {
    forall x: nat :: x < n ==> MappedAt(tlb, va, x)
  }

  /** Where n bytes from a virtual address on end up. */
  function Addresses(tlb: seq<Entry>, va: nat, n: nat): (r: seq<nat>)
    requires MappedRun(tlb, va, n)
    ensures |r| == n
  {
    if n == 0 then []
    else
      assert MappedAt(tlb, va, n - 1);
      Addresses(tlb, va, n - 1) + [Through(tlb, va + (n - 1))]
  }

  /** Every byte the transfer reads or writes is mapped. */
  predicate Reaches(tlb: seq<Entry>, t: Transfer) {
    MappedRun(tlb, t.source, Width(t.size)) && MappedRun(tlb, t.destination, Width(t.size))
  }

  /** The bytes at these addresses copied to those. */
  function CopyBytes(mem: Memory, to: seq<nat>, from: seq<nat>): Memory
    requires |to| == |from|
  {
    if to == [] then mem
    else
      var n := |to| - 1;
      var before := CopyBytes(mem, to[..n], from[..n]);
      (a: nat) => if a == to[n] then mem(from[n]) else before(a)
  }

  function CopyThrough(tlb: seq<Entry>, mem: Memory, t: Transfer): Memory
    requires Reaches(tlb, t)
  {
    CopyBytes(mem, Addresses(tlb, t.destination, Width(t.size)), Addresses(tlb, t.source, Width(t.size)))
  }

  /** Thread i executes one instruction; a transfer that is not mapped faults. */
  function TurnThrough(floor: nat, programs: seq<seq<Instr>>, tlb: seq<Entry>, sys: System, i: nat): (r: System)
    requires |programs| == |sys.threads| && i < |programs| && sys.threads[i].Valid()
  {
    var o := Step(floor, programs[i], sys.threads[i]);
    if o.made == [] then sys.(threads := sys.threads[i := o.thread])
    else if Reaches(tlb, o.made[0]) then
      System(sys.threads[i := o.thread], CopyThrough(tlb, sys.mem, o.made[0]))
    else sys.(threads := sys.threads[i := sys.threads[i].(status := Faulted)])
  }

  /** The threads take turns as the schedule says. */
  function RunThrough(floor: nat, programs: seq<seq<Instr>>, tlb: seq<Entry>, sys: System, schedule: seq<nat>): (r: System)
    requires |programs| == |sys.threads| && (forall i :: 0 <= i < |programs| ==> sys.threads[i].Valid())
    requires forall n :: 0 <= n < |schedule| ==> schedule[n] < |programs|
    ensures |r.threads| == |programs| && forall i :: 0 <= i < |programs| ==> r.threads[i].Valid()
  {
    if schedule == [] then sys
    else
      var before := RunThrough(floor, programs, tlb, sys, schedule[..|schedule| - 1]);
      TurnThrough(floor, programs, tlb, before, schedule[|schedule| - 1])
  }

  // -------------------------------------- the same run on physical addresses

  /** Two address spaces a thread can be started in: its regions in one of them and in the other. */
  datatype Shift = Shift(virtSource: nat, physSource: nat, virtDest: nat, physDest: nat) {
    /** Threads at the same place in their program and in their regions. */
    predicate Threads(v: Thread, p: Thread) {
      && v.pc == p.pc && v.regs == p.regs && v.status == p.status
      && v.source + physSource == p.source + virtSource && v.destination + physDest == p.destination + virtDest
    }

    predicate Transfers(v: Transfer, p: Transfer) {
      && v.size == p.size
      && v.source + physSource == p.source + virtSource && v.destination + physDest == p.destination + virtDest
    }
  }

  lemma StepsAgree(floor: nat, program: seq<Instr>, shift: Shift, v: Thread, p: Thread)
    requires v.Valid() && p.Valid() && shift.Threads(v, p)
    ensures var o, q := Step(floor, program, v), Step(floor, program, p);
            && shift.Threads(o.thread, q.thread) && |o.made| == |q.made| <= 1
            && (o.made != [] ==> shift.Transfers(o.made[0], q.made[0]))
  {
  }

  /** Byte x after the virtual address is byte x after the physical one. */
  ghost predicate TranslatedAt(tlb: seq<Entry>, va: nat, pa: nat, x: nat) {
    MappedAt(tlb, va, x) && Through(tlb, va + x) == pa + x
  }

  lemma {:induction false} ConsecutiveAddresses(tlb: seq<Entry>, va: nat, pa: nat, n: nat)
    requires forall x: nat :: x < n ==> TranslatedAt(tlb, va, pa, x)
    ensures MappedRun(tlb, va, n) && forall x :: 0 <= x < n ==> Addresses(tlb, va, n)[x] == pa + x
  {
    assert forall x: nat :: TranslatedAt(tlb, va, pa, x) ==> MappedAt(tlb, va, x);
    if n != 0 {
      ConsecutiveAddresses(tlb, va, pa, n - 1);
      assert TranslatedAt(tlb, va, pa, n - 1);
    }
  }

  /** Copied byte by byte to consecutive addresses. */
  lemma {:induction false} BytesCopied(mem: Memory, to: seq<nat>, from: seq<nat>, d: nat, s: nat, a: nat)
    requires |to| == |from| && forall x :: 0 <= x < |to| ==> to[x] == d + x && from[x] == s + x
    ensures CopyBytes(mem, to, from)(a) == if d <= a < d + |to| then mem(a - d + s) else mem(a)
  {
    if to != [] {
      BytesCopied(mem, to[..|to| - 1], from[..|to| - 1], d, s, a);
    }
  }

  /** The regions of thread i. */
  function ShiftOf(phys: seq<Pair>, virt: seq<Pair>, i: nat): Shift
    requires i < |phys| == |virt|
  {
    Shift(VirtAddress(2 * virt[i].source), PhysAddress(2 * phys[i].source),
          VirtAddress(2 * virt[i].dest), PhysAddress(2 * phys[i].dest))
  }

  lemma ByteTranslates(tlb: seq<Entry>, phys: seq<Pair>, virt: seq<Pair>, lists: seq<seq<Transfer>>, i: nat, side: Side,
                       offset: nat, x: nat)
    requires Covers(tlb, phys, virt, lists) && i < |lists| && offset + x < Room(lists[i])
    ensures TranslatedAt(tlb, VirtAddress(2 * virt[i].Of(side)) + offset, PhysAddress(2 * phys[i].Of(side)) + offset, x)
  {
    ThreadTranslates(tlb, phys, virt, lists, i, side, offset + x);
    ThroughIsTranslated(tlb, VirtAddress(2 * virt[i].Of(side)) + offset + x, PhysAddress(2 * phys[i].Of(side)) + offset + x);
  }

  /** One side of a transfer from the list of thread i goes where the physical layout has it. */
  lemma SideTranslates(tlb: seq<Entry>, phys: seq<Pair>, virt: seq<Pair>, lists: seq<seq<Transfer>>, i: nat, k: nat, side: Side)
    requires Covers(tlb, phys, virt, lists) && i < |lists| && k < |lists[i]| && Rises(side, lists[i])
    ensures var va, pa, n := VirtAddress(2 * virt[i].Of(side)) + side.Of(lists[i][k]),
                             PhysAddress(2 * phys[i].Of(side)) + side.Of(lists[i][k]), Width(lists[i][k].size);
            MappedRun(tlb, va, n) && forall x :: 0 <= x < n ==> Addresses(tlb, va, n)[x] == pa + x
  {
    var t := lists[i][k];
    var va, pa := VirtAddress(2 * virt[i].Of(side)) + side.Of(t), PhysAddress(2 * phys[i].Of(side)) + side.Of(t);
    ThreadStaysInRun(side, lists[i], 0);
    assert ThreadRanges(side, lists[i], 0)[k] == Range(side.Of(t), Width(t.size));
    forall x: nat | x < Width(t.size) ensures TranslatedAt(tlb, va, pa, x) {
      ByteTranslates(tlb, phys, virt, lists, i, side, side.Of(t), x);
    }
    ConsecutiveAddresses(tlb, va, pa, Width(t.size));
  }

  /** The two systems hold the same memory, and their threads are at the same places. */
  ghost predicate Alike(phys: seq<Pair>, virt: seq<Pair>, v: System, p: System) {
    && |v.threads| == |p.threads| == |phys| == |virt|
    && (forall i :: 0 <= i < |phys| ==> ShiftOf(phys, virt, i).Threads(v.threads[i], p.threads[i]))
    && forall a: nat :: v.mem(a) == p.mem(a)
  }

  lemma CopyAlike(tlb: seq<Entry>, v: Transfer, p: Transfer, vMem: Memory, pMem: Memory, a: nat)
    requires Reaches(tlb, v) && v.size == p.size && forall a: nat :: vMem(a) == pMem(a)
    requires forall x :: 0 <= x < Width(v.size) ==> Addresses(tlb, v.destination, Width(v.size))[x] == p.destination + x
    requires forall x :: 0 <= x < Width(v.size) ==> Addresses(tlb, v.source, Width(v.size))[x] == p.source + x
    ensures CopyThrough(tlb, vMem, v)(a) == Copy(pMem, p)(a)
  {
    var to, from := Addresses(tlb, v.destination, Width(v.size)), Addresses(tlb, v.source, Width(v.size));
    BytesCopied(vMem, to, from, p.destination, p.source, a);
  }

  lemma TransferAlike(tlb: seq<Entry>, phys: seq<Pair>, virt: seq<Pair>, lists: seq<seq<Transfer>>, i: nat, k: nat,
                      v: Transfer, p: Transfer, vMem: Memory, pMem: Memory)
    requires Covers(tlb, phys, virt, lists) && i < |lists| && k < |lists[i]|
    requires Rises(Source, lists[i]) && Rises(Destination, lists[i])
    requires ShiftOf(phys, virt, i).Transfers(v, p) && forall a: nat :: vMem(a) == pMem(a)
    requires p == Shifted(lists[i], ShiftOf(phys, virt, i).physSource, ShiftOf(phys, virt, i).physDest)[k]
    ensures Reaches(tlb, v) && forall a: nat :: CopyThrough(tlb, vMem, v)(a) == Copy(pMem, p)(a)
  {
    SideTranslates(tlb, phys, virt, lists, i, k, Source);
    SideTranslates(tlb, phys, virt, lists, i, k, Destination);
    forall a: nat ensures CopyThrough(tlb, vMem, v)(a) == Copy(pMem, p)(a) {
      CopyAlike(tlb, v, p, vMem, pMem, a);
    }
  }

  /** The setup is the physical layout of lists whose virtual pages are mapped. */
  ghost predicate Layout(s: Setup, tlb: seq<Entry>, phys: seq<Pair>, virt: seq<Pair>, lists: seq<seq<Transfer>>) {
    && s.Valid() && Covers(tlb, phys, virt, lists) && |lists| == |s.programs|
    && s.lists == Absolute(lists, Bases(Source, phys), Bases(Destination, phys))
    && forall h, side :: 0 <= h < |lists| ==> Rises(side, lists[h])
  }

  /** One turn. */
  lemma TurnsAlike(s: Setup, tlb: seq<Entry>, phys: seq<Pair>, virt: seq<Pair>, lists: seq<seq<Transfer>>,
                   v: System, p: System, turns: seq<nat>, i: nat)
    requires Layout(s, tlb, phys, virt, lists)
    requires OnTrack(s, p, turns) && Alike(phys, virt, v, p) && i < |phys| && v.threads[i].Valid() && p.threads[i].Valid()
    ensures Alike(phys, virt, TurnThrough(s.floor, s.programs, tlb, v, i), Turn(s.floor, s.programs, p, i))
  {
    var o, q := Step(s.floor, s.programs[i], v.threads[i]), Step(s.floor, s.programs[i], p.threads[i]);
    StepsAgree(s.floor, s.programs[i], ShiftOf(phys, virt, i), v.threads[i], p.threads[i]);
    var made := TurnMakes(s, p, turns, i);
    if made != [] {
      var k := |s.At(i, turns[i]).made|;
      assert CopyAll(p.mem, q.made) == Copy(p.mem, q.made[0]) by {
        assert CopyAll(Copy(p.mem, q.made[0]), []) == Copy(p.mem, q.made[0]);
      }
      TransferAlike(tlb, phys, virt, lists, i, k, o.made[0], q.made[0], v.mem, p.mem);
    }
  }

  /** Through the TLB, the threads do in any order what they would do on physical addresses: they are at the same places,
      and memory is the same after every instruction. */
  lemma {:induction false} RunsAlike(s: Setup, tlb: seq<Entry>, phys: seq<Pair>, virt: seq<Pair>, lists: seq<seq<Transfer>>,
                                     start: System, mem: Memory, schedule: seq<nat>)
    requires Layout(s, tlb, phys, virt, lists)
    requires Alike(phys, virt, start, System(s.starts, mem)) && forall i :: 0 <= i < |start.threads| ==> start.threads[i].Valid()
    requires forall n :: 0 <= n < |schedule| ==> schedule[n] < |s.programs|
    ensures Alike(phys, virt, RunThrough(s.floor, s.programs, tlb, start, schedule),
                  Run(s.floor, s.programs, System(s.starts, mem), schedule))
  {
    if schedule != [] {
      var last := |schedule| - 1;
      RunsAlike(s, tlb, phys, virt, lists, start, mem, schedule[..last]);
      var turns := RunKeeps(s, mem, schedule[..last]);
      TurnsAlike(s, tlb, phys, virt, lists, RunThrough(s.floor, s.programs, tlb, start, schedule[..last]),
                 Run(s.floor, s.programs, System(s.starts, mem), schedule[..last]), turns, schedule[last]);
    }
  }

  /** So no thread faults, on a missing mapping or otherwise. */
  lemma ThroughNeverFaults(s: Setup, tlb: seq<Entry>, phys: seq<Pair>, virt: seq<Pair>, lists: seq<seq<Transfer>>,
                           start: System, mem: Memory, schedule: seq<nat>, i: nat)
    requires Layout(s, tlb, phys, virt, lists) && i < |lists|
    requires Alike(phys, virt, start, System(s.starts, mem)) && forall i :: 0 <= i < |start.threads| ==> start.threads[i].Valid()
    requires forall n :: 0 <= n < |schedule| ==> schedule[n] < |s.programs|
    ensures !RunThrough(s.floor, s.programs, tlb, start, schedule).threads[i].status.Faulted?
  {
    RunsAlike(s, tlb, phys, virt, lists, start, mem, schedule);
    NeverFaults(s, mem, schedule, i);
    assert ShiftOf(phys, virt, i).Threads(RunThrough(s.floor, s.programs, tlb, start, schedule).threads[i],
                                          Run(s.floor, s.programs, System(s.starts, mem), schedule).threads[i]);
  }

  // ------------------------------------------------------------ the verdict

  /** The same threads at physical addresses. */
  function Relocated(threads: seq<Thread>, sources: seq<nat>, dests: seq<nat>): (r: seq<Thread>)
    requires |sources| == |dests| == |threads|
    ensures |r| == |threads|
  {
    seq(|threads|, i requires 0 <= i < |threads| => threads[i].(source := sources[i], destination := dests[i]))
  }

  /** On physical addresses the threads are a valid setup. */
  lemma PhysicalSetup(floor: nat, gs: seq<ThreadProgram>, phys: seq<Pair>, threads: seq<Thread>) returns (s: Setup)
    requires |gs| == |phys| == |threads| && forall i :: 0 <= i < |gs| ==> gs[i].Writable()
    requires NoDuplicates(InUse(phys, Lists(floor, gs)))
    requires AllStarted(threads, Bases(Source, phys), Bases(Destination, phys))
    ensures s == Setup(floor, Programs(gs), threads, Absolute(Lists(floor, gs), Bases(Source, phys), Bases(Destination, phys)))
    ensures s.Valid() && forall h, side :: 0 <= h < |gs| ==> Rises(side, Lists(floor, gs)[h])
    ensures forall i :: 0 <= i < |gs| ==> s.StopsAfter(i, Steps(floor, gs[i].code) + 1)
  {
    var lists := Lists(floor, gs);
    forall h, side | 0 <= h < |lists| ensures Rises(side, lists[h]) {
      ProgramRises(floor, gs[h].code, gs[h].size, side);
    }
    VirtualIsSeparate(phys, lists);
    RangesOfAll(lists, Bases(Source, phys), Bases(Destination, phys));
    s := SetupIsValid(floor, gs, threads, Bases(Source, phys), Bases(Destination, phys));
  }

  lemma StartsAlike(phys: seq<Pair>, virt: seq<Pair>, threads: seq<Thread>, mem: Memory)
    requires |threads| == |phys| == |virt| && AllStarted(threads, VirtBases(Source, virt), VirtBases(Destination, virt))
    ensures var physical := Relocated(threads, Bases(Source, phys), Bases(Destination, phys));
            && AllStarted(physical, Bases(Source, phys), Bases(Destination, phys))
            && Alike(phys, virt, System(threads, mem), System(physical, mem))
  {
    var physical := Relocated(threads, Bases(Source, phys), Bases(Destination, phys));
    forall i | 0 <= i < |phys| ensures ShiftOf(phys, virt, i).Threads(threads[i], physical[i]) {
      assert Started(threads[i], VirtBases(Source, virt)[i], VirtBases(Destination, virt)[i]);
    }
  }

  /** Systems that are alike have the same threads stopped and pass the same tests. */
  lemma SameVerdict(phys: seq<Pair>, virt: seq<Pair>, v: System, p: System, asserts: seq<Cell>)
    requires Alike(phys, virt, v, p)
    ensures forall i :: 0 <= i < |phys| ==> v.threads[i].status == p.threads[i].status
    ensures Passes(p.mem, asserts) <==> Passes(v.mem, asserts)
  {
    forall i | 0 <= i < |phys| ensures v.threads[i].status == p.threads[i].status {
      assert ShiftOf(phys, virt, i).Threads(v.threads[i], p.threads[i]);
    }
  }

  /** A test on virtual addresses passes, in whatever order the engine executes the threads' instructions, if no page is in
      use twice: no thread faults, and once all of them have stopped, every assert on physical memory holds. */
  lemma VirtualTestPasses(floor: nat, gs: seq<ThreadProgram>, tlb: seq<Entry>, phys: seq<Pair>, virt: seq<Pair>,
                          threads: seq<Thread>, mem: Memory, schedule: seq<nat>, all: seq<Transfer>, end: System)
    requires |gs| == |phys| && forall i :: 0 <= i < |gs| ==> gs[i].Writable()
    requires Covers(tlb, phys, virt, Lists(floor, gs)) && NoDuplicates(InUse(phys, Lists(floor, gs)))
    requires AllStarted(threads, VirtBases(Source, virt), VirtBases(Destination, virt))
    requires all == Concat(Absolute(Lists(floor, gs), Bases(Source, phys), Bases(Destination, phys)))
    requires forall n :: 0 <= n < |schedule| ==> schedule[n] < |gs|
    requires end == RunThrough(floor, Programs(gs), tlb, System(threads, Prepared(mem, all)), schedule)
    ensures NoFaults(end)
    ensures AllStopped(end) ==> Passes(end.mem, Expected(all))
  {
    var physical, before := Relocated(threads, Bases(Source, phys), Bases(Destination, phys)), Prepared(mem, all);
    StartsAlike(phys, virt, threads, before);
    var s := PhysicalSetup(floor, gs, phys, physical);
    RunsAlike(s, tlb, phys, virt, Lists(floor, gs), System(threads, before), before, schedule);
    var p := Run(floor, Programs(gs), System(physical, before), schedule);
    SameVerdict(phys, virt, end, p, Expected(all));
    forall i | 0 <= i < |gs| ensures !end.threads[i].status.Faulted? {
      NeverFaults(s, before, schedule, i);
    }
    if AllStopped(end) {
      SetupPasses(s, mem, schedule);
    }
  }

  /** All threads on virtual addresses have stopped once each has had enough turns, in any order. */
  lemma VirtualThreadsStop(floor: nat, gs: seq<ThreadProgram>, tlb: seq<Entry>, phys: seq<Pair>, virt: seq<Pair>,
                           threads: seq<Thread>, mem: Memory, schedule: seq<nat>, end: System)
    requires |gs| == |phys| && forall i :: 0 <= i < |gs| ==> gs[i].Writable()
    requires Covers(tlb, phys, virt, Lists(floor, gs)) && NoDuplicates(InUse(phys, Lists(floor, gs)))
    requires AllStarted(threads, VirtBases(Source, virt), VirtBases(Destination, virt))
    requires forall n :: 0 <= n < |schedule| ==> schedule[n] < |gs|
    requires forall i :: 0 <= i < |gs| ==> Count(schedule, i) > Steps(floor, gs[i].code)
    requires end == RunThrough(floor, Programs(gs), tlb, System(threads, mem), schedule)
    ensures AllStopped(end)
  {
    var physical := Relocated(threads, Bases(Source, phys), Bases(Destination, phys));
    StartsAlike(phys, virt, threads, mem);
    var s := PhysicalSetup(floor, gs, phys, physical);
    RunsAlike(s, tlb, phys, virt, Lists(floor, gs), System(threads, mem), mem, schedule);
    SameVerdict(phys, virt, end, Run(floor, Programs(gs), System(physical, mem), schedule), []);
    forall i | 0 <= i < |gs| ensures end.threads[i].status.Stopped? {
      assert s.StopsAfter(i, Steps(floor, gs[i].code) + 1);
      ThreadStops(s, mem, schedule, i);
    }
  }
}
