/**
 A multi-threaded test from end to end: whatever the order in which the DMA engine runs the
 threads, the printed asserts hold once all of them have stopped.
 */
module MultithreadTest {
  import opened DmaMachine
  import opened TransferLists
  import opened Ranges
  import opened Interleaving
  import opened PhysicalLayout
  import opened Rounds

  /** One generated thread program. */
  datatype ThreadProgram = ThreadProgram(code: Code, size: nat) {
    predicate Writable() { code.Shape().Nesting() <= LOOP_REGISTERS }

    function Program(): seq<Instr> { Emit(code, 0, size) + [StopOp] }

    function List(floor: nat): seq<Transfer> { Eval(floor, code, size, 0, 0).made }
  }

  function Programs(gs: seq<ThreadProgram>): (r: seq<seq<Instr>>)
    ensures |r| == |gs|
  {
    seq(|gs|, i requires 0 <= i < |gs| => gs[i].Program())
  }

  function Lists(floor: nat, gs: seq<ThreadProgram>): (r: seq<seq<Transfer>>)
    ensures |r| == |gs|
  {
    seq(|gs|, i requires 0 <= i < |gs| => gs[i].List(floor))
  }

  /** dma_set_pc, dma_set_source_address and dma_set_dest_address, then dma_start_transfer. */
  predicate Started(t: Thread, source: nat, dest: nat) {
    t.Valid() && t.status.Running? && t.pc == 0 && t.source == source && t.destination == dest
  }

  ghost predicate AllStarted(threads: seq<Thread>, sources: seq<nat>, dests: seq<nat>)
    requires |sources| == |dests|
  {
    |threads| == |sources| && forall i :: 0 <= i < |threads| ==> Started(threads[i], sources[i], dests[i])
  }

  /** The lists computed from relative address zero are, moved to the threads' regions, what the threads
      do on their own. */
  lemma SetupIsValid(floor: nat, gs: seq<ThreadProgram>, threads: seq<Thread>, sources: seq<nat>, dests: seq<nat>)
    returns (s: Setup)
    requires |sources| == |dests| == |gs| && AllStarted(threads, sources, dests)
    requires forall i :: 0 <= i < |gs| ==> gs[i].Writable()
    requires var all := Concat(Absolute(Lists(floor, gs), sources, dests));
             Separate(SourceRanges(all), DestRanges(all))
    ensures s == Setup(floor, Programs(gs), threads, Absolute(Lists(floor, gs), sources, dests)) && s.Valid()
    ensures forall i :: 0 <= i < |gs| ==> s.StopsAfter(i, Steps(floor, gs[i].code) + 1)
  {
    s := Setup(floor, Programs(gs), threads, Absolute(Lists(floor, gs), sources, dests));
    forall i | 0 <= i < |gs| ensures s.Stops(i) && s.StopsAfter(i, Steps(floor, gs[i].code) + 1) {
      var c, size := gs[i].code, gs[i].size;
      ProgramRuns(floor, c, size, threads[i]);
      Relocates(floor, c, size, 0, 0, sources[i], dests[i]);
      assert s.StopsAfter(i, Steps(floor, c) + 1);
    }
  }

  /** Memory once the sources have been numbered. */
  function Prepared(mem: Memory, all: seq<Transfer>): Memory {
    Write(mem, Numbered(Cells(SourceRanges(all))))
  }

  function Expected(all: seq<Transfer>): seq<Cell> {
    Numbered(Cells(DestRanges(all)))
  }

  /** A test as it begins: every thread is started on its program with these counters, at its base addresses; the source
      bytes of all threads are numbered, and the rest of memory is as it was. */
  ghost predicate Begins(start: System, sources: seq<nat>, dests: seq<nat>, regs: seq<seq<nat>>, mem: Memory, all: seq<Transfer>)
    requires |sources| == |dests|
  {
    && AllStarted(start.threads, sources, dests)
    && |regs| == |start.threads| && (forall i :: 0 <= i < |regs| ==> start.threads[i].regs == regs[i])
    && NumberedIn(mem, start.mem, Cells(SourceRanges(all)))
  }

  lemma SourcesReady(start: System, sources: seq<nat>, dests: seq<nat>, regs: seq<nat>, mem: Memory, all: seq<Transfer>)
    requires |sources| == |dests| && AllStarted(start.threads, sources, dests)
    requires forall i :: 0 <= i < |start.threads| ==> start.threads[i].regs == regs
    requires start.mem == Prepared(mem, all) && PairwiseApart(SourceRanges(all))
    ensures Begins(start, sources, dests, seq(|sources|, _ => regs), mem, all)
  {
    SourcesNumbered(mem, SourceRanges(all));
  }

  predicate AllStopped(sys: System) {
    forall i :: 0 <= i < |sys.threads| ==> sys.threads[i].status.Stopped?
  }

  predicate NoFaults(sys: System) {
    forall i :: 0 <= i < |sys.threads| ==> !sys.threads[i].status.Faulted?
  }

  lemma SetupPasses(s: Setup, mem: Memory, schedule: seq<nat>)
    requires s.Valid() && forall n :: 0 <= n < |schedule| ==> schedule[n] < |s.programs|
    requires AllStopped(Run(s.floor, s.programs, System(s.starts, Prepared(mem, Concat(s.lists))), schedule))
    ensures Passes(Run(s.floor, s.programs, System(s.starts, Prepared(mem, Concat(s.lists))), schedule).mem,
                   Expected(Concat(s.lists)))
  {
    var all := Concat(s.lists);
    var before := Prepared(mem, all);
    AnyInterleaving(s, before, schedule);
    NumbersArrive(mem, Run(s.floor, s.programs, System(s.starts, before), schedule).mem, SourceRanges(all), DestRanges(all));
  }

  /** End to end, for any layout that keeps the threads' ranges separate: number the sources and run the threads in
      any order.  No thread faults, and when all have stopped every assert on the destinations holds. */
  lemma AssertsHold(floor: nat, gs: seq<ThreadProgram>, threads: seq<Thread>, sources: seq<nat>, dests: seq<nat>,
                    mem: Memory, schedule: seq<nat>, all: seq<Transfer>, end: System)
    requires |sources| == |dests| == |gs| && AllStarted(threads, sources, dests)
    requires forall i :: 0 <= i < |gs| ==> gs[i].Writable()
    requires all == Concat(Absolute(Lists(floor, gs), sources, dests))
    requires Separate(SourceRanges(all), DestRanges(all))
    requires forall n :: 0 <= n < |schedule| ==> schedule[n] < |gs|
    requires end == Run(floor, Programs(gs), System(threads, Prepared(mem, all)), schedule)
    ensures NoFaults(end)
    ensures AllStopped(end) ==> Passes(end.mem, Expected(all))
  {
    var s := SetupIsValid(floor, gs, threads, sources, dests);
    forall i | 0 <= i < |gs| ensures !end.threads[i].status.Faulted? {
      NeverFaults(s, Prepared(mem, all), schedule, i);
    }
    if AllStopped(end) {
      SetupPasses(s, mem, schedule);
    }
  }

  /** All threads have stopped once each has had one turn more than the loop program of its own has steps, in whatever
      order; the number of steps does not depend on the layout. */
  lemma EveryThreadStops(floor: nat, gs: seq<ThreadProgram>, threads: seq<Thread>, sources: seq<nat>, dests: seq<nat>,
                         mem: Memory, schedule: seq<nat>, all: seq<Transfer>)
    requires |sources| == |dests| == |gs| && AllStarted(threads, sources, dests)
    requires forall i :: 0 <= i < |gs| ==> gs[i].Writable()
    requires all == Concat(Absolute(Lists(floor, gs), sources, dests))
    requires Separate(SourceRanges(all), DestRanges(all))
    requires forall n :: 0 <= n < |schedule| ==> schedule[n] < |gs|
    requires forall i :: 0 <= i < |gs| ==> Count(schedule, i) > Steps(floor, gs[i].code)
    ensures AllStopped(Run(floor, Programs(gs), System(threads, Prepared(mem, all)), schedule))
  {
    var s := SetupIsValid(floor, gs, threads, sources, dests);
    var end := Run(floor, Programs(gs), System(threads, Prepared(mem, all)), schedule);
    forall i | 0 <= i < |gs| ensures end.threads[i].status.Stopped? {
      assert s.StopsAfter(i, Steps(floor, gs[i].code) + 1);
      ThreadStops(s, Prepared(mem, all), schedule, i);
    }
  }

  /** In the first m rounds every thread has had enough turns to stop. */
  ghost predicate EnoughTurns(floor: nat, gs: seq<ThreadProgram>, rounds: seq<seq<nat>>, m: nat)
    requires Playable(|gs|, rounds)
  {
    m <= |rounds| && forall i :: 0 <= i < |gs| ==> Count(Played(|gs|, rounds, m), i) > Steps(floor, gs[i].code)
  }
}
