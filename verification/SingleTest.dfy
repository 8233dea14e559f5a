/**
 A single-thread test, from the seed to its outcome.
 */
module SingleTest {
  import opened Rand
  import opened DmaMachine
  import opened TransferLists
  import opened Ranges
  import opened Interleaving
  import opened PhysicalLayout
  import opened MultithreadTest
  import opened ProgramWriter
  import opened Generation
  import opened Rounds

  const SOURCE_ADDRESS: nat := 0x9000_0000_1000_0000
  const DEST_ADDRESS: nat := 0x9000_0000_2000_0000

  /** print_test_information for a single thread: source[..] = n and dest[..] == n, byte by byte. */
  method PrintSingleTest(list: seq<Transfer>) returns (writes: seq<Cell>, asserts: seq<Cell>)
    ensures writes == Numbered(Cells(ThreadRanges(Source, list, SOURCE_ADDRESS)))
    ensures asserts == Numbered(Cells(ThreadRanges(Destination, list, DEST_ADDRESS)))
  {
    var position, accessNumber;
    ghost var none: seq<Range> := [];
    writes, position, accessNumber := VisitThread(Source, list, SOURCE_ADDRESS, [], 0, 0, none);
    assert none + ThreadRanges(Source, list, SOURCE_ADDRESS) == ThreadRanges(Source, list, SOURCE_ADDRESS);
    asserts, position, accessNumber := VisitThread(Destination, list, DEST_ADDRESS, [], 0, 0, none);
    assert none + ThreadRanges(Destination, list, DEST_ADDRESS) == ThreadRanges(Destination, list, DEST_ADDRESS);
  }

  /** The transfers of the thread. */
  function Alone(floor: nat, g: ThreadProgram): seq<Transfer> {
    Shifted(g.List(floor), SOURCE_ADDRESS, DEST_ADDRESS)
  }

  /** The same in terms of a layout for one thread. */
  lemma SingleLayout(floor: nat, g: ThreadProgram)
    ensures Concat(Absolute(Lists(floor, [g]), [SOURCE_ADDRESS], [DEST_ADDRESS])) == Alone(floor, g)
    ensures SourceRanges(Alone(floor, g)) == ThreadRanges(Source, g.List(floor), SOURCE_ADDRESS)
    ensures DestRanges(Alone(floor, g)) == ThreadRanges(Destination, g.List(floor), DEST_ADDRESS)
  {
    assert Lists(floor, [g]) == [g.List(floor)];
    OneRegion(g.List(floor), SOURCE_ADDRESS, DEST_ADDRESS);
  }

  lemma OneRegion(list: seq<Transfer>, source: nat, dest: nat)
    ensures Concat(Absolute([list], [source], [dest])) == Shifted(list, source, dest)
    ensures SourceRanges(Shifted(list, source, dest)) == ThreadRanges(Source, list, source)
    ensures DestRanges(Shifted(list, source, dest)) == ThreadRanges(Destination, list, dest)
  {
    assert Absolute([list], [source], [dest]) == [Shifted(list, source, dest)];
    OnlyOne(Shifted(list, source, dest));
  }

  lemma OnlyOne(list: seq<Transfer>)
    ensures Concat([list]) == list
  {
    assert [list][..0] == [] && Concat([]) + list == list;
  }

  lemma BuffersInOrder(e: Effect, size: nat, source: nat, dest: nat, end: nat)
    requires Climbs(e, size, 0, 0) && source + e.source <= dest && dest + e.destination <= end
    ensures InOrder(ThreadRanges(Source, e.made, source), source, dest)
    ensures InOrder(ThreadRanges(Destination, e.made, dest), dest, end)
  {
    assert forall k :: 0 <= k < |e.made| ==>
      && ThreadRanges(Source, e.made, source)[k].start == source + Sources(e.made)[k]
      && ThreadRanges(Destination, e.made, dest)[k].start == dest + Destinations(e.made)[k];
  }

  /** The two buffers of a single-thread test do not meet. */
  lemma SingleIsSeparate(floor: nat, g: ThreadProgram)
    requires g.Writable() && Generated(g.code, g.size) && g.size < 6 && g.code.Shape().Length() <= 340
    ensures Separate(SourceRanges(Alone(floor, g)), DestRanges(Alone(floor, g)))
  {
    StaysBelowGap(floor, g.code, g.size);
    NeverOverwrites(floor, g.code, g.size, 0, 0);
    SingleLayout(floor, g);
    var e := Eval(floor, g.code, g.size, 0, 0);
    var rs, qs := ThreadRanges(Source, e.made, SOURCE_ADDRESS), ThreadRanges(Destination, e.made, DEST_ADDRESS);
    BuffersInOrder(e, g.size, SOURCE_ADDRESS, DEST_ADDRESS, DEST_ADDRESS + GAP);
    SeparateWhenInOrder(rs, qs, SOURCE_ADDRESS, DEST_ADDRESS, DEST_ADDRESS + GAP);
  }

  /** Every transfer address of a single-thread test is aligned. */
  lemma SingleInPlace(floor: nat, g: ThreadProgram)
    requires Generated(g.code, g.size) && g.size < 6
    ensures AllInPlace(Alone(floor, g))
  {
    ProgramAligned(floor, g.code, g.size);
    NeverOverwrites(floor, g.code, g.size, 0, 0);
    BaseAligned(SOURCE_ADDRESS / 32, g.size);
    BaseAligned(DEST_ADDRESS / 32, g.size);
    ShiftedInPlace(g.List(floor), SOURCE_ADDRESS, DEST_ADDRESS);
  }

  /** A single-thread test does not fault, has stopped after one turn more than its loop program has steps, and passes
      once it has stopped. */
  lemma SingleTestPasses(floor: nat, g: ThreadProgram, t: Thread, mem: Memory, turns: nat, end: System)
    requires g.Writable() && Generated(g.code, g.size) && g.size < 6 && g.code.Shape().Length() <= 340
    requires Started(t, SOURCE_ADDRESS, DEST_ADDRESS)
    requires end == Run(floor, Programs([g]), System([t], Prepared(mem, Alone(floor, g))), seq(turns, _ => 0))
    ensures NoFaults(end) && (turns > Steps(floor, g.code) ==> AllStopped(end))
    ensures AllStopped(end) ==> Passes(end.mem, Expected(Alone(floor, g)))
  {
    SingleIsSeparate(floor, g);
    SingleLayout(floor, g);
    AssertsHold(floor, [g], [t], [SOURCE_ADDRESS], [DEST_ADDRESS], mem, seq(turns, _ => 0), Alone(floor, g), end);
    if turns > Steps(floor, g.code) {
      CountRepeated(0, turns);
      EveryThreadStops(floor, [g], [t], [SOURCE_ADDRESS], [DEST_ADDRESS], mem, seq(turns, _ => 0), Alone(floor, g));
    }
  }

  // ----------------------------------------------------- from seed to verdict

  function Total(waits: seq<nat>): nat {
    if waits == [] then 0 else Total(waits[..|waits| - 1]) + waits[|waits| - 1]
  }

  /** The engine executes n instructions of the only thread. */
  function Onward(floor: nat, program: seq<Instr>, start: System, n: nat): (end: System)
    requires |start.threads| == 1 && start.threads[0].Valid()
    ensures |end.threads| == 1 && end.threads[0].Valid()
  {
    Run(floor, [program], start, seq(n, _ => 0))
  }

  lemma OnwardTwice(floor: nat, program: seq<Instr>, start: System, m: nat, n: nat)
    requires |start.threads| == 1 && start.threads[0].Valid()
    ensures Onward(floor, program, Onward(floor, program, start, m), n) == Onward(floor, program, start, m + n)
  {
    RunAppend(floor, [program], start, seq(m, _ => 0), seq(n, _ => 0));
    assert seq(m, _ => 0) + seq(n, _ => 0) == seq(m + n, _ => 0);
  }

  lemma TotalNext(waits: seq<nat>, k: nat)
    requires k < |waits|
    ensures Total(waits[..k + 1]) == Total(waits[..k]) + waits[k]
  {
    assert waits[..k + 1][..k] == waits[..k];
  }

  /** The thread is ready at check k of the waiting loop. */
  predicate ReadyAt(floor: nat, program: seq<Instr>, start: System, waits: seq<nat>, k: nat)
    requires |start.threads| == 1 && start.threads[0].Valid() && k <= |waits|
  {
    Onward(floor, program, start, Total(waits[..k])).threads[0].status.Stopped?
  }

  /** test(): start the thread and wait until it is ready.  waits[k] is how many instructions the engine executes between
      two readiness checks; done says that the thread was ready at one of them, and checks is how many found it not ready. */
  method WaitUntilReady(floor: nat, program: seq<Instr>, start: System, waits: seq<nat>)
    returns (done: bool, sys: System, checks: nat)
    requires |start.threads| == 1 && start.threads[0].Valid()
    ensures checks <= |waits| && sys == Onward(floor, program, start, Total(waits[..checks]))
    ensures forall k: nat :: k < checks ==> !ReadyAt(floor, program, start, waits, k)
    ensures done <==> ReadyAt(floor, program, start, waits, checks)
    ensures !done ==> checks == |waits|
  {
    sys, checks := start, 0;
    NoWait(floor, program, start);
    while !sys.threads[0].status.Stopped? && checks < |waits|
      invariant checks <= |waits| && sys == Onward(floor, program, start, Total(waits[..checks]))
      invariant forall k: nat :: k < checks ==> !ReadyAt(floor, program, start, waits, k)
      decreases |waits| - checks
    {
      OnwardTwice(floor, program, start, Total(waits[..checks]), waits[checks]);
      TotalNext(waits, checks);
      sys := Onward(floor, program, sys, waits[checks]);
      checks := checks + 1;
    }
    done := sys.threads[0].status.Stopped?;
  }

  lemma NoWait(floor: nat, program: seq<Instr>, start: System)
    requires |start.threads| == 1 && start.threads[0].Valid()
    ensures Onward(floor, program, start, 0) == start
  {
  }

  /** The whole single-thread test, for every seed: unless its program nests loops too deeply, it is done if it is given
      enough time, and when it is done it passes. */
  method GenerateAndRunAlone(floor: nat, seed: State, regs: seq<nat>, mem: Memory, waits: seq<nat>, rng: Rng)
    returns (ok: bool, done: bool, sys: System, checks: nat, asserts: seq<Cell>, ghost r: Recipe, ghost start: System)
    requires |regs| == LOOP_REGISTERS
    modifies rng
    ensures Cooked(r, seed) && (ok <==> Writable(r))
    ensures ok ==> var all := Alone(floor, ThreadProgram(r.code, r.size));
                   Begins(start, [SOURCE_ADDRESS], [DEST_ADDRESS], [regs], mem, all) && asserts == Expected(all)
    ensures ok ==> var program := ThreadProgram(r.code, r.size).Program();
                   && |start.threads| == 1 && start.threads[0].Valid()
                   && checks <= |waits| && sys == Onward(floor, program, start, Total(waits[..checks]))
                   && (forall k: nat :: k < checks ==> !ReadyAt(floor, program, start, waits, k))
                   && (done <==> ReadyAt(floor, program, start, waits, checks)) && (!done ==> checks == |waits|)
    ensures ok && Total(waits) > Steps(floor, r.code) ==> done
    ensures ok ==> NoFaults(sys) && (done <==> AllStopped(sys)) && (done ==> Passes(sys.mem, asserts))
  {
    var program;
    ok, program, r := GenerateProgram(rng, seed);
    done, sys, checks, asserts, start := false, System([], mem), 0, [], System([], mem);
    if ok {
      ghost var g := ThreadProgram(r.code, r.size);
      var list := ListTransfers(floor, program, regs, r.code, r.size);
      var writes;
      writes, asserts := PrintSingleTest(list);
      RecipeFacts(r, seed);
      SingleLayout(floor, g);
      SingleIsSeparate(floor, g);
      SourcesNumbered(mem, SourceRanges(Alone(floor, g)));
      var begin := System([Thread(0, SOURCE_ADDRESS, DEST_ADDRESS, regs, Running)], Write(mem, writes));
      start := begin;
      done, sys, checks := WaitUntilReady(floor, program[..], begin, waits);
      WaitPasses(floor, g, begin.threads[0], mem, waits, checks, sys, done);
    }
  }

  lemma WaitPasses(floor: nat, g: ThreadProgram, t: Thread, mem: Memory, waits: seq<nat>, checks: nat, sys: System, done: bool)
    requires g.Writable() && Generated(g.code, g.size) && g.size < 6 && g.code.Shape().Length() <= 340
    requires Started(t, SOURCE_ADDRESS, DEST_ADDRESS) && checks <= |waits|
    requires sys == Onward(floor, g.Program(), System([t], Prepared(mem, Alone(floor, g))), Total(waits[..checks]))
    requires (done <==> sys.threads[0].status.Stopped?) && (!done ==> checks == |waits|)
    ensures NoFaults(sys) && (done <==> AllStopped(sys)) && (done ==> Passes(sys.mem, Expected(Alone(floor, g))))
    ensures Total(waits) > Steps(floor, g.code) ==> done
  {
    assert Programs([g]) == [g.Program()];
    SingleTestPasses(floor, g, t, mem, Total(waits[..checks]), sys);
    assert waits[..|waits|] == waits;
  }
}
