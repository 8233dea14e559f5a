/**
 A multi-threaded test on real addresses, from the seed to its outcome.
 */
module TestRuns {
  import opened Rand
  import opened DmaMachine
  import opened TransferLists
  import opened Ranges
  import opened Interleaving
  import opened PhysicalLayout
  import opened MultithreadTest
  import opened ProgramWriter
  import opened Generation
  import opened Rounds
  import opened Scheduler

  /** Once every thread has been seen ready, every thread has stopped. */
  lemma AllSeenStopped(floor: nat, programs: seq<seq<Instr>>, start: System, rounds: seq<seq<nat>>, log: seq<Check>)
    requires Runnable(programs, start, rounds)
    requires Faithful(|programs|, Readiness(floor, programs, start, rounds), log) && AllSeen(log, |programs|)
    ensures AllStopped(After(floor, programs, start, rounds, |log|))
  {
    forall i | 0 <= i < |programs| ensures After(floor, programs, start, rounds, |log|).threads[i].status.Stopped? {
      var q := SeenMeansReady(|programs|, Readiness(floor, programs, start, rounds), log, i);
      StoppedSince(floor, programs, start, rounds, q + 1, |log|, i);
    }
  }

  /** A multi-threaded test on real addresses: when the test program's loop comes to its end, all the asserts
      hold, whatever instructions the engine executed in which order. */
  method MultithreadedTest(floor: nat, programs: seq<seq<Instr>>, lists: seq<seq<Transfer>>, regs: seq<seq<nat>>,
                           mem: Memory, rounds: seq<seq<nat>>, rng: Rng, ghost gs: seq<ThreadProgram>)
    returns (done: bool, divided: bool, sys: System, asserts: seq<Cell>, sources: seq<nat>, dests: seq<nat>,
             ghost start: System, ghost log: seq<Check>)
    requires |gs| == |regs| && forall i :: 0 <= i < |gs| ==> gs[i].Writable() && |regs[i]| == LOOP_REGISTERS
    requires programs == Programs(gs) && lists == Lists(floor, gs) && Playable(|gs|, rounds)
    modifies rng
    ensures |sources| == |dests| == |gs|
    ensures var middle := End(AllRanges(Source, lists, sources), DRAM_START);
            && LaidOut(Source, lists, sources, DRAM_START, middle)
            && LaidOut(Destination, lists, dests, middle, End(AllRanges(Destination, lists, dests), middle))
    ensures var all := Concat(Absolute(lists, sources, dests));
            Begins(start, sources, dests, regs, mem, all) && asserts == Expected(all)
    ensures Runnable(programs, start, rounds)
    ensures Logged(|gs|, Readiness(floor, programs, start, rounds), old(rng.next), log, done) && (divided <==> done)
    ensures sys == After(floor, programs, start, rounds, |log|)
    ensures NoFaults(sys) && (done ==> AllStopped(sys) && Passes(sys.mem, asserts))
    ensures forall m: nat :: EnoughTurns(floor, gs, rounds, m) && m + |gs| <= |rounds| ==> done
    ensures |asserts| == |Cells(SourceRanges(Concat(lists)))|
  {
    EveryListRises(floor, gs);
    var sourceAddrs, destAddrs, writes;
    sourceAddrs, destAddrs, writes, asserts := PrintTestInformation(lists);
    var s, d := sourceAddrs[..], destAddrs[..];
    sources, dests := s, d;
    var threads := seq(|programs|, i requires 0 <= i < |programs| => Thread(0, s[i], d[i], regs[i], Running));
    SourcesNumbered(mem, SourceRanges(Concat(Absolute(lists, s, d))));
    var begin := System(threads, Write(mem, writes));
    start := begin;
    var checks;
    done, divided, checks, log := Test(|programs|, Readiness(floor, programs, begin, rounds), rng);
    sys := After(floor, programs, begin, rounds, checks);
    Outcome(floor, gs, threads, s, d, mem, rounds, checks, sys);
    if done {
      AllSeenStopped(floor, programs, begin, rounds, log);
    }
    EnoughIsDone(floor, gs, threads, s, d, mem, rounds, begin, done);
    CheckedBytes(lists, s, d);
  }

  lemma Outcome(floor: nat, gs: seq<ThreadProgram>, threads: seq<Thread>, sources: seq<nat>, dests: seq<nat>,
                mem: Memory, rounds: seq<seq<nat>>, n: nat, end: System)
    requires |sources| == |dests| == |gs| && AllStarted(threads, sources, dests)
    requires forall i :: 0 <= i < |gs| ==> gs[i].Writable()
    requires Playable(|gs|, rounds) && n <= |rounds|
    requires var all := Concat(Absolute(Lists(floor, gs), sources, dests));
             var start := System(threads, Prepared(mem, all));
             && Separate(SourceRanges(all), DestRanges(all))
             && Runnable(Programs(gs), start, rounds) && end == After(floor, Programs(gs), start, rounds, n)
    ensures NoFaults(end)
    ensures AllStopped(end) ==> Passes(end.mem, Expected(Concat(Absolute(Lists(floor, gs), sources, dests))))
  {
    var all := Concat(Absolute(Lists(floor, gs), sources, dests));
    AssertsHold(floor, gs, threads, sources, dests, mem, Played(|gs|, rounds, n), all, end);
  }

  /** Once all threads have stopped, every readiness check finds its thread ready. */
  lemma ReadyOnceStopped(floor: nat, programs: seq<seq<Instr>>, start: System, rounds: seq<seq<nat>>, m: nat)
    requires Runnable(programs, start, rounds) && m <= |rounds| && AllStopped(After(floor, programs, start, rounds, m))
    ensures ReadyFrom(|programs|, Readiness(floor, programs, start, rounds), m)
  {
    var ready := Readiness(floor, programs, start, rounds);
    forall r, t | m <= r < |ready| && 0 <= t < |programs| ensures ready[r][t] {
      StoppedSince(floor, programs, start, rounds, m, r + 1, t);
    }
  }

  /** Once every thread has had enough turns, every readiness check finds its thread ready. */
  lemma {:induction false} EnoughIsReady(floor: nat, gs: seq<ThreadProgram>, threads: seq<Thread>, sources: seq<nat>, dests: seq<nat>,
                                         mem: Memory, rounds: seq<seq<nat>>, m: nat, start: System, all: seq<Transfer>)
    requires |sources| == |dests| == |gs| && AllStarted(threads, sources, dests)
    requires forall i :: 0 <= i < |gs| ==> gs[i].Writable()
    requires Playable(|gs|, rounds) && EnoughTurns(floor, gs, rounds, m)
    requires all == Concat(Absolute(Lists(floor, gs), sources, dests)) && Separate(SourceRanges(all), DestRanges(all))
    requires start == System(threads, Prepared(mem, all)) && Runnable(Programs(gs), start, rounds)
    ensures ReadyFrom(|gs|, Readiness(floor, Programs(gs), start, rounds), m)
  {
    EveryThreadStops(floor, gs, threads, sources, dests, mem, Played(|gs|, rounds, m), all);
    ReadyOnceStopped(floor, Programs(gs), start, rounds, m);
  }

  lemma {:induction false} EnoughIsDone(floor: nat, gs: seq<ThreadProgram>, threads: seq<Thread>, sources: seq<nat>, dests: seq<nat>,
                                        mem: Memory, rounds: seq<seq<nat>>, start: System, done: bool)
    requires |sources| == |dests| == |gs| && AllStarted(threads, sources, dests)
    requires forall i :: 0 <= i < |gs| ==> gs[i].Writable()
    requires Playable(|gs|, rounds) && Runnable(Programs(gs), start, rounds)
    requires var all := Concat(Absolute(Lists(floor, gs), sources, dests));
             Separate(SourceRanges(all), DestRanges(all)) && start == System(threads, Prepared(mem, all))
    requires forall m: nat :: ReadyFrom(|gs|, Readiness(floor, Programs(gs), start, rounds), m) && m + |gs| <= |rounds| ==> done
    ensures forall m: nat :: EnoughTurns(floor, gs, rounds, m) && m + |gs| <= |rounds| ==> done
  {
    var all := Concat(Absolute(Lists(floor, gs), sources, dests));
    forall m: nat | EnoughTurns(floor, gs, rounds, m) && m + |gs| <= |rounds| ensures done {
      EnoughIsReady(floor, gs, threads, sources, dests, mem, rounds, m, start, all);
    }
  }

  /** The whole pipeline.  Programs are generated exactly when none of the drawn seeds nests loops too deeply; then, in
      whatever order the engine executes their instructions, a test that comes to its end passes, and it does come to its
      end if it is given enough turns and then a round for every thread. */
  method GenerateAndRun(floor: nat, seed: State, count: nat, regs: seq<nat>, mem: Memory, rounds: seq<seq<nat>>, rng: Rng)
    returns (ok: bool, done: bool, divided: bool, sys: System, asserts: seq<Cell>, sources: seq<nat>, dests: seq<nat>,
             ghost rs: seq<Recipe>, ghost states: seq<State>, ghost start: System, ghost log: seq<Check>)
    requires |regs| == LOOP_REGISTERS && Playable(count, rounds)
    modifies rng
    ensures MadeFrom(rs, states, seed) && |rs| <= count
    ensures ok <==> AllWritable(rs)
    ensures ok ==> |sources| == |dests| == |rs| == count
    ensures ok ==> var lists := Lists(floor, Threads(rs));
                   var middle := End(AllRanges(Source, lists, sources), DRAM_START);
                   && LaidOut(Source, lists, sources, DRAM_START, middle)
                   && LaidOut(Destination, lists, dests, middle, End(AllRanges(Destination, lists, dests), middle))
    ensures ok ==> var all := Concat(Absolute(Lists(floor, Threads(rs)), sources, dests));
                   Begins(start, sources, dests, seq(count, _ => regs), mem, all) && asserts == Expected(all)
    ensures ok ==> Runnable(Programs(Threads(rs)), start, rounds)
                   && Logged(count, Readiness(floor, Programs(Threads(rs)), start, rounds), seed, log, done)
                   && sys == After(floor, Programs(Threads(rs)), start, rounds, |log|) && (divided <==> done)
                   && |asserts| == |Cells(SourceRanges(Concat(Lists(floor, Threads(rs)))))|
    ensures ok ==> NoFaults(sys) && (done ==> AllStopped(sys) && Passes(sys.mem, asserts))
    ensures ok ==> forall m: nat :: EnoughTurns(floor, Threads(rs), rounds, m) && m + count <= |rounds| ==> done
  {
    var programs, lists;
    done, divided, sys, asserts, sources, dests := false, false, System([], mem), [], [], [];
    start, log := System([], mem), [];
    ok, programs, lists, rs, states := GenerateThreads(floor, seed, count, regs, rng);
    if ok {
      var own := new Rng(seed);
      done, divided, sys, asserts, sources, dests, start, log :=
        MultithreadedTest(floor, programs, lists, seq(count, _ => regs), mem, rounds, own, Threads(rs));
    }
  }

  lemma CheckedBytes(lists: seq<seq<Transfer>>, sources: seq<nat>, dests: seq<nat>)
    requires |sources| == |dests| == |lists|
    ensures var all := Concat(Absolute(lists, sources, dests));
            SameWidths(SourceRanges(all), DestRanges(all)) && |Cells(DestRanges(all))| == |Cells(SourceRanges(Concat(lists)))|
  {
    var all := Concat(Absolute(lists, sources, dests));
    SameLength(SourceRanges(all), DestRanges(all));
    CellsOfAbsolute(lists, sources, dests);
  }

  /** Every byte of every transfer is checked. */
  lemma {:induction false} CellsOfAbsolute(lists: seq<seq<Transfer>>, sources: seq<nat>, dests: seq<nat>)
    requires |sources| == |dests| == |lists|
    ensures |Cells(SourceRanges(Concat(Absolute(lists, sources, dests))))| == |Cells(SourceRanges(Concat(lists)))|
  {
    SameTotal(lists, sources, dests);
    SameLength(SourceRanges(Concat(lists)), SourceRanges(Concat(Absolute(lists, sources, dests))));
  }

  lemma {:induction false} SameTotal(lists: seq<seq<Transfer>>, sources: seq<nat>, dests: seq<nat>)
    requires |sources| == |dests| == |lists|
    ensures SameWidths(SourceRanges(Concat(lists)), SourceRanges(Concat(Absolute(lists, sources, dests))))
  {
    if lists != [] {
      var n := |lists| - 1;
      SameTotal(lists[..n], sources[..n], dests[..n]);
      var all := Absolute(lists, sources, dests);
      assert all[..n] == Absolute(lists[..n], sources[..n], dests[..n]);
      var moved := Shifted(lists[n], sources[n], dests[n]);
      assert SourceRanges(Concat(all)) == SourceRanges(Concat(all[..n])) + SourceRanges(moved);
      assert SourceRanges(Concat(lists)) == SourceRanges(Concat(lists[..n])) + SourceRanges(lists[n]);
      assert SameWidths(SourceRanges(lists[n]), SourceRanges(moved));
    }
  }
}
