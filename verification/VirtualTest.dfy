/**
 A multi-threaded test on virtual addresses, from the seed to its outcome.
 */
module VirtualTest {
  import opened Rand
  import opened DmaMachine
  import opened TransferLists
  import opened Ranges
  import opened Interleaving
  import opened PhysicalLayout
  import opened ProgramWriter
  import opened MultithreadTest
  import opened Generation
  import opened Rounds
  import opened Scheduler
  import opened PageChoice
  import opened VirtualLayout
  import opened TranslatedRuns

  // ------------------------------------------------------ rounds through the TLB

  function AfterThrough(floor: nat, programs: seq<seq<Instr>>, tlb: seq<Entry>, start: System, rounds: seq<seq<nat>>, n: nat)
    : (r: System)
    requires Runnable(programs, start, rounds) && n <= |rounds|
    ensures |r.threads| == |programs| && forall i :: 0 <= i < |programs| ==> r.threads[i].Valid()
  {
    RunThrough(floor, programs, tlb, start, Played(|programs|, rounds, n))
  }

  function ReadinessThrough(floor: nat, programs: seq<seq<Instr>>, tlb: seq<Entry>, start: System, rounds: seq<seq<nat>>)
    : (ready: seq<seq<bool>>)
    requires Runnable(programs, start, rounds)
    ensures |ready| == |rounds| && Answers(|programs|, ready)
  {
    seq(|rounds|, r requires 0 <= r < |rounds| => ReadyThreads(AfterThrough(floor, programs, tlb, start, rounds, r + 1)))
  }

  lemma {:induction false} StoppedStaysThrough(floor: nat, programs: seq<seq<Instr>>, tlb: seq<Entry>, sys: System,
                                               a: seq<nat>, b: seq<nat>, i: nat)
    requires |programs| == |sys.threads| && (forall i :: 0 <= i < |programs| ==> sys.threads[i].Valid())
    requires (forall n :: 0 <= n < |a| ==> a[n] < |programs|) && forall n :: 0 <= n < |b| ==> b[n] < |programs|
    requires i < |programs| && RunThrough(floor, programs, tlb, sys, a).threads[i].status.Stopped?
    ensures RunThrough(floor, programs, tlb, sys, a + b).threads[i].status.Stopped?
  {
    if b == [] {
      assert a + b == a;
    } else {
      assert (a + b)[..|a + b| - 1] == a + b[..|b| - 1];
      StoppedStaysThrough(floor, programs, tlb, sys, a, b[..|b| - 1], i);
    }
  }

  lemma {:induction false} StoppedSinceThrough(floor: nat, programs: seq<seq<Instr>>, tlb: seq<Entry>, start: System,
                                               rounds: seq<seq<nat>>, m: nat, n: nat, i: nat)
    requires Runnable(programs, start, rounds) && m <= n <= |rounds| && i < |programs|
    requires AfterThrough(floor, programs, tlb, start, rounds, m).threads[i].status.Stopped?
    ensures AfterThrough(floor, programs, tlb, start, rounds, n).threads[i].status.Stopped?
    decreases n
  {
    if m < n {
      StoppedSinceThrough(floor, programs, tlb, start, rounds, m, n - 1, i);
      StoppedStaysThrough(floor, programs, tlb, start, Played(|programs|, rounds, n - 1), rounds[n - 1], i);
    }
  }

  /** Once every thread has been seen ready, every thread has stopped. */
  lemma AllSeenStopped(floor: nat, programs: seq<seq<Instr>>, tlb: seq<Entry>, start: System, rounds: seq<seq<nat>>,
                       log: seq<Check>)
    requires Runnable(programs, start, rounds)
    requires Faithful(|programs|, ReadinessThrough(floor, programs, tlb, start, rounds), log) && AllSeen(log, |programs|)
    ensures AllStopped(AfterThrough(floor, programs, tlb, start, rounds, |log|))
  {
    forall i | 0 <= i < |programs|
      ensures AfterThrough(floor, programs, tlb, start, rounds, |log|).threads[i].status.Stopped?
    {
      var q := SeenMeansReady(|programs|, ReadinessThrough(floor, programs, tlb, start, rounds), log, i);
      StoppedSinceThrough(floor, programs, tlb, start, rounds, q + 1, |log|, i);
    }
  }

  // -------------------------------------------------------------- alignment

  lemma PageAligned(pn: nat, window: nat, size: nat)
    requires size < 6 && (window == 0 || window == WINDOW)
    ensures MultipleOf(Width(size), window + 2 * pn * PAGE)
  {
    var q: nat := (if window == 0 then 0 else WINDOW / 32) + 256 * pn;
    assert window + 2 * pn * PAGE == 32 * q;
    BaseAligned(q, size);
  }

  /** Every transfer address of a virtual test is aligned, as the thread sees it and as the test program does. */
  lemma VirtualInPlace(floor: nat, rs: seq<Recipe>, states: seq<State>, seed: State, phys: seq<Pair>, virt: seq<Pair>)
    requires MadeFrom(rs, states, seed) && |phys| == |virt| == |rs|
    ensures AllInPlace(Concat(Absolute(Lists(floor, Threads(rs)), Bases(Source, phys), Bases(Destination, phys))))
    ensures AllInPlace(Concat(Absolute(Lists(floor, Threads(rs)), VirtBases(Source, virt), VirtBases(Destination, virt))))
  {
    var lists := Lists(floor, Threads(rs));
    EveryListAligned(floor, rs, states, seed);
    forall i | 0 <= i < |rs|
      ensures AllInPlace(Absolute(lists, Bases(Source, phys), Bases(Destination, phys))[i])
      ensures AllInPlace(Absolute(lists, VirtBases(Source, virt), VirtBases(Destination, virt))[i])
    {
      OneThreadInPlace(floor, rs, states, seed, phys, virt, i);
    }
    ConcatInPlace(Absolute(lists, Bases(Source, phys), Bases(Destination, phys)));
    ConcatInPlace(Absolute(lists, VirtBases(Source, virt), VirtBases(Destination, virt)));
  }

  lemma OneThreadInPlace(floor: nat, rs: seq<Recipe>, states: seq<State>, seed: State,
                         phys: seq<Pair>, virt: seq<Pair>, i: nat)
    requires MadeFrom(rs, states, seed) && |phys| == |virt| == |rs| && i < |rs| && AlignedList(Lists(floor, Threads(rs))[i])
    ensures var list := Lists(floor, Threads(rs))[i];
            && AllInPlace(Shifted(list, Bases(Source, phys)[i], Bases(Destination, phys)[i]))
            && AllInPlace(Shifted(list, VirtBases(Source, virt)[i], VirtBases(Destination, virt)[i]))
  {
    var list, size := Lists(floor, Threads(rs))[i], rs[i].size;
    MadeFacts(rs, states, seed, i);
    NeverOverwrites(floor, rs[i].code, size, 0, 0);
    PageAligned(phys[i].source, WINDOW, size);
    PageAligned(phys[i].dest, WINDOW, size);
    PageAligned(virt[i].source, 0, size);
    PageAligned(virt[i].dest, 0, size);
    ShiftedInPlace(list, Bases(Source, phys)[i], Bases(Destination, phys)[i]);
    ShiftedInPlace(list, VirtBases(Source, virt)[i], VirtBases(Destination, virt)[i]);
  }

  // ----------------------------------------------------- from seed to verdict

  /** Once all threads have stopped, every readiness check finds its thread ready. */
  lemma ReadyOnceStopped(floor: nat, programs: seq<seq<Instr>>, tlb: seq<Entry>, start: System, rounds: seq<seq<nat>>, m: nat)
    requires Runnable(programs, start, rounds) && m <= |rounds|
    requires AllStopped(AfterThrough(floor, programs, tlb, start, rounds, m))
    ensures ReadyFrom(|programs|, ReadinessThrough(floor, programs, tlb, start, rounds), m)
  {
    var ready := ReadinessThrough(floor, programs, tlb, start, rounds);
    forall r, t | m <= r < |ready| && 0 <= t < |programs| ensures ready[r][t] {
      StoppedSinceThrough(floor, programs, tlb, start, rounds, m, r + 1, t);
    }
  }

  /** Once every thread has had enough turns, every readiness check finds its thread ready. */
  lemma {:induction false} EnoughIsReadyThrough(floor: nat, gs: seq<ThreadProgram>, tlb: seq<Entry>, phys: seq<Pair>, virt: seq<Pair>,
                                                threads: seq<Thread>, mem: Memory, rounds: seq<seq<nat>>, m: nat, start: System)
    requires |gs| == |phys| && forall i :: 0 <= i < |gs| ==> gs[i].Writable()
    requires Covers(tlb, phys, virt, Lists(floor, gs)) && NoDuplicates(InUse(phys, Lists(floor, gs)))
    requires AllStarted(threads, VirtBases(Source, virt), VirtBases(Destination, virt))
    requires Playable(|gs|, rounds) && EnoughTurns(floor, gs, rounds, m)
    requires start == System(threads, mem) && Runnable(Programs(gs), start, rounds)
    ensures ReadyFrom(|gs|, ReadinessThrough(floor, Programs(gs), tlb, start, rounds), m)
  {
    VirtualThreadsStop(floor, gs, tlb, phys, virt, threads, mem, Played(|gs|, rounds, m),
                       AfterThrough(floor, Programs(gs), tlb, start, rounds, m));
    ReadyOnceStopped(floor, Programs(gs), tlb, start, rounds, m);
  }

  lemma {:induction false} EnoughIsDoneThrough(floor: nat, gs: seq<ThreadProgram>, tlb: seq<Entry>, phys: seq<Pair>, virt: seq<Pair>,
                                               threads: seq<Thread>, mem: Memory, rounds: seq<seq<nat>>, start: System, done: bool)
    requires |gs| == |phys| && forall i :: 0 <= i < |gs| ==> gs[i].Writable()
    requires Covers(tlb, phys, virt, Lists(floor, gs)) && NoDuplicates(InUse(phys, Lists(floor, gs)))
    requires AllStarted(threads, VirtBases(Source, virt), VirtBases(Destination, virt))
    requires Playable(|gs|, rounds) && start == System(threads, mem) && Runnable(Programs(gs), start, rounds)
    requires forall m: nat ::
               ReadyFrom(|gs|, ReadinessThrough(floor, Programs(gs), tlb, start, rounds), m) && m + |gs| <= |rounds| ==> done
    ensures forall m: nat :: EnoughTurns(floor, gs, rounds, m) && m + |gs| <= |rounds| ==> done
  {
    forall m: nat | EnoughTurns(floor, gs, rounds, m) && m + |gs| <= |rounds| ensures done {
      EnoughIsReadyThrough(floor, gs, tlb, phys, virt, threads, mem, rounds, m, start);
    }
  }

  lemma Outcome(floor: nat, gs: seq<ThreadProgram>, lists: seq<seq<Transfer>>, tlb: seq<Entry>, phys: seq<Pair>, virt: seq<Pair>,
                threads: seq<Thread>, mem: Memory, rounds: seq<seq<nat>>, n: nat, start: System, end: System, asserts: seq<Cell>,
                done: bool)
    requires |gs| == |phys| && forall i :: 0 <= i < |gs| ==> gs[i].Writable()
    requires lists == Lists(floor, gs) && |virt| == |gs| && MapsPages(tlb, InUse(phys, lists), InUse(virt, lists))
    requires AllStarted(threads, VirtBases(Source, virt), VirtBases(Destination, virt))
    requires Playable(|gs|, rounds) && n <= |rounds|
    requires var all := Concat(Absolute(lists, Bases(Source, phys), Bases(Destination, phys)));
             start == System(threads, Prepared(mem, all)) && asserts == Expected(all)
    requires Runnable(Programs(gs), start, rounds) && end == AfterThrough(floor, Programs(gs), tlb, start, rounds, n)
    requires forall m: nat ::
               ReadyFrom(|gs|, ReadinessThrough(floor, Programs(gs), tlb, start, rounds), m) && m + |gs| <= |rounds| ==> done
    ensures NoDuplicates(InUse(phys, lists)) && NoDuplicates(InUse(virt, lists)) ==>
              NoFaults(end) && (AllStopped(end) ==> Passes(end.mem, asserts))
    ensures NoDuplicates(InUse(phys, lists)) && NoDuplicates(InUse(virt, lists)) ==>
              forall m: nat :: EnoughTurns(floor, gs, rounds, m) && m + |gs| <= |rounds| ==> done
  {
    if NoDuplicates(InUse(phys, lists)) && NoDuplicates(InUse(virt, lists)) {
      EnoughIsDoneThrough(floor, gs, tlb, phys, virt, threads, start.mem, rounds, start, done);
      VirtualTestPasses(floor, gs, tlb, phys, virt, threads, mem, Played(|gs|, rounds, n),
                        Concat(Absolute(lists, Bases(Source, phys), Bases(Destination, phys))), end);
    }
  }

  /** The multi-threaded test program, run on virtual addresses. */
  method RunVirtual(floor: nat, programs: seq<seq<Instr>>, lists: seq<seq<Transfer>>, regs: seq<nat>,
                    phys: seq<Pair>, virt: seq<Pair>, tlb: seq<Entry>,
                    mem: Memory, writes: seq<Cell>, asserts: seq<Cell>, rounds: seq<seq<nat>>, rng: Rng,
                    ghost gs: seq<ThreadProgram>)
    returns (done: bool, divided: bool, sys: System, ghost start: System, ghost log: seq<Check>)
    requires |regs| == LOOP_REGISTERS && programs == Programs(gs) && lists == Lists(floor, gs) && Playable(|gs|, rounds)
    requires |phys| == |virt| == |gs| && forall i :: 0 <= i < |gs| ==> gs[i].Writable()
    requires MapsPages(tlb, InUse(phys, lists), InUse(virt, lists))
    requires var all := Concat(Absolute(lists, Bases(Source, phys), Bases(Destination, phys)));
             writes == Numbered(Cells(SourceRanges(all))) && asserts == Numbered(Cells(DestRanges(all)))
    modifies rng
    ensures AllStarted(start.threads, VirtBases(Source, virt), VirtBases(Destination, virt))
    ensures start.mem == Write(mem, writes) && forall i :: 0 <= i < |start.threads| ==> start.threads[i].regs == regs
    ensures Runnable(programs, start, rounds)
    ensures Logged(|gs|, ReadinessThrough(floor, programs, tlb, start, rounds), old(rng.next), log, done) && (divided <==> done)
    ensures sys == AfterThrough(floor, programs, tlb, start, rounds, |log|)
    ensures done ==> AllStopped(sys)
    ensures NoDuplicates(InUse(phys, lists)) && NoDuplicates(InUse(virt, lists)) ==>
              NoFaults(sys) && (done ==> Passes(sys.mem, asserts))
    ensures NoDuplicates(InUse(phys, lists)) && NoDuplicates(InUse(virt, lists)) ==>
              forall m: nat :: EnoughTurns(floor, gs, rounds, m) && m + |gs| <= |rounds| ==> done
  {
    var s, d := VirtBases(Source, virt), VirtBases(Destination, virt);
    var threads := seq(|programs|, i requires 0 <= i < |programs| => Thread(0, s[i], d[i], regs, Running));
    var begin := System(threads, Write(mem, writes));
    start := begin;
    var checks;
    done, divided, checks, log := Test(|programs|, ReadinessThrough(floor, programs, tlb, begin, rounds), rng);
    sys := AfterThrough(floor, programs, tlb, begin, rounds, checks);
    if done {
      AllSeenStopped(floor, programs, tlb, begin, rounds, log);
    }
    Outcome(floor, gs, lists, tlb, phys, virt, threads, mem, rounds, checks, begin, sys, asserts, done);
  }

  /** The whole pipeline on virtual addresses.  When no page happens to be taken twice, no thread faults and a test that
      comes to its end passes, whatever order the engine executes the instructions in; and it does come to its end if it is
      given enough turns and then a round for every thread. */
  method GenerateAndRunVirtual(floor: nat, seed: State, count: nat, regs: seq<nat>, physDraws: seq<nat>, virtDraws: seq<nat>,
                               mem: Memory, rounds: seq<seq<nat>>, rng: Rng)
    returns (ok: bool, placed: bool, done: bool, divided: bool, sys: System, asserts: seq<Cell>,
             ghost rs: seq<Recipe>, ghost states: seq<State>,
             ghost phys: seq<Pair>, ghost virt: seq<Pair>, ghost tlb: seq<Entry>, ghost start: System, ghost log: seq<Check>)
    requires |regs| == LOOP_REGISTERS && Playable(count, rounds)
    modifies rng
    ensures MadeFrom(rs, states, seed) && |rs| <= count && (ok <==> AllWritable(rs)) && (ok ==> |rs| == count)
    ensures ok ==> var lists := Lists(floor, Threads(rs));
                   && (placed <==> Choice(lists, count, physDraws).Some? && Choice(lists, count, virtDraws).Some?)
                   && (placed ==> phys == Choice(lists, count, physDraws).value.pairs
                                  && virt == Choice(lists, count, virtDraws).value.pairs)
    ensures ok && placed ==> var all := Concat(Absolute(Lists(floor, Threads(rs)), Bases(Source, phys), Bases(Destination, phys)));
                             && AllStarted(start.threads, VirtBases(Source, virt), VirtBases(Destination, virt))
                             && start.mem == Prepared(mem, all)
                             && (forall i :: 0 <= i < |start.threads| ==> start.threads[i].regs == regs)
                             && (NoDuplicates(InUse(phys, Lists(floor, Threads(rs)))) ==>
                                   Begins(start, VirtBases(Source, virt), VirtBases(Destination, virt),
                                          seq(count, _ => regs), mem, all))
    ensures ok && placed ==> Runnable(Programs(Threads(rs)), start, rounds)
                             && Logged(count, ReadinessThrough(floor, Programs(Threads(rs)), tlb, start, rounds), seed, log, done)
                             && sys == AfterThrough(floor, Programs(Threads(rs)), tlb, start, rounds, |log|)
                             && (divided <==> done) && (done ==> AllStopped(sys))
    ensures ok && placed ==> var lists := Lists(floor, Threads(rs));
                             && MapsPages(tlb, InUse(phys, lists), InUse(virt, lists))
                             && asserts == Expected(Concat(Absolute(lists, Bases(Source, phys), Bases(Destination, phys))))
                             && (NoDuplicates(InUse(phys, lists)) && NoDuplicates(InUse(virt, lists)) ==>
                                   && NoFaults(sys) && (done ==> Passes(sys.mem, asserts))
                                   && forall m: nat :: EnoughTurns(floor, Threads(rs), rounds, m) && m + count <= |rounds| ==> done)
  {
    var programs, lists;
    placed, done, divided, sys, asserts := false, false, false, System([], mem), [];
    phys, virt, tlb, start, log := [], [], [], System([], mem), [];
    ok, programs, lists, rs, states := GenerateThreads(floor, seed, count, regs, rng);
    if ok {
      EveryListRises(floor, Threads(rs));
      var p, v, entries, writes;
      placed, p, v, entries, writes, asserts := PrintVirtualisedTestInformation(lists, physDraws, virtDraws);
      phys, virt, tlb := p, v, entries;
      if placed {
        var own := new Rng(seed);
        done, divided, sys, start, log :=
          RunVirtual(floor, programs, lists, regs, p, v, entries, mem, writes, asserts, rounds, own, Threads(rs));
        if NoDuplicates(InUse(phys, lists)) {
          SourcesReady(start, VirtBases(Source, virt), VirtBases(Destination, virt), regs, mem,
                       Concat(Absolute(lists, Bases(Source, phys), Bases(Destination, phys))));
        }
      }
    }
  }
}
