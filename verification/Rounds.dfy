/**
 The instructions that the DMA engine executes between two readiness checks of a test program.
 */
module Rounds {
  import opened DmaMachine
  import opened Interleaving

  /** rounds[n] are the instructions that the engine executes, of whichever threads, up to the readiness check of
      round n. */
  predicate Playable(count: nat, rounds: seq<seq<nat>>) {
    forall r, n :: 0 <= r < |rounds| && 0 <= n < |rounds[r]| ==> rounds[r][n] < count
  }

  /** The instructions of the first n rounds. */
  function Played(count: nat, rounds: seq<seq<nat>>, n: nat): (p: seq<nat>)
    requires Playable(count, rounds) && n <= |rounds|
    ensures forall k :: 0 <= k < |p| ==> p[k] < count
  {
    if n == 0 then [] else Played(count, rounds, n - 1) + rounds[n - 1]
  }

  /** A system that can be run. */
  predicate Runnable(programs: seq<seq<Instr>>, start: System, rounds: seq<seq<nat>>) {
    && |programs| == |start.threads| && (forall i :: 0 <= i < |programs| ==> start.threads[i].Valid())
    && Playable(|programs|, rounds)
  }

  function After(floor: nat, programs: seq<seq<Instr>>, start: System, rounds: seq<seq<nat>>, n: nat): (r: System)
    requires Runnable(programs, start, rounds) && n <= |rounds|
    ensures |r.threads| == |programs| && forall i :: 0 <= i < |programs| ==> r.threads[i].Valid()
  {
    Run(floor, programs, start, Played(|programs|, rounds, n))
  }

  lemma {:induction false} RunAppend(floor: nat, programs: seq<seq<Instr>>, sys: System, a: seq<nat>, b: seq<nat>)
    requires |programs| == |sys.threads| && (forall i :: 0 <= i < |programs| ==> sys.threads[i].Valid())
    requires forall n :: 0 <= n < |a| ==> a[n] < |programs|
    requires forall n :: 0 <= n < |b| ==> b[n] < |programs|
    ensures Run(floor, programs, sys, a + b) == Run(floor, programs, Run(floor, programs, sys, a), b)
  {
    if b == [] {
      assert a + b == a;
    } else {
      var last := |b| - 1;
      assert (a + b)[..|a + b| - 1] == a + b[..last];
      RunAppend(floor, programs, sys, a, b[..last]);
    }
  }

  lemma {:induction false} StoppedStays(floor: nat, programs: seq<seq<Instr>>, sys: System, schedule: seq<nat>, i: nat)
    requires |programs| == |sys.threads| && (forall i :: 0 <= i < |programs| ==> sys.threads[i].Valid())
    requires forall n :: 0 <= n < |schedule| ==> schedule[n] < |programs|
    requires i < |programs| && sys.threads[i].status.Stopped?
    ensures Run(floor, programs, sys, schedule).threads[i].status.Stopped?
  {
    if schedule != [] {
      StoppedStays(floor, programs, sys, schedule[..|schedule| - 1], i);
    }
  }

  lemma {:induction false} StoppedSince(floor: nat, programs: seq<seq<Instr>>, start: System, rounds: seq<seq<nat>>,
                                        m: nat, n: nat, i: nat)
    requires Runnable(programs, start, rounds) && m <= n <= |rounds| && i < |programs|
    requires After(floor, programs, start, rounds, m).threads[i].status.Stopped?
    ensures After(floor, programs, start, rounds, n).threads[i].status.Stopped?
    decreases n
  {
    if m < n {
      StoppedSince(floor, programs, start, rounds, m, n - 1, i);
      RunAppend(floor, programs, start, Played(|programs|, rounds, n - 1), rounds[n - 1]);
      StoppedStays(floor, programs, After(floor, programs, start, rounds, n - 1), rounds[n - 1], i);
    }
  }

  /** What the readiness checks of all rounds would find: ready[r][t] is the answer for thread t after round r. */
  function Readiness(floor: nat, programs: seq<seq<Instr>>, start: System, rounds: seq<seq<nat>>): (ready: seq<seq<bool>>)
    requires Runnable(programs, start, rounds)
    ensures |ready| == |rounds| && forall r :: 0 <= r < |ready| ==> |ready[r]| == |programs|
  {
    seq(|rounds|, r requires 0 <= r < |rounds| => ReadyThreads(After(floor, programs, start, rounds, r + 1)))
  }

  function ReadyThreads(sys: System): (ready: seq<bool>)
    ensures |ready| == |sys.threads|
  {
    seq(|sys.threads|, t requires 0 <= t < |sys.threads| => sys.threads[t].status.Stopped?)
  }
}
