/**
 The test program's loop: switch between active threads as fast as possible, and drop a thread once it has been
 seen ready.
 */
module Scheduler {
  import opened Rand

  // --------------------------------------------- what the test program has seen

  /** A round of the test program: the three threads it switched to, and whether the last of them was ready. */
  datatype Check = Check(switched: seq<nat>, ready: bool) {
    predicate Saw(t: nat) { ready && |switched| == 3 && switched[2] == t }
  }

  ghost predicate SeenReady(log: seq<Check>, t: nat) {
    exists q :: 0 <= q < |log| && log[q].Saw(t)
  }

  ghost predicate AllSeen(log: seq<Check>, count: nat) {
    forall t: nat :: t < count ==> SeenReady(log, t)
  }

  /** ready[r][t] is what a readiness check of thread t in round r finds. */
  predicate Answers(count: nat, ready: seq<seq<bool>>) {
    forall r :: 0 <= r < |ready| ==> |ready[r]| == count
  }

  /** Round r switched to threads that had not been seen ready before, and found the last of them as it was. */
  ghost predicate RoundAt(count: nat, ready: seq<seq<bool>>, log: seq<Check>, r: nat)
    requires Answers(count, ready) && r < |log| <= |ready|
  {
    var c := log[r];
    && |c.switched| == 3
    && (forall h :: 0 <= h < 3 ==> c.switched[h] < count && !SeenReady(log[..r], c.switched[h]))
    && c.ready == ready[r][c.switched[2]]
  }

  ghost predicate Faithful(count: nat, ready: seq<seq<bool>>, log: seq<Check>)
    requires Answers(count, ready)
  {
    |log| <= |ready| && forall r :: 0 <= r < |log| ==> RoundAt(count, ready, log, r)
  }

  lemma SeenNext(log: seq<Check>, c: Check, t: nat)
    ensures SeenReady(log + [c], t) <==> SeenReady(log, t) || c.Saw(t)
  {
    if SeenReady(log, t) {
      var q :| 0 <= q < |log| && log[q].Saw(t);
      assert (log + [c])[q].Saw(t);
    }
    assert (log + [c])[|log|] == c;
  }

  lemma FaithfulNext(count: nat, ready: seq<seq<bool>>, log: seq<Check>, c: Check)
    requires Answers(count, ready) && Faithful(count, ready, log) && |log| < |ready|
    requires |c.switched| == 3 && forall h :: 0 <= h < 3 ==> c.switched[h] < count && !SeenReady(log, c.switched[h])
    requires c.ready == ready[|log|][c.switched[2]]
    ensures Faithful(count, ready, log + [c])
  {
    forall r | 0 <= r < |log| + 1 ensures RoundAt(count, ready, log + [c], r) {
      assert (log + [c])[..r] == log[..r];
      if r < |log| {
        assert RoundAt(count, ready, log, r);
      } else {
        assert log[..r] == log;
      }
    }
  }

  /** Every thread that was seen ready was ready in some round. */
  lemma SeenMeansReady(count: nat, ready: seq<seq<bool>>, log: seq<Check>, t: nat) returns (q: nat)
    requires Answers(count, ready) && Faithful(count, ready, log) && SeenReady(log, t)
    ensures q < |log| && t < count && ready[q][t]
  {
    var k :| 0 <= k < |log| && log[k].Saw(t);
    assert RoundAt(count, ready, log, k);
    q := k;
  }

  /** How many checks found their thread ready. */
  function Found(log: seq<Check>): (n: nat)
    ensures n <= |log|
  {
    if log == [] then 0 else Found(log[..|log| - 1]) + if log[|log| - 1].ready then 1 else 0
  }

  lemma FoundNext(log: seq<Check>, c: Check)
    ensures Found(log + [c]) == Found(log) + if c.ready then 1 else 0
  {
    assert (log + [c])[..|log|] == log;
  }

  /** From round m on, every thread is ready. */
  ghost predicate ReadyFrom(count: nat, ready: seq<seq<bool>>, m: nat)
    requires Answers(count, ready)
  {
    forall r, t :: m <= r < |ready| && 0 <= t < count ==> ready[r][t]
  }

  /** From round m on the answers do not change, and what was ready before is ready then: a thread that has stopped stays
      stopped. */
  ghost predicate Settled(count: nat, ready: seq<seq<bool>>, m: nat)
    requires Answers(count, ready)
  {
    && m < |ready|
    && (forall r, t :: 0 <= r < |ready| && 0 <= t < count && ready[r][t] ==> ready[m][t])
    && (forall r, t :: m <= r < |ready| && 0 <= t < count && ready[m][t] ==> ready[r][t])
  }

  /** Thread t is ready in no round. */
  ghost predicate NeverReady(count: nat, ready: seq<seq<bool>>, t: nat)
    requires Answers(count, ready)
  {
    t < count && forall r :: 0 <= r < |ready| ==> !ready[r][t]
  }

  lemma {:induction false} FoundFrom(count: nat, ready: seq<seq<bool>>, log: seq<Check>, m: nat, n: nat)
    requires Answers(count, ready) && Faithful(count, ready, log) && ReadyFrom(count, ready, m) && n <= |log|
    ensures Found(log[..n]) >= n - m
  {
    if n > m {
      FoundFrom(count, ready, log, m, n - 1);
      assert RoundAt(count, ready, log, n - 1);
      assert log[..n][..n - 1] == log[..n - 1];
    }
  }

  // ------------------------------------------------------------ active threads

  /** The first count threads of the array are distinct, and are those not yet seen ready. */
  ghost predicate Active(active: seq<nat>, count: nat, threads: nat, log: seq<Check>)
    requires count <= |active|
  {
    && (forall j, k :: 0 <= j < k < count ==> active[j] != active[k])
    && (forall k :: 0 <= k < count ==> active[k] < threads)
    && (forall t: nat :: t < threads ==> (t in active[..count] <==> !SeenReady(log, t)))
  }

  lemma EverybodyActive(active: seq<nat>)
    requires forall h :: 0 <= h < |active| ==> active[h] == h
    ensures Active(active, |active|, |active|, [])
  {
    forall t | 0 <= t < |active| ensures t in active[..|active|] {
      assert active[..|active|][t] == t;
    }
  }

  /** Copying the last active thread over one of them removes exactly that one. */
  lemma SwapRemove(active: seq<nat>, count: nat, index: nat, t: nat)
    requires 0 < count <= |active| && index < count
    requires forall j, k :: 0 <= j < k < count ==> active[j] != active[k]
    ensures t in active[index := active[count - 1]][..count - 1] <==> t in active[..count] && t != active[index]
  {
    var after := active[index := active[count - 1]][..count - 1];
    if t in active[..count] && t != active[index] {
      var k :| 0 <= k < count && active[k] == t;
      assert after[if k == count - 1 then index else k] == t;
    }
    if t in after {
      var k :| 0 <= k < count - 1 && after[k] == t;
      assert active[..count][if k == index then count - 1 else k] == t;
    }
  }

  lemma ActiveNext(active: seq<nat>, count: nat, threads: nat, log: seq<Check>, c: Check, index: nat)
    requires 0 < count <= |active| && Active(active, count, threads, log) && index < count
    requires |c.switched| == 3 && c.switched[2] == active[index]
    ensures !c.ready ==> Active(active, count, threads, log + [c])
    ensures c.ready ==> Active(active[index := active[count - 1]], count - 1, threads, log + [c])
  {
    forall t: nat | t < threads
      ensures SeenReady(log + [c], t) <==> SeenReady(log, t) || c.Saw(t)
      ensures t in active[index := active[count - 1]][..count - 1] <==> t in active[..count] && t != active[index]
    {
      SeenNext(log, c, t);
      SwapRemove(active, count, index, t);
    }
  }

  // --------------------------------------- the active threads, in their order

  function IndexOf(active: seq<nat>, t: nat): (i: nat)
    ensures i <= |active| && (t in active <==> i < |active|) && (i < |active| ==> active[i] == t)
  {
    if active == [] then 0 else if active[0] == t then 0 else 1 + IndexOf(active[1..], t)
  }

  /** Thread t gives up its place to the last one. */
  function Drop(active: seq<nat>, t: nat): (r: seq<nat>)
    requires t in active
    ensures |r| == |active| - 1
  {
    active[IndexOf(active, t) := active[|active| - 1]][..|active| - 1]
  }

  /** The active threads, in their order, after these checks: each one that was found ready has been dropped. */
  function Order(count: nat, log: seq<Check>): seq<nat> {
    if log == [] then seq(count, (i: nat) => i)
    else
      var before, c := Order(count, log[..|log| - 1]), log[|log| - 1];
      if c.ready && |c.switched| == 3 && c.switched[2] in before then Drop(before, c.switched[2]) else before
  }

  /** The thread switched to is the active one at the index that this draw selects. */
  predicate DrawnFrom(active: seq<nat>, p: nat, t: nat) {
    active != [] && t == active[p % |active|]
  }

  /** In round r the threads are selected by the last three of the 4 * r + 3 draws made before it: three at first, and one for
      the waiting time and three for the threads in every round. */
  predicate DrawnAt(count: nat, seed: State, log: seq<Check>, r: nat)
    requires r < |log|
  {
    |log[r].switched| == 3
    && forall h :: 0 <= h < 3 ==> DrawnFrom(Order(count, log[..r]), Draw(Later(seed, 4 * r + h + 1)), log[r].switched[h])
  }

  /** The next three threads to switch to have been selected. */
  predicate Selected(count: nat, seed: State, log: seq<Check>, thread: seq<nat>) {
    |thread| == 3
    && forall h :: 0 <= h < 3 ==> DrawnFrom(Order(count, log), Draw(Later(seed, 4 * |log| + h + 1)), thread[h])
  }

  lemma DrawnNext(count: nat, seed: State, log: seq<Check>, c: Check)
    requires Selected(count, seed, log, c.switched) && forall r :: 0 <= r < |log| ==> DrawnAt(count, seed, log, r)
    ensures forall r :: 0 <= r < |log| + 1 ==> DrawnAt(count, seed, log + [c], r)
  {
    forall r | 0 <= r < |log| + 1 ensures DrawnAt(count, seed, log + [c], r) {
      assert (log + [c])[..r] == log[..r];
      if r < |log| {
        assert DrawnAt(count, seed, log, r);
      } else {
        assert log[..r] == log;
      }
    }
  }

  /** Threads picked by the draws after these. */
  lemma SelectedByDraws(count: nat, seed: State, log: seq<Check>, now: State, order: seq<nat>, index: seq<nat>, thread: seq<nat>)
    requires order == Order(count, log) && order != [] && |index| == |thread| == 3 && now == Later(seed, 4 * |log|)
    requires forall i :: 0 <= i < 3 ==> index[i] == Draw(Later(now, i + 1)) % |order| && thread[i] == order[index[i]]
    ensures Selected(count, seed, log, thread)
  {
    forall h | 0 <= h < 3 ensures DrawnFrom(order, Draw(Later(seed, 4 * |log| + h + 1)), thread[h]) {
      LaterAdds(seed, 4 * |log|, h + 1);
      assert 4 * |log| + (h + 1) == 4 * |log| + h + 1;
    }
  }

  /** The active threads are as many as have not been found ready, they are different from one another, and they are exactly
      those not seen ready. */
  lemma {:induction false} OrderIsActive(count: nat, ready: seq<seq<bool>>, log: seq<Check>)
    requires Answers(count, ready) && Faithful(count, ready, log)
    ensures Active(Order(count, log), |Order(count, log)|, count, log)
    ensures |Order(count, log)| == count - Found(log)
  {
    if log == [] {
      EverybodyActive(Order(count, log));
    } else {
      var n := |log| - 1;
      var before, c := log[..n], log[n];
      FaithfulBefore(count, ready, log);
      OrderIsActive(count, ready, before);
      assert log == before + [c] && RoundAt(count, ready, log, n);
      StillActive(count, before, c, Order(count, before));
      FoundNext(before, c);
    }
  }

  lemma StillActive(count: nat, log: seq<Check>, c: Check, a: seq<nat>)
    requires a == Order(count, log) && Active(a, |a|, count, log)
    requires |c.switched| == 3 && c.switched[2] < count && !SeenReady(log, c.switched[2])
    ensures Active(Order(count, log + [c]), |Order(count, log + [c])|, count, log + [c])
    ensures |Order(count, log + [c])| == |a| - if c.ready then 1 else 0
  {
    assert c.switched[2] in a[..|a|];
    var index := IndexOf(a, c.switched[2]);
    OrderNext(count, log, c, index);
    ActiveNext(a, |a|, count, log, c, index);
    if c.ready {
      JustActive(a[index := a[|a| - 1]], |a| - 1, count, log + [c]);
    }
  }

  lemma JustActive(active: seq<nat>, n: nat, count: nat, log: seq<Check>)
    requires n <= |active| && Active(active, n, count, log)
    ensures Active(active[..n], n, count, log)
  {
    assert active[..n][..n] == active[..n];
  }

  lemma FaithfulBefore(count: nat, ready: seq<seq<bool>>, log: seq<Check>)
    requires Answers(count, ready) && Faithful(count, ready, log) && log != []
    ensures Faithful(count, ready, log[..|log| - 1])
  {
    var before := log[..|log| - 1];
    forall r | 0 <= r < |before| ensures RoundAt(count, ready, before, r) {
      assert RoundAt(count, ready, log, r) && before[..r] == log[..r];
    }
  }

  lemma OrderNext(count: nat, log: seq<Check>, c: Check, index: nat)
    requires |c.switched| == 3
    requires var a := Order(count, log);
             index < |a| && c.switched[2] == a[index] && forall j, k :: 0 <= j < k < |a| ==> a[j] != a[k]
    ensures var a := Order(count, log);
            Order(count, log + [c]) == if c.ready then a[index := a[|a| - 1]][..|a| - 1] else a
  {
    var a := Order(count, log);
    assert (log + [c])[..|log|] == log;
    assert a[IndexOf(a, c.switched[2])] == a[index];
  }

  lemma UnseenWhenActive(active: seq<nat>, count: nat, threads: nat, log: seq<Check>, k: nat)
    requires count <= |active| && Active(active, count, threads, log) && k < count
    ensures active[k] < threads && !SeenReady(log, active[k])
  {
    assert active[..count][k] == active[k];
  }

  lemma NobodyActive(active: seq<nat>, count: nat, threads: nat, log: seq<Check>)
    requires count <= |active| && Active(active, count, threads, log)
    ensures count == 0 <==> AllSeen(log, threads)
  {
    if count != 0 {
      UnseenWhenActive(active, count, threads, log, 0);
    }
  }

  /** What one round of the loop adds to the account. */
  lemma RoundKeeps(count: nat, ready: seq<seq<bool>>, log: seq<Check>, active: seq<nat>, left: nat,
                   threadIndex: seq<nat>, c: Check)
    requires Answers(count, ready) && Faithful(count, ready, log) && |log| < |ready|
    requires 0 < left <= |active| && Active(active, left, count, log)
    requires |threadIndex| == |c.switched| == 3
    requires forall i :: 0 <= i < 3 ==> threadIndex[i] < left && c.switched[i] == active[threadIndex[i]]
    requires c.switched[2] < count ==> c.ready == ready[|log|][c.switched[2]]
    ensures Faithful(count, ready, log + [c])
    ensures !c.ready ==> Active(active, left, count, log + [c])
    ensures c.ready ==> Active(active[threadIndex[2] := active[left - 1]], left - 1, count, log + [c])
  {
    forall i | 0 <= i < 3 ensures c.switched[i] < count && !SeenReady(log, c.switched[i]) {
      UnseenWhenActive(active, left, count, log, threadIndex[i]);
    }
    FaithfulNext(count, ready, log, c);
    ActiveNext(active, left, count, log, c, threadIndex[2]);
  }

  /** When the loop comes to its end, in terms of the answers alone. */
  lemma WhenDone(count: nat, ready: seq<seq<bool>>, log: seq<Check>, done: bool)
    requires Answers(count, ready) && Faithful(count, ready, log)
    requires (done <==> AllSeen(log, count)) && (!done ==> |log| == |ready| && Found(log) < count)
    ensures forall m: nat :: ReadyFrom(count, ready, m) && m + count <= |ready| ==> done
    ensures forall t: nat :: NeverReady(count, ready, t) ==> !done
  {
    forall m: nat | ReadyFrom(count, ready, m) && m + count <= |ready| ensures done {
      FoundFrom(count, ready, log, m, |log|);
      assert log[..|log|] == log;
    }
    forall t: nat | NeverReady(count, ready, t) ensures !done {
      if done {
        assert SeenReady(log, t);
        var q := SeenMeansReady(count, ready, log, t);
      }
    }
  }

  /** Once the answers have settled for a round per thread, it has come to its end exactly if every thread is ready. */
  lemma DoneOnceSettled(count: nat, ready: seq<seq<bool>>, m: nat, done: bool)
    requires Answers(count, ready) && Settled(count, ready, m) && m + count <= |ready|
    requires ReadyFrom(count, ready, m) ==> done
    requires forall t: nat :: NeverReady(count, ready, t) ==> !done
    ensures done <==> forall t :: 0 <= t < count ==> ready[m][t]
  {
    if forall t :: 0 <= t < count ==> ready[m][t] {
      forall r, t | m <= r < |ready| && 0 <= t < count ensures ready[r][t] {
        assert ready[m][t];
      }
    } else {
      var t :| 0 <= t < count && !ready[m][t];
      assert NeverReady(count, ready, t);
    }
  }

  /** The log of a run of the loop from this seed: every round is as it should be, and the loop came to its end once every
      thread had been seen ready, or has used up the rounds. */
  ghost predicate Logged(count: nat, ready: seq<seq<bool>>, seed: State, log: seq<Check>, done: bool)
    requires Answers(count, ready)
  {
    && Faithful(count, ready, log) && (forall r :: 0 <= r < |log| ==> DrawnAt(count, seed, log, r))
    && (done <==> AllSeen(log, count)) && (!done ==> |log| == |ready|)
  }

  // ------------------------------------------------- the seed determines the run

  /** What the seed and the answers make of the first n rounds. */
  lemma {:induction false} SameRounds(count: nat, ready: seq<seq<bool>>, seed: State, a: seq<Check>, b: seq<Check>, n: nat)
    requires Answers(count, ready) && Faithful(count, ready, a) && Faithful(count, ready, b)
    requires forall r :: 0 <= r < |a| ==> DrawnAt(count, seed, a, r)
    requires forall r :: 0 <= r < |b| ==> DrawnAt(count, seed, b, r)
    requires n <= |a| && n <= |b|
    ensures a[..n] == b[..n]
  {
    if n != 0 {
      var r := n - 1;
      SameRounds(count, ready, seed, a, b, r);
      assert DrawnAt(count, seed, a, r) && DrawnAt(count, seed, b, r);
      assert RoundAt(count, ready, a, r) && RoundAt(count, ready, b, r);
      assert a[r].switched == b[r].switched;
      assert a[..n] == a[..r] + [a[r]] && b[..n] == b[..r] + [b[r]];
    }
  }

  /** The whole run is determined by the seed and the answers. */
  lemma SeedDeterminesRun(count: nat, ready: seq<seq<bool>>, seed: State, a: seq<Check>, b: seq<Check>, doneA: bool, doneB: bool)
    requires Answers(count, ready) && Logged(count, ready, seed, a, doneA) && Logged(count, ready, seed, b, doneB)
    ensures a == b && doneA == doneB
  {
    var n := if |a| <= |b| then |a| else |b|;
    SameRounds(count, ready, seed, a, b, n);
    assert a[..|a|] == a && b[..|b|] == b;
    if |a| < |b| {
      NotYetOver(count, ready, b, |a|);
    } else if |b| < |a| {
      NotYetOver(count, ready, a, |b|);
    }
  }

  lemma NotYetOver(count: nat, ready: seq<seq<bool>>, log: seq<Check>, n: nat)
    requires Answers(count, ready) && Faithful(count, ready, log) && n < |log|
    ensures !AllSeen(log[..n], count)
  {
    assert RoundAt(count, ready, log, n);
    var t := log[n].switched[0];
    assert t < count && !SeenReady(log[..n], t);
  }

  // ------------------------------------------------------------------ the loop

  /** At first every thread is active. */
  method EveryThread(count: nat) returns (active: array<nat>)
    ensures fresh(active) && active.Length == count && Active(active[..], count, count, []) && active[..] == Order(count, [])
  {
    active := new nat[count];
    for i := 0 to count
      invariant forall h :: 0 <= h < i ==> active[h] == h
    {
      active[i] := i;
    }
    EverybodyActive(active[..]);
  }

  /** thread_index[i] = myrand() % active_thread_count, for the three threads to switch to.  With no thread left the
      first remainder is taken modulo zero, and divided is true. */
  method PickThreads(rng: Rng, active: array<nat>, left: nat, threadIndex: array<nat>, thread: array<nat>) returns (divided: bool)
    requires left <= active.Length && threadIndex.Length == thread.Length == 3
    requires active != threadIndex && active != thread && threadIndex != thread
    modifies rng, threadIndex, thread
    ensures divided <==> left == 0
    ensures rng.next == Later(old(rng.next), if divided then 1 else 3)
    ensures !divided ==> forall i :: 0 <= i < 3 ==> threadIndex[i] == Draw(Later(old(rng.next), i + 1)) % left
    ensures !divided ==> forall i :: 0 <= i < 3 ==> threadIndex[i] < left && thread[i] == active[threadIndex[i]]
  {
    divided := false;
    for i := 0 to 3
      invariant !divided && rng.next == Later(old(rng.next), i)
      invariant left == 0 ==> i == 0
      invariant left != 0 ==> forall h :: 0 <= h < i ==> threadIndex[h] == Draw(Later(old(rng.next), h + 1)) % left
      invariant left != 0 ==> forall h :: 0 <= h < i ==> threadIndex[h] < left && thread[h] == active[threadIndex[h]]
    {
      var p := rng.MyRand();
      if left == 0 {
        assert Later(old(rng.next), 1) == Advance(Later(old(rng.next), 0));
        return true;
      }
      threadIndex[i] := p % left;
      thread[i] := active[threadIndex[i]];
    }
  }

  /** The next three threads to switch to, of those that are active after these checks. */
  method Pick(ghost count: nat, ghost seed: State, ghost log: seq<Check>,
              rng: Rng, active: array<nat>, left: nat, threadIndex: array<nat>, thread: array<nat>) returns (divided: bool)
    requires left <= active.Length && threadIndex.Length == thread.Length == 3
    requires active != threadIndex && active != thread && threadIndex != thread
    requires active[..left] == Order(count, log) && rng.next == Later(seed, 4 * |log|)
    modifies rng, threadIndex, thread
    ensures divided <==> left == 0
    ensures rng.next == Later(seed, 4 * |log| + if divided then 1 else 3)
    ensures !divided ==> forall i :: 0 <= i < 3 ==> threadIndex[i] < left && thread[i] == active[threadIndex[i]]
    ensures !divided ==> Selected(count, seed, log, thread[..])
  {
    ghost var now := rng.next;
    LaterAdds(seed, 4 * |log|, if left == 0 then 1 else 3);
    divided := PickThreads(rng, active, left, threadIndex, thread);
    if !divided {
      SelectedByDraws(count, seed, log, now, active[..left], threadIndex[..], thread[..]);
    }
  }

  /** See whether the last of the three threads is ready, and if so drop it. */
  method CheckReady(count: nat, ready: seq<seq<bool>>, active: array<nat>, left0: nat,
                    threadIndex: array<nat>, thread: array<nat>, round: nat, ghost log: seq<Check>)
    returns (left: nat, ghost now: seq<Check>)
    requires Answers(count, ready) && Faithful(count, ready, log) && round == |log| < |ready|
    requires 0 < left0 <= active.Length && Active(active[..], left0, count, log)
    requires threadIndex.Length == thread.Length == 3 && active != threadIndex && active != thread
    requires forall i :: 0 <= i < 3 ==> threadIndex[i] < left0 && thread[i] == active[threadIndex[i]]
    requires active[..left0] == Order(count, log)
    modifies active
    ensures now == log + [Check(thread[..], ready[round][thread[2]])] && Faithful(count, ready, now)
    ensures left <= left0 && Active(active[..], left, count, now) && active[..left] == Order(count, now)
    ensures left + Found(now) == left0 + Found(log)
  {
    UnseenWhenActive(active[..], left0, count, log, threadIndex[2]);
    var isReady := ready[round][thread[2]];
    now := log + [Check(thread[..], isReady)];
    FoundNext(log, Check(thread[..], isReady));
    RoundKeeps(count, ready, log, active[..], left0, threadIndex[..], Check(thread[..], isReady));
    OrderNext(count, log, Check(thread[..], isReady), threadIndex[2]);
    left := left0;
    if isReady {
      active[threadIndex[2]] := active[left0 - 1];
      left := left0 - 1;
    }
  }

  /** The account of the loop after these checks: which threads are active, and which are to be switched to next. */
  ghost predicate Account(count: nat, ready: seq<seq<bool>>, seed: State, log: seq<Check>, now: State,
                          active: seq<nat>, left: nat, threadIndex: seq<nat>, thread: seq<nat>)
    requires Answers(count, ready)
  {
    && Faithful(count, ready, log) && (forall r :: 0 <= r < |log| ==> DrawnAt(count, seed, log, r))
    && now == Later(seed, 4 * |log| + if left == 0 then 1 else 3)
    && left <= |active| && Active(active, left, count, log) && active[..left] == Order(count, log)
    && |threadIndex| == |thread| == 3
    && (left != 0 ==>
          && (forall i :: 0 <= i < 3 ==> threadIndex[i] < left && thread[i] == active[threadIndex[i]])
          && Selected(count, seed, log, thread))
  }

  /** One round of the loop: wait, check the third thread, and pick the next three. */
  method Round(count: nat, ready: seq<seq<bool>>, rng: Rng, active: array<nat>, left0: nat,
               threadIndex: array<nat>, thread: array<nat>, round: nat, ghost seed: State, ghost log: seq<Check>)
    returns (left: nat, divided: bool, ghost now: seq<Check>)
    requires Answers(count, ready) && round == |log| < |ready| && left0 != 0
    requires active != threadIndex && active != thread && threadIndex != thread
    requires Account(count, ready, seed, log, rng.next, active[..], left0, threadIndex[..], thread[..])
    modifies rng, active, threadIndex, thread
    ensures Account(count, ready, seed, now, rng.next, active[..], left, threadIndex[..], thread[..])
    ensures |now| == |log| + 1 && left <= left0 && left + Found(now) == left0 + Found(log) && (divided <==> left == 0)
  {
    var _ := rng.MyRand();          // wait_periods
    left, now := CheckReady(count, ready, active, left0, threadIndex, thread, round, log);
    DrawnNext(count, seed, log, now[round]);
    divided := Pick(count, seed, now, rng, active, left, threadIndex, thread);
  }

  /** The loop of test().  done says that it came to its end within these rounds, log is what it saw, and divided says that a
      thread was picked from none: after removing the last thread the loop draws three more. */
  method Test(count: nat, ready: seq<seq<bool>>, rng: Rng)
    returns (done: bool, divided: bool, checks: nat, ghost log: seq<Check>)
    requires Answers(count, ready)
    modifies rng
    ensures checks == |log| && Logged(count, ready, old(rng.next), log, done)
    ensures rng.next == Later(old(rng.next), 4 * |log| + if done then 1 else 3)
    ensures divided <==> done
    ensures forall m: nat :: ReadyFrom(count, ready, m) && m + count <= |ready| ==> done
    ensures forall t: nat :: NeverReady(count, ready, t) ==> !done
    ensures forall m: nat :: Settled(count, ready, m) && m + count <= |ready| ==>
              (divided <==> forall t :: 0 <= t < count ==> ready[m][t])
  {
    var left := count;
    var active := EveryThread(count);
    var threadIndex, thread := new nat[3], new nat[3];
    log := [];
    ghost var seed := rng.next;
    divided := Pick(count, seed, log, rng, active, left, threadIndex, thread);
    checks := 0;
    while left != 0 && checks < |ready|
      invariant 0 <= left <= count && checks == |log| <= |ready|
      invariant Account(count, ready, seed, log, rng.next, active[..], left, threadIndex[..], thread[..])
      invariant left + Found(log) == count && (divided <==> left == 0)
      decreases |ready| - checks
    {
      left, divided, log := Round(count, ready, rng, active, left, threadIndex, thread, checks, seed, log);
      checks := checks + 1;
    }
    done := left == 0;
    NobodyActive(active[..], left, count, log);
    WhenDone(count, ready, log, done);
    forall m: nat | Settled(count, ready, m) && m + count <= |ready|
      ensures done <==> forall t :: 0 <= t < count ==> ready[m][t]
    {
      DoneOnceSettled(count, ready, m, done);
    }
  }

  /** One thread that is ready at its first check: the loop comes to its end and draws modulo zero. */
  method OneReadyThread(rng: Rng) returns (divided: bool)
    modifies rng
    ensures divided
  {
    ghost var log;
    var done, checks;
    var ready := [[true]];
    assert ReadyFrom(1, ready, 0);
    done, divided, checks, log := Test(1, ready, rng);
  }
}
