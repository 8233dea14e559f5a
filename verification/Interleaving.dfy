/**
 Any number of DMA threads that share one memory, run in any order one instruction
 at a time.
 */
module Interleaving {
  import opened DmaMachine
  import opened Ranges

  function SourceRange(t: Transfer): Range { Range(t.source, Width(t.size)) }

  function DestRange(t: Transfer): Range { Range(t.destination, Width(t.size)) }

  function SourceRanges(ts: seq<Transfer>): (r: seq<Range>)
    ensures |r| == |ts|
  {
    seq(|ts|, k requires 0 <= k < |ts| => SourceRange(ts[k]))
  }

  function DestRanges(ts: seq<Transfer>): (r: seq<Range>)
    ensures |r| == |ts|
  {
    seq(|ts|, k requires 0 <= k < |ts| => DestRange(ts[k]))
  }

  /** All transfers of all threads, thread after thread. */
  function Concat(lists: seq<seq<Transfer>>): seq<Transfer> {
    if lists == [] then [] else Concat(lists[..|lists| - 1]) + lists[|lists| - 1]
  }

  function Offset(lists: seq<seq<Transfer>>, i: nat): nat
    requires i <= |lists|
  {
    |Concat(lists[..i])|
  }

  lemma {:induction false} InConcat(lists: seq<seq<Transfer>>, i: nat, k: nat)
    requires i < |lists| && k < |lists[i]|
    ensures Offset(lists, i) + k < Offset(lists, i + 1) <= |Concat(lists)|
    ensures Concat(lists)[Offset(lists, i) + k] == lists[i][k]
  {
    var last := |lists| - 1;
    assert lists[..i + 1][..i] == lists[..i];
    if i < last {
      InConcat(lists[..last], i, k);
      assert lists[..last][..i] == lists[..i] && lists[..last][..i + 1] == lists[..i + 1];
    } else {
      assert lists[..i + 1] == lists;
    }
  }

  lemma {:induction false} OffsetsGrow(lists: seq<seq<Transfer>>, i: nat, j: nat)
    requires i <= j <= |lists|
    ensures Offset(lists, i) <= Offset(lists, j)
    decreases j - i
  {
    if i < j {
      assert lists[..i + 1][..i] == lists[..i];
      OffsetsGrow(lists, i + 1, j);
    }
  }

  // ----------------------------------------------------------------- system

  datatype System = System(threads: seq<Thread>, mem: Memory)

  function Copy(mem: Memory, t: Transfer): Memory {
    (a: nat) => if DestRange(t).Has(a) then mem(a - t.destination + t.source) else mem(a)
  }

  function CopyAll(mem: Memory, ts: seq<Transfer>): Memory {
    if ts == [] then mem else CopyAll(Copy(mem, ts[0]), ts[1..])
  }

  /** Thread i executes one instruction. */
  function Turn(floor: nat, programs: seq<seq<Instr>>, sys: System, i: nat): System
    requires |programs| == |sys.threads| && i < |programs| && sys.threads[i].Valid()
  {
    var o := Step(floor, programs[i], sys.threads[i]);
    System(sys.threads[i := o.thread], CopyAll(sys.mem, o.made))
  }

  /** The threads take turns as the schedule says. */
  function Run(floor: nat, programs: seq<seq<Instr>>, sys: System, schedule: seq<nat>): (r: System)
    requires |programs| == |sys.threads| && (forall i :: 0 <= i < |programs| ==> sys.threads[i].Valid())
    requires forall n :: 0 <= n < |schedule| ==> schedule[n] < |programs|
    ensures |r.threads| == |programs| && forall i :: 0 <= i < |programs| ==> r.threads[i].Valid()
  {
    if schedule == [] then sys
    else
      var before := Run(floor, programs, sys, schedule[..|schedule| - 1]);
      Turn(floor, programs, before, schedule[|schedule| - 1])
  }

  // -------------------------------------------------------------- invariant

  /** Programs, the threads that run them and all the transfers they will make. */
  datatype Setup = Setup(floor: nat, programs: seq<seq<Instr>>, starts: seq<Thread>, lists: seq<seq<Transfer>>) {

    ghost predicate Valid() {
      && |programs| == |starts| == |lists|
      && (forall i :: 0 <= i < |starts| ==> starts[i].Valid())
      && (forall i :: 0 <= i < |starts| ==> Stops(i))
      && Separate(SourceRanges(Concat(lists)), DestRanges(Concat(lists)))
    }

    /** Left to itself, thread i stops and makes exactly the transfers in its list. */
    ghost predicate Stops(i: nat)
      requires i < |programs| && i < |starts| && i < |lists| && starts[i].Valid()
    {
      exists n: nat :: StopsAfter(i, n)
    }

    ghost predicate StopsAfter(i: nat, n: nat)
      requires i < |programs| && i < |starts| && i < |lists| && starts[i].Valid()
    {
      var o := Exec(floor, programs[i], starts[i], n);
      o.thread.status.Stopped? && o.made == lists[i]
    }

    function At(i: nat, n: nat): Outcome
      requires i < |programs| && i < |starts| && starts[i].Valid()
    {
      Exec(floor, programs[i], starts[i], n)
    }
  }

  lemma {:induction false} MadeIsPrefix(s: Setup, i: nat, n: nat)
    requires s.Valid() && i < |s.programs|
    ensures s.At(i, n).made <= s.lists[i]
    ensures s.At(i, n).thread.status.Stopped? ==> s.At(i, n).made == s.lists[i]
  {
    assert s.Stops(i);
    var m: nat :| s.StopsAfter(i, m);
    if n <= m {
      ExecAdds(s.floor, s.programs[i], s.starts[i], n, m - n);
      if s.At(i, n).thread.status.Stopped? {
        HaltedStays(s.floor, s.programs[i], s.At(i, n).thread, m - n);
      }
    } else {
      ExecAdds(s.floor, s.programs[i], s.starts[i], m, n - m);
      HaltedStays(s.floor, s.programs[i], s.At(i, m).thread, n - m);
    }
  }

  /** Thread i has executed turns[i] instructions on its own account. */
  ghost predicate OnTrack(s: Setup, sys: System, turns: seq<nat>)
    requires s.Valid()
  {
    && |turns| == |sys.threads| == |s.programs|
    && forall i :: 0 <= i < |turns| ==> sys.threads[i] == s.At(i, turns[i]).thread
  }

  /** Transfer k of thread i has been made. */
  ghost predicate Made(s: Setup, turns: seq<nat>, i: nat, k: nat)
    requires s.Valid() && |turns| == |s.programs|
  {
    i < |turns| && k < |s.At(i, turns[i]).made| && k < |s.lists[i]|
  }

  /** Memory is what it was at first, but for the transfers made so far, and those hold what
      their sources held at first. */
  ghost predicate Consistent(s: Setup, before: Memory, now: Memory, turns: seq<nat>)
    requires s.Valid() && |turns| == |s.programs|
  {
    && (forall a: nat :: (forall i: nat, k: nat :: Made(s, turns, i, k) ==> !DestRange(s.lists[i][k]).Has(a)) ==> now(a) == before(a))
    && (forall i: nat, k: nat, x: nat :: Made(s, turns, i, k) && x < Width(s.lists[i][k].size) ==>
          Arrived(before, now, SourceRange(s.lists[i][k]), DestRange(s.lists[i][k]), x))
  }

  /** The transfers of all threads are apart from one another. */
  lemma TransfersApart(s: Setup, i: nat, k: nat, j: nat, l: nat)
    requires s.Valid() && i < |s.lists| && k < |s.lists[i]| && j < |s.lists| && l < |s.lists[j]|
    ensures SourceRange(s.lists[i][k]).Apart(DestRange(s.lists[j][l]))
    ensures (i, k) != (j, l) ==> DestRange(s.lists[i][k]).Apart(DestRange(s.lists[j][l]))
  {
    var all := Concat(s.lists);
    InConcat(s.lists, i, k);
    InConcat(s.lists, j, l);
    var p, q := Offset(s.lists, i) + k, Offset(s.lists, j) + l;
    if i < j {
      OffsetsGrow(s.lists, i + 1, j);
    } else if j < i {
      OffsetsGrow(s.lists, j + 1, i);
    }
    assert SourceRanges(all)[p].Apart(DestRanges(all)[q]);
    if p < q {
      assert DestRanges(all)[p].Apart(DestRanges(all)[q]);
    } else if q < p {
      assert DestRanges(all)[q].Apart(DestRanges(all)[p]);
    }
  }

  lemma TurnMakes(s: Setup, sys: System, turns: seq<nat>, i: nat) returns (made: seq<Transfer>)
    requires s.Valid() && OnTrack(s, sys, turns) && i < |turns|
    ensures made == Step(s.floor, s.programs[i], sys.threads[i]).made && |made| <= 1
    ensures s.At(i, turns[i] + 1).made == s.At(i, turns[i]).made + made
    ensures s.At(i, turns[i] + 1).thread == Step(s.floor, s.programs[i], sys.threads[i]).thread
    ensures |made| == 1 ==> var k := |s.At(i, turns[i]).made|; k < |s.lists[i]| && made[0] == s.lists[i][k]
  {
    var o := Step(s.floor, s.programs[i], sys.threads[i]);
    made := o.made;
    ExecAdds(s.floor, s.programs[i], s.starts[i], turns[i], 1);
    assert Exec(s.floor, s.programs[i], o.thread, 0) == Outcome(o.thread, []);
    assert o.made + [] == o.made;
    MadeIsPrefix(s, i, turns[i] + 1);
  }

  lemma MadeNext(s: Setup, turns: seq<nat>, i: nat, made: seq<Transfer>)
    requires s.Valid() && |turns| == |s.programs| && i < |turns|
    requires s.At(i, turns[i] + 1).made == s.At(i, turns[i]).made + made && |made| <= 1
    requires |made| == 1 ==> |s.At(i, turns[i]).made| < |s.lists[i]|
    ensures forall j: nat, k: nat :: Made(s, turns[i := turns[i] + 1], j, k)
                      <==> Made(s, turns, j, k) || (|made| == 1 && j == i && k == |s.At(i, turns[i]).made|)
  {
    var turns' := turns[i := turns[i] + 1];
    forall j: nat, k: nat
      ensures Made(s, turns', j, k) <==> Made(s, turns, j, k) || (|made| == 1 && j == i && k == |s.At(i, turns[i]).made|)
    {
      if j == i {
        assert turns'[j] == turns[i] + 1;
      } else if j < |turns| {
        assert turns'[j] == turns[j];
      }
    }
  }

  /** One turn of any thread keeps memory consistent. */
  lemma TurnKeeps(s: Setup, before: Memory, sys: System, turns: seq<nat>, i: nat)
    requires s.Valid() && OnTrack(s, sys, turns) && Consistent(s, before, sys.mem, turns) && i < |turns|
    ensures OnTrack(s, Turn(s.floor, s.programs, sys, i), turns[i := turns[i] + 1])
    ensures Consistent(s, before, Turn(s.floor, s.programs, sys, i).mem, turns[i := turns[i] + 1])
  {
    var turns' := turns[i := turns[i] + 1];
    var made := TurnMakes(s, sys, turns, i);
    MadeNext(s, turns, i, made);
    if |made| == 1 {
      var t, n := made[0], |s.At(i, turns[i]).made|;
      assert CopyAll(sys.mem, made) == Copy(sys.mem, t) by { assert CopyAll(Copy(sys.mem, t), []) == Copy(sys.mem, t); }
      TransferKeeps(s, before, sys.mem, turns, i, n, turns');
    } else {
      assert made == [];
    }
  }

  /** Turns that make one more transfer, transfer n of thread i. */
  ghost predicate OneMore(s: Setup, turns: seq<nat>, turns': seq<nat>, i: nat, n: nat)
    requires s.Valid() && |turns| == |turns'| == |s.programs|
  {
    forall j: nat, k: nat :: Made(s, turns', j, k) <==> Made(s, turns, j, k) || (j == i && k == n)
  }

  lemma ArrivedKept(s: Setup, before: Memory, mem: Memory, turns: seq<nat>, i: nat, n: nat, j: nat, k: nat, x: nat)
    requires s.Valid() && |turns| == |s.programs| && Consistent(s, before, mem, turns)
    requires i < |s.lists| && n < |s.lists[i]| && Made(s, turns, j, k) && (i, n) != (j, k) && x < Width(s.lists[j][k].size)
    ensures Arrived(before, Copy(mem, s.lists[i][n]), SourceRange(s.lists[j][k]), DestRange(s.lists[j][k]), x)
  {
    assert Arrived(before, mem, SourceRange(s.lists[j][k]), DestRange(s.lists[j][k]), x);
    TransfersApart(s, i, n, j, k);
  }

  lemma TransferKeeps(s: Setup, before: Memory, mem: Memory, turns: seq<nat>, i: nat, n: nat, turns': seq<nat>)
    requires s.Valid() && |turns| == |turns'| == |s.programs| && Consistent(s, before, mem, turns)
    requires i < |s.lists| && n < |s.lists[i]| && !Made(s, turns, i, n) && OneMore(s, turns, turns', i, n)
    ensures Consistent(s, before, Copy(mem, s.lists[i][n]), turns')
  {
    var now := Copy(mem, s.lists[i][n]);
    forall a: nat | forall j: nat, k: nat :: Made(s, turns', j, k) ==> !DestRange(s.lists[j][k]).Has(a)
      ensures now(a) == before(a)
    {
      assert Made(s, turns', i, n);
      assert forall j: nat, k: nat :: Made(s, turns, j, k) ==> Made(s, turns', j, k);
    }
    forall j: nat, k: nat, x: nat | Made(s, turns', j, k) && x < Width(s.lists[j][k].size)
      ensures Arrived(before, now, SourceRange(s.lists[j][k]), DestRange(s.lists[j][k]), x)
    {
      if j == i && k == n {
        ArrivedNow(s, before, mem, turns, i, n, x);
      } else {
        ArrivedKept(s, before, mem, turns, i, n, j, k, x);
      }
    }
  }

  lemma SourceUntouched(s: Setup, before: Memory, mem: Memory, turns: seq<nat>, i: nat, n: nat, x: nat)
    requires s.Valid() && |turns| == |s.programs| && Consistent(s, before, mem, turns)
    requires i < |s.lists| && n < |s.lists[i]| && x < Width(s.lists[i][n].size)
    ensures mem(s.lists[i][n].source + x) == before(s.lists[i][n].source + x)
  {
    var a := s.lists[i][n].source + x;
    forall j: nat, k: nat | Made(s, turns, j, k) ensures !DestRange(s.lists[j][k]).Has(a) {
      TransfersApart(s, i, n, j, k);
    }
  }

  lemma ArrivedNow(s: Setup, before: Memory, mem: Memory, turns: seq<nat>, i: nat, n: nat, x: nat)
    requires s.Valid() && |turns| == |s.programs| && Consistent(s, before, mem, turns)
    requires i < |s.lists| && n < |s.lists[i]| && x < Width(s.lists[i][n].size)
    ensures Arrived(before, Copy(mem, s.lists[i][n]), SourceRange(s.lists[i][n]), DestRange(s.lists[i][n]), x)
  {
    SourceUntouched(s, before, mem, turns, i, n, x);
  }

  lemma {:induction false} RunKeeps(s: Setup, before: Memory, schedule: seq<nat>) returns (turns: seq<nat>)
    requires s.Valid() && forall n :: 0 <= n < |schedule| ==> schedule[n] < |s.programs|
    ensures var sys := Run(s.floor, s.programs, System(s.starts, before), schedule);
            OnTrack(s, sys, turns) && Consistent(s, before, sys.mem, turns)
  {
    if schedule == [] {
      turns := seq(|s.programs|, _ => 0);
    } else {
      var last := |schedule| - 1;
      turns := RunKeeps(s, before, schedule[..last]);
      TurnKeeps(s, before, Run(s.floor, s.programs, System(s.starts, before), schedule[..last]), turns, schedule[last]);
      turns := turns[schedule[last] := turns[schedule[last]] + 1];
    }
  }

  /** Whatever the order of the threads' instructions, once all of them have stopped every destination holds
      what its source held at first. */
  lemma AnyInterleaving(s: Setup, before: Memory, schedule: seq<nat>)
    requires s.Valid() && forall n :: 0 <= n < |schedule| ==> schedule[n] < |s.programs|
    requires var sys := Run(s.floor, s.programs, System(s.starts, before), schedule);
             forall i :: 0 <= i < |s.programs| ==> sys.threads[i].status.Stopped?
    ensures Transferred(before, Run(s.floor, s.programs, System(s.starts, before), schedule).mem,
                        SourceRanges(Concat(s.lists)), DestRanges(Concat(s.lists)))
  {
    var sys := Run(s.floor, s.programs, System(s.starts, before), schedule);
    var turns := RunKeeps(s, before, schedule);
    var all := Concat(s.lists);
    forall p: nat, x: nat | p < |all| && x < Width(all[p].size)
      ensures Arrived(before, sys.mem, SourceRanges(all)[p], DestRanges(all)[p], x)
    {
      var i, k := WhichThread(s.lists, p);
      MadeIsPrefix(s, i, turns[i]);
      assert Made(s, turns, i, k) && Arrived(before, sys.mem, SourceRange(s.lists[i][k]), DestRange(s.lists[i][k]), x);
    }
  }

  lemma {:induction false} WhichThread(lists: seq<seq<Transfer>>, p: nat) returns (i: nat, k: nat)
    requires p < |Concat(lists)|
    ensures i < |lists| && k < |lists[i]| && Concat(lists)[p] == lists[i][k]
  {
    var last := |lists| - 1;
    if p < |Concat(lists[..last])| {
      i, k := WhichThread(lists[..last], p);
    } else {
      i, k := last, p - |Concat(lists[..last])|;
    }
  }

  // --------------------------------------------------------------- progress

  /** How many turns thread i has had. */
  function Count(schedule: seq<nat>, i: nat): nat {
    if schedule == [] then 0
    else Count(schedule[..|schedule| - 1], i) + if schedule[|schedule| - 1] == i then 1 else 0
  }

  /** Each thread is where its own turns have brought it. */
  lemma {:induction false} RunOnTrack(s: Setup, before: Memory, schedule: seq<nat>, i: nat)
    requires s.Valid() && (forall n :: 0 <= n < |schedule| ==> schedule[n] < |s.programs|) && i < |s.programs|
    ensures Run(s.floor, s.programs, System(s.starts, before), schedule).threads[i] == s.At(i, Count(schedule, i)).thread
  {
    if schedule != [] {
      var last := |schedule| - 1;
      RunOnTrack(s, before, schedule[..last], i);
      if schedule[last] == i {
        var n, t := Count(schedule[..last], i), s.At(i, Count(schedule[..last], i)).thread;
        ExecAdds(s.floor, s.programs[i], s.starts[i], n, 1);
        assert Exec(s.floor, s.programs[i], t, 1).thread == Step(s.floor, s.programs[i], t).thread;
      }
    }
  }

  /** Thread i has had as many turns as it needs on its own. */
  ghost predicate Enough(s: Setup, schedule: seq<nat>, i: nat)
    requires s.Valid() && i < |s.programs|
  {
    exists m: nat :: s.StopsAfter(i, m) && m <= Count(schedule, i)
  }

  lemma AloneStops(s: Setup, i: nat, m: nat, n: nat)
    requires s.Valid() && i < |s.programs| && s.StopsAfter(i, m) && m <= n
    ensures s.At(i, n).thread.status.Stopped?
  {
    ExecAdds(s.floor, s.programs[i], s.starts[i], m, n - m);
    HaltedStays(s.floor, s.programs[i], s.At(i, m).thread, n - m);
  }

  /** A thread that has had as many turns as it needs on its own has stopped, whatever the others did in between. */
  lemma ThreadStops(s: Setup, before: Memory, schedule: seq<nat>, i: nat)
    requires s.Valid() && forall k :: 0 <= k < |schedule| ==> schedule[k] < |s.programs|
    requires i < |s.programs| && Enough(s, schedule, i)
    ensures Run(s.floor, s.programs, System(s.starts, before), schedule).threads[i].status.Stopped?
  {
    var n: nat :| s.StopsAfter(i, n) && n <= Count(schedule, i);
    AloneStops(s, i, n, Count(schedule, i));
    RunOnTrack(s, before, schedule, i);
  }

  lemma AloneNeverFaults(s: Setup, i: nat, n: nat)
    requires s.Valid() && i < |s.programs|
    ensures !s.At(i, n).thread.status.Faulted?
  {
    assert s.Stops(i);
    var m: nat :| s.StopsAfter(i, m);
    if n <= m {
      ExecAdds(s.floor, s.programs[i], s.starts[i], n, m - n);
      if s.At(i, n).thread.status.Faulted? {
        HaltedStays(s.floor, s.programs[i], s.At(i, n).thread, m - n);
      }
    } else {
      ExecAdds(s.floor, s.programs[i], s.starts[i], m, n - m);
      HaltedStays(s.floor, s.programs[i], s.At(i, m).thread, n - m);
    }
  }

  /** No thread ever faults. */
  lemma NeverFaults(s: Setup, before: Memory, schedule: seq<nat>, i: nat)
    requires s.Valid() && forall k :: 0 <= k < |schedule| ==> schedule[k] < |s.programs|
    requires i < |s.programs|
    ensures !Run(s.floor, s.programs, System(s.starts, before), schedule).threads[i].status.Faulted?
  {
    RunOnTrack(s, before, schedule, i);
    AloneNeverFaults(s, i, Count(schedule, i));
  }

  lemma {:induction false} CountAppend(a: seq<nat>, b: seq<nat>, i: nat)
    ensures Count(a + b, i) == Count(a, i) + Count(b, i)
  {
    if b == [] {
      assert a + b == a;
    } else {
      assert (a + b)[..|a + b| - 1] == a + b[..|b| - 1];
      CountAppend(a, b[..|b| - 1], i);
    }
  }

  lemma {:induction false} CountRepeated(i: nat, n: nat)
    ensures Count(seq(n, _ => i), i) == n
  {
    if n != 0 {
      assert seq(n, _ => i)[..n - 1] == seq(n - 1, _ => i);
      CountRepeated(i, n - 1);
    }
  }

  lemma {:induction false} TurnsForAll(s: Setup, n: nat) returns (schedule: seq<nat>)
    requires s.Valid() && n <= |s.programs|
    ensures forall k :: 0 <= k < |schedule| ==> schedule[k] < |s.programs|
    ensures forall i: nat :: i < n ==> Enough(s, schedule, i)
  {
    if n == 0 {
      schedule := [];
    } else {
      var first := TurnsForAll(s, n - 1);
      assert s.Stops(n - 1);
      var m: nat :| s.StopsAfter(n - 1, m);
      var more := seq(m, _ => n - 1);
      schedule := first + more;
      CountRepeated(n - 1, m);
      CountAppend(first, more, n - 1);
      forall i: nat | i < n ensures Enough(s, schedule, i) {
        if i == n - 1 {
          assert s.StopsAfter(i, m) && m <= Count(schedule, i);
        } else {
          assert Enough(s, first, i);
          var k: nat :| s.StopsAfter(i, k) && k <= Count(first, i);
          CountAppend(first, more, i);
          assert s.StopsAfter(i, k) && k <= Count(schedule, i);
        }
      }
    }
  }

  /** Some order of instructions stops all threads. */
  lemma SomeOrderStops(s: Setup, before: Memory) returns (schedule: seq<nat>)
    requires s.Valid()
    ensures forall k :: 0 <= k < |schedule| ==> schedule[k] < |s.programs|
    ensures forall i :: 0 <= i < |s.programs| ==>
              Run(s.floor, s.programs, System(s.starts, before), schedule).threads[i].status.Stopped?
  {
    schedule := TurnsForAll(s, |s.programs|);
    forall i | 0 <= i < |s.programs|
      ensures Run(s.floor, s.programs, System(s.starts, before), schedule).threads[i].status.Stopped?
    {
      ThreadStops(s, before, schedule, i);
    }
  }
}
