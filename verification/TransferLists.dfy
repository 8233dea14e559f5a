/**
 What the transfers of a generated program look like: they never overlap, they are
 aligned, and they stay close to where the program starts.
 */
module TransferLists {
  import opened DmaMachine

  /** A program the generator can write with this transfer size: counters from 1 to 5, and steps of
      less than 20 elements. */
  ghost predicate Generated(c: Code, size: nat) {
    match c
    case LoopCode(count, body) => 1 <= count <= 5 && Generated(body, size)
    case SeqCode(left, right) => Generated(left, size) && Generated(right, size)
    case AddCode(_, amount) => exists k: nat :: k < 20 && amount == Width(size) * k
    case TransferCode => true
  }

  // --------------------------------------------------------- no overwriting

  /** The ranges [starts[k], starts[k] + w) lie between lo and hi, one after the other without overlap. */
  ghost predicate Ascending(starts: seq<nat>, w: nat, lo: nat, hi: nat) {
    && lo <= hi
    && (forall k :: 0 <= k < |starts| ==> lo <= starts[k] && starts[k] + w <= hi)
    && (forall j, k :: 0 <= j < k < |starts| ==> starts[j] + w <= starts[k])
  }

  function Sources(ts: seq<Transfer>): (r: seq<nat>)
    ensures |r| == |ts|
  {
    seq(|ts|, k requires 0 <= k < |ts| => ts[k].source)
  }

  function Destinations(ts: seq<Transfer>): (r: seq<nat>)
    ensures |r| == |ts|
  {
    seq(|ts|, k requires 0 <= k < |ts| => ts[k].destination)
  }

  ghost predicate AllSize(ts: seq<Transfer>, size: nat) {
    forall k :: 0 <= k < |ts| ==> ts[k].size == size
  }

  /** The transfers go upwards from where the program starts to where it ends, on both sides. */
  ghost predicate Climbs(e: Effect, size: nat, source: nat, destination: nat) {
    && AllSize(e.made, size)
    && Ascending(Sources(e.made), Width(size), source, e.source)
    && Ascending(Destinations(e.made), Width(size), destination, e.destination)
  }

  lemma AscendingAppend(a: seq<nat>, b: seq<nat>, w: nat, lo: nat, mid: nat, hi: nat)
    requires Ascending(a, w, lo, mid) && Ascending(b, w, mid, hi)
    ensures Ascending(a + b, w, lo, hi)
  {
  }

  lemma ClimbsThen(e: Effect, f: Effect, size: nat, source: nat, destination: nat)
    requires Climbs(e, size, source, destination) && Climbs(f, size, e.source, e.destination)
    ensures Climbs(Effect(f.source, f.destination, e.made + f.made), size, source, destination)
  {
    AscendingAppend(Sources(e.made), Sources(f.made), Width(size), source, e.source, f.source);
    AscendingAppend(Destinations(e.made), Destinations(f.made), Width(size), destination, e.destination, f.destination);
    assert Sources(e.made + f.made) == Sources(e.made) + Sources(f.made);
    assert Destinations(e.made + f.made) == Destinations(e.made) + Destinations(f.made);
  }

  /** The DMA never reads or writes what it has read or written before: every program without
      subtraction goes strictly upwards. */
  lemma {:induction false} NeverOverwrites(floor: nat, c: Code, size: nat, source: nat, destination: nat)
    ensures Climbs(Eval(floor, c, size, source, destination), size, source, destination)
    decreases c, 0
  {
    match c {
      case LoopCode(count, body) => NeverOverwritesTimes(floor, body, Repeats(floor, count), size, source, destination);
      case SeqCode(left, right) =>
        var first := Eval(floor, left, size, source, destination);
        NeverOverwrites(floor, left, size, source, destination);
        NeverOverwrites(floor, right, size, first.source, first.destination);
        ClimbsThen(first, Eval(floor, right, size, first.source, first.destination), size, source, destination);
      case AddCode(_, _) =>
      case TransferCode =>
    }
  }

  lemma {:induction false} NeverOverwritesTimes(floor: nat, c: Code, times: nat, size: nat, source: nat, destination: nat)
    ensures Climbs(EvalTimes(floor, c, times, size, source, destination), size, source, destination)
    decreases c, times + 1
  {
    if times != 0 {
      var first := Eval(floor, c, size, source, destination);
      NeverOverwrites(floor, c, size, source, destination);
      NeverOverwritesTimes(floor, c, times - 1, size, first.source, first.destination);
      ClimbsThen(first, EvalTimes(floor, c, times - 1, size, first.source, first.destination), size, source, destination);
    }
  }

  // -------------------------------------------------------------- alignment

  ghost predicate MultipleOf(w: nat, x: nat) {
    exists q: nat :: x == w * q
  }

  lemma SumOfMultiples(w: nat, x: nat, y: nat)
    requires MultipleOf(w, x) && MultipleOf(w, y)
    ensures MultipleOf(w, x + y)
  {
    var p: nat :| x == w * p;
    var q: nat :| y == w * q;
    assert x + y == w * (p + q);
  }

  ghost predicate AllAligned(e: Effect, w: nat) {
    && MultipleOf(w, e.source) && MultipleOf(w, e.destination)
    && forall k :: 0 <= k < |e.made| ==> MultipleOf(w, e.made[k].source) && MultipleOf(w, e.made[k].destination)
  }

  /** From an aligned start, every transfer is aligned to its size. */
  lemma {:induction false} StaysAligned(floor: nat, c: Code, size: nat, source: nat, destination: nat)
    requires Generated(c, size)
    requires MultipleOf(Width(size), source) && MultipleOf(Width(size), destination)
    ensures AllAligned(Eval(floor, c, size, source, destination), Width(size))
    decreases c, 0
  {
    var w := Width(size);
    match c {
      case LoopCode(count, body) => StaysAlignedTimes(floor, body, Repeats(floor, count), size, source, destination);
      case SeqCode(left, right) =>
        var first := Eval(floor, left, size, source, destination);
        StaysAligned(floor, left, size, source, destination);
        StaysAligned(floor, right, size, first.source, first.destination);
      case AddCode(_, amount) =>
        SumOfMultiples(w, source, amount);
        SumOfMultiples(w, destination, amount);
      case TransferCode =>
        assert w == w * 1;
        SumOfMultiples(w, source, w);
        SumOfMultiples(w, destination, w);
    }
  }

  lemma {:induction false} StaysAlignedTimes(floor: nat, c: Code, times: nat, size: nat, source: nat, destination: nat)
    requires Generated(c, size)
    requires MultipleOf(Width(size), source) && MultipleOf(Width(size), destination)
    ensures AllAligned(EvalTimes(floor, c, times, size, source, destination), Width(size))
    decreases c, times + 1
  {
    if times != 0 {
      var first := Eval(floor, c, size, source, destination);
      StaysAligned(floor, c, size, source, destination);
      StaysAlignedTimes(floor, c, times - 1, size, first.source, first.destination);
    }
  }

  // ------------------------------------------------------------------- range

  const LARGEST_STEP: nat := 608        // 19 elements of 32 bytes

  function SixToThe(n: nat): nat {
    if n == 0 then 1 else 6 * SixToThe(n - 1)
  }

  lemma {:induction false} SixGrows(m: nat, n: nat)
    requires m <= n
    ensures 1 <= SixToThe(m) <= SixToThe(n)
    decreases n
  {
    if n != 0 {
      SixGrows(if m < n then m else n - 1, n - 1);
    }
  }

  /** How far a program can move a pointer: every loop multiplies by at most six. */
  function Reach(c: Code): nat {
    SixToThe(c.Shape().Nesting()) * (c.Shape().Length() * LARGEST_STEP)
  }

  lemma WidthBound(size: nat)
    requires size < 6
    ensures Width(size) <= 32
  {
    assert Width(5) == 32 && Width(4) == 16 && Width(3) == 8 && Width(2) == 4 && Width(1) == 2;
  }

  lemma ReachOfSequence(c: Code)
    requires c.SeqCode?
    ensures Reach(c.left) + Reach(c.right) <= Reach(c)
  {
    var n := c.Shape().Nesting();
    var a, b := c.left.Shape().Length() * LARGEST_STEP, c.right.Shape().Length() * LARGEST_STEP;
    SixGrows(c.left.Shape().Nesting(), n);
    SixGrows(c.right.Shape().Nesting(), n);
    MultiplyBoth(SixToThe(c.left.Shape().Nesting()), SixToThe(n), a);
    MultiplyBoth(SixToThe(c.right.Shape().Nesting()), SixToThe(n), b);
    Distribute(SixToThe(n), a, b);
    Distribute(LARGEST_STEP, c.left.Shape().Length(), c.right.Shape().Length());
  }

  lemma Distribute(x: nat, a: nat, b: nat)
    ensures x * (a + b) == x * a + x * b && (a + b) * x == a * x + b * x
  {
  }

  lemma MultiplyBoth(x: nat, y: nat, z: nat)
    requires x <= y
    ensures x * z <= y * z
  {
  }

  lemma ReachOfLoop(c: Code)
    requires c.LoopCode?
    ensures 6 * Reach(c.body) <= Reach(c)
  {
    var six, a := SixToThe(c.body.Shape().Nesting()), c.body.Shape().Length() * LARGEST_STEP;
    Regroup(six, a + 2 * LARGEST_STEP);
    MultiplyBoth(a, a + 2 * LARGEST_STEP, 6 * six);
    Regroup(six, a);
  }

  lemma Regroup(x: nat, a: nat)
    ensures (6 * x) * a == 6 * (x * a) && a * (6 * x) == (6 * x) * a
  {
  }

  lemma {:induction false} StaysInReach(floor: nat, c: Code, size: nat, source: nat, destination: nat)
    requires Generated(c, size) && size < 6
    ensures Eval(floor, c, size, source, destination).source <= source + Reach(c)
    ensures Eval(floor, c, size, source, destination).destination <= destination + Reach(c)
    decreases c, 0
  {
    WidthBound(size);
    match c {
      case LoopCode(count, body) =>
        StaysInReachTimes(floor, body, Repeats(floor, count), size, source, destination);
        ReachOfLoop(c);
        MultiplyBoth(Repeats(floor, count), 6, Reach(body));
      case SeqCode(left, right) =>
        var first := Eval(floor, left, size, source, destination);
        StaysInReach(floor, left, size, source, destination);
        StaysInReach(floor, right, size, first.source, first.destination);
        ReachOfSequence(c);
      case AddCode(_, amount) =>
        var k: nat :| k < 20 && amount == Width(size) * k;
        MultiplyBoth(Width(size), 32, k);
        assert Reach(c) == LARGEST_STEP;
      case TransferCode =>
        assert Reach(c) == LARGEST_STEP;
    }
  }

  lemma {:induction false} StaysInReachTimes(floor: nat, c: Code, times: nat, size: nat, source: nat, destination: nat)
    requires Generated(c, size) && size < 6
    ensures EvalTimes(floor, c, times, size, source, destination).source <= source + times * Reach(c)
    ensures EvalTimes(floor, c, times, size, source, destination).destination <= destination + times * Reach(c)
    decreases c, times + 1
  {
    if times != 0 {
      var first := Eval(floor, c, size, source, destination);
      StaysInReach(floor, c, size, source, destination);
      StaysInReachTimes(floor, c, times - 1, size, first.source, first.destination);
      assert times * Reach(c) == Reach(c) + (times - 1) * Reach(c);
    }
  }

  const GAP: nat := 0x1000_0000         // between the two buffers of a single-thread test

  /** The buffers of a single-thread test do not run into each other, for programs of up to 340
      instructions; the generator writes at most 23 unless it draws zeros. */
  lemma StaysBelowGap(floor: nat, c: Code, size: nat)
    requires Generated(c, size) && size < 6
    requires c.Shape().Nesting() <= LOOP_REGISTERS && c.Shape().Length() <= 340
    ensures Eval(floor, c, size, 0, 0).source <= GAP && Eval(floor, c, size, 0, 0).destination <= GAP
  {
    StaysInReach(floor, c, size, 0, 0);
    SixGrows(c.Shape().Nesting(), LOOP_REGISTERS);
    assert SixToThe(LOOP_REGISTERS) == 1296;
    var n := c.Shape().Length() * LARGEST_STEP;
    MultiplyBoth(SixToThe(c.Shape().Nesting()), 1296, n);
  }

  // ------------------------------------------------------------ relocation

  function Shifted(ts: seq<Transfer>, source: nat, destination: nat): (r: seq<Transfer>)
    ensures |r| == |ts|
  {
    seq(|ts|, k requires 0 <= k < |ts| => Transfer(ts[k].source + source, ts[k].destination + destination, ts[k].size))
  }

  /** Starting elsewhere moves every transfer by as much. */
  lemma {:induction false} Relocates(floor: nat, c: Code, size: nat, s: nat, d: nat, source: nat, destination: nat)
    ensures var e, f := Eval(floor, c, size, s, d), Eval(floor, c, size, s + source, d + destination);
            f == Effect(e.source + source, e.destination + destination, Shifted(e.made, source, destination))
    decreases c, 0
  {
    match c {
      case LoopCode(count, body) => RelocatesTimes(floor, body, Repeats(floor, count), size, s, d, source, destination);
      case SeqCode(left, right) =>
        var first := Eval(floor, left, size, s, d);
        Relocates(floor, left, size, s, d, source, destination);
        Relocates(floor, right, size, first.source, first.destination, source, destination);
      case AddCode(_, _) =>
      case TransferCode =>
    }
  }

  lemma {:induction false} RelocatesTimes(floor: nat, c: Code, times: nat, size: nat, s: nat, d: nat,
                                          source: nat, destination: nat)
    ensures var e, f := EvalTimes(floor, c, times, size, s, d), EvalTimes(floor, c, times, size, s + source, d + destination);
            f == Effect(e.source + source, e.destination + destination, Shifted(e.made, source, destination))
    decreases c, times + 1
  {
    if times != 0 {
      var first := Eval(floor, c, size, s, d);
      Relocates(floor, c, size, s, d, source, destination);
      RelocatesTimes(floor, c, times - 1, size, first.source, first.destination, source, destination);
    }
  }
}
