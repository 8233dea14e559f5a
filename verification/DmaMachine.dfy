/**
 DMA programs: the instructions, the machine that runs them, and the loop programs
 they are written from.
 */
module DmaMachine {
  import opened ProgramTree

  const LOOP_REGISTERS: nat := 4

  datatype Target = Both | SourceOnly | DestinationOnly

  datatype Instr =
    | SetOp(reg: nat, value: nat)
    | LoopOp(reg: nat, back: nat)
    | TransferOp(size: nat)
    | AddOp(target: Target, amount: nat)
    | StopOp

  /** One transfer of (1 << size) bytes. */
  datatype Transfer = Transfer(source: nat, destination: nat, size: nat)

  function Width(size: nat): (w: nat)
    ensures w >= 1
  {
    if size == 0 then 1 else 2 * Width(size - 1)
  }

  // ---------------------------------------------------------------- machine

  datatype Status = Running | Stopped | Faulted

  datatype Thread = Thread(pc: nat, source: nat, destination: nat, regs: seq<nat>, status: Status) {
    predicate Valid() { |regs| == LOOP_REGISTERS }
  }

  /** What one instruction does: the next state and the transfers it makes (none or one). */
  datatype Outcome = Outcome(thread: Thread, made: seq<Transfer>)

  /** Execute one instruction.  A LOOP jumps back until its counter is used up, that is, not above floor, which is a
      parameter of the model. */
  function Step(floor: nat, program: seq<Instr>, t: Thread): Outcome
    requires t.Valid()
    ensures Step(floor, program, t).thread.Valid()
  {
    if !t.status.Running? then Outcome(t, [])
    else if t.pc >= |program| then Outcome(t.(status := Faulted), [])
    else
      match program[t.pc]
      case SetOp(r, v) =>
        if r < LOOP_REGISTERS then Outcome(t.(pc := t.pc + 1, regs := t.regs[r := v]), [])
        else Outcome(t.(status := Faulted), [])
      case LoopOp(r, back) =>
        if r >= LOOP_REGISTERS || back > t.pc then Outcome(t.(status := Faulted), [])
        else if t.regs[r] > floor then Outcome(t.(pc := t.pc - back, regs := t.regs[r := t.regs[r] - 1]), [])
        else Outcome(t.(pc := t.pc + 1), [])
      case TransferOp(size) =>
        Outcome(t.(pc := t.pc + 1, source := t.source + Width(size), destination := t.destination + Width(size)),
                [Transfer(t.source, t.destination, size)])
      case AddOp(target, amount) =>
        Outcome(t.(pc := t.pc + 1,
                   source := if target.DestinationOnly? then t.source else t.source + amount,
                   destination := if target.SourceOnly? then t.destination else t.destination + amount), [])
      case StopOp => Outcome(t.(status := Stopped), [])
  }

  /** Execute n instructions. */
  function Exec(floor: nat, program: seq<Instr>, t: Thread, n: nat): (o: Outcome)
    requires t.Valid()
    ensures o.thread.Valid()
    decreases n
  {
    if n == 0 then Outcome(t, [])
    else
      var first := Step(floor, program, t);
      var rest := Exec(floor, program, first.thread, n - 1);
      Outcome(rest.thread, first.made + rest.made)
  }

  lemma InARow(a: seq<Transfer>, b: seq<Transfer>, c: seq<Transfer>)
    ensures a + (b + c) == (a + b) + c
  {
  }

  lemma {:induction false} ExecAdds(floor: nat, program: seq<Instr>, t: Thread, m: nat, n: nat)
    requires t.Valid()
    ensures Exec(floor, program, t, m + n).thread == Exec(floor, program, Exec(floor, program, t, m).thread, n).thread
    ensures Exec(floor, program, t, m + n).made
         == Exec(floor, program, t, m).made + Exec(floor, program, Exec(floor, program, t, m).thread, n).made
    decreases m
  {
    if m == 0 {
      assert [] + Exec(floor, program, t, n).made == Exec(floor, program, t, n).made;
    } else {
      var first := Step(floor, program, t);
      var rest := Exec(floor, program, first.thread, m - 1);
      ExecAdds(floor, program, first.thread, m - 1, n);
      assert m + n - 1 == (m - 1) + n;
      InARow(first.made, rest.made, Exec(floor, program, rest.thread, n).made);
    }
  }

  lemma {:induction false} HaltedStays(floor: nat, program: seq<Instr>, t: Thread, n: nat)
    requires t.Valid() && !t.status.Running?
    ensures Exec(floor, program, t, n) == Outcome(t, [])
    decreases n
  {
    if n != 0 {
      HaltedStays(floor, program, t, n - 1);
    }
  }

  // ---------------------------------------------------------- loop programs

  /** A program tree with its loop counts and operations chosen. */
  datatype Code =
    | LoopCode(count: nat, body: Code)
    | SeqCode(left: Code, right: Code)
    | AddCode(target: Target, amount: nat)
    | TransferCode
  {
    function Shape(): Tree {
      match this
      case LoopCode(_, body) => LoopNode(body.Shape())
      case SeqCode(left, right) => SeqNode(left.Shape(), right.Shape())
      case AddCode(_, _) => OpNode
      case TransferCode => OpNode
    }
  }

  /** The flat instructions for a loop program at this depth of loops. */
  function Emit(c: Code, level: nat, size: nat): (code: seq<Instr>)
    ensures |code| == c.Shape().Length()
  {
    match c
    case LoopCode(count, body) =>
      [SetOp(level, count)] + Emit(body, level + 1, size) + [LoopOp(level, body.Shape().Length())]
    case SeqCode(left, right) => Emit(left, level, size) + Emit(right, level, size)
    case AddCode(target, amount) => [AddOp(target, amount)]
    case TransferCode => [TransferOp(size)]
  }

  /** How often the body of a loop runs when its counter was set to value. */
  function Repeats(floor: nat, value: nat): (n: nat)
    ensures n >= 1
  {
    if value <= floor then 1 else value - floor + 1
  }

  /** Where a loop program leaves the two pointers, and the transfers it makes. */
  datatype Effect = Effect(source: nat, destination: nat, made: seq<Transfer>)

  /** The meaning of a loop program: a sequence is one part after the other, a loop is its body
      over and over. */
  function Eval(floor: nat, c: Code, size: nat, source: nat, destination: nat): Effect
    decreases c, 0
  {
    match c
    case LoopCode(count, body) => EvalTimes(floor, body, Repeats(floor, count), size, source, destination)
    case SeqCode(left, right) =>
      var first := Eval(floor, left, size, source, destination);
      var second := Eval(floor, right, size, first.source, first.destination);
      Effect(second.source, second.destination, first.made + second.made)
    case AddCode(target, amount) =>
      Effect(if target.DestinationOnly? then source else source + amount,
             if target.SourceOnly? then destination else destination + amount, [])
    case TransferCode =>
      Effect(source + Width(size), destination + Width(size), [Transfer(source, destination, size)])
  }

  function EvalTimes(floor: nat, c: Code, times: nat, size: nat, source: nat, destination: nat): Effect
    decreases c, times + 1
  {
    if times == 0 then Effect(source, destination, [])
    else
      var first := Eval(floor, c, size, source, destination);
      var rest := EvalTimes(floor, c, times - 1, size, first.source, first.destination);
      Effect(rest.source, rest.destination, first.made + rest.made)
  }

  /** How many instructions the flat code executes. */
  function Steps(floor: nat, c: Code): nat
    decreases c, 0
  {
    match c
    case LoopCode(count, body) => 1 + StepsTimes(floor, body, Repeats(floor, count))
    case SeqCode(left, right) => Steps(floor, left) + Steps(floor, right)
    case AddCode(_, _) => 1
    case TransferCode => 1
  }

  function StepsTimes(floor: nat, c: Code, times: nat): nat
    decreases c, times + 1
  {
    if times == 0 then 0 else Steps(floor, c) + 1 + StepsTimes(floor, c, times - 1)
  }

  // --------------------------------------------------- compiler correctness

  /** The instructions code stand at index at of the program. */
  predicate Placed(program: seq<Instr>, at: nat, code: seq<Instr>) {
    at + |code| <= |program| && program[at..at + |code|] == code
  }

  /** From t, n instructions lead to the end of the code, with this effect, and leave the
      counters of the enclosing loops alone. */
  ghost predicate Performs(floor: nat, program: seq<Instr>, t: Thread, n: nat, e: Effect, end: nat, level: nat)
    requires t.Valid()
  {
    var o := Exec(floor, program, t, n);
    && o.made == e.made
    && o.thread.pc == end && o.thread.source == e.source && o.thread.destination == e.destination
    && o.thread.status.Running?
    && forall r :: 0 <= r < level && r < LOOP_REGISTERS ==> o.thread.regs[r] == t.regs[r]
  }

  /** Two performances in a row; the second may run under more loops than the first keeps counters for. */
  lemma PerformsThen(floor: nat, program: seq<Instr>, t: Thread, m: nat, n: nat, e: Effect, f: Effect,
                     mid: nat, end: nat, level: nat, inner: nat)
    requires t.Valid() && level <= inner && Performs(floor, program, t, m, e, mid, inner)
    requires Performs(floor, program, Exec(floor, program, t, m).thread, n, f, end, level)
    ensures Performs(floor, program, t, m + n, Effect(f.source, f.destination, e.made + f.made), end, level)
  {
    ExecAdds(floor, program, t, m, n);
  }

  lemma PlacedParts(program: seq<Instr>, at: nat, a: seq<Instr>, b: seq<Instr>)
    requires Placed(program, at, a + b)
    ensures Placed(program, at, a) && Placed(program, at + |a|, b)
  {
    var whole := program[at..at + |a + b|];
    assert whole[..|a|] == a && whole[|a|..] == b;
    assert program[at..at + |a|] == whole[..|a|];
    assert program[at + |a|..at + |a| + |b|] == whole[|a|..];
  }

  lemma PlacedOne(program: seq<Instr>, at: nat, i: Instr)
    requires Placed(program, at, [i])
    ensures at < |program| && program[at] == i
  {
    assert program[at..at + 1][0] == program[at];
  }

  /** One instruction that does not halt the thread. */
  lemma OneStep(floor: nat, program: seq<Instr>, t: Thread, e: Effect, end: nat, level: nat)
    requires t.Valid()
    requires var o := Step(floor, program, t);
             o.made == e.made && o.thread.pc == end && o.thread.source == e.source && o.thread.destination == e.destination
             && o.thread.status.Running? && forall r :: 0 <= r < level && r < LOOP_REGISTERS ==> o.thread.regs[r] == t.regs[r]
    ensures Exec(floor, program, t, 1).thread == Step(floor, program, t).thread
    ensures Performs(floor, program, t, 1, e, end, level)
  {
    var o := Step(floor, program, t);
    assert Exec(floor, program, o.thread, 0) == Outcome(o.thread, []);
    assert o.made + [] == o.made;
  }

  /** The SET of a loop, given what happens from the start of its body. */
  lemma SetThenLoop(floor: nat, program: seq<Instr>, c: Code, level: nat, size: nat, t: Thread)
    requires t.Valid() && t.status.Running? && c.LoopCode? && level < LOOP_REGISTERS
    requires t.pc < |program| && program[t.pc] == SetOp(level, c.count)
    requires var armed := Step(floor, program, t).thread;
             Performs(floor, program, armed, StepsTimes(floor, c.body, Repeats(floor, c.count)),
                      EvalTimes(floor, c.body, Repeats(floor, c.count), size, t.source, t.destination),
                      t.pc + c.body.Shape().Length() + 2, level)
    ensures Performs(floor, program, t, Steps(floor, c), Eval(floor, c, size, t.source, t.destination),
                     t.pc + c.Shape().Length(), level)
  {
    var start := Effect(t.source, t.destination, []);
    OneStep(floor, program, t, start, t.pc + 1, level);
    var all := EvalTimes(floor, c.body, Repeats(floor, c.count), size, t.source, t.destination);
    PerformsThen(floor, program, t, 1, StepsTimes(floor, c.body, Repeats(floor, c.count)), start, all,
                 t.pc + 1, t.pc + c.body.Shape().Length() + 2, level, level);
    assert start.made + all.made == all.made;
  }

  /** One part after the other. */
  lemma SequenceRuns(floor: nat, program: seq<Instr>, c: Code, level: nat, size: nat, t: Thread, mid: Thread)
    requires t.Valid() && c.SeqCode? && mid == Exec(floor, program, t, Steps(floor, c.left)).thread
    requires Performs(floor, program, t, Steps(floor, c.left), Eval(floor, c.left, size, t.source, t.destination), mid.pc, level)
    requires mid.pc == t.pc + c.left.Shape().Length()
    requires Performs(floor, program, mid, Steps(floor, c.right), Eval(floor, c.right, size, mid.source, mid.destination),
                      mid.pc + c.right.Shape().Length(), level)
    ensures Performs(floor, program, t, Steps(floor, c), Eval(floor, c, size, t.source, t.destination),
                     t.pc + c.Shape().Length(), level)
  {
    PerformsThen(floor, program, t, Steps(floor, c.left), Steps(floor, c.right),
                 Eval(floor, c.left, size, t.source, t.destination),
                 Eval(floor, c.right, size, mid.source, mid.destination),
                 mid.pc, t.pc + c.Shape().Length(), level, level);
  }

  /** An operation is one instruction. */
  lemma OperationRuns(floor: nat, program: seq<Instr>, c: Code, level: nat, size: nat, t: Thread)
    requires t.Valid() && t.status.Running? && (c.AddCode? || c.TransferCode?)
    requires Placed(program, t.pc, Emit(c, level, size))
    ensures Performs(floor, program, t, Steps(floor, c), Eval(floor, c, size, t.source, t.destination), t.pc + 1, level)
  {
    PlacedOne(program, t.pc, Emit(c, level, size)[0]);
    OneStep(floor, program, t, Eval(floor, c, size, t.source, t.destination), t.pc + 1, level);
  }

  /** The flat code of a loop program does what the loop program means, if no more loops are around one
      another than there are loop registers. */
  lemma {:induction false} CodeRuns(floor: nat, program: seq<Instr>, c: Code, level: nat, size: nat, t: Thread)
    requires t.Valid() && t.status.Running?
    requires Placed(program, t.pc, Emit(c, level, size))
    requires level + c.Shape().Nesting() <= LOOP_REGISTERS
    ensures Performs(floor, program, t, Steps(floor, c), Eval(floor, c, size, t.source, t.destination),
                     t.pc + c.Shape().Length(), level)
    decreases c, 1
  {
    if c.LoopCode? {
      LoopCodeRuns(floor, program, c, level, size, t);
    } else if c.SeqCode? {
      PlacedParts(program, t.pc, Emit(c.left, level, size), Emit(c.right, level, size));
      CodeRuns(floor, program, c.left, level, size, t);
      var mid := Exec(floor, program, t, Steps(floor, c.left)).thread;
      CodeRuns(floor, program, c.right, level, size, mid);
      SequenceRuns(floor, program, c, level, size, t, mid);
    } else {
      OperationRuns(floor, program, c, level, size, t);
    }
  }

  lemma {:induction false} LoopCodeRuns(floor: nat, program: seq<Instr>, c: Code, level: nat, size: nat, t: Thread)
    requires t.Valid() && t.status.Running? && c.LoopCode?
    requires Placed(program, t.pc, Emit(c, level, size))
    requires level + c.Shape().Nesting() <= LOOP_REGISTERS
    ensures Performs(floor, program, t, Steps(floor, c), Eval(floor, c, size, t.source, t.destination),
                     t.pc + c.Shape().Length(), level)
    decreases c, 0
  {
    var inner := Emit(c.body, level + 1, size);
    assert Emit(c, level, size) == [SetOp(level, c.count)] + (inner + [LoopOp(level, |inner|)]);
    PlacedParts(program, t.pc, [SetOp(level, c.count)], inner + [LoopOp(level, |inner|)]);
    PlacedOne(program, t.pc, SetOp(level, c.count));
    LoopRuns(floor, program, c.body, level, size, Step(floor, program, t).thread);
    SetThenLoop(floor, program, c, level, size, t);
  }

  lemma LoopStep(floor: nat, program: seq<Instr>, t: Thread, level: nat, back: nat, stay: Effect) returns (next: Thread)
    requires t.Valid() && t.status.Running? && level < LOOP_REGISTERS && stay == Effect(t.source, t.destination, [])
    requires t.pc < |program| && program[t.pc] == LoopOp(level, back) && back <= t.pc
    ensures next.Valid() && next.status.Running? && next == Exec(floor, program, t, 1).thread
    ensures next.pc == if t.regs[level] > floor then t.pc - back else t.pc + 1
    ensures t.regs[level] > floor ==> next.regs[level] == t.regs[level] - 1
    ensures Performs(floor, program, t, 1, stay, next.pc, level)
  {
    next := Step(floor, program, t).thread;
    OneStep(floor, program, t, stay, next.pc, level);
  }

  /** The end of a loop body: the LOOP instruction jumps back to the start of the body with the
      counter one lower, or goes on. */
  lemma BodyThenJump(floor: nat, program: seq<Instr>, body: Code, level: nat, size: nat, t: Thread) returns (next: Thread)
    requires t.Valid() && t.status.Running? && level < LOOP_REGISTERS
    requires var k := body.Shape().Length(); t.pc + k < |program| && program[t.pc + k] == LoopOp(level, k)
    requires Performs(floor, program, t, Steps(floor, body), Eval(floor, body, size, t.source, t.destination),
                      t.pc + body.Shape().Length(), level + 1)
    ensures next.Valid() && next.status.Running?
    ensures next == Exec(floor, program, t, Steps(floor, body) + 1).thread
    ensures next.pc == if t.regs[level] > floor then t.pc else t.pc + body.Shape().Length() + 1
    ensures t.regs[level] > floor ==> next.regs[level] == t.regs[level] - 1
    ensures Performs(floor, program, t, Steps(floor, body) + 1, Eval(floor, body, size, t.source, t.destination), next.pc, level)
  {
    var n, once := Steps(floor, body), Eval(floor, body, size, t.source, t.destination);
    var mid := Exec(floor, program, t, n).thread;
    var stay := Effect(mid.source, mid.destination, []);
    next := LoopStep(floor, program, mid, level, body.Shape().Length(), stay);
    PerformsThen(floor, program, t, n, 1, once, stay, mid.pc, next.pc, level, level + 1);
    assert once.made + [] == once.made;
    ExecAdds(floor, program, t, n, 1);
  }

  /** Once through the body of a loop. */
  lemma {:induction false} BodyOnce(floor: nat, program: seq<Instr>, body: Code, level: nat, size: nat, t: Thread)
    returns (next: Thread)
    requires t.Valid() && t.status.Running?
    requires Placed(program, t.pc, Emit(body, level + 1, size) + [LoopOp(level, body.Shape().Length())])
    requires level + 1 + body.Shape().Nesting() <= LOOP_REGISTERS
    ensures next.Valid() && next.status.Running?
    ensures next == Exec(floor, program, t, Steps(floor, body) + 1).thread
    ensures next.pc == if t.regs[level] > floor then t.pc else t.pc + body.Shape().Length() + 1
    ensures t.regs[level] > floor ==> next.regs[level] == t.regs[level] - 1
    ensures Performs(floor, program, t, Steps(floor, body) + 1, Eval(floor, body, size, t.source, t.destination), next.pc, level)
    decreases body, 2
  {
    var k := body.Shape().Length();
    PlacedParts(program, t.pc, Emit(body, level + 1, size), [LoopOp(level, k)]);
    PlacedOne(program, t.pc + k, LoopOp(level, k));
    CodeRuns(floor, program, body, level + 1, size, t);
    next := BodyThenJump(floor, program, body, level, size, t);
  }

  /** From the start of a loop body, with the counter at some value, to the end of the loop. */
  lemma {:induction false} LoopRuns(floor: nat, program: seq<Instr>, body: Code, level: nat, size: nat, t: Thread)
    requires t.Valid() && t.status.Running?
    requires Placed(program, t.pc, Emit(body, level + 1, size) + [LoopOp(level, body.Shape().Length())])
    requires level + 1 + body.Shape().Nesting() <= LOOP_REGISTERS
    ensures Performs(floor, program, t, StepsTimes(floor, body, Repeats(floor, t.regs[level])),
                     EvalTimes(floor, body, Repeats(floor, t.regs[level]), size, t.source, t.destination),
                     t.pc + body.Shape().Length() + 1, level)
    decreases body, t.regs[level] + 3
  {
    var times := Repeats(floor, t.regs[level]);
    var next := BodyOnce(floor, program, body, level, size, t);
    if t.regs[level] > floor {
      assert next.pc == t.pc && Repeats(floor, next.regs[level]) == times - 1;
      LoopRuns(floor, program, body, level, size, next);
      OnceMore(floor, program, body, level, size, t, next, times);
    } else {
      LastTime(floor, body, size, t.source, t.destination);
    }
  }

  lemma OnceMore(floor: nat, program: seq<Instr>, body: Code, level: nat, size: nat, t: Thread, next: Thread, times: nat)
    requires t.Valid() && next.Valid() && 0 < times && next.pc == t.pc
    requires next == Exec(floor, program, t, Steps(floor, body) + 1).thread
    requires Performs(floor, program, t, Steps(floor, body) + 1, Eval(floor, body, size, t.source, t.destination), next.pc, level)
    requires Performs(floor, program, next, StepsTimes(floor, body, times - 1),
                      EvalTimes(floor, body, times - 1, size, next.source, next.destination),
                      t.pc + body.Shape().Length() + 1, level)
    ensures Performs(floor, program, t, StepsTimes(floor, body, times),
                     EvalTimes(floor, body, times, size, t.source, t.destination),
                     t.pc + body.Shape().Length() + 1, level)
  {
    PerformsThen(floor, program, t, Steps(floor, body) + 1, StepsTimes(floor, body, times - 1),
                 Eval(floor, body, size, t.source, t.destination),
                 EvalTimes(floor, body, times - 1, size, next.source, next.destination),
                 t.pc, t.pc + body.Shape().Length() + 1, level, level);
  }

  lemma LastTime(floor: nat, body: Code, size: nat, source: nat, destination: nat)
    ensures EvalTimes(floor, body, 1, size, source, destination) == Eval(floor, body, size, source, destination)
    ensures StepsTimes(floor, body, 1) == Steps(floor, body) + 1
  {
    var once := Eval(floor, body, size, source, destination);
    assert EvalTimes(floor, body, 0, size, once.source, once.destination) == Effect(once.source, once.destination, []);
    assert StepsTimes(floor, body, 0) == 0;
    assert once.made + [] == once.made;
  }

  lemma ThenStop(floor: nat, program: seq<Instr>, t: Thread, n: nat, e: Effect, end: nat)
    requires t.Valid() && Performs(floor, program, t, n, e, end, 0) && end < |program| && program[end] == StopOp
    ensures Exec(floor, program, t, n + 1).thread.status.Stopped? && Exec(floor, program, t, n + 1).made == e.made
  {
    ExecAdds(floor, program, t, n, 1);
    var last := Exec(floor, program, t, n).thread;
    assert Exec(floor, program, last, 1) == Step(floor, program, last);
  }

  /** A whole program: the flat code followed by STOP, from the start, stops and makes exactly the
      transfers that the loop program means. */
  lemma ProgramRuns(floor: nat, c: Code, size: nat, t: Thread)
    requires t.Valid() && t.status.Running? && t.pc == 0
    requires c.Shape().Nesting() <= LOOP_REGISTERS
    ensures var o := Exec(floor, Emit(c, 0, size) + [StopOp], t, Steps(floor, c) + 1);
            o.thread.status.Stopped? && o.made == Eval(floor, c, size, t.source, t.destination).made
  {
    var code := Emit(c, 0, size);
    var program := code + [StopOp];
    assert program[t.pc..t.pc + |code|] == code;
    CodeRuns(floor, program, c, 0, size, t);
    ThenStop(floor, program, t, Steps(floor, c), Eval(floor, c, size, t.source, t.destination), |code|);
  }
}
