/**
 Writing a random tree out as a flat DMA program.
 */
module ProgramWriter {
  import opened Rand
  import opened ProgramTree
  import opened TreeBuilder
  import opened DmaMachine
  import opened TransferLists

  function TargetOf(draw: nat): Target {
    if draw % 3 == 0 then Both else if draw % 3 == 1 then SourceOnly else DestinationOnly
  }

  /** The loop program that the next draws make of a tree, and the state they leave. */
  function Dress(t: Tree, size: nat, s: State): (r: (Code, State))
    ensures r.0.Shape() == t && Generated(r.0, size)
  {
    match t
    case LoopNode(body) =>
      var s1 := Advance(s);
      var inner := Dress(body, size, s1);
      (LoopCode(1 + Draw(s1) % 5, inner.0), inner.1)
    case SeqNode(left, right) =>
      var first := Dress(left, size, s);
      var second := Dress(right, size, first.1);
      (SeqCode(first.0, second.0), second.1)
    case OpNode =>
      var s1 := Advance(s);
      if Draw(s1) % 2 == 0 then (TransferCode, s1)
      else
        var s2 := Advance(s1);
        var s3 := Advance(s2);
        (AddCode(TargetOf(Draw(s2)), Width(size) * (Draw(s3) % 20)), s3)
  }

  method ProgramLength(n: Node, ghost t: Tree, ghost nodes: set<Node>) returns (length: nat)
    requires Represents(n, t, nodes)
    ensures length == t.Length()
    decreases t
  {
    match n.kind {
      case Loop =>
        var body := ProgramLength(n.leftChild, t.body, nodes);
        length := 2 + body;
      case Sequence =>
        var left := ProgramLength(n.leftChild, t.left, nodes);
        var right := ProgramLength(n.rightChild, t.right, nodes);
        length := left + right;
      case Operation =>
        length := 1;
    }
  }

  /** The slots from next on have been filled with code, and no other slot has changed. */
  ghost predicate Wrote(before: seq<Instr>, after: seq<Instr>, next: nat, code: seq<Instr>) {
    && |after| == |before| && next + |code| <= |before|
    && forall i :: 0 <= i < |before| ==> after[i] == if next <= i < next + |code| then code[i - next] else before[i]
  }

  lemma WroteThen(a: seq<Instr>, b: seq<Instr>, c: seq<Instr>, next: nat, first: seq<Instr>, second: seq<Instr>)
    requires Wrote(a, b, next, first) && Wrote(b, c, next + |first|, second)
    ensures Wrote(a, c, next, first + second)
  {
  }

  /** One slot after what has been written. */
  method Put(buf: array<Instr>, at: nat, instr: Instr, ghost before: seq<Instr>, ghost next: nat, ghost code: seq<Instr>)
    requires at < buf.Length && at == next + |code| && Wrote(before, buf[..], next, code)
    modifies buf
    ensures Wrote(before, buf[..], next, code + [instr])
  {
    ghost var mid := buf[..];
    buf[at] := instr;
    WroteThen(before, mid, buf[..], next, code, [instr]);
  }

  /** What WriteProgram leaves behind when its assertion holds. */
  ghost predicate Written(t: Tree, size: nat, s: State, level: nat, before: seq<Instr>, after: seq<Instr>, next: nat, s': State) {
    && s' == Dress(t, size, s).1
    && Wrote(before, after, next, Emit(Dress(t, size, s).0, level, size))
  }

  lemma LoopWritten(t: Tree, size: nat, s: State, level: nat, a: seq<Instr>, b: seq<Instr>, c: seq<Instr>, next: nat, s': State)
    requires t.LoopNode?
    requires Wrote(a, b, next, [SetOp(level, 1 + Draw(Advance(s)) % 5)])
    requires Written(t.body, size, Advance(s), level + 1, b, c, next + 1, s')
    ensures var code := Emit(Dress(t, size, s).0, level, size);
            |code| == t.Length() && code[|code| - 1] == LoopOp(level, t.body.Length())
            && Wrote(a, c, next, code[..|code| - 1]) && s' == Dress(t, size, s).1
  {
    var start := [SetOp(level, 1 + Draw(Advance(s)) % 5)];
    var inner := Emit(Dress(t.body, size, Advance(s)).0, level + 1, size);
    WroteThen(a, b, c, next, start, inner);
    assert Emit(Dress(t, size, s).0, level, size) == start + inner + [LoopOp(level, t.body.Length())];
    assert (start + inner + [LoopOp(level, t.body.Length())])[..t.Length() - 1] == start + inner;
  }

  lemma SequenceWritten(t: Tree, size: nat, s: State, level: nat,
                        a: seq<Instr>, b: seq<Instr>, c: seq<Instr>, next: nat, s1: State, s': State)
    requires t.SeqNode? && Written(t.left, size, s, level, a, b, next, s1)
    requires Written(t.right, size, s1, level, b, c, next + t.left.Length(), s')
    ensures Written(t, size, s, level, a, c, next, s')
  {
    WroteThen(a, b, c, next, Emit(Dress(t.left, size, s).0, level, size), Emit(Dress(t.right, size, s1).0, level, size));
  }

  /** The SET of a loop. */
  method OpenLoop(buf: array<Instr>, next: nat, level: nat, rng: Rng)
    requires next < buf.Length
    modifies buf, rng
    ensures rng.next == Advance(old(rng.next))
    ensures Wrote(old(buf[..]), buf[..], next, [SetOp(level, 1 + Draw(rng.next) % 5)])
  {
    ghost var before := buf[..];
    var p := rng.MyRand();
    Put(buf, next, SetOp(level, 1 + p % 5), before, next, []);
    assert [] + [SetOp(level, 1 + p % 5)] == [SetOp(level, 1 + p % 5)];
  }

  /** The LOOP of a loop. */
  method CloseLoop(buf: array<Instr>, at: nat, level: nat, bodyLength: nat, ghost t: Tree, ghost size: nat, ghost s: State,
                   ghost a: seq<Instr>, ghost b: seq<Instr>, ghost next: nat, ghost s': State)
    requires t.LoopNode? && bodyLength == t.body.Length() && at == next + 1 + bodyLength < buf.Length
    requires Wrote(a, b, next, [SetOp(level, 1 + Draw(Advance(s)) % 5)])
    requires Written(t.body, size, Advance(s), level + 1, b, buf[..], next + 1, s')
    modifies buf
    ensures Written(t, size, s, level, a, buf[..], next, s')
  {
    LoopWritten(t, size, s, level, a, b, buf[..], next, s');
    ghost var code := Emit(Dress(t, size, s).0, level, size);
    Put(buf, at, LoopOp(level, bodyLength), a, next, code[..|code| - 1]);
    assert code[..|code| - 1] + [LoopOp(level, bodyLength)] == code;
  }

  /** One instruction of the thread moves its pointers on by these amounts and makes these transfers. */
  ghost predicate Advances(floor: nat, program: seq<Instr>, t: Thread, source: nat, destination: nat, made: seq<Transfer>)
    requires t.Valid()
  {
    Step(floor, program, t)
    == Outcome(t.(pc := t.pc + 1, source := t.source + source, destination := t.destination + destination), made)
  }

  /** What the instruction for an operation does, in terms of the draws: for an even first draw one transfer; for an odd one
      an amount of less than 20 elements, by which the source moves on unless the target draw leaves 2 modulo 3, and the
      destination unless it leaves 1. */
  ghost predicate OperationDoes(instr: Instr, size: nat, s: State, floor: nat, program: seq<Instr>, t: Thread)
    requires t.Valid()
  {
    var p, target, amount := Draw(Later(s, 1)), Draw(Later(s, 2)), Width(size) * (Draw(Later(s, 3)) % 20);
    t.status.Running? && t.pc < |program| && program[t.pc] == instr ==>
      if p % 2 == 0 then Advances(floor, program, t, Width(size), Width(size), [Transfer(t.source, t.destination, size)])
      else Advances(floor, program, t, if target % 3 != 2 then amount else 0, if target % 3 != 1 then amount else 0, [])
  }

  lemma OperationMoves(size: nat, s: State, level: nat, floor: nat, program: seq<Instr>, t: Thread)
    requires t.Valid()
    ensures var code := Emit(Dress(OpNode, size, s).0, level, size);
            |code| == 1 && OperationDoes(code[0], size, s, floor, program, t)
  {
    LaterOnes(s);
  }

  lemma LaterOnes(s: State)
    ensures Later(s, 1) == Advance(s) && Later(s, 2) == Advance(Advance(s)) && Later(s, 3) == Advance(Advance(Advance(s)))
  {
    assert Later(s, 3) == Advance(Later(s, 2));
    assert Later(s, 2) == Advance(Later(s, 1));
  }

  /** The meaning of an operation, in the same terms. */
  lemma OperationMeans(floor: nat, size: nat, s: State, source: nat, destination: nat)
    ensures var p, target, amount := Draw(Later(s, 1)), Draw(Later(s, 2)), Width(size) * (Draw(Later(s, 3)) % 20);
            Eval(floor, Dress(OpNode, size, s).0, size, source, destination) ==
              if p % 2 == 0 then Effect(source + Width(size), destination + Width(size), [Transfer(source, destination, size)])
              else Effect(source + (if target % 3 != 2 then amount else 0), destination + (if target % 3 != 1 then amount else 0), [])
  {
    LaterOnes(s);
  }

  /** The instruction for an operation. */
  method WriteOperation(buf: array<Instr>, next: nat, level: nat, size: nat, rng: Rng) returns (next': nat)
    requires next < buf.Length
    modifies buf, rng
    ensures next' == next + 1
    ensures Written(OpNode, size, old(rng.next), level, old(buf[..]), buf[..], next, rng.next)
    ensures forall floor: nat, program: seq<Instr>, t: Thread :: t.Valid() ==>
              OperationDoes(buf[next], size, old(rng.next), floor, program, t)
  {
    ghost var before := buf[..];
    forall floor: nat, program: seq<Instr>, t: Thread | t.Valid()
      ensures var code := Emit(Dress(OpNode, size, rng.next).0, level, size);
              OperationDoes(code[0], size, rng.next, floor, program, t)
    {
      OperationMoves(size, rng.next, level, floor, program, t);
    }
    var p := rng.MyRand();
    if p % 2 == 0 {
      Put(buf, next, TransferOp(size), before, next, []);
      assert [] + [TransferOp(size)] == [TransferOp(size)];
    } else {
      var target := rng.MyRand();
      var amount := rng.MyRand();
      var add := AddOp(TargetOf(target), Width(size) * (amount % 20));
      Put(buf, next, add, before, next, []);
      assert [] + [add] == [add];
    }
    next' := next + 1;
  }

  /** write_random_dma_program.  The assertion at the head of the original fails, and ok
      is false, exactly when more loops are around one another than there are loop registers; the program
      is then abandoned. */
  method WriteProgram(n: Node, ghost t: Tree, ghost nodes: set<Node>,
                      buf: array<Instr>, next: nat, level: nat, size: nat, rng: Rng)
    returns (ok: bool, next': nat)
    requires Represents(n, t, nodes) && next + t.Length() <= buf.Length
    modifies buf, rng
    ensures ok <==> level + t.Nesting() <= LOOP_REGISTERS
    ensures ok ==> next' == next + t.Length()
    ensures ok ==> Written(t, size, old(rng.next), level, old(buf[..]), buf[..], next, rng.next)
    decreases t, 1
  {
    next' := next;
    if level > LOOP_REGISTERS {
      ok := false;
      return;
    }
    match n.kind {
      case Loop =>
        ok, next' := WriteLoop(n.leftChild, t, nodes, buf, next, level, size, rng);
      case Sequence =>
        ok, next' := WriteSequence(n.leftChild, n.rightChild, t, nodes, buf, next, level, size, rng);
      case Operation =>
        ok := true;
        next' := WriteOperation(buf, next, level, size, rng);
    }
  }

  /** A loop: its SET, its body and its LOOP. */
  method WriteLoop(body: Node, ghost t: Tree, ghost nodes: set<Node>,
                   buf: array<Instr>, next: nat, level: nat, size: nat, rng: Rng)
    returns (ok: bool, next': nat)
    requires t.LoopNode? && Represents(body, t.body, nodes) && next + t.Length() <= buf.Length && level <= LOOP_REGISTERS
    modifies buf, rng
    ensures ok <==> level + t.Nesting() <= LOOP_REGISTERS
    ensures ok ==> next' == next + t.Length()
    ensures ok ==> Written(t, size, old(rng.next), level, old(buf[..]), buf[..], next, rng.next)
    decreases t, 0
  {
    ghost var s, a := rng.next, buf[..];
    OpenLoop(buf, next, level, rng);
    ghost var b := buf[..];
    next' := next + 1;
    var bodyLength := ProgramLength(body, t.body, nodes);
    ok, next' := WriteProgram(body, t.body, nodes, buf, next', level + 1, size, rng);
    if ok {
      CloseLoop(buf, next', level, bodyLength, t, size, s, a, b, next, rng.next);
      next' := next' + 1;
    }
  }

  /** A sequence: one part and then the other. */
  method WriteSequence(left: Node, right: Node, ghost t: Tree, ghost nodes: set<Node>,
                       buf: array<Instr>, next: nat, level: nat, size: nat, rng: Rng)
    returns (ok: bool, next': nat)
    requires t.SeqNode? && Represents(left, t.left, nodes) && Represents(right, t.right, nodes)
    requires next + t.Length() <= buf.Length && level <= LOOP_REGISTERS
    modifies buf, rng
    ensures ok <==> level + t.Nesting() <= LOOP_REGISTERS
    ensures ok ==> next' == next + t.Length()
    ensures ok ==> Written(t, size, old(rng.next), level, old(buf[..]), buf[..], next, rng.next)
    decreases t, 0
  {
    ghost var s, a := rng.next, buf[..];
    ok, next' := WriteProgram(left, t.left, nodes, buf, next, level, size, rng);
    if ok {
      ghost var s1, b := rng.next, buf[..];
      ok, next' := WriteProgram(right, t.right, nodes, buf, next', level, size, rng);
      if ok {
        SequenceWritten(t, size, s, level, a, b, buf[..], next, s1, rng.next);
      }
    }
  }

  /** What generate_random_dma_program makes of a seed: the kinds and draws of the tree, the transfer size
      and the loop program. */
  datatype Recipe = Recipe(kinds: seq<Kind>, draws: seq<nat>, size: nat, code: Code)

  /** The state of the generator once the program is written. */
  ghost function Leaves(r: Recipe, seed: State): State
    requires Complete(r.kinds)
  {
    Dress(TreeAt(r.kinds, 0), r.size, Advance(Later(seed, |r.draws|))).1
  }

  ghost predicate Cooked(r: Recipe, seed: State) {
    && Drawn(seed, r.draws) && Follows(r.kinds, r.draws) && Complete(r.kinds)
    && var s := Advance(Later(seed, |r.draws|));
       r.size == Draw(s) % 6 && r.code == Dress(TreeAt(r.kinds, 0), r.size, s).0
  }

  /** Choose a transfer size and write the tree and a STOP into a buffer of exactly the right length. */
  method WriteWhole(structure: Node, ghost t: Tree, ghost nodes: set<Node>, rng: Rng)
    returns (ok: bool, program: array<Instr>, size: nat, ghost c: Code)
    requires Represents(structure, t, nodes)
    modifies rng
    ensures fresh(program) && program.Length == t.Length() + 1
    ensures var s := Advance(old(rng.next)); size == Draw(s) % 6 && c == Dress(t, size, s).0
    ensures ok <==> t.Nesting() <= LOOP_REGISTERS
    ensures ok ==> program[..] == Emit(c, 0, size) + [StopOp] && rng.next == Dress(t, size, Advance(old(rng.next))).1
  {
    var length := ProgramLength(structure, t, nodes);
    program := new Instr[length + 1](_ => StopOp);
    var p := rng.MyRand();
    size := p % 6;
    ghost var s, before := rng.next, program[..];
    c := Dress(t, size, s).0;
    var next;
    ok, next := WriteProgram(structure, t, nodes, program, 0, 0, size, rng);
    if ok {
      Put(program, next, StopOp, before, 0, Emit(c, 0, size));
    }
  }

  /** generate_random_dma_program: the flat program for this seed, unless the writer's
      assertion fails. */
  method GenerateProgram(rng: Rng, seed: State) returns (ok: bool, program: array<Instr>, ghost r: Recipe)
    modifies rng
    ensures fresh(program) && Cooked(r, seed)
    ensures program.Length == r.code.Shape().Length() + 1 == Settled(r.kinds) + LateZeros(r.kinds, r.draws) + 1
    ensures program.Length <= 27 && program.Length <= 24 + Zeros(r.draws)
    ensures ok <==> r.code.Shape().Nesting() <= LOOP_REGISTERS
    ensures ok ==> program[..] == Emit(r.code, 0, r.size) + [StopOp] && rng.next == Leaves(r, seed)
  {
    rng.next := seed;
    ghost var nodes, kinds, draws;
    var structure, size;
    structure, nodes, kinds, draws := RandomStructure(rng);
    ghost var t := TreeAt(kinds, 0);
    ghost var c;
    DrawsInRange(seed, draws);
    FinishedLimits(kinds, draws);
    SeedLimit(seed, kinds, draws);
    ok, program, size, c := WriteWhole(structure, t, (set n | n in nodes), rng);
    r := Recipe(kinds, draws, size, c);
  }

  /** list_transfers: run the program from relative address zero, whatever the loop counters hold at
      first, and keep every transfer it makes. */
  method ListTransfers(floor: nat, program: array<Instr>, regs: seq<nat>, ghost c: Code, ghost size: nat)
    returns (list: seq<Transfer>)
    requires |regs| == LOOP_REGISTERS
    requires program[..] == Emit(c, 0, size) + [StopOp] && c.Shape().Nesting() <= LOOP_REGISTERS
    ensures list == Eval(floor, c, size, 0, 0).made
  {
    var thread := Thread(0, 0, 0, regs, Running);
    ProgramRuns(floor, c, size, thread);
    list := Collect(floor, program, thread, Steps(floor, c) + 1);
  }

  /** Execute instructions until the thread stops, which it does within last of them. */
  method Collect(floor: nat, program: array<Instr>, start: Thread, ghost last: nat) returns (list: seq<Transfer>)
    requires start.Valid() && Exec(floor, program[..], start, last).thread.status.Stopped?
    ensures list == Exec(floor, program[..], start, last).made
  {
    var thread := start;
    list := [];
    ghost var n := 0;
    while !thread.status.Stopped?
      invariant thread.Valid() && n <= last
      invariant Exec(floor, program[..], start, n) == Outcome(thread, list)
      decreases last - n
    {
      OneMore(floor, program[..], start, n, thread, list);
      var outcome := Step(floor, program[..], thread);
      thread := outcome.thread;
      list := list + outcome.made;
      n := n + 1;
    }
    NothingAfter(floor, program[..], start, n, last);
  }

  lemma OneMore(floor: nat, code: seq<Instr>, start: Thread, n: nat, thread: Thread, list: seq<Transfer>)
    requires start.Valid() && Exec(floor, code, start, n) == Outcome(thread, list)
    ensures var o := Step(floor, code, thread); Exec(floor, code, start, n + 1) == Outcome(o.thread, list + o.made)
  {
    ExecAdds(floor, code, start, n, 1);
    assert Exec(floor, code, thread, 1) == Step(floor, code, thread);
  }

  lemma NothingAfter(floor: nat, code: seq<Instr>, start: Thread, n: nat, last: nat)
    requires start.Valid() && n <= last && !Exec(floor, code, start, n).thread.status.Running?
    ensures Exec(floor, code, start, last) == Exec(floor, code, start, n)
  {
    var here := Exec(floor, code, start, n);
    ExecAdds(floor, code, start, n, last - n);
    HaltedStays(floor, code, here.thread, last - n);
    assert here.made + [] == here.made;
  }
}
