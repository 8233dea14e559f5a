/**
 The constraint the program generator is built around: no loop counter is set in the body of its
 own loop.
 */
module LoopRegisters {
  import opened DmaMachine

  /** A LOOP at index i jumps to the instruction after the SET of its own counter, and nothing between the two sets
      that counter again. */
  ghost predicate LoopSound(code: seq<Instr>, i: nat)
    requires i < |code|
  {
    code[i].LoopOp? ==>
      var start := i - code[i].back;
      && 0 < start && code[start - 1].SetOp? && code[start - 1].reg == code[i].reg
      && forall j :: start <= j < i && code[j].SetOp? ==> code[j].reg != code[i].reg
  }

  ghost predicate RegistersWithin(code: seq<Instr>, lo: nat, hi: nat) {
    forall i :: 0 <= i < |code| ==>
      && (code[i].SetOp? ==> lo <= code[i].reg < hi)
      && (code[i].LoopOp? ==> lo <= code[i].reg < hi)
  }

  ghost predicate AllSound(code: seq<Instr>) {
    forall i :: 0 <= i < |code| ==> LoopSound(code, i)
  }

  lemma SoundAppend(a: seq<Instr>, b: seq<Instr>)
    requires AllSound(a) && AllSound(b)
    ensures AllSound(a + b)
  {
    var code := a + b;
    forall i | 0 <= i < |code| ensures LoopSound(code, i) {
      if i < |a| {
        assert LoopSound(a, i);
      } else {
        assert LoopSound(b, i - |a|);
        if code[i].LoopOp? {
          var start := i - code[i].back;
          forall j | start <= j < i && code[j].SetOp? ensures code[j].reg != code[i].reg {
            assert code[j] == b[j - |a|];
          }
        }
      }
    }
  }

  lemma SoundLoop(level: nat, count: nat, inner: seq<Instr>, hi: nat)
    requires AllSound(inner) && RegistersWithin(inner, level + 1, hi)
    ensures AllSound([SetOp(level, count)] + inner + [LoopOp(level, |inner|)])
  {
    var start := [SetOp(level, count)];
    SoundAppend(start, inner);
    var code := start + inner + [LoopOp(level, |inner|)];
    forall i | 0 <= i < |code| ensures LoopSound(code, i) {
      if i < |start + inner| {
        assert LoopSound(start + inner, i);
      } else {
        assert forall j :: 1 <= j < i ==> code[j] == inner[j - 1];
      }
    }
  }

  /** Every program the writer emits is sound, and its registers are those of the loops around each
      instruction: from the outermost level to one less than the deepest. */
  lemma {:induction false} EmittedIsSound(c: Code, level: nat, size: nat)
    ensures AllSound(Emit(c, level, size))
    ensures RegistersWithin(Emit(c, level, size), level, level + c.Shape().Nesting())
  {
    match c {
      case LoopCode(count, body) =>
        EmittedIsSound(body, level + 1, size);
        SoundLoop(level, count, Emit(body, level + 1, size), level + 1 + body.Shape().Nesting());
      case SeqCode(left, right) =>
        EmittedIsSound(left, level, size);
        EmittedIsSound(right, level, size);
        SoundAppend(Emit(left, level, size), Emit(right, level, size));
      case AddCode(_, _) =>
      case TransferCode =>
    }
  }

  /** A program with more loops around one another than there are registers sets a register that does not exist. */
  lemma {:induction false} TooDeepSetsMissing(c: Code, level: nat, size: nat)
    requires level + c.Shape().Nesting() > LOOP_REGISTERS && level <= LOOP_REGISTERS
    ensures exists i :: 0 <= i < |Emit(c, level, size)| && Emit(c, level, size)[i].SetOp?
                        && Emit(c, level, size)[i].reg >= LOOP_REGISTERS
  {
    var code := Emit(c, level, size);
    match c {
      case LoopCode(count, body) =>
        assert code[0] == SetOp(level, count);
        if level < LOOP_REGISTERS {
          var inner := Emit(body, level + 1, size);
          TooDeepSetsMissing(body, level + 1, size);
          var i :| 0 <= i < |inner| && inner[i].SetOp? && inner[i].reg >= LOOP_REGISTERS;
          assert code[i + 1] == inner[i];
        }
      case SeqCode(left, right) =>
        var a, b := Emit(left, level, size), Emit(right, level, size);
        if left.Shape().Nesting() >= right.Shape().Nesting() {
          TooDeepSetsMissing(left, level, size);
          var i :| 0 <= i < |a| && a[i].SetOp? && a[i].reg >= LOOP_REGISTERS;
          assert code[i] == a[i];
        } else {
          TooDeepSetsMissing(right, level, size);
          var i :| 0 <= i < |b| && b[i].SetOp? && b[i].reg >= LOOP_REGISTERS;
          assert code[|a| + i] == b[i];
        }
      case AddCode(_, _) =>
      case TransferCode =>
    }
  }
}
