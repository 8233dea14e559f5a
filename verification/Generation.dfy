/**
 The programs of a multi-threaded test, made one after another from one seed.
 */
module Generation {
  import opened Rand
  import opened TreeBuilder
  import opened DmaMachine
  import opened TransferLists
  import opened PhysicalLayout
  import opened ProgramWriter
  import opened MultithreadTest

  predicate Writable(r: Recipe) {
    r.code.Shape().Nesting() <= LOOP_REGISTERS
  }

  function Threads(rs: seq<Recipe>): (gs: seq<ThreadProgram>)
    ensures |gs| == |rs|
  {
    seq(|rs|, i requires 0 <= i < |rs| => ThreadProgram(rs[i].code, rs[i].size))
  }

  /** The seed of program i is drawn from states[i]; writing the program leaves the generator in states[i + 1]. */
  ghost predicate MadeAt(rs: seq<Recipe>, states: seq<State>, i: nat)
    requires i < |rs| < |states|
  {
    var seed := Draw(Advance(states[i]));
    Cooked(rs[i], seed) && (Writable(rs[i]) ==> states[i + 1] == Leaves(rs[i], seed))
  }

  /** The programs made one after another, starting from a seed. */
  ghost predicate MadeFrom(rs: seq<Recipe>, states: seq<State>, seed: State) {
    && |states| == |rs| + 1 && states[0] == seed
    && forall i :: 0 <= i < |rs| ==> MadeAt(rs, states, i)
  }

  lemma OneMoreRecipe(rs: seq<Recipe>, states: seq<State>, seed: State, r: Recipe, next: State)
    requires MadeFrom(rs, states, seed)
    requires Cooked(r, Draw(Advance(states[|rs|]))) && (Writable(r) ==> next == Leaves(r, Draw(Advance(states[|rs|]))))
    ensures MadeFrom(rs + [r], states + [next], seed)
  {
    forall i | 0 <= i < |rs| + 1 ensures MadeAt(rs + [r], states + [next], i) {
      assert i < |rs| ==> MadeAt(rs, states, i);
    }
  }

  lemma OneMoreThread(floor: nat, rs: seq<Recipe>, r: Recipe, programs: seq<seq<Instr>>, lists: seq<seq<Transfer>>)
    requires programs == Programs(Threads(rs)) && lists == Lists(floor, Threads(rs))
    ensures programs + [ThreadProgram(r.code, r.size).Program()] == Programs(Threads(rs + [r]))
    ensures lists + [ThreadProgram(r.code, r.size).List(floor)] == Lists(floor, Threads(rs + [r]))
  {
  }

  ghost predicate AllWritable(rs: seq<Recipe>) {
    forall i :: 0 <= i < |rs| ==> Writable(rs[i])
  }

  /** One program from a drawn seed, and the list of its transfers. */
  method GenerateThread(floor: nat, regs: seq<nat>, rng: Rng, ghost rs: seq<Recipe>, ghost states: seq<State>, ghost seed: State)
    returns (ok: bool, program: seq<Instr>, list: seq<Transfer>, ghost r: Recipe)
    requires |regs| == LOOP_REGISTERS && MadeFrom(rs, states, seed) && rng.next == states[|rs|]
    modifies rng
    ensures MadeFrom(rs + [r], states + [rng.next], seed)
    ensures ok <==> Writable(r)
    ensures ok ==> program == ThreadProgram(r.code, r.size).Program() && list == ThreadProgram(r.code, r.size).List(floor)
  {
    var threadSeed := rng.MyRand();
    var code;
    ok, code, r := GenerateProgram(rng, threadSeed);
    OneMoreRecipe(rs, states, seed, r, rng.next);
    program, list := code[..], [];
    if ok {
      list := ListTransfers(floor, code, regs, r.code, r.size);
    }
  }

  /** generate_programs and generate_transfer_lists: one program for every thread, each from a seed drawn
      after the program before it.  The generator gives up at the first seed that makes the program writer's
      assertion fail. */
  method GenerateThreads(floor: nat, seed: State, count: nat, regs: seq<nat>, rng: Rng)
    returns (ok: bool, programs: seq<seq<Instr>>, lists: seq<seq<Transfer>>, ghost rs: seq<Recipe>, ghost states: seq<State>)
    requires |regs| == LOOP_REGISTERS
    modifies rng
    ensures MadeFrom(rs, states, seed) && |rs| <= count
    ensures ok <==> AllWritable(rs)
    ensures ok ==> |rs| == count && programs == Programs(Threads(rs)) && lists == Lists(floor, Threads(rs))
    ensures !ok ==> AllWritable(rs[..|rs| - 1])
  {
    rng.next := seed;
    ok, programs, lists, rs, states := true, [], [], [], [seed];
    for i := 0 to count
      invariant MadeFrom(rs, states, seed) && |rs| == i && rng.next == states[i]
      invariant ok && AllWritable(rs)
      invariant programs == Programs(Threads(rs)) && lists == Lists(floor, Threads(rs))
    {
      var program, list;
      ghost var r, before := *, rs;
      ok, program, list, r := GenerateThread(floor, regs, rng, rs, states, seed);
      rs, states := rs + [r], states + [rng.next];
      assert rs[..i] == before && rs[i] == r;
      if !ok {
        return;
      }
      OneMoreThread(floor, before, r, programs, lists);
      programs, lists := programs + [program], lists + [list];
    }
  }

  // ------------------------------------------------------ what they all are

  /** Whatever the seed, a program has at most 26 instructions and is one the generator can write. */
  lemma RecipeFacts(r: Recipe, seed: State)
    requires Cooked(r, seed)
    ensures Generated(r.code, r.size) && r.size < 6 && r.code.Shape().Length() <= 26
  {
    SeedLimit(seed, r.kinds, r.draws);
  }

  lemma MadeFacts(rs: seq<Recipe>, states: seq<State>, seed: State, i: nat)
    requires MadeFrom(rs, states, seed) && i < |rs|
    ensures Generated(rs[i].code, rs[i].size) && rs[i].size < 6 && rs[i].code.Shape().Length() <= 26
  {
    assert MadeAt(rs, states, i);
    RecipeFacts(rs[i], Draw(Advance(states[i])));
  }

  lemma EveryListRises(floor: nat, gs: seq<ThreadProgram>)
    ensures forall i, side :: 0 <= i < |gs| ==> Rises(side, Lists(floor, gs)[i])
  {
    forall i, side | 0 <= i < |gs| ensures Rises(side, Lists(floor, gs)[i]) {
      ProgramRises(floor, gs[i].code, gs[i].size, side);
    }
  }

  /** Relative to where a thread starts, its transfers are aligned. */
  lemma EveryListAligned(floor: nat, rs: seq<Recipe>, states: seq<State>, seed: State)
    requires MadeFrom(rs, states, seed)
    ensures forall i :: 0 <= i < |rs| ==> AlignedList(Lists(floor, Threads(rs))[i])
  {
    forall i | 0 <= i < |rs| ensures AlignedList(Lists(floor, Threads(rs))[i]) {
      MadeFacts(rs, states, seed, i);
      ProgramAligned(floor, rs[i].code, rs[i].size);
    }
  }
}
