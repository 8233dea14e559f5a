/**
 A seed for which the random tree has more loops around one another than the code
 writer accepts.
 */
module DeepSeed {
  import opened Rand
  import opened ProgramTree
  import opened TreeBuilder
  import opened DmaMachine
  import opened ProgramWriter
  import opened Seeds

  const SEED: State := 4501

  const KINDS: seq<Kind> := [
    Loop, Loop, Sequence, Loop, Operation, Loop, Loop, Sequence, Operation, Operation
  ]

  const DRAWS: seq<nat> := [
    29601, 26816, 18875, 20125, 26709, 13109, 7994, 1297, 5861, 11940
  ]

  /** The states the generator goes through. */
  const STATES: seq<State> := [
    4501, 4966922130090, 2391301390451404443, 12392811854600798776,
    3259773081825915409, 7586927163821371254, 15502404722403694967, 12675696801789643236,
    6124489672586550861, 5876677236796771586, 14067191641025058323
  ]

  lemma Table(k: nat)
    requires k < 10
    ensures Line(STATES, DRAWS, k)
  {
    match k {
      case 0 => Row(4501, 0, 4966922130090, 0, 2312, 29601, 4778);
      case 1 => Row(4966922130090, 297, 2391301390451404443, 8495, 79843, 26816, 61083);
      case 2 => Row(2391301390451404443, 143051669, 12392811854600798776, 44028, 14705, 18875, 568);
      case 3 => Row(12392811854600798776, 741358841, 3259773081825915409, 11581, 5297, 20125, 12817);
      case 4 => Row(3259773081825915409, 195005106, 7586927163821371254, 26954, 23581, 26709, 44918);
      case 5 => Row(7586927163821371254, 453862738, 15502404722403694967, 55075, 79339, 13109, 55671);
      case 6 => Row(15502404722403694967, 927379914, 12675696801789643236, 45033, 15914, 7994, 2532);
      case 7 => Row(12675696801789643236, 758281494, 6124489672586550861, 21758, 73169, 1297, 56909);
      case 8 => Row(6124489672586550861, 366377269, 5876677236796771586, 20878, 19871, 5861, 19714);
      case _ => Row(5876677236796771586, 351552712, 14067191641025058323, 49976, 92296, 11940, 38419);
    }
  }

  const DEEP: Tree := LoopNode(LoopNode(SeqNode(LoopNode(LoopNode(LoopNode(SeqNode(OpNode, OpNode)))), OpNode)))

  lemma FirstChoices()
    ensures forall i :: 0 <= i < 5 ==> ChosenAt(KINDS, DRAWS, i)
    ensures Open(KINDS[..5]) == 1 && TotalCost(KINDS[..5]) == 7
  {
    ChoiceAt(KINDS, DRAWS, 0, 29601, Loop, 1, 0);
    ChoiceAt(KINDS, DRAWS, 1, 26816, Loop, 1, 2);
    ChoiceAt(KINDS, DRAWS, 2, 18875, Sequence, 1, 4);
    ChoiceAt(KINDS, DRAWS, 3, 20125, Loop, 2, 4);
    ChoiceAt(KINDS, DRAWS, 4, 26709, Operation, 2, 6);
  }

  lemma DeepKinds()
    ensures Follows(KINDS, DRAWS) && Complete(KINDS)
  {
    FirstChoices();
    ChoiceAt(KINDS, DRAWS, 5, 13109, Loop, 1, 7);
    ChoiceAt(KINDS, DRAWS, 6, 7994, Loop, 1, 9);
    ChoiceAt(KINDS, DRAWS, 7, 1297, Sequence, 1, 11);
    ChoiceAt(KINDS, DRAWS, 8, 5861, Operation, 2, 11);
    ChoiceAt(KINDS, DRAWS, 9, 11940, Operation, 1, 12);
    assert KINDS[..10] == KINDS;
    FollowsToTheEnd(KINDS, DRAWS);
  }

  lemma LevelsOfTwo(op: Tree, two: Tree)
    requires op == OpNode && two == LoopNode(LoopNode(SeqNode(op, op)))
    ensures LevelOrder([op, two]) == [Operation, Loop, Loop, Sequence, Operation, Operation]
  {
    assert [op, two] == [op] + [two] && [two] + op.Children() == [two] + [];
    Visit(op, [two]);
    Visit(two, []);
    assert [] + two.Children() == [two.body];
    LevelsOfOne(op, two.body);
  }

  lemma LevelsOfOne(op: Tree, one: Tree)
    requires op == OpNode && one == LoopNode(SeqNode(op, op))
    ensures LevelOrder([one]) == [Loop, Sequence, Operation, Operation]
  {
    assert [one] == [one] + [] && [one.body] == [one.body] + [] && [op, op] == [op] + [op] && [op] == [op] + [];
    Visit(one, []);
    Visit(one.body, []);
    Visit(op, [op]);
    Visit(op, []);
  }

  lemma DeepLevelOrder()
    ensures LevelOrder([DEEP]) == KINDS
  {
    var op := OpNode;
    var two := LoopNode(LoopNode(SeqNode(op, op)));
    var split := SeqNode(LoopNode(two), op);
    Visit(LoopNode(LoopNode(split)), []);
    Visit(LoopNode(split), []);
    Visit(split, []);
    Visit(LoopNode(two), [op]);
    LevelsOfTwo(op, two);
  }

  /** random_dma_program_structure builds a tree with five loops around one another
      from this seed. */
  lemma SeedNestsFiveDeep()
    ensures Drawn(SEED, DRAWS) && Follows(KINDS, DRAWS) && Complete(KINDS)
    ensures TreeAt(KINDS, 0).Nesting() == 5
  {
    forall k: nat | k < 10 ensures Line(STATES, DRAWS, k) {
      Table(k);
    }
    TableDrawn(STATES, DRAWS);
    DeepKinds();
    DeepLevelOrder();
    TreeOfLevelOrder(KINDS);
    LevelOrderInjective([TreeAt(KINDS, 0)], [DEEP]);
    assert [TreeAt(KINDS, 0)][0] == DEEP;
  }

  /** So the assertion in write_random_dma_program fails for this seed, whatever else is drawn. */
  lemma WriterRefusesSeed(r: Recipe)
    requires Cooked(r, SEED)
    ensures r.code.Shape().Nesting() == 5 > LOOP_REGISTERS
  {
    SeedNestsFiveDeep();
    OneTreeForASeed(SEED, r.kinds, r.draws, KINDS, DRAWS);
  }
}
