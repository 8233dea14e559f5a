/**
 A test whose only thread needs a second page on each side, and random pages that put its two runs on top of
 each other.
 */
module PageSeed {
  import opened Rand
  import opened ProgramTree
  import opened TreeBuilder
  import opened DmaMachine
  import opened ProgramWriter
  import opened MultithreadTest
  import opened Generation
  import opened Options
  import opened PageChoice
  import opened Seeds

  const SEED: State := 30613

  const KINDS: seq<Kind> := [
    Loop, Sequence, Loop, Operation, Sequence, Operation, Operation
  ]

  const DRAWS: seq<nat> := [
    30432, 12870, 25323, 25917, 11037, 32323, 24142, 27641, 14564, 31823,
    30421, 15070, 13475, 4342, 6624
  ]

  /** The states the generator goes through. */
  const STATES: seq<State> := [
    30613, 33781912207530, 16432097367664542875, 15105917484448555064,
    9199091725140621329, 7946328799910428022, 17952424946722606967, 13371968962113177572,
    11159207096400544845, 8882131100821125890, 18042455338184027155, 2033101277115039312,
    11993815195053889609, 3127375586299954510, 11603311431301625455, 8631220450898243452
  ]

  lemma Table(k: nat)
    requires k < 15
    ensures Line(STATES, DRAWS, k)
  {
    match k {
      case 0 => Row(30613, 0, 33781912207530, 0, 15730, 30432, 32938);
      case 1 => Row(33781912207530, 2020, 16432097367664542875, 58378, 70397, 12870, 50331);
      case 2 => Row(16432097367664542875, 982995691, 15105917484448555064, 53666, 131029, 25323, 8248);
      case 3 => Row(15105917484448555064, 903661381, 9199091725140621329, 32681, 96862, 25917, 63505);
      case 4 => Row(9199091725140621329, 550305133, 7946328799910428022, 28231, 4066, 11037, 64886);
      case 5 => Row(7946328799910428022, 475362748, 17952424946722606967, 63779, 108222, 32323, 3959);
      case 6 => Row(17952424946722606967, 1073944243, 13371968962113177572, 47506, 101848, 24142, 2020);
      case 7 => Row(13371968962113177572, 799933665, 11159207096400544845, 39645, 61301, 27641, 1101);
      case 8 => Row(11159207096400544845, 667562530, 8882131100821125890, 31555, 87642, 14564, 31490);
      case 9 => Row(8882131100821125890, 531344015, 18042455338184027155, 64099, 88850, 31823, 11283);
      case 10 => Row(18042455338184027155, 1079330013, 2033101277115039312, 7223, 3501, 30421, 48720);
      case 11 => Row(2033101277115039312, 121623536, 11993815195053889609, 42610, 77503, 15070, 38985);
      case 12 => Row(11993815195053889609, 717490190, 3127375586299954510, 11110, 87821, 13475, 17742);
      case 13 => Row(3127375586299954510, 187084865, 11603311431301625455, 41223, 31882, 4342, 30319);
      case _ => Row(11603311431301625455, 694129598, 8631220450898243452, 30664, 33418, 6624, 28540);
    }
  }

  const TREE: Tree := LoopNode(SeqNode(LoopNode(SeqNode(OpNode, OpNode)), OpNode))

  const INNER: Code := SeqCode(AddCode(SourceOnly, 480), TransferCode)

  const OUTER: Code := SeqCode(LoopCode(4, INNER), TransferCode)

  const CODE: Code := LoopCode(5, OUTER)

  // -------------------------------------------------------------- the program

  lemma PageKinds()
    ensures Follows(KINDS, DRAWS[..7]) && Complete(KINDS)
  {
    ChoiceAt(KINDS, DRAWS[..7], 0, 30432, Loop, 1, 0);
    ChoiceAt(KINDS, DRAWS[..7], 1, 12870, Sequence, 1, 2);
    ChoiceAt(KINDS, DRAWS[..7], 2, 25323, Loop, 2, 2);
    ChoiceAt(KINDS, DRAWS[..7], 3, 25917, Operation, 2, 4);
    ChoiceAt(KINDS, DRAWS[..7], 4, 11037, Sequence, 1, 5);
    ChoiceAt(KINDS, DRAWS[..7], 5, 32323, Operation, 2, 5);
    ChoiceAt(KINDS, DRAWS[..7], 6, 24142, Operation, 1, 6);
    assert KINDS[..7] == KINDS;
    FollowsToTheEnd(KINDS, DRAWS[..7]);
  }

  lemma PageLevelOrder()
    ensures LevelOrder([TREE]) == KINDS
  {
    var op := OpNode;
    var pair := SeqNode(op, op);
    var body := SeqNode(LoopNode(pair), op);
    Visit(LoopNode(body), []);
    Visit(body, []);
    Visit(LoopNode(pair), [op]);
    PageLevels(op, pair);
  }

  lemma PageLevels(op: Tree, pair: Tree)
    requires op == OpNode && pair == SeqNode(op, op)
    ensures LevelOrder([op, pair]) == [Operation, Sequence, Operation, Operation]
  {
    assert [op, pair] == [op] + [pair] && [pair] == [pair] + [] && [op, op] == [op] + [op] && [op] == [op] + [];
    Visit(op, [pair]);
    Visit(pair, []);
    Visit(op, [op]);
    Visit(op, []);
  }

  lemma DressLoop(body: Tree, size: nat, s: State, s1: State, p: nat, inner: Code, end: State)
    requires Advance(s) == s1 && Draw(s1) == p && Dress(body, size, s1) == (inner, end)
    ensures Dress(LoopNode(body), size, s) == (LoopCode(1 + p % 5, inner), end)
  {
  }

  lemma DressSequence(left: Tree, right: Tree, size: nat, s: State, a: Code, mid: State, b: Code, end: State)
    requires Dress(left, size, s) == (a, mid) && Dress(right, size, mid) == (b, end)
    ensures Dress(SeqNode(left, right), size, s) == (SeqCode(a, b), end)
  {
  }

  lemma DressTransfer(size: nat, s: State, s1: State, p: nat)
    requires Advance(s) == s1 && Draw(s1) == p && p % 2 == 0
    ensures Dress(OpNode, size, s) == (TransferCode, s1)
  {
  }

  lemma DressAdd(size: nat, s: State, s1: State, s2: State, s3: State, p: nat, q: nat, r: nat)
    requires Advance(s) == s1 && Draw(s1) == p && p % 2 == 1
    requires Advance(s1) == s2 && Draw(s2) == q && Advance(s2) == s3 && Draw(s3) == r
    ensures Dress(OpNode, size, s) == (AddCode(TargetOf(q), Width(size) * (r % 20)), s3)
  {
  }

  lemma InnerDress()
    ensures Dress(SeqNode(OpNode, OpNode), 5, STATES[10]) == (INNER, STATES[14])
  {
    Table(10);
    Table(11);
    Table(12);
    Table(13);
    DressAdd(5, STATES[10], STATES[11], STATES[12], STATES[13], 30421, 15070, 13475);
    assert Width(5) == 32;
    DressTransfer(5, STATES[13], STATES[14], 4342);
    DressSequence(OpNode, OpNode, 5, STATES[10], AddCode(SourceOnly, 480), STATES[13], TransferCode, STATES[14]);
  }

  lemma PageDress()
    ensures Dress(TREE, 5, STATES[8]) == (CODE, STATES[15])
  {
    InnerDress();
    Table(8);
    Table(9);
    Table(14);
    DressLoop(SeqNode(OpNode, OpNode), 5, STATES[9], STATES[10], 31823, INNER, STATES[14]);
    DressTransfer(5, STATES[14], STATES[15], 6624);
    DressSequence(LoopNode(SeqNode(OpNode, OpNode)), OpNode, 5, STATES[9],
                  LoopCode(4, INNER), STATES[14], TransferCode, STATES[15]);
    DressLoop(SeqNode(LoopNode(SeqNode(OpNode, OpNode)), OpNode), 5, STATES[8], STATES[9], 14564, OUTER, STATES[15]);
  }

  lemma PageDraws()
    ensures Drawn(SEED, DRAWS[..7]) && Later(SEED, 7) == STATES[7]
    ensures Advance(STATES[7]) == STATES[8] && Draw(STATES[8]) == 27641
  {
    forall k: nat | k < 15 ensures Line(STATES, DRAWS, k) {
      Table(k);
    }
    forall k: nat | k < 7 ensures Line(STATES, DRAWS[..7], k) {
      assert Line(STATES, DRAWS, k);
    }
    TableDrawn(STATES, DRAWS[..7]);
    StatesFollow(STATES, DRAWS, 7);
    assert Line(STATES, DRAWS, 7);
  }

  lemma PageTree()
    ensures Complete(KINDS) && TreeAt(KINDS, 0) == TREE
  {
    PageKinds();
    PageLevelOrder();
    TreeOfLevelOrder(KINDS);
    LevelOrderInjective([TreeAt(KINDS, 0)], [TREE]);
    assert [TreeAt(KINDS, 0)][0] == TREE;
  }

  lemma PageChoices(r: Recipe)
    requires Cooked(r, SEED)
    ensures r.kinds == KINDS && r.draws == DRAWS[..7]
  {
    PageDraws();
    PageKinds();
    OneTreeForASeed(SEED, r.kinds, r.draws, KINDS, DRAWS[..7]);
  }

  lemma Written(r: Recipe, seed: State, s: State, t: Tree, size: nat, code: Code, end: State)
    requires Cooked(r, seed) && TreeAt(r.kinds, 0) == t
    requires Advance(Later(seed, |r.draws|)) == s && Draw(s) % 6 == size && Dress(t, size, s) == (code, end)
    ensures r.size == size && r.code == code
  {
  }

  /** The only program that can be made of this seed. */
  lemma PageProgram(r: Recipe)
    requires Cooked(r, SEED)
    ensures r.size == 5 && r.code == CODE
  {
    PageChoices(r);
    PageTree();
    PageDraws();
    PageDress();
    Written(r, SEED, STATES[8], TREE, 5, CODE, STATES[15]);
  }

  // ---------------------------------------------------------------- its reach

  lemma {:induction false} InnerReach(floor: nat, n: nat, source: nat, destination: nat)
    ensures EvalTimes(floor, INNER, n, 5, source, destination).source == source + 512 * n
    ensures EvalTimes(floor, INNER, n, 5, source, destination).destination == destination + 32 * n
  {
    if n != 0 {
      var once := Eval(floor, INNER, 5, source, destination);
      InnerOnce(floor, source, destination);
      InnerReach(floor, n - 1, once.source, once.destination);
    }
  }

  lemma InnerOnce(floor: nat, source: nat, destination: nat)
    ensures var once := Eval(floor, INNER, 5, source, destination);
            once.source == source + 512 && once.destination == destination + 32
  {
    assert Width(5) == 32;
    var add := Eval(floor, AddCode(SourceOnly, 480), 5, source, destination);
    assert Eval(floor, TransferCode, 5, add.source, add.destination).source == add.source + 32;
  }

  /** The loop program ends in a transfer, with the source at least this far. */
  ghost predicate EndsBeyond(e: Effect, far: nat) {
    && e.source >= far && e.source >= 32 && e.destination >= 32 && |e.made| > 0
    && e.made[|e.made| - 1] == Transfer(e.source - 32, e.destination - 32, 5)
  }

  /** Turns of the outer loop end in a transfer, at least 2080 bytes after its start. */
  lemma OuterOnce(floor: nat, source: nat, destination: nat)
    requires floor <= 1
    ensures EndsBeyond(Eval(floor, OUTER, 5, source, destination), source + 2080)
  {
    assert Width(5) == 32;
    InnerReach(floor, Repeats(floor, 4), source, destination);
    var first := Eval(floor, LoopCode(4, INNER), 5, source, destination);
    var last := Eval(floor, TransferCode, 5, first.source, first.destination);
    var e := Eval(floor, OUTER, 5, source, destination);
    assert e.made == first.made + last.made && e.source == last.source && e.destination == last.destination;
  }

  lemma {:induction false} TimesReach(floor: nat, c: Code, times: nat, source: nat, destination: nat)
    requires forall s: nat, d: nat :: EndsBeyond(Eval(floor, c, 5, s, d), s + 2080)
    requires times >= 1
    ensures EndsBeyond(EvalTimes(floor, c, times, 5, source, destination), source + 2080 * times)
  {
    var first := Eval(floor, c, 5, source, destination);
    assert EndsBeyond(first, source + 2080);
    if times == 1 {
      LastTime(floor, c, 5, source, destination);
    } else {
      TimesReach(floor, c, times - 1, first.source, first.destination);
    }
  }

  /** The program needs more than one double page, whether a loop with counter v runs v or v + 1 times. */
  lemma NeedsTwoPages(floor: nat, g: ThreadProgram)
    requires floor <= 1 && g.code == CODE && g.size == 5
    ensures UsagePages(g.List(floor)) >= 1
  {
    forall s: nat, d: nat ensures EndsBeyond(Eval(floor, OUTER, 5, s, d), s + 2080) {
      OuterOnce(floor, s, d);
    }
    TimesReach(floor, OUTER, Repeats(floor, 5), 0, 0);
    assert Width(5) == 32;
    assert Eval(floor, g.code, 5, 0, 0) == EvalTimes(floor, OUTER, Repeats(floor, 5), 5, 0, 0);
  }

  // ---------------------------------------------------------------- the test

  const TEST_SEED: State := 13988

  const MIN_PHYS_PAGE: nat := 0x08000
  const MAX_PHYS_PAGE: nat := 0x1FFFF

  lemma OnlyThread(rs: seq<Recipe>, states: seq<State>)
    requires MadeFrom(rs, states, TEST_SEED) && |rs| == 1
    ensures rs[0].size == 5 && rs[0].code == CODE && AllWritable(rs)
  {
    assert MadeAt(rs, states, 0);
    Row(13988, 0, 15435971259405, 0, 7187, 30613, 27661);
    PageProgram(rs[0]);
  }

  /** A test with one thread from this seed, and two physical pages in the engine's range: the thread's sources get pages
      0x8001 and on, its destinations pages 0x8000 and on, and page 0x8001 is in use twice. */
  lemma PagesCollide(floor: nat, rs: seq<Recipe>, states: seq<State>)
    requires floor <= 1 && MadeFrom(rs, states, TEST_SEED) && |rs| == 1
    ensures AllWritable(rs) && MIN_PHYS_PAGE <= 0x8000 <= 0x8001 <= MAX_PHYS_PAGE
    ensures var lists := Lists(floor, Threads(rs));
            && Choice(lists, 1, [0x8001, 0x8000]) == Some(Chosen([Pair(0x8001, 0x8000)], 2))
            && !NoDuplicates(InUse([Pair(0x8001, 0x8000)], lists))
  {
    OnlyThread(rs, states);
    NeedsTwoPages(floor, Threads(rs)[0]);
    OnePairCollides(Lists(floor, Threads(rs)));
  }

  lemma OnePairCollides(lists: seq<seq<Transfer>>)
    requires |lists| == 1 && UsagePages(lists[0]) >= 1
    ensures Choice(lists, 1, [0x8001, 0x8000]) == Some(Chosen([Pair(0x8001, 0x8000)], 2))
    ensures !NoDuplicates(InUse([Pair(0x8001, 0x8000)], lists))
  {
    var more, draws: seq<nat>, pair := UsagePages(lists[0]), [0x8001, 0x8000], Pair(0x8001, 0x8000);
    Collides([], 0x8000, more);
    TwoChosen([], more, draws, 0, pair);
    assert Choice(lists, 0, draws) == Some(Chosen([], 0));
    InUseNext([], lists, pair);
    assert [] + [pair] == [pair];
  }
}
