/**
 The breadth-first builder of random program trees: a chain of open slots is filled
 from the front and grows at the back.
 */
module TreeBuilder {
  import opened Rand
  import opened ProgramTree

  const LENGTH_LIMIT: int := 12
  const SPACE_LIMIT: int := 10

  class Node {
    var kind: Kind
    var leftChild: Node?
    var rightChild: Node?
    var nextSpace: Node?

    constructor ()
      ensures nextSpace == null
    {
      nextSpace := null;
    }
  }

  /** The nodes from n down are those of the tree t. */
  ghost predicate Represents(n: Node?, t: Tree, nodes: set<Node>)
    reads nodes
    decreases t
  {
    && n != null && n in nodes && n.kind == t.Kind()
    && match t
       case LoopNode(body) => Represents(n.leftChild, body, nodes)
       case SeqNode(left, right) => Represents(n.leftChild, left, nodes) && Represents(n.rightChild, right, nodes)
       case OpNode => true
  }

  // ------------------------------------------------------ the choice of kinds

  /** What the next slot is filled with, for draw p with this many slots open and this much
      program written. */
  function Choose(p: nat, spaces: int, length: int): Kind {
    var spaceBias, lengthBias := SPACE_LIMIT - spaces, LENGTH_LIMIT - length;
    if LENGTH_LIMIT * p > RAND_LIMIT * lengthBias then Operation
    else if LENGTH_LIMIT * SPACE_LIMIT * p > RAND_LIMIT * lengthBias * spaceBias then Loop
    else Sequence
  }

  /** Kind i is the builder's choice for draw i, made while slots were open. */
  ghost predicate ChosenAt(kinds: seq<Kind>, draws: seq<nat>, i: nat)
    requires i < |kinds| == |draws|
  {
    Open(kinds[..i]) > 0 && kinds[i] == Choose(draws[i], Open(kinds[..i]), TotalCost(kinds[..i]))
  }

  /** The kinds are the builder's choices for these draws. */
  ghost predicate Follows(kinds: seq<Kind>, draws: seq<nat>) {
    |kinds| == |draws| && forall i :: 0 <= i < |kinds| ==> ChosenAt(kinds, draws, i)
  }

  lemma FollowsToTheEnd(kinds: seq<Kind>, draws: seq<nat>)
    requires Follows(kinds, draws) && Open(kinds) == 0
    ensures Complete(kinds)
  {
    forall i | 0 <= i < |kinds| ensures Open(kinds[..i]) > 0 {
      assert ChosenAt(kinds, draws, i);
    }
  }

  function Zeros(draws: seq<nat>): nat {
    if draws == [] then 0 else Zeros(draws[..|draws| - 1]) + if draws[|draws| - 1] == 0 then 1 else 0
  }

  /** The three regimes of the choice. */
  lemma ChoiceRegimes(p: nat, spaces: int, length: int)
    requires p <= RAND_LIMIT && 0 < spaces && 0 <= length
    ensures LENGTH_LIMIT < length ==> Choose(p, spaces, length).Operation?
    ensures length == LENGTH_LIMIT ==> Choose(p, spaces, length) == if p == 0 then Sequence else Operation
    ensures length < LENGTH_LIMIT && Choose(p, spaces, length).Sequence? ==>
              spaces < SPACE_LIMIT || (spaces == SPACE_LIMIT && p == 0)
  {
    var spaceBias, lengthBias := SPACE_LIMIT - spaces, LENGTH_LIMIT - length;
    if length == LENGTH_LIMIT {
      assert RAND_LIMIT * lengthBias == 0;
      assert RAND_LIMIT * lengthBias * spaceBias == 0;
    } else if length < LENGTH_LIMIT && spaceBias < 0 {
      assert RAND_LIMIT * lengthBias * spaceBias < 0;
    } else if length < LENGTH_LIMIT && spaceBias == 0 {
      assert RAND_LIMIT * lengthBias * spaceBias == 0;
    }
  }

  /** Zeros drawn when the program was exactly as long as the limit: each of them opens one more slot. */
  function LateZeros(kinds: seq<Kind>, draws: seq<nat>): nat
    requires |kinds| == |draws|
  {
    if kinds == [] then 0
    else
      var n := |kinds| - 1;
      LateZeros(kinds[..n], draws[..n]) + if draws[n] == 0 && TotalCost(kinds[..n]) == LENGTH_LIMIT then 1 else 0
  }

  /** 1 if some zero was drawn below the length limit with all slots open, which opens an eleventh. */
  function EarlyZero(kinds: seq<Kind>, draws: seq<nat>): (e: nat)
    requires |kinds| == |draws|
    ensures e <= 1
  {
    if kinds == [] then 0
    else
      var n := |kinds| - 1;
      if draws[n] == 0 && TotalCost(kinds[..n]) < LENGTH_LIMIT && Open(kinds[..n]) == SPACE_LIMIT then 1
      else EarlyZero(kinds[..n], draws[..n])
  }

  /** How far the builder can have got. */
  ghost predicate WithinLimits(spaces: int, length: int, loops: int, early: nat, late: nat) {
    && 0 <= spaces <= SPACE_LIMIT + early + late
    && (length < LENGTH_LIMIT ==> 2 * loops <= length && spaces <= SPACE_LIMIT + early && late == 0)
    && (length >= LENGTH_LIMIT ==> loops <= 6 && length + spaces <= 23 + early + late)
  }

  lemma FollowsBefore(kinds: seq<Kind>, draws: seq<nat>)
    requires Follows(kinds, draws) && kinds != []
    ensures Follows(kinds[..|kinds| - 1], draws[..|kinds| - 1]) && ChosenAt(kinds, draws, |kinds| - 1)
  {
    var n := |kinds| - 1;
    forall i | 0 <= i < n ensures ChosenAt(kinds[..n], draws[..n], i) {
      assert ChosenAt(kinds, draws, i) && kinds[..n][..i] == kinds[..i];
    }
  }

  /** The generator's limits at every moment, for every stream of draws: open slots, program length and loops. */
  lemma {:induction false} Limits(kinds: seq<Kind>, draws: seq<nat>)
    requires Follows(kinds, draws)
    requires forall i :: 0 <= i < |draws| ==> draws[i] <= RAND_LIMIT
    ensures WithinLimits(Open(kinds), TotalCost(kinds), LoopCount(kinds), EarlyZero(kinds, draws), LateZeros(kinds, draws))
  {
    if kinds != [] {
      var n := |kinds| - 1;
      FollowsBefore(kinds, draws);
      Limits(kinds[..n], draws[..n]);
      ChoiceRegimes(draws[n], Open(kinds[..n]), TotalCost(kinds[..n]));
    }
  }

  lemma {:induction false} FewZeros(kinds: seq<Kind>, draws: seq<nat>)
    requires |kinds| == |draws|
    ensures EarlyZero(kinds, draws) + LateZeros(kinds, draws) <= Zeros(draws)
  {
    if kinds != [] {
      FewZeros(kinds[..|kinds| - 1], draws[..|kinds| - 1]);
    }
  }

  /** Program length and open slots when the length first came to the limit, or now if it has not. */
  function Settled(kinds: seq<Kind>): int {
    if kinds == [] || TotalCost(kinds[..|kinds| - 1]) < LENGTH_LIMIT then TotalCost(kinds) + Open(kinds)
    else Settled(kinds[..|kinds| - 1])
  }

  /** The exact account: from the length limit on, only zeros drawn at the limit add to what is yet to be written. */
  lemma {:induction false} LengthAccount(kinds: seq<Kind>, draws: seq<nat>)
    requires Follows(kinds, draws)
    requires forall i :: 0 <= i < |draws| ==> draws[i] <= RAND_LIMIT
    ensures TotalCost(kinds) + Open(kinds) == Settled(kinds) + LateZeros(kinds, draws)
  {
    Limits(kinds, draws);
    if kinds != [] {
      var n := |kinds| - 1;
      FollowsBefore(kinds, draws);
      Limits(kinds[..n], draws[..n]);
      if TotalCost(kinds[..n]) >= LENGTH_LIMIT {
        LengthAccount(kinds[..n], draws[..n]);
        ChoiceRegimes(draws[n], Open(kinds[..n]), TotalCost(kinds[..n]));
      }
    }
  }

  /** A finished tree. */
  ghost predicate Finished(kinds: seq<Kind>, draws: seq<nat>) {
    && Follows(kinds, draws) && Open(kinds) == 0
    && forall i :: 0 <= i < |draws| ==> draws[i] <= RAND_LIMIT
  }

  /** The program is exactly as long as what was written or open when it came to the length limit, and the zeros drawn at
      the limit; the former is at most 23, or 24 if an eleventh slot was open.  It has at most 6 loops. */
  lemma FinishedLimits(kinds: seq<Kind>, draws: seq<nat>)
    requires Finished(kinds, draws)
    ensures Complete(kinds)
    ensures var t := TreeAt(kinds, 0);
            && t.Length() == Settled(kinds) + LateZeros(kinds, draws)
            && t.Length() <= 23 + EarlyZero(kinds, draws) + LateZeros(kinds, draws) <= 23 + Zeros(draws)
            && t.Nesting() <= t.Loops() <= 6
  {
    Limits(kinds, draws);
    LengthAccount(kinds, draws);
    FewZeros(kinds, draws);
    FollowsToTheEnd(kinds, draws);
    TreeOfLevelOrder(kinds);
    NestingWithinLoops(TreeAt(kinds, 0));
  }

  lemma {:induction false} NodesCounted(kinds: seq<Kind>)
    ensures |kinds| == 2 * TotalCost(kinds) - 3 * LoopCount(kinds) + Open(kinds) - 1
  {
    if kinds != [] {
      NodesCounted(kinds[..|kinds| - 1]);
    }
  }

  /** For every stream of draws, of a random generator or not, the builder is done within 45 nodes and two more for every
      draw of zero. */
  lemma StreamLimit(kinds: seq<Kind>, draws: seq<nat>)
    requires Follows(kinds, draws)
    requires forall i :: 0 <= i < |draws| ==> draws[i] <= RAND_LIMIT
    ensures |kinds| <= 45 + 2 * Zeros(draws)
  {
    NodesCounted(kinds);
    Limits(kinds, draws);
    FewZeros(kinds, draws);
  }

  // ------------------------------------------------------- every seed's limit

  /** Zeros drawn at the length limit are drawn one right after the other. */
  lemma {:induction false} LateZerosInARow(kinds: seq<Kind>, draws: seq<nat>) returns (start: nat)
    requires Follows(kinds, draws)
    requires forall i :: 0 <= i < |draws| ==> draws[i] <= RAND_LIMIT
    ensures start + LateZeros(kinds, draws) <= |draws|
    ensures forall k :: start <= k < start + LateZeros(kinds, draws) ==> draws[k] == 0
    ensures TotalCost(kinds) <= LENGTH_LIMIT ==> start + LateZeros(kinds, draws) == |draws|
  {
    Limits(kinds, draws);
    if kinds == [] || TotalCost(kinds) < LENGTH_LIMIT {
      start := |draws|;
    } else {
      var n := |kinds| - 1;
      FollowsBefore(kinds, draws);
      Limits(kinds[..n], draws[..n]);
      ChoiceRegimes(draws[n], Open(kinds[..n]), TotalCost(kinds[..n]));
      start := LateZerosInARow(kinds[..n], draws[..n]);
      if TotalCost(kinds[..n]) < LENGTH_LIMIT {
        start := |draws|;
      }
    }
  }

  /** The draws are the next ones of the generator from state s. */
  ghost predicate Drawn(s: State, draws: seq<nat>) {
    forall i :: 0 <= i < |draws| ==> DrawnAt(s, draws, i)
  }

  ghost predicate DrawnAt(s: State, draws: seq<nat>, i: nat)
    requires i < |draws|
  {
    draws[i] == Draw(Later(s, i + 1))
  }

  lemma DrawsInRange(s: State, draws: seq<nat>)
    requires Drawn(s, draws)
    ensures forall i :: 0 <= i < |draws| ==> draws[i] <= RAND_LIMIT
  {
    forall i | 0 <= i < |draws| ensures draws[i] <= RAND_LIMIT {
      assert DrawnAt(s, draws, i);
    }
  }

  /** No seed draws three zeros in a row, so no seed's program has more than 26 instructions. */
  lemma SeedLimit(s: State, kinds: seq<Kind>, draws: seq<nat>)
    requires Drawn(s, draws) && Follows(kinds, draws) && Open(kinds) == 0
    ensures Complete(kinds) && TreeAt(kinds, 0).Length() <= 26
  {
    DrawsInRange(s, draws);
    FinishedLimits(kinds, draws);
    var start := LateZerosInARow(kinds, draws);
    if LateZeros(kinds, draws) >= 3 {
      assert DrawnAt(s, draws, start) && DrawnAt(s, draws, start + 1) && DrawnAt(s, draws, start + 2);
      var x := Later(s, start + 1);
      assert Later(s, start + 2) == Advance(x) && Later(s, start + 3) == Advance(Advance(x));
      NoThreeZeros(x);
    }
  }

  // ------------------------------------------------------------ the builder

  /** The nodes allocated so far, in the order of allocation, of which the first
      |kinds| are filled: every node is chained to the next one, and filled nodes point at the nodes
      allocated when they were filled. */
  ghost predicate Chained(nodes: seq<Node>, kinds: seq<Kind>)
    reads nodes
  {
    && |nodes| == |kinds| + Open(kinds) && Open(kinds) >= 0
    && (forall i, j :: 0 <= i < j < |nodes| ==> nodes[i] != nodes[j])
    && (forall i :: 0 <= i < |nodes| - 1 ==> nodes[i].nextSpace == nodes[i + 1])
    && (forall i :: 0 <= i < |kinds| ==> Filled(nodes, kinds, i))
  }

  ghost predicate Filled(nodes: seq<Node>, kinds: seq<Kind>, i: nat)
    requires i < |kinds| && |kinds| <= |nodes|
    reads nodes
  {
    var c := Allocated(kinds, i);
    && nodes[i].kind == kinds[i]
    && i < c && c + kinds[i].Arity() <= |nodes|
    && (!kinds[i].Operation? ==> nodes[i].leftChild == nodes[c])
    && (kinds[i].Sequence? ==> nodes[i].rightChild == nodes[c + 1])
  }

  /** When every slot is filled the nodes hold the tree that the kinds describe. */
  lemma {:induction false} ChainHoldsTree(nodes: seq<Node>, kinds: seq<Kind>, i: nat)
    requires Chained(nodes, kinds) && Complete(kinds) && i < |kinds|
    ensures Represents(nodes[i], TreeAt(kinds, i), set n | n in nodes)
    decreases |kinds| - i
  {
    assert Filled(nodes, kinds, i);
    ChildInRange(kinds, i);
    var c: nat := Allocated(kinds, i);
    match kinds[i] {
      case Operation =>
      case Loop => ChainHoldsTree(nodes, kinds, c);
      case Sequence =>
        ChainHoldsTree(nodes, kinds, c);
        ChainHoldsTree(nodes, kinds, c + 1);
    }
  }

  lemma CountsNext(kinds: seq<Kind>, k: Kind)
    ensures Open(kinds + [k]) == Open(kinds) - 1 + k.Arity()
    ensures TotalCost(kinds + [k]) == TotalCost(kinds) + k.Cost()
  {
    assert (kinds + [k])[..|kinds|] == kinds;
  }

  lemma PrefixesAgree(kinds: seq<Kind>, k: Kind)
    ensures forall i :: 0 <= i <= |kinds| ==> (kinds + [k])[..i] == kinds[..i]
    ensures forall i :: 0 <= i <= |kinds| ==> Allocated(kinds + [k], i) == Allocated(kinds, i)
  {
    assert (kinds + [k])[..|kinds|] == kinds;
    assert kinds[..|kinds|] == kinds;
  }

  /** The generator may only go on drawing zero for this long. */
  ghost predicate NonzeroAfter(s: State, wait: nat) {
    Draw(Later(s, wait + 1)) != 0
  }

  /** Fill the next slot with an operation. */
  method FillWithOperation(nextSpace: Node, ghost nodes: seq<Node>, ghost kinds: seq<Kind>)
    requires Chained(nodes, kinds) && |kinds| < |nodes| && nextSpace == nodes[|kinds|]
    modifies nextSpace
    ensures Chained(nodes, kinds + [Operation])
  {
    nextSpace.kind := Operation;
    CountsNext(kinds, Operation);
    PrefixesAgree(kinds, Operation);
    forall i | 0 <= i < |kinds| + 1 ensures Filled(nodes, kinds + [Operation], i) {
      assert i < |kinds| ==> old(Filled(nodes, kinds, i));
    }
  }

  /** Fill the next slot with a loop and open a slot for its body. */
  method FillWithLoop(nextSpace: Node, lastSpace: Node, ghost nodes: seq<Node>, ghost kinds: seq<Kind>) returns (left: Node)
    requires Chained(nodes, kinds) && |kinds| < |nodes|
    requires nextSpace == nodes[|kinds|] && lastSpace == nodes[|nodes| - 1]
    modifies nextSpace, lastSpace
    ensures fresh(left) && Chained(nodes + [left], kinds + [Loop])
  {
    nextSpace.kind := Loop;
    left := new Node();
    nextSpace.leftChild := left;
    lastSpace.nextSpace := left;
    CountsNext(kinds, Loop);
    PrefixesAgree(kinds, Loop);
    forall i | 0 <= i < |kinds| + 1 ensures Filled(nodes + [left], kinds + [Loop], i) {
      assert i < |kinds| ==> old(Filled(nodes, kinds, i));
    }
  }

  /** Fill the next slot with a sequence and open slots for its two parts. */
  method FillWithSequence(nextSpace: Node, lastSpace: Node, ghost nodes: seq<Node>, ghost kinds: seq<Kind>)
    returns (left: Node, right: Node)
    requires Chained(nodes, kinds) && |kinds| < |nodes|
    requires nextSpace == nodes[|kinds|] && lastSpace == nodes[|nodes| - 1]
    modifies nextSpace, lastSpace
    ensures fresh(left) && fresh(right) && Chained(nodes + [left, right], kinds + [Sequence])
  {
    left := new Node();
    right := new Node();
    nextSpace.kind := Sequence;
    nextSpace.leftChild := left;
    nextSpace.rightChild := right;
    lastSpace.nextSpace := left;
    left.nextSpace := right;
    CountsNext(kinds, Sequence);
    PrefixesAgree(kinds, Sequence);
    forall i | 0 <= i < |kinds| + 1 ensures Filled(nodes + [left, right], kinds + [Sequence], i) {
      assert i < |kinds| ==> old(Filled(nodes, kinds, i));
    }
  }

  /** The builder comes to an end because program length only grows, ... */
  function Stage(programLength: int): nat {
    if programLength <= LENGTH_LIMIT then LENGTH_LIMIT + 1 - programLength else 0
  }

  /** ... and, while it stays the same, slots run out or draws of zero do. */
  function Patience(programLength: int, spaces: int, wait: nat): int {
    if programLength < LENGTH_LIMIT then SPACE_LIMIT + 1 - spaces
    else if programLength == LENGTH_LIMIT then wait
    else spaces
  }

  lemma StillChosen(kinds: seq<Kind>, draws: seq<nat>, k: Kind, p: nat, i: nat)
    requires i < |kinds| == |draws| && ChosenAt(kinds, draws, i)
    ensures ChosenAt(kinds + [k], draws + [p], i)
  {
    assert (kinds + [k])[..i] == kinds[..i];
  }

  lemma NowChosen(kinds: seq<Kind>, draws: seq<nat>, k: Kind, p: nat)
    requires |kinds| == |draws| && Open(kinds) > 0 && k == Choose(p, Open(kinds), TotalCost(kinds))
    ensures ChosenAt(kinds + [k], draws + [p], |kinds|)
  {
    assert (kinds + [k])[..|kinds|] == kinds;
  }

  lemma FollowsNext(kinds: seq<Kind>, draws: seq<nat>, p: nat, k: Kind)
    requires Follows(kinds, draws) && Open(kinds) > 0 && k == Choose(p, Open(kinds), TotalCost(kinds))
    ensures Follows(kinds + [k], draws + [p])
  {
    NowChosen(kinds, draws, k, p);
    forall i | 0 <= i < |kinds| ensures ChosenAt(kinds + [k], draws + [p], i) {
      StillChosen(kinds, draws, k, p, i);
    }
  }

  lemma DrawnNext(s: State, draws: seq<nat>, p: nat)
    requires Drawn(s, draws) && p == Draw(Later(s, |draws| + 1))
    ensures Drawn(s, draws + [p])
  {
    forall i | 0 <= i < |draws + [p]| ensures DrawnAt(s, draws + [p], i) {
      assert i < |draws| ==> DrawnAt(s, draws, i);
    }
  }

  /** The wait for a draw that is not zero gets shorter with every draw of zero. */
  lemma NextWait(before: State, now: State, wait: nat, waiting: bool) returns (next: nat)
    requires now == Advance(before) && (waiting ==> NonzeroAfter(before, wait))
    ensures NonzeroAfter(now, next)
    ensures waiting && Draw(now) == 0 ==> next < wait
  {
    next := SomeDrawIsNonzero(now);
    assert Later(before, 1) == Advance(Later(before, 0)) == now;
    if waiting && Draw(now) == 0 {
      assert wait != 0;
      next := wait - 1;
      LaterAdds(before, 1, wait);
    }
  }

  /** Draw a number and choose what to fill the next slot with. */
  method Pick(rng: Rng, spaces: int, programLength: int,
              ghost kinds: seq<Kind>, ghost draws: seq<nat>, ghost seed: State, ghost wait: nat)
    returns (k: Kind, p: nat, ghost wait': nat)
    requires Drawn(seed, draws) && rng.next == Later(seed, |draws|)
    requires Follows(kinds, draws) && spaces == Open(kinds) > 0 && programLength == TotalCost(kinds)
    requires programLength == LENGTH_LIMIT ==> NonzeroAfter(rng.next, wait)
    modifies rng
    ensures Drawn(seed, draws + [p]) && rng.next == Later(seed, |draws| + 1)
    ensures Follows(kinds + [k], draws + [p])
    ensures NonzeroAfter(rng.next, wait')
    ensures programLength > LENGTH_LIMIT ==> k.Operation?
    ensures programLength == LENGTH_LIMIT ==> k.Operation? || (k.Sequence? && wait' < wait)
    ensures programLength < LENGTH_LIMIT ==> k.Sequence? ==> spaces <= SPACE_LIMIT
  {
    ghost var before := rng.next;
    p := rng.MyRand();
    var spaceBias := SPACE_LIMIT - spaces;
    var lengthBias := LENGTH_LIMIT - programLength;
    if LENGTH_LIMIT * p > RAND_LIMIT * lengthBias {
      k := Operation;
    } else if LENGTH_LIMIT * SPACE_LIMIT * p > RAND_LIMIT * lengthBias * spaceBias {
      k := Loop;
    } else {
      k := Sequence;
    }
    ChoiceRegimes(p, spaces, programLength);
    FollowsNext(kinds, draws, p, k);
    DrawnNext(seed, draws, p);
    wait' := NextWait(before, rng.next, wait, programLength == LENGTH_LIMIT);
  }

  /** Fill the next slot with a node of the chosen kind and move on to the slot after it. */
  method FillNext(k: Kind, nextSpace0: Node, lastSpace0: Node, ghost nodes: seq<Node>, ghost kinds: seq<Kind>)
    returns (nextSpace: Node?, lastSpace: Node, ghost nodes': seq<Node>)
    requires Chained(nodes, kinds) && |kinds| < |nodes|
    requires nextSpace0 == nodes[|kinds|] && lastSpace0 == nodes[|nodes| - 1]
    modifies nextSpace0, lastSpace0
    ensures nodes <= nodes' && forall i :: |nodes| <= i < |nodes'| ==> fresh(nodes'[i])
    ensures Chained(nodes', kinds + [k])
    ensures lastSpace == nodes'[|nodes'| - 1]
    ensures |kinds| + 1 < |nodes'| ==> nextSpace == nodes'[|kinds| + 1]
  {
    lastSpace, nodes' := lastSpace0, nodes;
    match k {
      case Operation =>
        FillWithOperation(nextSpace0, nodes, kinds);
      case Loop =>
        var left := FillWithLoop(nextSpace0, lastSpace0, nodes, kinds);
        nodes' := nodes + [left];
        lastSpace := left;
      case Sequence =>
        var left, right := FillWithSequence(nextSpace0, lastSpace0, nodes, kinds);
        nodes' := nodes + [left, right];
        lastSpace := right;
    }
    assert nodes'[|kinds|] == nextSpace0;
    assert |kinds| + 1 < |nodes'| ==> nodes'[|kinds|].nextSpace == nodes'[|kinds| + 1];
    nextSpace := nextSpace0.nextSpace;
  }

  /** random_dma_program_structure. */
  method RandomStructure(rng: Rng)
    returns (root: Node, ghost nodes: seq<Node>, ghost kinds: seq<Kind>, ghost draws: seq<nat>)
    modifies rng
    ensures Drawn(old(rng.next), draws) && rng.next == Later(old(rng.next), |draws|)
    ensures Follows(kinds, draws) && Complete(kinds)
    ensures |nodes| > 0 && root == nodes[0] && fresh(nodes)
    ensures Represents(root, TreeAt(kinds, 0), set n | n in nodes)
  {
    root := new Node();
    var nextSpace: Node?, lastSpace := root, root;
    nodes, kinds, draws := [root], [], [];
    var spaces, programLength := 1, 0;
    ghost var seed: State, wait: nat := rng.next, 0;
    while spaces > 0
      invariant forall i :: 0 <= i < |nodes| ==> fresh(nodes[i])
      invariant Drawn(seed, draws) && rng.next == Later(seed, |draws|)
      invariant Follows(kinds, draws) && Chained(nodes, kinds)
      invariant |nodes| > 0 && root == nodes[0] && lastSpace == nodes[|nodes| - 1]
      invariant spaces == Open(kinds) && programLength == TotalCost(kinds)
      invariant spaces > 0 ==> nextSpace == nodes[|kinds|]
      invariant programLength == LENGTH_LIMIT ==> NonzeroAfter(rng.next, wait)
      invariant programLength < LENGTH_LIMIT ==> spaces <= SPACE_LIMIT + 1
      decreases Stage(programLength), Patience(programLength, spaces, wait)
    {
      var k, p;
      k, p, wait := Pick(rng, spaces, programLength, kinds, draws, seed, wait);
      CountsNext(kinds, k);
      nextSpace, lastSpace, nodes := FillNext(k, nextSpace, lastSpace, nodes, kinds);
      kinds, draws := kinds + [k], draws + [p];
      match k {
        case Operation => programLength, spaces := programLength + 1, spaces - 1;
        case Loop => programLength := programLength + 2;
        case Sequence => spaces := spaces + 1;
      }
    }
    FollowsToTheEnd(kinds, draws);
    ChainHoldsTree(nodes, kinds, 0);
  }
}
