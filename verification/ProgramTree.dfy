/**
 The trees that random DMA programs are written from, and their level order.
 */
module ProgramTree {

  datatype Kind = Loop | Sequence | Operation {
    /** The number of children of a node of this kind. */
    function Arity(): nat {
      match this case Loop => 1 case Sequence => 2 case Operation => 0
    }

    /** The number of instructions a node of this kind adds to the program. */
    function Cost(): nat {
      match this case Loop => 2 case Sequence => 0 case Operation => 1
    }
  }

  datatype Tree = LoopNode(body: Tree) | SeqNode(left: Tree, right: Tree) | OpNode {

    function Kind(): Kind {
      match this case LoopNode(_) => Loop case SeqNode(_, _) => Sequence case OpNode => Operation
    }

    /** dma_program_length: the instructions written for this tree. */
    function Length(): nat {
      match this
      case LoopNode(body) => 2 + body.Length()
      case SeqNode(left, right) => left.Length() + right.Length()
      case OpNode => 1
    }

    /** The largest number of loops around one another. */
    function Nesting(): nat {
      match this
      case LoopNode(body) => 1 + body.Nesting()
      case SeqNode(left, right) => if left.Nesting() < right.Nesting() then right.Nesting() else left.Nesting()
      case OpNode => 0
    }

    function Loops(): nat {
      match this
      case LoopNode(body) => 1 + body.Loops()
      case SeqNode(left, right) => left.Loops() + right.Loops()
      case OpNode => 0
    }

    function Size(): nat {
      match this
      case LoopNode(body) => 1 + body.Size()
      case SeqNode(left, right) => 1 + left.Size() + right.Size()
      case OpNode => 1
    }

    function Children(): seq<Tree> {
      match this case LoopNode(body) => [body] case SeqNode(left, right) => [left, right] case OpNode => []
    }
  }

  function Sizes(forest: seq<Tree>): nat {
    if forest == [] then 0 else forest[0].Size() + Sizes(forest[1..])
  }

  lemma {:induction false} SizesAppend(a: seq<Tree>, b: seq<Tree>)
    ensures Sizes(a + b) == Sizes(a) + Sizes(b)
  {
    if a == [] {
      assert a + b == b;
    } else {
      assert (a + b)[1..] == a[1..] + b;
      SizesAppend(a[1..], b);
    }
  }

  lemma SizesOfChildren(t: Tree)
    ensures t.Size() == 1 + Sizes(t.Children())
  {
    if t.SeqNode? {
      assert t.Children()[1..] == [t.right];
      assert Sizes([t.right]) == t.right.Size() + Sizes([]);
    }
  }

  /** The kinds of the nodes of a forest, level by level from left to right. */
  function LevelOrder(forest: seq<Tree>): (kinds: seq<Kind>)
    ensures |kinds| == Sizes(forest)
    decreases Sizes(forest)
  {
    if forest == [] then [] else
      SizesAppend(forest[1..], forest[0].Children());
      SizesOfChildren(forest[0]);
      [forest[0].Kind()] + LevelOrder(forest[1..] + forest[0].Children())
  }

  /** What a sequence of kinds adds to the program length. */
  function TotalCost(kinds: seq<Kind>): nat {
    if kinds == [] then 0 else TotalCost(kinds[..|kinds| - 1]) + kinds[|kinds| - 1].Cost()
  }

  /** How many of the kinds are loops. */
  function LoopCount(kinds: seq<Kind>): nat {
    if kinds == [] then 0 else LoopCount(kinds[..|kinds| - 1]) + if kinds[|kinds| - 1].Loop? then 1 else 0
  }

  /** How many slots are open once slots have been filled, in order, with these kinds. */
  function Open(kinds: seq<Kind>): int {
    if kinds == [] then 1 else Open(kinds[..|kinds| - 1]) - 1 + kinds[|kinds| - 1].Arity()
  }

  function Lengths(forest: seq<Tree>): nat {
    if forest == [] then 0 else forest[0].Length() + Lengths(forest[1..])
  }

  function LoopsIn(forest: seq<Tree>): nat {
    if forest == [] then 0 else forest[0].Loops() + LoopsIn(forest[1..])
  }

  lemma {:induction false} ForestAppend(a: seq<Tree>, b: seq<Tree>)
    ensures Lengths(a + b) == Lengths(a) + Lengths(b)
    ensures LoopsIn(a + b) == LoopsIn(a) + LoopsIn(b)
  {
    if a == [] {
      assert a + b == b;
    } else {
      assert (a + b)[1..] == a[1..] + b;
      ForestAppend(a[1..], b);
    }
  }

  lemma {:induction false} CostPrepend(k: Kind, kinds: seq<Kind>)
    ensures TotalCost([k] + kinds) == k.Cost() + TotalCost(kinds)
    ensures LoopCount([k] + kinds) == (if k.Loop? then 1 else 0) + LoopCount(kinds)
  {
    if kinds == [] {
      assert [k] + kinds == [k];
      assert [k][..0] == [];
    } else {
      var last := |kinds| - 1;
      assert ([k] + kinds)[..last + 1] == [k] + kinds[..last];
      CostPrepend(k, kinds[..last]);
    }
  }

  lemma CountsOfChildren(t: Tree)
    ensures t.Length() == t.Kind().Cost() + Lengths(t.Children())
    ensures t.Loops() == (if t.LoopNode? then 1 else 0) + LoopsIn(t.Children())
  {
    if t.SeqNode? {
      assert t.Children()[1..] == [t.right];
      assert Lengths([t.right]) == t.right.Length() + Lengths([]);
      assert LoopsIn([t.right]) == t.right.Loops() + LoopsIn([]);
    }
  }

  /** The program length and the number of loops of a forest can be counted level by level. */
  lemma {:induction false} LevelOrderCounts(forest: seq<Tree>)
    ensures Lengths(forest) == TotalCost(LevelOrder(forest))
    ensures LoopsIn(forest) == LoopCount(LevelOrder(forest))
    decreases Sizes(forest)
  {
    if forest != [] {
      var t, rest := forest[0], forest[1..];
      SizesAppend(rest, t.Children());
      SizesOfChildren(t);
      LevelOrderCounts(rest + t.Children());
      ForestAppend(rest, t.Children());
      CountsOfChildren(t);
      CostPrepend(t.Kind(), LevelOrder(rest + t.Children()));
    }
  }

  lemma {:induction false} NestingWithinLoops(t: Tree)
    ensures t.Nesting() <= t.Loops()
  {
    match t {
      case LoopNode(body) => NestingWithinLoops(body);
      case SeqNode(left, right) => NestingWithinLoops(left); NestingWithinLoops(right);
      case OpNode =>
    }
  }

  // ----------------------- the tree that a level order describes

  /** The kinds fill every slot they open, and none before it is open. */
  ghost predicate Complete(kinds: seq<Kind>) {
    && (forall i :: 0 <= i < |kinds| ==> Open(kinds[..i]) > 0)
    && Open(kinds) == 0
  }

  /** Nodes allocated when the first i slots have been filled. */
  ghost function Allocated(kinds: seq<Kind>, i: nat): int
    requires i <= |kinds|
  {
    i + Open(kinds[..i])
  }

  lemma OpenNext(kinds: seq<Kind>, i: nat)
    requires i < |kinds|
    ensures Open(kinds[..i + 1]) == Open(kinds[..i]) - 1 + kinds[i].Arity()
  {
    assert kinds[..i + 1][..i] == kinds[..i];
  }

  lemma {:induction false} AllocatedGrows(kinds: seq<Kind>, i: nat, j: nat)
    requires i <= j <= |kinds|
    ensures Allocated(kinds, i) <= Allocated(kinds, j)
    decreases j - i
  {
    if i < j {
      OpenNext(kinds, i);
      AllocatedGrows(kinds, i + 1, j);
    }
  }

  /** The children of node i are allocated when it is filled. */
  lemma ChildInRange(kinds: seq<Kind>, i: nat)
    requires Complete(kinds) && i < |kinds|
    ensures i < Allocated(kinds, i) && Allocated(kinds, i) + kinds[i].Arity() <= |kinds|
  {
    assert kinds[..|kinds|] == kinds;
    AllocatedGrows(kinds, i + 1, |kinds|);
    OpenNext(kinds, i);
  }

  /** The subtree at node i. */
  ghost function TreeAt(kinds: seq<Kind>, i: nat): Tree
    requires Complete(kinds) && i < |kinds|
    decreases |kinds| - i
  {
    ChildInRange(kinds, i);
    var c: nat := Allocated(kinds, i);
    match kinds[i]
    case Operation => OpNode
    case Loop => LoopNode(TreeAt(kinds, c))
    case Sequence => SeqNode(TreeAt(kinds, c), TreeAt(kinds, c + 1))
  }

  /** The subtrees at the nodes from i up to j. */
  ghost function Slots(kinds: seq<Kind>, i: nat, j: nat): seq<Tree>
    requires Complete(kinds) && i <= j <= |kinds|
  {
    seq(j - i, k requires 0 <= k < j - i => TreeAt(kinds, i + k))
  }

  /** Filling node i takes its subtree from the front of the queue and adds its
      children at the end. */
  lemma SlotsNext(kinds: seq<Kind>, i: nat)
    requires Complete(kinds) && i < |kinds|
    ensures i < Allocated(kinds, i) <= Allocated(kinds, i + 1) <= |kinds|
    ensures Allocated(kinds, i + 1) == Allocated(kinds, i) + kinds[i].Arity()
    ensures var t := TreeAt(kinds, i);
            t.Kind() == kinds[i] && Slots(kinds, i, Allocated(kinds, i))[0] == t
            && Slots(kinds, i, Allocated(kinds, i))[1..] + t.Children() == Slots(kinds, i + 1, Allocated(kinds, i + 1))
  {
    ChildInRange(kinds, i);
    OpenNext(kinds, i);
    var c: nat := Allocated(kinds, i);
    var c': nat := Allocated(kinds, i + 1);
    var left, right := Slots(kinds, i, c)[1..] + TreeAt(kinds, i).Children(), Slots(kinds, i + 1, c');
    assert |left| == |right|;
    forall k | 0 <= k < |left| ensures left[k] == right[k] {
      assert right[k] == TreeAt(kinds, i + 1 + k);
    }
  }

  lemma {:induction false} SlotsLevelOrder(kinds: seq<Kind>, i: nat)
    requires Complete(kinds) && i <= |kinds|
    ensures i <= Allocated(kinds, i) <= |kinds|
    ensures LevelOrder(Slots(kinds, i, Allocated(kinds, i))) == kinds[i..]
    decreases |kinds| - i
  {
    if i == |kinds| {
      assert kinds[..|kinds|] == kinds;
      assert Slots(kinds, i, i) == [];
    } else {
      SlotsNext(kinds, i);
      SlotsLevelOrder(kinds, i + 1);
      assert kinds[i..] == [kinds[i]] + kinds[i + 1..];
    }
  }

  /** The tree built from a complete sequence of kinds has them as its level order. */
  lemma TreeOfLevelOrder(kinds: seq<Kind>)
    requires Complete(kinds)
    ensures |kinds| > 0
    ensures LevelOrder([TreeAt(kinds, 0)]) == kinds
    ensures TreeAt(kinds, 0).Length() == TotalCost(kinds)
    ensures TreeAt(kinds, 0).Loops() == LoopCount(kinds)
  {
    SlotsLevelOrder(kinds, 0);
    assert kinds[..0] == [];
    assert Slots(kinds, 0, 1) == [TreeAt(kinds, 0)];
    LevelOrderCounts([TreeAt(kinds, 0)]);
  }

  /** A level order determines its forest. */
  lemma {:induction false} LevelOrderInjective(f: seq<Tree>, g: seq<Tree>)
    requires LevelOrder(f) == LevelOrder(g) && |f| == |g|
    ensures f == g
    decreases Sizes(f)
  {
    if f != [] {
      var t, u := f[0], g[0];
      SizesAppend(f[1..], t.Children());
      SizesOfChildren(t);
      assert LevelOrder(f)[0] == t.Kind() && LevelOrder(g)[0] == u.Kind();
      assert LevelOrder(f)[1..] == LevelOrder(f[1..] + t.Children());
      assert LevelOrder(g)[1..] == LevelOrder(g[1..] + u.Children());
      LevelOrderInjective(f[1..] + t.Children(), g[1..] + u.Children());
      var n := |f| - 1;
      assert f[1..] == (f[1..] + t.Children())[..n] == (g[1..] + u.Children())[..n] == g[1..];
      assert t.Children() == (f[1..] + t.Children())[n..] == (g[1..] + u.Children())[n..] == u.Children();
      assert t == u;
    }
  }
}
