/**
 What a particular seed makes of the random tree: tables of draws, and the choices they lead to.
 */
module Seeds {
  import opened Rand
  import opened ProgramTree
  import opened TreeBuilder

  lemma DrawOf(h: nat, v: nat, w: nat, p: nat)
    requires h == 0x1_0000_0000 * v + 32768 * w + p && w < 131072 && p < 32768
    ensures (h % 0x1_0000_0000) % 32768 == p
  {
    assert h % 0x1_0000_0000 == 32768 * w + p;
  }

  /** One line of a table: the state x, the next state y, and the draw p it gives. */
  lemma Row(x: State, q: nat, y: State, v: nat, w: nat, p: nat, r: nat)
    requires x * 1103515245 + 12345 == ULONG * q + y
    requires y == 65536 * (0x1_0000_0000 * v + 32768 * w + p) + r && w < 131072 && p < 32768 && r < 65536
    ensures Advance(x) == y && Draw(y) == p
  {
    DrawOf(y / 65536, v, w, p);
  }

  /** Line k of the table is right. */
  ghost predicate Line(states: seq<State>, draws: seq<nat>, k: nat)
    requires k < |draws| < |states|
  {
    states[k + 1] == Advance(states[k]) && draws[k] == Draw(states[k + 1])
  }

  lemma {:induction false} StatesFollow(states: seq<State>, draws: seq<nat>, k: nat)
    requires k <= |draws| < |states| && forall i: nat :: i < |draws| ==> Line(states, draws, i)
    ensures Later(states[0], k) == states[k]
  {
    if k != 0 {
      StatesFollow(states, draws, k - 1);
      assert Line(states, draws, k - 1);
    }
  }

  /** The draws in the table are those of its first state. */
  lemma TableDrawn(states: seq<State>, draws: seq<nat>)
    requires |draws| < |states| && forall i: nat :: i < |draws| ==> Line(states, draws, i)
    ensures Drawn(states[0], draws)
  {
    forall k | 0 <= k < |draws| ensures DrawnAt(states[0], draws, k) {
      StatesFollow(states, draws, k + 1);
      assert Line(states, draws, k);
    }
  }

  /** The choice at one slot, and the counts after it. */
  lemma ChoiceAt(kinds: seq<Kind>, draws: seq<nat>, i: nat, p: nat, k: Kind, open: int, cost: int)
    requires i < |kinds| == |draws| && Open(kinds[..i]) == open > 0 && TotalCost(kinds[..i]) == cost
    requires draws[i] == p && kinds[i] == k
    requires k == if 12 * p > 32767 * (12 - cost) then Operation
                  else if 120 * p > 32767 * (12 - cost) * (10 - open) then Loop else Sequence
    ensures ChosenAt(kinds, draws, i)
    ensures Open(kinds[..i + 1]) == open - 1 + kinds[i].Arity() && TotalCost(kinds[..i + 1]) == cost + kinds[i].Cost()
  {
    assert kinds[..i + 1][..i] == kinds[..i];
  }

  lemma Visit(t: Tree, rest: seq<Tree>)
    ensures LevelOrder([t] + rest) == [t.Kind()] + LevelOrder(rest + t.Children())
  {
    assert ([t] + rest)[1..] == rest;
  }

  // ------------------------------------------------ a seed determines its tree

  lemma SameChoice(k: Kind, k': Kind, p: nat, p': nat, before: seq<Kind>, before': seq<Kind>)
    requires before == before' && p == p'
    requires k == Choose(p, Open(before), TotalCost(before)) && k' == Choose(p', Open(before'), TotalCost(before'))
    ensures k == k'
  {
  }

  lemma OneMore<T>(a: seq<T>, b: seq<T>, n: nat)
    requires 0 < n <= |a| && n <= |b| && a[..n - 1] == b[..n - 1] && a[n - 1] == b[n - 1]
    ensures a[..n] == b[..n]
  {
    assert a[..n] == a[..n - 1] + [a[n - 1]] && b[..n] == b[..n - 1] + [b[n - 1]];
  }

  /** The builder's choices are determined by its seed. */
  lemma {:induction false} SamePrefix(s: State, k1: seq<Kind>, d1: seq<nat>, k2: seq<Kind>, d2: seq<nat>, n: nat)
    requires Drawn(s, d1) && Drawn(s, d2) && Follows(k1, d1) && Follows(k2, d2)
    requires n <= |k1| && n <= |k2|
    ensures k1[..n] == k2[..n] && d1[..n] == d2[..n]
  {
    if n != 0 {
      SamePrefix(s, k1, d1, k2, d2, n - 1);
      assert ChosenAt(k1, d1, n - 1) && ChosenAt(k2, d2, n - 1) && DrawnAt(s, d1, n - 1) && DrawnAt(s, d2, n - 1);
      SameChoice(k1[n - 1], k2[n - 1], d1[n - 1], d2[n - 1], k1[..n - 1], k2[..n - 1]);
      OneMore(k1, k2, n);
      OneMore(d1, d2, n);
    }
  }

  lemma OneTreeForASeed(s: State, k1: seq<Kind>, d1: seq<nat>, k2: seq<Kind>, d2: seq<nat>)
    requires Drawn(s, d1) && Drawn(s, d2) && Follows(k1, d1) && Follows(k2, d2)
    requires Complete(k1) && Complete(k2)
    ensures k1 == k2 && d1 == d2
  {
    var n := if |k1| <= |k2| then |k1| else |k2|;
    SamePrefix(s, k1, d1, k2, d2, n);
    assert k1[..|k1|] == k1 && k2[..|k2|] == k2 && d1[..|d1|] == d1 && d2[..|d2|] == d2;
  }
}
