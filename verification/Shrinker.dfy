/**
 The greedy shrinker for failing capability tests.
 */
module Shrinker {

  /** The instructions of a test that are not omitted. */
  function Keep<T>(test: seq<T>, omitted: set<nat>): seq<T> {
    if test == [] then []
    else
      var last := |test| - 1;
      Keep(test[..last], omitted) + if last in omitted then [] else [test[last]]
  }

  lemma KeepNext<T>(test: seq<T>, i: nat, omitted: set<nat>)
    requires i < |test|
    ensures Keep(test[..i + 1], omitted) == Keep(test[..i], omitted) + if i in omitted then [] else [test[i]]
  {
    assert test[..i + 1][..i] == test[..i];
  }

  /** The test without the omitted instructions and this one. */
  method Without<T>(test: seq<T>, omitted: set<nat>, omit: nat) returns (shorter: seq<T>)
    ensures shorter == Keep(test, omitted + {omit})
  {
    shorter := [];
    for i: nat := 0 to |test|
      invariant shorter == Keep(test[..i], omitted + {omit})
    {
      KeepNext(test, i, omitted + {omit});
      if omit != i && i !in omitted {
        shorter := shorter + [test[i]];
      }
    }
    assert test[..|test|] == test;
  }

  /** The instructions omitted after trying the first n. */
  function Omitted<T(!new)>(test: seq<T>, fails: seq<T> -> bool, n: nat): (o: set<nat>)
    ensures forall i :: i in o ==> i < n
    ensures o != {} ==> fails(Keep(test, o))
  {
    if n == 0 then {}
    else
      var before := Omitted(test, fails, n - 1);
      if fails(Keep(test, before + {n - 1})) then before + {n - 1} else before
  }

  /** shrink: leave out every instruction without which the test still fails. */
  method Shrink<T(!new)>(test: seq<T>, fails: seq<T> -> bool) returns (result: seq<T>, omitted: set<nat>)
    ensures omitted == Omitted(test, fails, |test|)
    ensures result == if omitted == {} then [] else Keep(test, omitted)
  {
    omitted, result := {}, [];
    for omit: nat := 0 to |test|
      invariant omitted == Omitted(test, fails, omit)
      invariant result == if omitted == {} then [] else Keep(test, omitted)
    {
      var shorter := Without(test, omitted, omit);
      if fails(shorter) {
        omitted := omitted + {omit};
        result := shorter;
      }
    }
  }

  // -------------------------------------------------------------- correctness

  function Below(s: set<nat>, n: nat): set<nat> {
    set i | i in s && i < n
  }

  lemma BelowNext(s: set<nat>, n: nat)
    ensures Below(s, n + 1) == if n in s then Below(s, n) + {n} else Below(s, n)
  {
  }

  /** The instructions that are not omitted stay in their order: instruction i moves forward by the number of those omitted
      before it, and nothing else is left. */
  lemma {:induction false} KeptInOrder<T>(test: seq<T>, omitted: set<nat>, i: nat)
    requires i < |test| && i !in omitted
    ensures |Keep(test, omitted)| == |test| - |Below(omitted, |test|)|
    ensures 0 <= i - |Below(omitted, i)| < |Keep(test, omitted)|
    ensures Keep(test, omitted)[i - |Below(omitted, i)|] == test[i]
  {
    var last := |test| - 1;
    KeptLength(test, omitted);
    KeptLength(test[..last], omitted);
    if i < last {
      KeptInOrder(test[..last], omitted, i);
    }
  }

  lemma {:induction false} KeptLength<T>(test: seq<T>, omitted: set<nat>)
    ensures |Keep(test, omitted)| == |test| - |Below(omitted, |test|)|
  {
    if test == [] {
      assert Below(omitted, 0) == {};
    } else {
      KeptLength(test[..|test| - 1], omitted);
      BelowNext(omitted, |test| - 1);
    }
  }

  lemma {:induction false} OmittedBelow<T(!new)>(test: seq<T>, fails: seq<T> -> bool, i: nat, n: nat)
    requires i <= n
    ensures Below(Omitted(test, fails, n), i) == Omitted(test, fails, i)
    decreases n
  {
    if i < n {
      OmittedBelow(test, fails, i, n - 1);
      assert Below(Omitted(test, fails, n), i) == Below(Omitted(test, fails, n - 1), i);
    }
  }

  /** Instruction i is to be omitted, given which ones are omitted before it. */
  predicate Expendable<T>(test: seq<T>, fails: seq<T> -> bool, omitted: set<nat>, i: nat) {
    i < |test| && fails(Keep(test, Below(omitted, i) + {i}))
  }

  /** The greedy law, whatever makes a test fail: an instruction is omitted if and only if the test still fails without it and
      without those omitted before it. */
  lemma GreedyLaw<T(!new)>(test: seq<T>, fails: seq<T> -> bool, i: nat)
    ensures i in Omitted(test, fails, |test|) <==> Expendable(test, fails, Omitted(test, fails, |test|), i)
  {
    if i < |test| {
      OmittedBelow(test, fails, i, |test|);
      OmittedBelow(test, fails, i + 1, |test|);
      assert i in Omitted(test, fails, |test|) <==> i in Below(Omitted(test, fails, |test|), i + 1);
    }
  }

  /** No other set satisfies it. */
  lemma {:induction false} GreedyUnique<T(!new)>(test: seq<T>, fails: seq<T> -> bool, omitted: set<nat>, n: nat)
    requires forall i: nat :: i in omitted <==> Expendable(test, fails, omitted, i)
    requires n <= |test|
    ensures Below(omitted, n) == Omitted(test, fails, n)
    ensures n == |test| ==> omitted == Omitted(test, fails, n)
  {
    if n == 0 {
      assert Below(omitted, 0) == {};
    } else {
      GreedyUnique(test, fails, omitted, n - 1);
      BelowNext(omitted, n - 1);
      assert n - 1 in omitted <==> Expendable(test, fails, omitted, n - 1);
    }
    if n == |test| {
      assert omitted == Below(omitted, n) by {
        forall i | i in omitted ensures i < n {
          assert Expendable(test, fails, omitted, i);
        }
      }
    }
  }

  /** What shrink returns. */
  function Shrunk<T(!new)>(test: seq<T>, fails: seq<T> -> bool): seq<T> {
    var o := Omitted(test, fails, |test|);
    if o == {} then [] else Keep(test, o)
  }

  /** Leaving out this one instruction of the test keeps it failing. */
  predicate Removable<T>(test: seq<T>, fails: seq<T> -> bool, i: nat) {
    i < |test| && fails(Keep(test, {i}))
  }

  lemma {:induction false} NothingOmitted<T(!new)>(test: seq<T>, fails: seq<T> -> bool, n: nat)
    requires n <= |test|
    ensures Omitted(test, fails, n) == {} <==> forall i: nat :: i < n ==> !Removable(test, fails, i)
  {
    if n != 0 {
      NothingOmitted(test, fails, n - 1);
      var last := n - 1;
      assert {} + {last} == {last};
      assert Removable(test, fails, last) <==> fails(Keep(test, {last}));
      if forall i: nat :: i < n ==> !Removable(test, fails, i) {
        assert Omitted(test, fails, last) == {} && !fails(Keep(test, {} + {last}));
      } else {
        var i: nat :| i < n && Removable(test, fails, i);
        if i < last {
          assert Omitted(test, fails, last) != {};
        }
      }
    }
  }

  /** shrink returns a failing test exactly when the empty test fails or some single instruction can be left
      out; otherwise it returns the empty test, although the whole test may fail. */
  lemma ShrunkFails<T(!new)>(test: seq<T>, fails: seq<T> -> bool)
    ensures fails(Shrunk(test, fails)) <==> fails([]) || exists i: nat :: Removable(test, fails, i)
  {
    NothingOmitted(test, fails, |test|);
  }

  /** A one-instruction test that fails where the empty test does not: shrink loses the failure. */
  lemma ShrinkLosesFailure(fails: seq<int> -> bool)
    requires fails([7]) && !fails([])
    ensures !fails(Shrunk([7], fails))
  {
    assert Keep([7], {0}) == [];
    ShrunkFails([7], fails);
  }

  /** Leaving out fewer instructions keeps a test failing. */
  ghost predicate Monotone<T(!new)>(test: seq<T>, fails: seq<T> -> bool) {
    forall a: set<nat>, b: set<nat> :: a <= b && fails(Keep(test, b)) ==> fails(Keep(test, a))
  }

  lemma {:induction false} OmittedGrows<T(!new)>(test: seq<T>, fails: seq<T> -> bool, m: nat, n: nat)
    requires m <= n
    ensures Omitted(test, fails, m) <= Omitted(test, fails, n)
    decreases n
  {
    if m < n {
      OmittedGrows(test, fails, m, n - 1);
    }
  }

  /** If leaving out less keeps a test failing, one pass is enough: no single instruction that is left
      can still be left out. */
  lemma OnePassIsMinimal<T(!new)>(test: seq<T>, fails: seq<T> -> bool, i: nat)
    requires Monotone(test, fails)
    requires i < |test| && i !in Omitted(test, fails, |test|)
    ensures !fails(Keep(test, Omitted(test, fails, |test|) + {i}))
  {
    var before, all := Omitted(test, fails, i), Omitted(test, fails, |test|);
    OmittedGrows(test, fails, i, |test|);
    OmittedGrows(test, fails, i + 1, |test|);
    assert before + {i} <= all + {i};
    assert Omitted(test, fails, i + 1) == if fails(Keep(test, before + {i})) then before + {i} else before;
  }
}
