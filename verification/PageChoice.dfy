/**
 The random choice of pages for tests on virtual addresses.  Every thread takes a run of 8K double pages for its sources and
 one for its destinations, in physical and in virtual memory alike.
 */
module PageChoice {
  import opened Options
  import opened DmaMachine
  import opened PhysicalLayout

  const DOUBLE_PAGE: nat := 0x2000

  /** The number of double pages a thread needs beyond the first. */
  function UsagePages(list: seq<Transfer>): nat {
    if list == [] then 0
    else
      var last := list[|list| - 1];
      ((if last.source > last.destination then last.source else last.destination) + Width(last.size)) / DOUBLE_PAGE
  }

  /** Consecutive pages from the first one on. */
  function Pagerun(first: nat, more: nat): seq<nat> {
    seq(more + 1, (j: nat) => first + j)
  }

  /** The first pages of a thread's two runs. */
  datatype Pair = Pair(source: nat, dest: nat) {
    function Of(side: Side): nat {
      match side case Source => source case Destination => dest
    }
  }

  /** The pages in use once these threads have their runs, in the order in which they were taken. */
  function InUse(pairs: seq<Pair>, lists: seq<seq<Transfer>>): seq<nat>
    requires |pairs| <= |lists|
  {
    if pairs == [] then []
    else
      var n := |pairs| - 1;
      InUse(pairs[..n], lists)
      + Pagerun(pairs[n].source, UsagePages(lists[n])) + Pagerun(pairs[n].dest, UsagePages(lists[n]))
  }

  ghost predicate NoDuplicates(s: seq<nat>) {
    forall i, j :: 0 <= i < j < |s| ==> s[i] != s[j]
  }

  // ----------------------------------------------------------- choosing pages

  /** The first draw from here on that is not in use. */
  function FirstFree(draws: seq<nat>, from: nat, used: seq<nat>): (k: nat)
    requires from <= |draws|
    ensures from <= k <= |draws|
    decreases |draws| - from
  {
    if from == |draws| || draws[from] !in used then from else FirstFree(draws, from + 1, used)
  }

  lemma {:induction false} FirstFreeIsFirst(draws: seq<nat>, from: nat, used: seq<nat>)
    requires from <= |draws|
    ensures var k := FirstFree(draws, from, used);
            (k < |draws| ==> draws[k] !in used) && forall h :: from <= h < k ==> draws[h] in used
    decreases |draws| - from
  {
    if from != |draws| && draws[from] in used {
      FirstFreeIsFirst(draws, from + 1, used);
    }
  }

  /** The runs chosen so far, and how many draws that has taken. */
  datatype Chosen = Chosen(pairs: seq<Pair>, next: nat)

  /** Two runs for one thread, and how many draws that takes. */
  datatype Two = Two(pair: Pair, next: nat)

  function ChooseTwo(used: seq<nat>, more: nat, draws: seq<nat>, from: nat): (r: Option<Two>)
    requires from <= |draws|
    ensures r.Some? ==> r.value.next <= |draws|
  {
    var a := FirstFree(draws, from, used);
    if a == |draws| then None
    else
      var b := FirstFree(draws, a + 1, used + Pagerun(draws[a], more));
      if b == |draws| then None else Some(Two(Pair(draws[a], draws[b]), b + 1))
  }

  /** One more thread. */
  function ChooseNext(lists: seq<seq<Transfer>>, before: Chosen, draws: seq<nat>): (r: Option<Chosen>)
    requires |before.pairs| < |lists| && before.next <= |draws|
    ensures r.Some? ==> |r.value.pairs| == |before.pairs| + 1 && r.value.next <= |draws|
  {
    var two := ChooseTwo(InUse(before.pairs, lists), UsagePages(lists[|before.pairs|]), draws, before.next);
    if two.None? then None else Some(Chosen(before.pairs + [two.value.pair], two.value.next))
  }

  /** The runs of the first n threads when the random engine yields these draws; None if it does not yield enough. */
  function Choice(lists: seq<seq<Transfer>>, n: nat, draws: seq<nat>): (r: Option<Chosen>)
    requires n <= |lists|
    ensures r.Some? ==> |r.value.pairs| == n && r.value.next <= |draws|
  {
    if n == 0 then Some(Chosen([], 0))
    else
      var before := Choice(lists, n - 1, draws);
      if before.None? then None else ChooseNext(lists, before.value, draws)
  }

  method InVector(page: nat, pages: seq<nat>) returns (found: bool)
    ensures found <==> page in pages
  {
    for i := 0 to |pages|
      invariant page !in pages[..i]
    {
      if pages[i] == page {
        return true;
      }
    }
    return false;
  }

  /** Draw pages until one is not in use, and take a run of pages from there. */
  method TakeRun(draws: seq<nat>, next0: nat, used0: seq<nat>, more: nat)
    returns (ok: bool, page: nat, next: nat, used: seq<nat>)
    requires next0 <= |draws|
    ensures ok <==> FirstFree(draws, next0, used0) < |draws|
    ensures ok ==> page == draws[FirstFree(draws, next0, used0)] && next == FirstFree(draws, next0, used0) + 1
    ensures ok ==> used == used0 + Pagerun(page, more)
  {
    ok, page, next, used := false, 0, next0, used0;
    while !ok && next < |draws|
      invariant next0 <= next <= |draws| && used == used0
      invariant ok ==> next0 < next && page == draws[next - 1] && FirstFree(draws, next0, used0) == next - 1
      invariant !ok ==> FirstFree(draws, next0, used0) == FirstFree(draws, next, used0)
      decreases |draws| - next, !ok
    {
      page := draws[next];
      next := next + 1;
      var taken := InVector(page, used);
      ok := !taken;
    }
    if ok {
      assert Pagerun(page, more)[..0] == [];
      for j := 0 to more + 1
        invariant used == used0 + Pagerun(page, more)[..j]
      {
        used := used + [page + j];
      }
      assert Pagerun(page, more)[..more + 1] == Pagerun(page, more);
    }
  }

  /** Two runs for one thread. */
  method TakeTwo(draws: seq<nat>, used0: seq<nat>, next0: nat, more: nat,
                 ghost lists: seq<seq<Transfer>>, ghost pairs: seq<Pair>)
    returns (ok: bool, pair: Pair, next: nat, used: seq<nat>)
    requires |pairs| < |lists| && next0 <= |draws| && used0 == InUse(pairs, lists) && more == UsagePages(lists[|pairs|])
    ensures ChooseNext(lists, Chosen(pairs, next0), draws) == if ok then Some(Chosen(pairs + [pair], next)) else None
    ensures ok ==> used == InUse(pairs + [pair], lists)
  {
    var source, dest;
    pair := Pair(0, 0);
    ok, source, next, used := TakeRun(draws, next0, used0, more);
    if ok {
      ok, dest, next, used := TakeRun(draws, next, used, more);
      pair := Pair(source, dest);
      assert (pairs + [pair])[..|pairs|] == pairs;
    }
  }

  lemma {:induction false} NoneStays(lists: seq<seq<Transfer>>, m: nat, n: nat, draws: seq<nat>)
    requires m <= n <= |lists| && Choice(lists, m, draws).None?
    ensures Choice(lists, n, draws).None?
    decreases n
  {
    if m < n {
      NoneStays(lists, m, n - 1, draws);
    }
  }

  /** The choice of pages in print_virtualised_test_information, from one engine's physical pages and virtual pages. */
  method ChoosePages(lists: seq<seq<Transfer>>, physDraws: seq<nat>, virtDraws: seq<nat>)
    returns (ok: bool, phys: seq<Pair>, virt: seq<Pair>, usedPhys: seq<nat>, usedVirt: seq<nat>)
    ensures ok <==> Choice(lists, |lists|, physDraws).Some? && Choice(lists, |lists|, virtDraws).Some?
    ensures ok ==> phys == Choice(lists, |lists|, physDraws).value.pairs && virt == Choice(lists, |lists|, virtDraws).value.pairs
    ensures ok ==> usedPhys == InUse(phys, lists) && usedVirt == InUse(virt, lists)
  {
    ok, phys, virt, usedPhys, usedVirt := true, [], [], [], [];
    var p: nat, v: nat := 0, 0;
    for i := 0 to |lists|
      invariant ok && |phys| == |virt| == i
      invariant Choice(lists, i, physDraws) == Some(Chosen(phys, p)) && Choice(lists, i, virtDraws) == Some(Chosen(virt, v))
      invariant usedPhys == InUse(phys, lists) && usedVirt == InUse(virt, lists)
    {
      var pair, more := Pair(0, 0), UsagePages(lists[i]);
      ok, pair, p, usedPhys := TakeTwo(physDraws, usedPhys, p, more, lists, phys);
      if !ok {
        NoneStays(lists, i + 1, |lists|, physDraws);
        return;
      }
      phys := phys + [pair];
      ok, pair, v, usedVirt := TakeTwo(virtDraws, usedVirt, v, more, lists, virt);
      if !ok {
        NoneStays(lists, i + 1, |lists|, virtDraws);
        return;
      }
      virt := virt + [pair];
    }
  }

  // ------------------------------------------------------------ enough pages

  /** How many pages the first n threads take. */
  function PagesNeeded(lists: seq<seq<Transfer>>, n: nat): nat
    requires n <= |lists|
  {
    if n == 0 then 0 else PagesNeeded(lists, n - 1) + 2 * (UsagePages(lists[n - 1]) + 1)
  }

  lemma {:induction false} InUseLength(pairs: seq<Pair>, lists: seq<seq<Transfer>>)
    requires |pairs| <= |lists|
    ensures |InUse(pairs, lists)| == PagesNeeded(lists, |pairs|)
  {
    if pairs != [] {
      InUseLength(pairs[..|pairs| - 1], lists);
    }
  }

  /** The different pages among these. */
  function Different(pages: seq<nat>): set<nat> {
    set q: nat | q in pages
  }

  lemma {:induction false} DifferentPages(pages: seq<nat>)
    ensures |Different(pages)| <= |pages|
  {
    if pages != [] {
      var n := |pages| - 1;
      DifferentPages(pages[..n]);
      assert pages == pages[..n] + [pages[n]];
      assert Different(pages) == Different(pages[..n]) + {pages[n]};
    }
  }

  lemma {:induction false} Smaller(a: set<nat>, b: set<nat>)
    requires a <= b
    ensures |a| <= |b|
  {
    if a != {} {
      var x :| x in a;
      Smaller(a - {x}, b - {x});
    }
  }

  lemma AllInUse(draws: seq<nat>, used: seq<nat>)
    requires forall k :: 0 <= k < |draws| ==> draws[k] in used
    ensures |Different(draws)| <= |used|
  {
    DifferentPages(used);
    forall q | q in Different(draws) ensures q in Different(used) {
      var k :| 0 <= k < |draws| && draws[k] == q;
    }
    Smaller(Different(draws), Different(used));
  }

  /** The first n draws are in use. */
  ghost predicate AllTaken(draws: seq<nat>, n: nat, used: seq<nat>) {
    n <= |draws| && forall k :: 0 <= k < n ==> draws[k] in used
  }

  /** The draws up to and including the first free one are in use once its run is taken. */
  lemma TakenInUse(draws: seq<nat>, from: nat, used: seq<nat>, more: nat)
    requires AllTaken(draws, from, used) && FirstFree(draws, from, used) < |draws|
    ensures var a := FirstFree(draws, from, used); AllTaken(draws, a + 1, used + Pagerun(draws[a], more))
  {
    var a := FirstFree(draws, from, used);
    FirstFreeIsFirst(draws, from, used);
    assert Pagerun(draws[a], more)[0] == draws[a];
  }

  lemma TwoTaken(used: seq<nat>, more: nat, draws: seq<nat>, from: nat)
    requires AllTaken(draws, from, used) && ChooseTwo(used, more, draws, from).Some?
    ensures var two := ChooseTwo(used, more, draws, from).value;
            AllTaken(draws, two.next, used + Pagerun(two.pair.source, more) + Pagerun(two.pair.dest, more))
  {
    var a := FirstFree(draws, from, used);
    TakenInUse(draws, from, used, more);
    TakenInUse(draws, a + 1, used + Pagerun(draws[a], more), more);
  }

  lemma InUseNext(pairs: seq<Pair>, lists: seq<seq<Transfer>>, pair: Pair)
    requires |pairs| < |lists|
    ensures var more := UsagePages(lists[|pairs|]);
            InUse(pairs + [pair], lists) == InUse(pairs, lists) + Pagerun(pair.source, more) + Pagerun(pair.dest, more)
  {
    assert (pairs + [pair])[..|pairs|] == pairs;
  }

  /** Every draw that was used up is in use. */
  lemma {:induction false} DrawnInUse(lists: seq<seq<Transfer>>, n: nat, draws: seq<nat>)
    requires n <= |lists| && Choice(lists, n, draws).Some?
    ensures var c := Choice(lists, n, draws).value; AllTaken(draws, c.next, InUse(c.pairs, lists))
  {
    if n != 0 {
      DrawnInUse(lists, n - 1, draws);
      var before := Choice(lists, n - 1, draws).value;
      TwoTaken(InUse(before.pairs, lists), UsagePages(lists[n - 1]), draws, before.next);
      InUseNext(before.pairs, lists, Choice(lists, n, draws).value.pairs[n - 1]);
    }
  }

  lemma TwoTooFew(used: seq<nat>, more: nat, draws: seq<nat>, from: nat)
    requires AllTaken(draws, from, used) && ChooseTwo(used, more, draws, from).None?
    ensures |Different(draws)| <= |used| + more + 1
  {
    var a := FirstFree(draws, from, used);
    FirstFreeIsFirst(draws, from, used);
    if a == |draws| {
      AllInUse(draws, used);
    } else {
      TakenInUse(draws, from, used, more);
      FirstFreeIsFirst(draws, a + 1, used + Pagerun(draws[a], more));
      AllInUse(draws, used + Pagerun(draws[a], more));
    }
  }

  /** An engine runs out only if it yields fewer different pages than the threads need. */
  lemma {:induction false} TooFewPages(lists: seq<seq<Transfer>>, n: nat, draws: seq<nat>)
    requires n <= |lists| && Choice(lists, n, draws).None?
    ensures |Different(draws)| < PagesNeeded(lists, n)
  {
    if Choice(lists, n - 1, draws).None? {
      TooFewPages(lists, n - 1, draws);
    } else {
      var before := Choice(lists, n - 1, draws).value;
      DrawnInUse(lists, n - 1, draws);
      InUseLength(before.pairs, lists);
      TwoTooFew(InUse(before.pairs, lists), UsagePages(lists[n - 1]), draws, before.next);
    }
  }

  // ----------------------------------------------------------- distinct pages

  /** The runs can be chosen: their first pages were not in use. */
  ghost predicate AllowedAt(pairs: seq<Pair>, lists: seq<seq<Transfer>>, i: nat)
    requires i < |pairs| <= |lists|
  {
    && pairs[i].source !in InUse(pairs[..i], lists)
    && pairs[i].dest !in InUse(pairs[..i], lists) + Pagerun(pairs[i].source, UsagePages(lists[i]))
  }

  ghost predicate Allowed(pairs: seq<Pair>, lists: seq<seq<Transfer>>) {
    |pairs| <= |lists| && forall i :: 0 <= i < |pairs| ==> AllowedAt(pairs, lists, i)
  }

  lemma AllowedNext(pairs: seq<Pair>, lists: seq<seq<Transfer>>, pair: Pair)
    requires Allowed(pairs, lists) && |pairs| < |lists|
    requires pair.source !in InUse(pairs, lists)
    requires pair.dest !in InUse(pairs, lists) + Pagerun(pair.source, UsagePages(lists[|pairs|]))
    ensures Allowed(pairs + [pair], lists)
  {
    forall i | 0 <= i < |pairs| + 1 ensures AllowedAt(pairs + [pair], lists, i) {
      assert (pairs + [pair])[..i] == pairs[..i];
      if i < |pairs| {
        assert AllowedAt(pairs, lists, i);
      } else {
        assert pairs[..i] == pairs;
      }
    }
  }

  lemma TwoFree(used: seq<nat>, more: nat, draws: seq<nat>, from: nat)
    requires from <= |draws| && ChooseTwo(used, more, draws, from).Some?
    ensures var pair := ChooseTwo(used, more, draws, from).value.pair;
            pair.source !in used && pair.dest !in used + Pagerun(pair.source, more)
  {
    var a := FirstFree(draws, from, used);
    FirstFreeIsFirst(draws, from, used);
    FirstFreeIsFirst(draws, a + 1, used + Pagerun(draws[a], more));
  }

  lemma {:induction false} ChoiceAllowed(lists: seq<seq<Transfer>>, n: nat, draws: seq<nat>)
    requires n <= |lists| && Choice(lists, n, draws).Some?
    ensures Allowed(Choice(lists, n, draws).value.pairs, lists)
  {
    if n != 0 {
      ChoiceAllowed(lists, n - 1, draws);
      var before := Choice(lists, n - 1, draws).value;
      TwoFree(InUse(before.pairs, lists), UsagePages(lists[n - 1]), draws, before.next);
      AllowedNext(before.pairs, lists, Choice(lists, n, draws).value.pairs[n - 1]);
    }
  }

  /** Draws that make the threads choose these runs. */
  function Listing(pairs: seq<Pair>): (draws: seq<nat>)
    ensures |draws| == 2 * |pairs|
  {
    if pairs == [] then []
    else Listing(pairs[..|pairs| - 1]) + [pairs[|pairs| - 1].source, pairs[|pairs| - 1].dest]
  }

  lemma {:induction false} ListingAt(pairs: seq<Pair>, i: nat)
    requires i < |pairs|
    ensures Listing(pairs)[2 * i] == pairs[i].source && Listing(pairs)[2 * i + 1] == pairs[i].dest
  {
    if i < |pairs| - 1 {
      ListingAt(pairs[..|pairs| - 1], i);
    }
  }

  /** A pair that is allowed is chosen when it is what the engine yields next. */
  lemma TwoChosen(used: seq<nat>, more: nat, draws: seq<nat>, from: nat, pair: Pair)
    requires from + 2 <= |draws| && draws[from] == pair.source && draws[from + 1] == pair.dest
    requires pair.source !in used && pair.dest !in used + Pagerun(pair.source, more)
    ensures ChooseTwo(used, more, draws, from) == Some(Two(pair, from + 2))
  {
    FreeNow(draws, from, used);
    FreeNow(draws, from + 1, used + Pagerun(pair.source, more));
  }

  lemma FreeNow(draws: seq<nat>, from: nat, used: seq<nat>)
    requires from < |draws| && draws[from] !in used
    ensures FirstFree(draws, from, used) == from
  {
  }

  lemma NextChosen(pairs: seq<Pair>, lists: seq<seq<Transfer>>, n: nat, before: seq<Pair>, draws: seq<nat>)
    requires n < |pairs| <= |lists| && AllowedAt(pairs, lists, n) && before == pairs[..n]
    requires 2 * n + 2 <= |draws| && draws[2 * n] == pairs[n].source && draws[2 * n + 1] == pairs[n].dest
    ensures ChooseNext(lists, Chosen(before, 2 * n), draws) == Some(Chosen(before + [pairs[n]], 2 * n + 2))
  {
    TwoChosen(InUse(before, lists), UsagePages(lists[n]), draws, 2 * n, pairs[n]);
  }

  lemma ChoiceStep(lists: seq<seq<Transfer>>, n: nat, draws: seq<nat>, before: Chosen, after: Chosen)
    requires 0 < n <= |lists| && |before.pairs| == n - 1 && before.next <= |draws|
    requires Choice(lists, n - 1, draws) == Some(before) && ChooseNext(lists, before, draws) == Some(after)
    ensures Choice(lists, n, draws) == Some(after)
  {
  }

  /** The engine yields pair i after the pairs before it. */
  ghost predicate ListedAt(pairs: seq<Pair>, draws: seq<nat>, i: nat)
    requires i < |pairs|
  {
    2 * i + 2 <= |draws| && draws[2 * i] == pairs[i].source && draws[2 * i + 1] == pairs[i].dest
  }

  lemma {:induction false} ListedChosen(pairs: seq<Pair>, lists: seq<seq<Transfer>>, n: nat, draws: seq<nat>)
    requires Allowed(pairs, lists) && n <= |pairs|
    requires forall i :: 0 <= i < |pairs| ==> ListedAt(pairs, draws, i)
    ensures Choice(lists, n, draws) == Some(Chosen(pairs[..n], 2 * n))
  {
    if n == 0 {
      assert pairs[..0] == [];
    } else {
      var before := pairs[..n - 1];
      ListedChosen(pairs, lists, n - 1, draws);
      assert AllowedAt(pairs, lists, n - 1) && ListedAt(pairs, draws, n - 1);
      NextChosen(pairs, lists, n - 1, before, draws);
      assert before + [pairs[n - 1]] == pairs[..n];
      ChoiceStep(lists, n, draws, Chosen(before, 2 * n - 2), Chosen(pairs[..n], 2 * n));
    }
  }

  /** Whatever is allowed is chosen for some draws. */
  lemma AllowedChosen(pairs: seq<Pair>, lists: seq<seq<Transfer>>)
    requires Allowed(pairs, lists)
    ensures Choice(lists, |pairs|, Listing(pairs)) == Some(Chosen(pairs, 2 * |pairs|))
  {
    forall i | 0 <= i < |pairs| ensures ListedAt(pairs, Listing(pairs), i) {
      ListingAt(pairs, i);
    }
    ListedChosen(pairs, lists, |pairs|, Listing(pairs));
    assert pairs[..|pairs|] == pairs;
  }

  /** The threads stay within one double page on each side. */
  predicate SinglePages(lists: seq<seq<Transfer>>) {
    forall i :: 0 <= i < |lists| ==> UsagePages(lists[i]) == 0
  }

  lemma {:induction false} SinglesDistinct(pairs: seq<Pair>, lists: seq<seq<Transfer>>)
    requires Allowed(pairs, lists) && SinglePages(lists)
    ensures NoDuplicates(InUse(pairs, lists))
  {
    if pairs != [] {
      var n := |pairs| - 1;
      forall i | 0 <= i < n ensures AllowedAt(pairs[..n], lists, i) {
        assert AllowedAt(pairs, lists, i) && pairs[..n][..i] == pairs[..i];
      }
      SinglesDistinct(pairs[..n], lists);
      assert AllowedAt(pairs, lists, n);
      assert Pagerun(pairs[n].source, 0) == [pairs[n].source] && Pagerun(pairs[n].dest, 0) == [pairs[n].dest];
    }
  }

  /** A thread that needs a second page can be given a source run from page q + 1 and a destination run from page q. */
  lemma Collides(used: seq<nat>, q: nat, more: nat)
    requires more >= 1 && forall k :: 0 <= k < |used| ==> used[k] < q
    ensures q + 1 !in used && q !in used + Pagerun(q + 1, more)
    ensures !NoDuplicates(used + Pagerun(q + 1, more) + Pagerun(q, more))
  {
    var all := used + Pagerun(q + 1, more) + Pagerun(q, more);
    assert all[|used|] == q + 1 && all[|used| + (more + 1) + 1] == q + 1;
  }

  lemma DuplicatesStay(a: seq<nat>, b: seq<nat>)
    requires !NoDuplicates(a)
    ensures !NoDuplicates(a + b)
  {
    var i, j :| 0 <= i < j < |a| && a[i] == a[j];
    assert (a + b)[i] == (a + b)[j];
  }

  /** A pair of runs from page q on, that collide if the thread is the bad one. */
  function BadPair(q: nat, more: nat, bad: bool): Pair {
    if bad then Pair(q + 1, q) else Pair(q, q + more + 1)
  }

  lemma BadPairAllowed(used: seq<nat>, q: nat, more: nat, bad: bool)
    requires (bad ==> more >= 1) && forall k :: 0 <= k < |used| ==> used[k] < q
    ensures var pair := BadPair(q, more, bad);
            && pair.source !in used && pair.dest !in used + Pagerun(pair.source, more)
            && (bad ==> !NoDuplicates(used + Pagerun(pair.source, more) + Pagerun(pair.dest, more)))
  {
    if bad {
      Collides(used, q, more);
    }
  }

  /** All these pages are below q. */
  ghost predicate AllBelow(used: seq<nat>, q: nat) {
    forall k :: 0 <= k < |used| ==> used[k] < q
  }

  lemma BadPairBelow(used: seq<nat>, q: nat, more: nat, bad: bool)
    requires AllBelow(used, q) && (bad ==> more >= 1)
    ensures var pair := BadPair(q, more, bad);
            AllBelow(used + Pagerun(pair.source, more) + Pagerun(pair.dest, more), q + 2 * (more + 1))
  {
  }

  ghost predicate InRange(draws: seq<nat>, lo: nat, hi: nat) {
    forall k :: 0 <= k < |draws| ==> lo <= draws[k] <= hi
  }

  /** Runs on pages from lo on, that can be chosen and take no more room than is needed. */
  ghost predicate Packed(pairs: seq<Pair>, lists: seq<seq<Transfer>>, lo: nat) {
    && Allowed(pairs, lists) && AllBelow(InUse(pairs, lists), lo + PagesNeeded(lists, |pairs|))
    && InRange(Listing(pairs), lo, lo + PagesNeeded(lists, |pairs|))
  }

  lemma ListingNext(pairs: seq<Pair>, pair: Pair, lo: nat, hi: nat, hi': nat)
    requires InRange(Listing(pairs), lo, hi) && hi <= hi' && lo <= pair.source <= hi' && lo <= pair.dest <= hi'
    ensures InRange(Listing(pairs + [pair]), lo, hi')
  {
    assert (pairs + [pair])[..|pairs|] == pairs;
  }

  lemma NextAllowed(pairs: seq<Pair>, lists: seq<seq<Transfer>>, q: nat, bad: bool)
    requires Allowed(pairs, lists) && |pairs| < |lists| && AllBelow(InUse(pairs, lists), q)
    requires bad ==> UsagePages(lists[|pairs|]) >= 1
    ensures Allowed(pairs + [BadPair(q, UsagePages(lists[|pairs|]), bad)], lists)
  {
    var more := UsagePages(lists[|pairs|]);
    BadPairAllowed(InUse(pairs, lists), q, more, bad);
    AllowedNext(pairs, lists, BadPair(q, more, bad));
  }

  lemma NextBelow(pairs: seq<Pair>, lists: seq<seq<Transfer>>, q: nat, bad: bool)
    requires |pairs| < |lists| && AllBelow(InUse(pairs, lists), q)
    requires bad ==> UsagePages(lists[|pairs|]) >= 1
    ensures var more := UsagePages(lists[|pairs|]); AllBelow(InUse(pairs + [BadPair(q, more, bad)], lists), q + 2 * (more + 1))
  {
    var more := UsagePages(lists[|pairs|]);
    BadPairBelow(InUse(pairs, lists), q, more, bad);
    InUseNext(pairs, lists, BadPair(q, more, bad));
  }

  lemma NextCollides(pairs: seq<Pair>, lists: seq<seq<Transfer>>, q: nat, bad: bool)
    requires |pairs| < |lists| && AllBelow(InUse(pairs, lists), q)
    requires bad ==> UsagePages(lists[|pairs|]) >= 1
    ensures bad || !NoDuplicates(InUse(pairs, lists)) ==>
              !NoDuplicates(InUse(pairs + [BadPair(q, UsagePages(lists[|pairs|]), bad)], lists))
  {
    var used, more := InUse(pairs, lists), UsagePages(lists[|pairs|]);
    var pair := BadPair(q, more, bad);
    InUseNext(pairs, lists, pair);
    if bad {
      BadPairAllowed(used, q, more, bad);
    } else if !NoDuplicates(used) {
      DuplicatesStay(used, Pagerun(pair.source, more));
      DuplicatesStay(used + Pagerun(pair.source, more), Pagerun(pair.dest, more));
    }
  }

  lemma PackedNext(pairs: seq<Pair>, lists: seq<seq<Transfer>>, lo: nat, bad: bool, q: nat, after: seq<Pair>)
    requires Packed(pairs, lists, lo) && |pairs| < |lists| && (bad ==> UsagePages(lists[|pairs|]) >= 1)
    requires q == lo + PagesNeeded(lists, |pairs|) && after == pairs + [BadPair(q, UsagePages(lists[|pairs|]), bad)]
    ensures Packed(after, lists, lo)
  {
    var more := UsagePages(lists[|pairs|]);
    NextAllowed(pairs, lists, q, bad);
    NextBelow(pairs, lists, q, bad);
    ListingNext(pairs, BadPair(q, more, bad), lo, q, q + 2 * (more + 1));
    NeededNext(lists, |pairs|);
    assert |after| == |pairs| + 1 && lo + PagesNeeded(lists, |after|) == q + 2 * (more + 1);
  }

  lemma NeededNext(lists: seq<seq<Transfer>>, n: nat)
    requires n < |lists|
    ensures PagesNeeded(lists, n + 1) == PagesNeeded(lists, n) + 2 * (UsagePages(lists[n]) + 1)
  {
  }

  /** Runs for all threads up to n that take a page twice as soon as thread bad is among them. */
  lemma {:induction false} BadChoice(lists: seq<seq<Transfer>>, bad: nat, n: nat, lo: nat) returns (pairs: seq<Pair>)
    requires bad < |lists| && UsagePages(lists[bad]) >= 1 && n <= |lists|
    ensures |pairs| == n && Packed(pairs, lists, lo)
    ensures bad < n ==> !NoDuplicates(InUse(pairs, lists))
  {
    if n == 0 {
      pairs := [];
    } else {
      var before := BadChoice(lists, bad, n - 1, lo);
      var q := lo + PagesNeeded(lists, n - 1);
      pairs := before + [BadPair(q, UsagePages(lists[n - 1]), n - 1 == bad)];
      PackedNext(before, lists, lo, n - 1 == bad, q, pairs);
      NextCollides(before, lists, q, n - 1 == bad);
    }
  }

  /** Whatever pages the engine draws, from lo to hi, the pages in use are distinct. */
  ghost predicate DistinctFor(lists: seq<seq<Transfer>>, lo: nat, hi: nat) {
    forall draws :: InRange(draws, lo, hi) && Choice(lists, |lists|, draws).Some? ==>
                      NoDuplicates(InUse(Choice(lists, |lists|, draws).value.pairs, lists))
  }

  /** Only the first page of a run is checked against the pages in use.  So, if the engine's range has room for all the
      pages needed, they are distinct whatever it draws exactly when no thread needs a second page. */
  lemma AlwaysDistinct(lists: seq<seq<Transfer>>, lo: nat, hi: nat)
    ensures SinglePages(lists) ==> DistinctFor(lists, lo, hi)
    ensures lo + PagesNeeded(lists, |lists|) <= hi && DistinctFor(lists, lo, hi) ==> SinglePages(lists)
  {
    if SinglePages(lists) {
      forall draws | Choice(lists, |lists|, draws).Some?
        ensures NoDuplicates(InUse(Choice(lists, |lists|, draws).value.pairs, lists))
      {
        ChoiceAllowed(lists, |lists|, draws);
        SinglesDistinct(Choice(lists, |lists|, draws).value.pairs, lists);
      }
    } else if lo + PagesNeeded(lists, |lists|) <= hi {
      var bad: nat :| bad < |lists| && UsagePages(lists[bad]) != 0;
      var pairs := BadChoice(lists, bad, |lists|, lo);
      AllowedChosen(pairs, lists);
      assert Choice(lists, |lists|, Listing(pairs)).value.pairs == pairs;
    }
  }
}
