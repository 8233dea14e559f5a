/**
 The regular expressions of the log parser: characters, one after another, each of them once, at least once or any number
 of times.
 */
module Regex {

  predicate IsSpace(c: char) { c == ' ' || '\t' <= c <= '\r' }

  predicate IsDigit(c: char) { '0' <= c <= '9' }

  predicate IsHex(c: char) { IsDigit(c) || 'a' <= c <= 'f' || 'A' <= c <= 'F' }

  predicate IsLetter(c: char) { IsDigit(c) || 'a' <= c <= 'z' || 'A' <= c <= 'Z' || c == '_' }

  /** x, \s, [0-9], a hexadecimal digit, \w, . and [xy] */
  datatype Class = Exactly(c: char) | Space | Digit | Hexadecimal | Letter | Dot | Either(a: char, b: char) {
    predicate Has(x: char) {
      match this
      case Exactly(c) => x == c
      case Space => IsSpace(x)
      case Digit => IsDigit(x)
      case Hexadecimal => IsHex(x)
      case Letter => IsLetter(x)
      case Dot => x != '\n'
      case Either(a, b) => x == a || x == b
    }
  }

  /** One character, + and * */
  datatype Item = Once(of: Class) | Many(of: Class) | Maybe(of: Class)

  /** The whole string matches: ^...$ on a line without its newline. */
  predicate Matches(items: seq<Item>, s: string)
    decreases |items| + |s|
  {
    if items == [] then s == ""
    else
      match items[0]
      case Once(c) => s != "" && c.Has(s[0]) && Matches(items[1..], s[1..])
      case Many(c) => s != "" && c.Has(s[0]) && (Matches(items[1..], s[1..]) || Matches(items, s[1..]))
      case Maybe(c) => Matches(items[1..], s) || (s != "" && c.Has(s[0]) && Matches(items, s[1..]))
  }

  function Literal(p: string): (items: seq<Item>)
    ensures |items| == |p|
  {
    seq(|p|, i requires 0 <= i < |p| => Once(Exactly(p[i])))
  }

  predicate StartsWith(s: string, prefix: string) { |prefix| <= |s| && s[..|prefix|] == prefix }

  /** A pattern that starts with plain characters matches what starts with them and goes on as the rest of the
      pattern says. */
  lemma {:induction false} LiteralPrefix(p: string, rest: seq<Item>, s: string)
    ensures Matches(Literal(p) + rest, s) <==> StartsWith(s, p) && Matches(rest, s[|p|..])
  {
    if p == "" {
      assert Literal(p) + rest == rest;
    } else {
      var items := Literal(p) + rest;
      assert items[0] == Once(Exactly(p[0])) && items[1..] == Literal(p[1..]) + rest;
      if s != "" {
        LiteralPrefix(p[1..], rest, s[1..]);
        assert StartsWith(s, p) <==> s[0] == p[0] && StartsWith(s[1..], p[1..]) by {
          assert p == [p[0]] + p[1..];
          if |p| <= |s| {
            assert s[..|p|] == [s[0]] + s[1..][..|p| - 1];
          }
        }
        if |p| <= |s| {
          assert s[|p|..] == s[1..][|p| - 1..];
        }
      }
    }
  }

  // ----------------------------------------------- one pattern after another

  lemma {:induction false} Concatenated(a: seq<Item>, b: seq<Item>, s: string, t: string)
    requires Matches(a, s) && Matches(b, t)
    ensures Matches(a + b, s + t)
    decreases |a| + |s|
  {
    if a == [] {
      assert a + b == b && s + t == t;
    } else {
      assert (a + b)[1..] == a[1..] + b;
      var c := a[0].of;
      if a[0].Maybe? && Matches(a[1..], s) {
        Concatenated(a[1..], b, s, t);
      } else {
        assert (s + t)[1..] == s[1..] + t;
        if !a[0].Maybe? && Matches(a[1..], s[1..]) {
          Concatenated(a[1..], b, s[1..], t);
        } else {
          Concatenated(a, b, s[1..], t);
        }
      }
    }
  }

  lemma OneLater(s: string, i: nat)
    requires i < |s|
    ensures s[..i + 1][1..] == s[1..][..i] && s[i + 1..] == s[1..][i..] && s[..i + 1][0] == s[0]
  {
  }

  /** What one pattern after another matches consists of what the one matches and what the other matches. */
  lemma {:induction false} Divided(a: seq<Item>, b: seq<Item>, s: string) returns (i: nat)
    requires Matches(a + b, s)
    ensures i <= |s| && Matches(a, s[..i]) && Matches(b, s[i..])
    decreases |a| + |s|
  {
    if a == [] {
      assert a + b == b && s[0..] == s;
      i := 0;
    } else {
      assert (a + b)[1..] == a[1..] + b;
      if a[0].Maybe? && Matches(a[1..] + b, s) {
        i := Divided(a[1..], b, s);
      } else {
        if !a[0].Maybe? && Matches(a[1..] + b, s[1..]) {
          i := Divided(a[1..], b, s[1..]);
        } else {
          i := Divided(a, b, s[1..]);
        }
        OneLater(s, i);
        i := i + 1;
      }
    }
  }

  predicate AllOf(c: Class, s: string) { forall i :: 0 <= i < |s| ==> c.Has(s[i]) }

  /** One or more characters of a class. */
  predicate Run(c: Class, s: string) { s != "" && AllOf(c, s) }

  lemma {:induction false} ManyIsRun(c: Class, s: string)
    ensures Matches([Many(c)], s) <==> Run(c, s)
  {
    if s != "" {
      ManyIsRun(c, s[1..]);
      assert forall i :: 1 <= i < |s| ==> s[i] == s[1..][i - 1];
      if |s| == 1 {
        assert s[1..] == "";
      }
    }
  }

  lemma LiteralMatches(p: string, s: string)
    ensures Matches(Literal(p), s) <==> s == p
  {
    LiteralPrefix(p, [], s);
    assert Literal(p) + [] == Literal(p);
    if StartsWith(s, p) {
      assert s == s[..|p|] + s[|p|..];
    }
  }

  // ------------------------------------------------------------- FasterRegex

  /** FasterRegex: look at the start of the line before matching the whole of it. */
  predicate FasterSearch(lineStart: string, remaining: seq<Item>, line: string) {
    StartsWith(line, lineStart) && Matches(Literal(lineStart) + remaining, line)
  }

  /** Looking at the start first never changes a match result. */
  lemma FasterAgrees(lineStart: string, remaining: seq<Item>, line: string)
    ensures FasterSearch(lineStart, remaining, line) <==> Matches(Literal(lineStart) + remaining, line)
  {
    LiteralPrefix(lineStart, remaining, line);
  }

  // ------------------------------------------------------------------- shapes

  function Leading(c: Class, s: string): (n: nat)
    ensures n <= |s|
  {
    if s == "" || !c.Has(s[0]) then 0 else 1 + Leading(c, s[1..])
  }

  function Trailing(c: Class, s: string): (n: nat)
    ensures n <= |s|
  {
    if s == "" || !c.Has(s[|s| - 1]) then 0 else 1 + Trailing(c, s[..|s| - 1])
  }

  lemma {:induction false} TrailingParts(c: Class, s: string) returns (rest: string, run: string)
    ensures s == rest + run && |run| == Trailing(c, s) && AllOf(c, run)
    ensures rest != "" ==> !c.Has(rest[|rest| - 1])
  {
    if s != "" && c.Has(s[|s| - 1]) {
      var last := s[|s| - 1];
      rest, run := TrailingParts(c, s[..|s| - 1]);
      assert s == s[..|s| - 1] + [last];
      run := run + [last];
    } else {
      rest, run := s, "";
    }
  }

  lemma TrailingRun(c: Class, s: string)
    ensures Trailing(c, s) > 0 ==> Run(c, s[|s| - Trailing(c, s)..])
  {
    var rest, run := TrailingParts(c, s);
    assert s[|s| - |run|..] == run;
  }

  lemma {:induction false} TrailingOf(c: Class, a: string, b: string)
    requires AllOf(c, b) && (a == "" || !c.Has(a[|a| - 1]))
    ensures Trailing(c, a + b) == |b|
  {
    if b == "" {
      assert a + b == a;
    } else {
      assert (a + b)[..|a + b| - 1] == a + b[..|b| - 1];
      TrailingOf(c, a, b[..|b| - 1]);
    }
  }

  lemma {:induction false} LeadingOf(c: Class, a: string, b: string)
    requires AllOf(c, a) && (b == "" || !c.Has(b[0]))
    ensures Leading(c, a + b) == |a|
  {
    if a == "" {
      assert a + b == b;
    } else {
      assert (a + b)[1..] == a[1..] + b;
      LeadingOf(c, a[1..], b);
    }
  }

  /** One or more of a class, followed by what cannot start with it. */
  lemma {:induction false} ManyThen(c: Class, rest: seq<Item>, s: string)
    requires forall t :: Matches(rest, t) ==> t == "" || !c.Has(t[0])
    ensures Matches([Many(c)] + rest, s) <==> Leading(c, s) > 0 && Matches(rest, s[Leading(c, s)..])
  {
    var items := [Many(c)] + rest;
    assert items[1..] == rest;
    if s != "" && c.Has(s[0]) {
      ManyThen(c, rest, s[1..]);
      var n := Leading(c, s[1..]);
      assert s[1..][n..] == s[n + 1..];
      if n == 0 {
        assert s[1..][0..] == s[1..];
      }
    }
  }

  /** A pattern that ends in single characters matches them at the end. */
  lemma {:induction false} FixedTail(items: seq<Item>, tail: seq<Item>, s: string)
    requires forall i :: 0 <= i < |tail| ==> tail[i].Once?
    ensures Matches(items + tail, s)
       <==> Ending(items, tail, s)
    decreases |items| + |s|
  {
    if items == [] {
      assert items + tail == tail;
      FixedLength(tail, s);
    } else {
      var all := items + tail;
      assert all[0] == items[0] && all[1..] == items[1..] + tail;
      FixedTail(items[1..], tail, s);
      if s != "" {
        FixedTail(items[1..], tail, s[1..]);
        FixedTail(items, tail, s[1..]);
      }
      OneItem(items, all, tail, s);
    }
  }

  /** Pattern items, and then the tail at the end. */
  predicate Ending(items: seq<Item>, tail: seq<Item>, s: string) {
    |tail| <= |s| && Matches(items, s[..|s| - |tail|]) && Matches(tail, s[|s| - |tail|..])
  }

  lemma OneItem(items: seq<Item>, all: seq<Item>, tail: seq<Item>, s: string)
    requires items != [] && all != [] && all[0] == items[0]
    requires Matches(all[1..], s) <==> Ending(items[1..], tail, s)
    requires s != "" ==> (Matches(all[1..], s[1..]) <==> Ending(items[1..], tail, s[1..]))
    requires s != "" ==> (Matches(all, s[1..]) <==> Ending(items, tail, s[1..]))
    ensures Matches(all, s) <==> Ending(items, tail, s)
  {
    if |tail| < |s| {
      var n := |s| - |tail|;
      assert s[1..][..n - 1] == s[..n][1..] && s[1..][n - 1..] == s[n..] && s[..n][0] == s[0];
      match items[0] {
        case Once(c) =>
        case Many(c) =>
        case Maybe(c) =>
      }
    } else if |tail| == |s| {
      assert s[..0] == "" && s[0..] == s;
    }
  }

  lemma {:induction false} FixedLength(tail: seq<Item>, s: string)
    requires forall i :: 0 <= i < |tail| ==> tail[i].Once?
    ensures Matches(tail, s) ==> |s| == |tail|
    ensures |s| == |tail| ==> s[..0] == "" && s[0..] == s
  {
    if tail != [] && s != "" {
      FixedLength(tail[1..], s[1..]);
    }
  }
}
