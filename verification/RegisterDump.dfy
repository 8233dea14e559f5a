/**
 The register dump that gxemultosim prints after a log, and the parser that tests read it
 with.
 */
module RegisterDump {
  import opened Options
  import opened Regex

  const REGISTERS: nat := 32

  type Word = v: int | 0 <= v < 0x1_0000_0000_0000_0000

  // ---------------------------------------------------------------- printing

  function HexDigit(d: nat): char
    requires d < 16
  {
    if d < 10 then '0' + d as char else 'a' + (d - 10) as char
  }

  /** The last n hexadecimal digits of v, %0<n>llx for numbers that fit. */
  function Hex(v: nat, n: nat): (s: string)
    ensures |s| == n
    decreases v, n
  {
    if n == 0 then "" else Hex(v / 16, n - 1) + [HexDigit(v % 16)]
  }

  /** %2d for register numbers. */
  function Number(i: nat): string
    requires i < 100
  {
    if i < 10 then [' ', HexDigit(i)] else [HexDigit(i / 10), HexDigit(i % 10)]
  }

  function RegisterLine(i: nat, v: Word): string
    requires i < REGISTERS
  {
    "DEBUG MIPS REG " + Number(i) + " 0x" + Hex(v, 16) + "\n"
  }

  function PcLine(pc: Word): string {
    "DEBUG MIPS PC 0x" + Hex(pc, 16) + "\n"
  }

  const TITLE_LINE := "======   Registers   ======\n"

  const CORE_LINE := "DEBUG MIPS COREID 0\n"

  function RegisterLines(regs: seq<Word>): seq<string>
    requires |regs| <= REGISTERS
  {
    seq(|regs|, i requires 0 <= i < |regs| => RegisterLine(i, regs[i]))
  }

  function Dump(pc: Word, regs: seq<Word>): seq<string>
    requires |regs| == REGISTERS
  {
    [TITLE_LINE, CORE_LINE, PcLine(pc)] + RegisterLines(regs)
  }

  /** The end of gxemultosim's main. */
  method PrintDump(pc: Word, reg: array<Word>) returns (lines: seq<string>)
    requires reg.Length == REGISTERS
    ensures lines == Dump(pc, reg[..])
  {
    lines := [TITLE_LINE, CORE_LINE, PcLine(pc)];
    for i := 0 to REGISTERS
      invariant lines == [TITLE_LINE, CORE_LINE, PcLine(pc)] + RegisterLines(reg[..i])
    {
      lines := lines + [RegisterLine(i, reg[i])];
      assert RegisterLines(reg[..i + 1]) == RegisterLines(reg[..i]) + [RegisterLine(i, reg[i])];
    }
    assert reg[..REGISTERS] == reg[..];
  }

  // ---------------------------------------------------------------- matching

  function LeadingSpaces(s: string): (n: nat)
    ensures n <= |s|
  {
    Leading(Space, s)
  }

  function LeadingDigits(s: string): (n: nat)
    ensures n <= |s|
  {
    Leading(Digit, s)
  }

  function TrailingSpaces(s: string): (n: nat)
    ensures n <= |s|
  {
    Trailing(Space, s)
  }

  function Strip(s: string): string {
    var t := s[LeadingSpaces(s)..];
    t[..|t| - TrailingSpaces(t)]
  }

  predicate EndsWith(s: string, suffix: string) { |suffix| <= |s| && s[|s| - |suffix|..] == suffix }

  /** int(digits) */
  function Decimal(s: string): nat
    requires forall i :: 0 <= i < |s| ==> IsDigit(s[i])
  {
    if s == "" then 0
    else
      var last := s[|s| - 1];
      assert IsDigit(last);
      10 * Decimal(s[..|s| - 1]) + (last as int - '0' as int)
  }

  function HexValue(c: char): Option<nat> {
    if '0' <= c <= '9' then Some(c as int - '0' as int)
    else if 'a' <= c <= 'f' then Some(c as int - 'a' as int + 10)
    else if 'A' <= c <= 'F' then Some(c as int - 'A' as int + 10)
    else None
  }

  /** int(digits, 16), which raises an exception for anything but digits. */
  function HexNumber(s: string): Option<nat> {
    if s == "" then Some(0)
    else
      var high, low := HexNumber(s[..|s| - 1]), HexValue(s[|s| - 1]);
      if high.Some? && low.Some? then Some(16 * high.value + low.value) else None
  }

  lemma {:induction false} DigitsOnly(s: string)
    ensures forall i :: 0 <= i < LeadingDigits(s) ==> IsDigit(s[i])
  {
    if s != "" && IsDigit(s[0]) {
      DigitsOnly(s[1..]);
    }
  }

  /** \s+([0-9]+)$ */
  function MatchNumber(s: string): Option<nat> {
    var a := LeadingSpaces(s);
    var digits := s[a..];
    if a == 0 || digits == "" || LeadingDigits(digits) != |digits| then None
    else
      DigitsOnly(digits);
      Some(Decimal(digits))
  }

  /** \s+([0-9]+)\s+, all of it */
  function MatchIndex(s: string): Option<nat> {
    var a := LeadingSpaces(s);
    if a == 0 then None else DigitsThenSpaces(s[a..])
  }

  /** ([0-9]+)\s+ */
  function DigitsThenSpaces(s: string): Option<nat> {
    var b := LeadingDigits(s);
    var rest := s[b..];
    if b == 0 || rest == "" || LeadingSpaces(rest) != |rest| then None
    else
      DigitsOnly(s);
      Some(Decimal(s[..b]))
  }

  /** (0x................)$ */
  predicate HasValue(s: string) {
    |s| >= 18 && s[|s| - 18..|s| - 16] == "0x" && forall i :: |s| - 16 <= i < |s| ==> s[i] != '\n'
  }

  /** What is before this end. */
  function WithoutEnd(s: string, end: string): Option<string> {
    if EndsWith(s, end) then Some(s[..|s| - |end|]) else None
  }

  /** What is before one or more spaces at the end. */
  function WithoutSpaces(s: string): Option<string> {
    if TrailingSpaces(s) == 0 then None else Some(s[..|s| - TrailingSpaces(s)])
  }

  /** ======\s+Thread\s+, at the end */
  predicate ThreadTitle(s: string) {
    var v := WithoutSpaces(s);
    v.Some? &&
    var w := WithoutEnd(v.value, "Thread");
    w.Some? &&
    var x := WithoutSpaces(w.value);
    x.Some? && EndsWith(x.value, "======")
  }

  /** ======\s+Thread\s+([0-9]+), at the end */
  function ThreadBefore(s: string): Option<nat> {
    var b := Trailing(Digit, s);
    if b == 0 || !ThreadTitle(s[..|s| - b]) then None
    else
      TrailingRun(Digit, s);
      Some(Decimal(s[|s| - b..]))
  }

  /** THREAD_RE, ======\s+Thread\s+([0-9]+)\s+======$, read from the right. */
  function MatchThread(line: string): Option<nat> {
    var s := WithoutEnd(line, "======");
    if s.None? then None
    else
      var t := WithoutSpaces(s.value);
      if t.None? then None else ThreadBefore(t.value)
  }

  // ----------------------------------------------------------------- parsing

  datatype Status = Status(pc: Option<nat>, regs: seq<Option<nat>>)

  function Blank(): Status {
    Status(None, seq(REGISTERS, (i: nat) => None))
  }

  /** What parse_log knows after some lines: the thread the next lines are about, and the threads seen. */
  datatype Parser = Parser(thread: nat, threads: map<nat, Status>) {
    /** self.threads[thread], created on first use */
    function Current(): Status {
      if thread in threads then threads[thread] else Blank()
    }

    function With(s: Status): Parser {
      this.(threads := threads[thread := s])
    }

    predicate Valid() {
      forall t :: t in threads ==> |threads[t].regs| == REGISTERS
    }
  }

  /** One line of the log; None is an exception. */
  function ParseLine(p: Parser, line0: string): Option<Parser> {
    var line := Strip(line0);
    if !StartsWith(line0, "DEBUG ") then
      if EndsWith(line, "======") then
        var t := MatchThread(line);
        Some(if t.Some? then p.(thread := t.value) else p)
      else Some(p)
    else if StartsWith(line, "DEBUG MIPS") then ParseMips(p, line)
    else if StartsWith(line, "DEBUG CAP") then ParseCap(p, line)
    else Some(p)
  }

  /** MIPS_CORE_RE: the core number. */
  function MatchCore(line: string): Option<nat> {
    if StartsWith(line, "DEBUG MIPS COREID") then MatchNumber(line[17..]) else None
  }

  /** MIPS_REG_RE: the register number; the value is the last 16 characters. */
  function MatchRegister(line: string): (r: Option<nat>)
    ensures r.Some? ==> |line| >= 16
  {
    if StartsWith(line, "DEBUG MIPS REG") && HasValue(line[14..]) then MatchIndex(line[14..|line| - 18]) else None
  }

  /** MIPS_PC_RE; the value is the last 16 characters. */
  predicate MatchPc(line: string) {
    && StartsWith(line, "DEBUG MIPS PC") && HasValue(line[13..])
    && |line| > 31 && LeadingSpaces(line[13..|line| - 18]) == |line| - 31
  }

  function ParseMips(p: Parser, line: string): Option<Parser> {
    if MatchCore(line).Some? then Some(p.(thread := MatchCore(line).value))
    else if MatchRegister(line).Some? then
      var i := MatchRegister(line).value;
      var v := HexNumber(line[|line| - 16..]);
      var s := p.Current();
      if v.None? || i >= |s.regs| then None
      else Some(p.With(s.(regs := s.regs[i := v])))
    else if MatchPc(line) then
      var v := HexNumber(line[|line| - 16..]);
      if v.None? then None else Some(p.With(p.Current().(pc := v)))
    else Some(p)
  }

  function Bit(): seq<Item> { [Once(Either('0', '1'))] }

  function HexDigits(n: nat): seq<Item> { seq(n, _ => Once(Hexadecimal)) }

  /** The tag and the seal of a capability */
  function Flags(): seq<Item> {
    Literal("t:") + Bit() + [Many(Space)] + [Once(Either('s', 'u'))] + Literal(":") + Bit()
  }

  function Rights(): seq<Item> {
    Literal(" perms:0x") + [Many(Hexadecimal)] + Literal(" type:0x") + [Many(Hexadecimal)]
  }

  function Bounds(): seq<Item> {
    Literal(" offset:0x") + HexDigits(16) + Literal(" base:0x") + HexDigits(16) + Literal(" length:0x") + HexDigits(16)
  }

  /** CAPREG_DUMP_REGEX */
  function Capability(): seq<Item> {
    Flags() + Rights() + Bounds() + Literal(" uninit:") + Bit()
  }

  const NUMBERED: seq<Item> := [Many(Space), Many(Digit), Many(Space)]

  /** The number after spaces at the start. */
  function FirstNumber(s: string): nat {
    var digits := s[LeadingSpaces(s)..];
    DigitsOnly(digits);
    Decimal(digits[..LeadingDigits(digits)])
  }

  /** The number of a capability register or of a special one, whose name may follow in parentheses. */
  function MatchCapability(line: string): Option<nat> {
    if FasterSearch("DEBUG CAP REG", NUMBERED + Capability(), line) then Some(FirstNumber(line[13..]))
    else if FasterSearch("DEBUG CAP HWREG", NUMBERED + [Maybe(Space)] + Capability(), line)
         || FasterSearch("DEBUG CAP HWREG",
                         NUMBERED + Literal("(") + [Many(Letter)] + Literal(")") + [Maybe(Space)] + Capability(), line) then
      Some(FirstNumber(line[15..]))
    else None
  }

  const CAPABILITIES: nat := 32

  /** Capability values are not kept, but a thread's status is created for them, and there are only 32 of either kind. */
  function ParseCap(p: Parser, line: string): Option<Parser> {
    if StartsWith(line, "DEBUG CAP COREID") && MatchNumber(line[16..]).Some? then
      Some(p.(thread := MatchNumber(line[16..]).value))
    else if MatchCapability(line).Some? then
      if MatchCapability(line).value >= CAPABILITIES then None else Some(p.With(p.Current()))
    else if FasterSearch("DEBUG CAP PCC", [Many(Space)] + Capability(), line) then Some(p.With(p.Current()))
    else Some(p)
  }

  function ParseLines(p: Parser, lines: seq<string>): Option<Parser> {
    if lines == [] then Some(p)
    else
      var before := ParseLines(p, lines[..|lines| - 1]);
      if before.None? then None else ParseLine(before.value, lines[|lines| - 1])
  }

  /** parse_log, on the fields it keeps. */
  class MipsStatus {
    var threads: map<nat, Status>

    constructor ()
      ensures threads == map[]
    {
      threads := map[];
    }

    method ParseLog(lines: seq<string>) returns (raised: bool)
      modifies this
      ensures raised <==> ParseLines(Parser(0, old(threads)), lines).None?
      ensures !raised ==> ParseLines(Parser(0, old(threads)), lines).value.threads == threads
    {
      var thread := 0;
      raised := false;
      for i := 0 to |lines|
        invariant ParseLines(Parser(0, old(threads)), lines[..i]) == Some(Parser(thread, threads))
      {
        assert lines[..i + 1][..i] == lines[..i];
        var next := ParseLine(Parser(thread, threads), lines[i]);
        if next.None? {
          NoneStays(Parser(0, old(threads)), lines, i + 1);
          return true;
        }
        thread, threads := next.value.thread, next.value.threads;
      }
      assert lines[..|lines|] == lines;
    }
  }

  lemma {:induction false} NoneStays(p: Parser, lines: seq<string>, i: nat)
    requires i <= |lines| && ParseLines(p, lines[..i]).None?
    ensures ParseLines(p, lines).None?
  {
    if i == |lines| {
      assert lines[..i] == lines;
    } else {
      assert lines[..|lines| - 1][..i] == lines[..i];
      NoneStays(p, lines[..|lines| - 1], i);
    }
  }

  // ---------------------------------------------------------------- patterns

  lemma NumberPattern(s: string)
    ensures MatchNumber(s).Some? <==> Matches([Many(Space), Many(Digit)], s)
  {
    ManyThen(Space, [Many(Digit)], s);
    ManyThen(Digit, [], s[LeadingSpaces(s)..]);
    assert [Many(Space)] + [Many(Digit)] == [Many(Space), Many(Digit)] && [Many(Digit)] + [] == [Many(Digit)];
  }

  lemma SpacesPattern(s: string)
    ensures Matches([Many(Space)], s) <==> s != "" && LeadingSpaces(s) == |s|
  {
    ManyThen(Space, [], s);
    assert [Many(Space)] + [] == [Many(Space)];
  }

  lemma IndexPattern(s: string)
    ensures MatchIndex(s).Some? <==> Matches(NUMBERED, s)
  {
    assert [Many(Space)] + [Many(Digit), Many(Space)] == NUMBERED;
    ManyThen(Space, [Many(Digit), Many(Space)], s);
    DigitsPattern(s[LeadingSpaces(s)..]);
  }

  lemma DigitsPattern(s: string)
    ensures DigitsThenSpaces(s).Some? <==> Matches([Many(Digit), Many(Space)], s)
  {
    assert [Many(Digit)] + [Many(Space)] == [Many(Digit), Many(Space)];
    ManyThen(Digit, [Many(Space)], s);
    SpacesPattern(s[LeadingDigits(s)..]);
  }

  /** 0x................ */
  function Value(): seq<Item> { Literal("0x") + seq(16, _ => Once(Dot)) }

  lemma {:induction false} DotsPattern(s: string, n: nat)
    ensures Matches(seq(n, _ => Once(Dot)), s) <==> |s| == n && forall i :: 0 <= i < |s| ==> s[i] != '\n'
  {
    if n != 0 && s != "" {
      assert seq(n, _ => Once(Dot))[1..] == seq(n - 1, _ => Once(Dot));
      DotsPattern(s[1..], n - 1);
      assert forall i :: 1 <= i < |s| ==> s[i] == s[1..][i - 1];
    }
  }

  lemma ValuePattern(items: seq<Item>, s: string)
    ensures Matches(items + Value(), s) <==> HasValue(s) && Matches(items, s[..|s| - 18])
  {
    FixedTail(items, Value(), s);
    if |s| >= 18 {
      var v := s[|s| - 18..];
      LiteralPrefix("0x", seq(16, _ => Once(Dot)), v);
      DotsPattern(v[2..], 16);
      assert v[..2] == s[|s| - 18..|s| - 16] && forall i :: |s| - 16 <= i < |s| ==> s[i] == v[2..][i - (|s| - 16)];
    }
  }

  /** The matchers above, with their look at the start of the line, accept exactly what the regular expressions accept
      without it. */
  lemma SearchesAgree(line: string)
    ensures MatchCore(line).Some? <==> Matches(Literal("DEBUG MIPS COREID") + [Many(Space), Many(Digit)], line)
    ensures MatchRegister(line).Some? <==> Matches(Literal("DEBUG MIPS REG") + (NUMBERED + Value()), line)
    ensures MatchPc(line) <==> Matches(Literal("DEBUG MIPS PC") + ([Many(Space)] + Value()), line)
  {
    CoreAgrees(line);
    RegisterAgrees(line);
    PcAgrees(line);
  }

  lemma CoreAgrees(line: string)
    ensures MatchCore(line).Some? <==> Matches(Literal("DEBUG MIPS COREID") + [Many(Space), Many(Digit)], line)
  {
    LiteralPrefix("DEBUG MIPS COREID", [Many(Space), Many(Digit)], line);
    if |line| >= 17 {
      NumberPattern(line[17..]);
    }
  }

  /** A start, some items and a value. */
  lemma LinePattern(start: string, items: seq<Item>, line: string)
    ensures Matches(Literal(start) + (items + Value()), line)
       <==> StartsWith(line, start) && HasValue(line[|start|..]) && Matches(items, line[|start|..|line| - 18])
  {
    LiteralPrefix(start, items + Value(), line);
    if |line| >= |start| {
      var rest := line[|start|..];
      ValuePattern(items, rest);
      if |rest| >= 18 {
        assert line[|start|..|line| - 18] == rest[..|rest| - 18];
      }
    }
  }

  lemma RegisterAgrees(line: string)
    ensures MatchRegister(line).Some? <==> Matches(Literal("DEBUG MIPS REG") + (NUMBERED + Value()), line)
  {
    LinePattern("DEBUG MIPS REG", NUMBERED, line);
    if |line| >= 32 {
      IndexPattern(line[14..|line| - 18]);
    }
  }

  lemma PcAgrees(line: string)
    ensures MatchPc(line) <==> Matches(Literal("DEBUG MIPS PC") + ([Many(Space)] + Value()), line)
  {
    LinePattern("DEBUG MIPS PC", [Many(Space)], line);
    if |line| >= 31 {
      SpacesPattern(line[13..|line| - 18]);
    }
  }

  // --------------------------------------------------------------- round trip

  lemma {:induction false} HexRoundTrip(v: nat, n: nat)
    ensures HexNumber(Hex(v, n)) == Some(v % Power16(n))
    decreases n
  {
    if n == 0 {
    } else {
      HexRoundTrip(v / 16, n - 1);
      var s := Hex(v, n);
      assert s[..n - 1] == Hex(v / 16, n - 1) && s[n - 1] == HexDigit(v % 16);
      DigitRoundTrip(v % 16);
      LastDigit(v, Power16(n - 1));
    }
  }

  function Power16(n: nat): (p: nat)
    ensures p >= 1
  {
    if n == 0 then 1 else 16 * Power16(n - 1)
  }

  lemma DigitRoundTrip(d: nat)
    requires d < 16
    ensures HexValue(HexDigit(d)) == Some(d)
  {
  }

  lemma LastDigit(v: nat, p: nat)
    requires p >= 1
    ensures v % (16 * p) == 16 * (v / 16 % p) + v % 16
  {
    var q, r := v / 16 / p, v / 16 % p;
    assert v / 16 == p * q + r;
    assert v == (16 * p) * q + (16 * r + v % 16) by {
      assert v == 16 * (p * q + r) + v % 16;
      assert 16 * (p * q) == (16 * p) * q;
    }
    Remainder(v, 16 * p, q, 16 * r + v % 16);
  }

  lemma Remainder(v: nat, m: nat, q: nat, r: nat)
    requires r < m && v == m * q + r
    ensures v % m == r
  {
    var k := v / m;
    assert v == m * k + v % m;
    if k < q {
      OneMultipleMore(m, k, q);
    } else if q < k {
      OneMultipleMore(m, q, k);
    }
  }

  lemma OneMultipleMore(m: nat, a: nat, b: nat)
    requires a < b
    ensures m * a + m <= m * b
  {
    assert m * b == m * (a + 1) + m * (b - a - 1);
  }

  lemma {:induction false} HexIsHex(v: nat, n: nat)
    ensures forall i :: 0 <= i < n ==> IsHex(Hex(v, n)[i])
    decreases n
  {
    if n != 0 {
      HexIsHex(v / 16, n - 1);
    }
  }

  lemma StripLine(s: string)
    requires s != "" && !IsSpace(s[0]) && !IsSpace(s[|s| - 1])
    ensures Strip(s + "\n") == s
  {
    var line := s + "\n";
    assert line[0] == s[0];
    assert LeadingSpaces(line) == 0 && line[0..] == line;
    assert line[..|line| - 1] == s && TrailingSpaces(s) == 0 && TrailingSpaces(line) == 1;
  }

  /** A number between spaces. */
  lemma Between(before: string, digits: string, after: string)
    requires before != "" && forall i :: 0 <= i < |before| ==> IsSpace(before[i])
    requires digits != "" && forall i :: 0 <= i < |digits| ==> IsDigit(digits[i])
    requires after != "" && forall i :: 0 <= i < |after| ==> IsSpace(after[i])
    ensures MatchIndex(before + (digits + after)) == Some(Decimal(digits))
  {
    var rest := digits + after;
    LeadingOf(Space, before, rest);
    assert (before + rest)[|before|..] == rest;
    ThenSpaces(digits, after);
  }

  lemma ThenSpaces(digits: string, after: string)
    requires digits != "" && forall i :: 0 <= i < |digits| ==> IsDigit(digits[i])
    requires after != "" && forall i :: 0 <= i < |after| ==> IsSpace(after[i])
    ensures DigitsThenSpaces(digits + after) == Some(Decimal(digits))
  {
    LeadingOf(Digit, digits, after);
    assert after == after + "";
    LeadingOf(Space, after, "");
    assert (digits + after)[|digits|..] == after && (digits + after)[..|digits|] == digits;
  }

  /** A register number between spaces, padded to two characters. */
  lemma NumberMatches(i: nat)
    requires i < 100
    ensures MatchIndex(" " + Number(i) + " ") == Some(i)
  {
    if i < 10 {
      OneDigitNumber(HexDigit(i));
    } else {
      TwoDigitNumber(HexDigit(i / 10), HexDigit(i % 10));
    }
  }

  lemma OneDigitNumber(a: char)
    requires IsDigit(a)
    ensures MatchIndex(" " + [' ', a] + " ") == Some(a as int - '0' as int)
  {
    var digits := [a];
    assert " " + [' ', a] + " " == "  " + (digits + " ");
    Between("  ", digits, " ");
    assert digits[..0] == "" && Decimal(digits) == a as int - '0' as int;
  }

  lemma TwoDigitNumber(a: char, b: char)
    requires IsDigit(a) && IsDigit(b)
    ensures MatchIndex(" " + [a, b] + " ") == Some(10 * (a as int - '0' as int) + (b as int - '0' as int))
  {
    var digits := [a, b];
    assert " " + [a, b] + " " == " " + (digits + " ");
    Between(" ", digits, " ");
    assert digits[..1] == [a] && [a][..0] == "" && Decimal([a]) == a as int - '0' as int;
  }

  lemma {:induction false} PowerAdds(m: nat, n: nat)
    ensures Power16(m + n) == Power16(m) * Power16(n)
    decreases m
  {
    if m != 0 {
      PowerAdds(m - 1, n);
      assert Power16(m + n) == 16 * (Power16(m - 1) * Power16(n)) == (16 * Power16(m - 1)) * Power16(n);
    }
  }

  lemma PowerOf16(n: nat)
    requires n == 4
    ensures Power16(4 * n) == 0x1_0000_0000_0000_0000
  {
    assert Power16(4) == 0x1_0000;
    PowerAdds(n, n);
    PowerAdds(2 * n, 2 * n);
    assert Power16(2 * n) == 0x1_0000_0000;
  }

  lemma WordRoundTrip(v: Word, n: nat)
    requires n == 4
    ensures HexNumber(Hex(v, 4 * n)) == Some(v)
  {
    HexRoundTrip(v, 4 * n);
    PowerOf16(n);
    Remainder(v, Power16(4 * n), 0, v);
  }

  /** A line that ends in a printed value has one. */
  lemma EndsInValue(start: string, v: Word)
    ensures HasValue(start + "0x" + Hex(v, 16))
  {
    HexIsHex(v, 16);
    var s := start + "0x" + Hex(v, 16);
    assert s[|s| - 18..|s| - 16] == "0x";
    forall i | |s| - 16 <= i < |s| ensures s[i] != '\n' {
      assert s[i] == Hex(v, 16)[i - (|s| - 16)];
    }
  }

  lemma Slices(tag: string, middle: string, x: string)
    requires |x| == 16
    ensures var line := tag + middle + "0x" + x;
            && |line| == |tag| + |middle| + 18 && line[..|tag|] == tag && line[|tag|..|line| - 18] == middle
            && line[|tag|..] == middle + "0x" + x && line[|line| - 16..] == x && line[|line| - 1] == x[15]
  {
  }

  /** The parts of a line that ends in a printed value. */
  lemma Parts(tag: string, middle: string, v: Word)
    ensures var line := tag + middle + "0x" + Hex(v, 16);
            && |line| == |tag| + |middle| + 18 && line[..|tag|] == tag && line[|tag|..|line| - 18] == middle
            && HasValue(line[|tag|..]) && HexNumber(line[|line| - 16..]) == Some(v) && !IsSpace(line[|line| - 1])
  {
    WordRoundTrip(v, 4);
    EndsInValue(middle, v);
    Slices(tag, middle, Hex(v, 16));
    HexIsHex(v, 16);
  }

  /** A line that starts as the dump's lines do goes to ParseMips without its newline. */
  lemma MipsLine(p: Parser, line: string)
    requires |line| > 10 && line[..10] == "DEBUG MIPS" && !IsSpace(line[|line| - 1])
    ensures ParseLine(p, line + "\n") == ParseMips(p, line)
  {
    assert line[0] == line[..10][0];
    StripLine(line);
    assert (line + "\n")[..6] == line[..10][..6] == "DEBUG ";
  }

  /** A number after spaces. */
  lemma NumberRead(spaces: string, digits: string)
    requires Run(Space, spaces) && Run(Digit, digits)
    ensures MatchNumber(spaces + digits) == Some(Decimal(digits))
  {
    LeadingOf(Space, spaces, digits);
    assert (spaces + digits)[|spaces|..] == digits && digits + "" == digits;
    LeadingOf(Digit, digits, "");
  }

  /** The core line makes the core it names the current thread, whatever its number and however it is written. */
  lemma CoreNumberParses(p: Parser, spaces: string, digits: string)
    requires Run(Space, spaces) && Run(Digit, digits)
    ensures ParseLine(p, "DEBUG MIPS COREID" + (spaces + digits) + "\n") == Some(p.(thread := Decimal(digits)))
  {
    var line := "DEBUG MIPS COREID" + (spaces + digits);
    NumberRead(spaces, digits);
    assert line[|line| - 1] == digits[|digits| - 1];
    assert line[..17] == "DEBUG MIPS COREID" && line[17..] == spaces + digits;
    assert line[..10] == line[..17][..10] == "DEBUG MIPS";
    MipsLine(p, line);
  }

  lemma CoreLineParses(p: Parser)
    ensures ParseLine(p, CORE_LINE) == Some(p.(thread := 0))
  {
    CoreNumberParses(p, " ", "0");
    assert CORE_LINE == "DEBUG MIPS COREID" + (" " + "0") + "\n";
    assert "0"[..0] == "";
  }

  /** Without a number before the closing marks, a title names no thread. */
  lemma NoThread(title: string, spaces: string)
    requires title != "" && !IsSpace(title[|title| - 1]) && !IsDigit(title[|title| - 1])
    requires forall i :: 0 <= i < |spaces| ==> IsSpace(spaces[i])
    ensures EndsWith(title + spaces + "======", "======") && MatchThread(title + spaces + "======").None?
  {
    var line := title + spaces + "======";
    assert line[..|line| - 6] == title + spaces && line[|line| - 6..] == "======";
    TrailingOf(Space, title, spaces);
    assert (title + spaces)[..|title|] == title;
  }

  /** Any title without a number is passed over. */
  lemma TitleParses(p: Parser, title: string, spaces: string)
    requires title != "" && title[0] == '=' && !IsSpace(title[|title| - 1]) && !IsDigit(title[|title| - 1])
    requires forall i :: 0 <= i < |spaces| ==> IsSpace(spaces[i])
    ensures ParseLine(p, title + spaces + "======" + "\n") == Some(p)
  {
    var line := title + spaces + "======";
    StripLine(line);
    Differs(line + "\n", "DEBUG ", 0);
    NoThread(title, spaces);
  }

  lemma Differs(line: string, prefix: string, k: nat)
    requires k < |line| && k < |prefix| && line[k] != prefix[k]
    ensures !StartsWith(line, prefix)
  {
    if |prefix| <= |line| {
      assert line[..|prefix|][k] == line[k];
    }
  }

  lemma TitleLineParses(p: Parser)
    ensures ParseLine(p, TITLE_LINE) == Some(p)
  {
    TitleParses(p, "======   Registers", "   ");
    assert TITLE_LINE == "======   Registers" + "   " + "======" + "\n";
  }

  lemma PcMatches(line: string)
    requires |line| == 32 && line[..13] == "DEBUG MIPS PC" && line[13..14] == " " && HasValue(line[13..])
    ensures MatchCore(line).None? && MatchRegister(line).None? && MatchPc(line)
  {
    assert line[11] == line[..13][11] == 'P';
    Differs(line, "DEBUG MIPS COREID", 11);
    Differs(line, "DEBUG MIPS REG", 11);
    assert LeadingSpaces(" ") == 1;
  }

  lemma PcLineParses(p: Parser, pc: Word)
    ensures ParseLine(p, PcLine(pc)) == Some(p.With(p.Current().(pc := Some(pc))))
  {
    var tag := "DEBUG MIPS PC";
    var line := tag + " " + "0x" + Hex(pc, 16);
    Parts(tag, " ", pc);
    assert PcLine(pc) == line + "\n";
    assert line[..10] == line[..13][..10] == "DEBUG MIPS";
    MipsLine(p, line);
    PcMatches(line);
  }

  lemma RegisterMatches(line: string, middle: string, i: nat)
    requires |line| == |middle| + 32 && line[..14] == "DEBUG MIPS REG" && line[14..|line| - 18] == middle && HasValue(line[14..])
    requires MatchIndex(middle) == Some(i)
    ensures MatchCore(line).None? && MatchRegister(line) == Some(i)
  {
    assert line[11] == line[..14][11] == 'R';
    Differs(line, "DEBUG MIPS COREID", 11);
  }

  lemma RegisterSet(p: Parser, line: string, i: nat, v: Word)
    requires MatchCore(line).None? && MatchRegister(line) == Some(i) && HexNumber(line[|line| - 16..]) == Some(v)
    ensures ParseMips(p, line)
         == if i < |p.Current().regs| then Some(p.With(p.Current().(regs := p.Current().regs[i := Some(v)]))) else None
  {
  }

  /** A register line, with the number and the spaces around it in the middle. */
  lemma RegisterLineWith(p: Parser, middle: string, i: nat, v: Word)
    requires MatchIndex(middle) == Some(i)
    ensures ParseLine(p, "DEBUG MIPS REG" + middle + "0x" + Hex(v, 16) + "\n")
         == if i < |p.Current().regs| then Some(p.With(p.Current().(regs := p.Current().regs[i := Some(v)]))) else None
  {
    var tag := "DEBUG MIPS REG";
    var line := tag + middle + "0x" + Hex(v, 16);
    Parts(tag, middle, v);
    assert line[..10] == line[..14][..10] == "DEBUG MIPS";
    MipsLine(p, line);
    RegisterMatches(line, middle, i);
    RegisterSet(p, line, i, v);
  }

  lemma RegisterLineParses(p: Parser, i: nat, v: Word)
    requires i < REGISTERS && |p.Current().regs| == REGISTERS
    ensures ParseLine(p, RegisterLine(i, v)) == Some(p.With(p.Current().(regs := p.Current().regs[i := Some(v)])))
  {
    NumberMatches(i);
    RegisterLineWith(p, " " + Number(i) + " ", i, v);
    RegisterText(Number(i), Hex(v, 16));
  }

  lemma RegisterText(n: string, x: string)
    ensures "DEBUG MIPS REG " + n + " 0x" + x + "\n" == "DEBUG MIPS REG" + (" " + n + " ") + "0x" + x + "\n"
  {
    assert "DEBUG MIPS REG " == "DEBUG MIPS REG" + " " && " 0x" == " " + "0x";
    Spaced("DEBUG MIPS REG", " ", n, "0x", x + "\n");
  }

  lemma Spaced(tag: string, space: string, n: string, mark: string, x: string)
    ensures (tag + space) + n + (space + mark) + x == tag + (space + n + space) + mark + x
  {
  }

  /** The first registers of a status are these, and the rest is as before. */
  function Filled(s: Status, regs: seq<Word>): Status
    requires |regs| <= |s.regs|
  {
    s.(regs := seq(|s.regs|, i requires 0 <= i < |s.regs| => if i < |regs| then Some(regs[i]) else s.regs[i]))
  }

  lemma FilledNext(s: Status, regs: seq<Word>)
    requires 0 < |regs| <= |s.regs|
    ensures var n, before := |regs| - 1, Filled(s, regs[..|regs| - 1]);
            before.(regs := before.regs[n := Some(regs[n])]) == Filled(s, regs)
  {
    var n := |regs| - 1;
    var before, after := Filled(s, regs[..n]).regs[n := Some(regs[n])], Filled(s, regs).regs;
    assert |before| == |after|;
    forall i | 0 <= i < |before| ensures before[i] == after[i] {
    }
  }

  lemma {:induction false} RegisterLinesParse(p: Parser, regs: seq<Word>)
    requires |regs| <= REGISTERS == |p.Current().regs| && p.thread in p.threads
    ensures ParseLines(p, RegisterLines(regs)) == Some(p.With(Filled(p.Current(), regs)))
  {
    if regs == [] {
      assert Filled(p.Current(), regs).regs == p.Current().regs;
      assert p.threads[p.thread := p.Current()] == p.threads;
    } else {
      var n := |regs| - 1;
      var before := Filled(p.Current(), regs[..n]);
      RegisterLinesParse(p, regs[..n]);
      assert RegisterLines(regs)[..n] == RegisterLines(regs[..n]);
      RegisterLineParses(p.With(before), n, regs[n]);
      FilledNext(p.Current(), regs);
      WithTwice(p, before, Filled(p.Current(), regs));
    }
  }

  lemma {:induction false} ParseAppend(p: Parser, a: seq<string>, b: seq<string>)
    requires ParseLines(p, a).Some?
    ensures ParseLines(p, a + b) == ParseLines(ParseLines(p, a).value, b)
  {
    if b == [] {
      assert a + b == a;
    } else {
      assert (a + b)[..|a + b| - 1] == a + b[..|b| - 1];
      ParseAppend(p, a, b[..|b| - 1]);
    }
  }

  lemma MipsKeepsValid(p: Parser, line: string)
    requires p.Valid() && ParseMips(p, line).Some?
    ensures ParseMips(p, line).value.Valid()
  {
  }

  lemma CapKeepsValid(p: Parser, line: string)
    requires p.Valid() && ParseCap(p, line).Some?
    ensures ParseCap(p, line).value.Valid()
  {
  }

  lemma LineKeepsValid(p: Parser, line: string)
    requires p.Valid() && ParseLine(p, line).Some?
    ensures ParseLine(p, line).value.Valid()
  {
    var s := Strip(line);
    if StartsWith(line, "DEBUG ") {
      if StartsWith(s, "DEBUG MIPS") {
        MipsKeepsValid(p, s);
      } else if StartsWith(s, "DEBUG CAP") {
        CapKeepsValid(p, s);
      }
    }
  }

  lemma {:induction false} StaysValid(p: Parser, lines: seq<string>)
    requires p.Valid() && ParseLines(p, lines).Some?
    ensures ParseLines(p, lines).value.Valid()
  {
    if lines != [] {
      var n := |lines| - 1;
      StaysValid(p, lines[..n]);
      LineKeepsValid(ParseLines(p, lines[..n]).value, lines[n]);
    }
  }

  lemma HeaderParses(p: Parser, pc: Word)
    ensures var q := p.(thread := 0);
            ParseLines(p, [TITLE_LINE, CORE_LINE, PcLine(pc)]) == Some(q.With(q.Current().(pc := Some(pc))))
  {
    var lines := [TITLE_LINE, CORE_LINE, PcLine(pc)];
    TitleLineParses(p);
    CoreLineParses(p);
    PcLineParses(p.(thread := 0), pc);
    OneLine(p, [], TITLE_LINE);
    OneLine(p, [TITLE_LINE], CORE_LINE);
    OneLine(p, [TITLE_LINE, CORE_LINE], PcLine(pc));
    assert [] + [TITLE_LINE] == [TITLE_LINE] && [TITLE_LINE] + [CORE_LINE] == [TITLE_LINE, CORE_LINE];
    assert [TITLE_LINE, CORE_LINE] + [PcLine(pc)] == lines;
  }

  lemma OneLine(p: Parser, lines: seq<string>, line: string)
    requires ParseLines(p, lines).Some?
    ensures ParseLines(p, lines + [line]) == ParseLine(ParseLines(p, lines).value, line)
  {
    assert (lines + [line])[..|lines|] == lines;
  }

  /** What a dump leaves in the parser, whatever the parser knew before. */
  lemma DumpParses(p: Parser, pc: Word, regs: seq<Word>)
    requires |regs| == REGISTERS && p.Valid()
    ensures ParseLines(p, Dump(pc, regs)) == Some(Parser(0, p.threads[0 := Status(Some(pc), Known(regs))]))
  {
    var q := p.(thread := 0);
    var s := q.Current().(pc := Some(pc));
    HeaderParses(p, pc);
    ParseAppend(p, [TITLE_LINE, CORE_LINE, PcLine(pc)], RegisterLines(regs));
    RegisterLinesParse(q.With(s), regs);
    AllFilled(s, regs);
    WithTwice(q, s, Filled(s, regs));
  }

  lemma AllFilled(s: Status, regs: seq<Word>)
    requires |regs| == |s.regs|
    ensures Filled(s, regs) == Status(s.pc, Known(regs))
  {
    assert Filled(s, regs).regs == Known(regs);
  }

  lemma WithTwice(q: Parser, s: Status, r: Status)
    ensures q.With(s).Current() == s && q.With(s).With(r) == q.With(r)
  {
    assert q.threads[q.thread := s][q.thread := r] == q.threads[q.thread := r];
  }

  function Known(regs: seq<Word>): seq<Option<nat>> {
    seq(|regs|, i requires 0 <= i < |regs| => Some(regs[i]))
  }

  /** Whatever log comes before it, if it can be read at all, the dump gives thread 0 exactly the program counter and the
      registers that were printed, and leaves every other thread alone. */
  lemma DumpRoundTrip(log: seq<string>, pc: Word, regs: seq<Word>)
    requires |regs| == REGISTERS && ParseLines(Parser(0, map[]), log).Some?
    ensures ParseLines(Parser(0, map[]), log + Dump(pc, regs))
         == Some(Parser(0, ParseLines(Parser(0, map[]), log).value.threads[0 := Status(Some(pc), Known(regs))]))
  {
    StaysValid(Parser(0, map[]), log);
    ParseAppend(Parser(0, map[]), log, Dump(pc, regs));
    DumpParses(ParseLines(Parser(0, map[]), log).value, pc, regs);
  }
}
