/**
 The lines of a log other than those of a register dump: the headers of threads, and the lines about capabilities.
 */
module LogLines {
  import opened Options
  import opened Regex
  import opened RegisterDump

  // ---------------------------------------------------------------- decimals

  /** A number as it is printed. */
  function Digits(n: nat): (s: string)
    ensures s != ""
  {
    if n < 10 then [HexDigit(n)] else Digits(n / 10) + [HexDigit(n % 10)]
  }

  lemma {:induction false} DigitsRoundTrip(n: nat)
    ensures Run(Digit, Digits(n)) && Decimal(Digits(n)) == n
  {
    var s := Digits(n);
    if n < 10 {
      assert s[..0] == "";
    } else {
      DigitsRoundTrip(n / 10);
      assert s[..|s| - 1] == Digits(n / 10) && s[|s| - 1] == HexDigit(n % 10);
    }
  }

  // ----------------------------------------------------------- thread headers

  /** ======\s+Thread\s+([0-9]+)\s+====== */
  function HeaderPattern(): seq<Item> {
    TitlePattern() + [Many(Digit)] + [Many(Space)] + Literal("======")
  }

  function TitlePattern(): seq<Item> {
    Literal("======") + [Many(Space)] + Literal("Thread") + [Many(Space)]
  }

  function Title(a: string, b: string): string { "======" + a + "Thread" + b }

  function Header(a: string, b: string, digits: string, c: string): string { Title(a, b) + digits + c + "======" }

  /** The parts of a header between its marks. */
  predicate HeaderParts(a: string, b: string, digits: string, c: string) {
    Run(Space, a) && Run(Space, b) && Run(Digit, digits) && Run(Space, c)
  }

  lemma TitleMatches(a: string, b: string)
    requires Run(Space, a) && Run(Space, b)
    ensures Matches(TitlePattern(), Title(a, b))
  {
    LiteralMatches("======", "======");
    LiteralMatches("Thread", "Thread");
    ManyIsRun(Space, a);
    ManyIsRun(Space, b);
    Concatenated(Literal("======"), [Many(Space)], "======", a);
    Concatenated(Literal("======") + [Many(Space)], Literal("Thread"), "======" + a, "Thread");
    Concatenated(Literal("======") + [Many(Space)] + Literal("Thread"), [Many(Space)], "======" + a + "Thread", b);
  }

  lemma HeaderMatches(a: string, b: string, digits: string, c: string)
    requires HeaderParts(a, b, digits, c)
    ensures Matches(HeaderPattern(), Header(a, b, digits, c))
  {
    var title := Title(a, b);
    TitleMatches(a, b);
    ManyIsRun(Digit, digits);
    ManyIsRun(Space, c);
    LiteralMatches("======", "======");
    Concatenated(TitlePattern(), [Many(Digit)], title, digits);
    Concatenated(TitlePattern() + [Many(Digit)], [Many(Space)], title + digits, c);
    Concatenated(TitlePattern() + [Many(Digit)] + [Many(Space)], Literal("======"), title + digits + c, "======");
  }

  lemma TitleDivided(s: string) returns (a: string, b: string)
    requires Matches(TitlePattern(), s)
    ensures Run(Space, a) && Run(Space, b) && s == Title(a, b)
  {
    var i := Divided(Literal("======") + [Many(Space)] + Literal("Thread"), [Many(Space)], s);
    var j := Divided(Literal("======") + [Many(Space)], Literal("Thread"), s[..i]);
    var k := Divided(Literal("======"), [Many(Space)], s[..i][..j]);
    a, b := s[..i][..j][k..], s[i..];
    ManyIsRun(Space, a);
    ManyIsRun(Space, b);
    LiteralMatches("======", s[..i][..j][..k]);
    LiteralMatches("Thread", s[..i][j..]);
    assert s[..i][..j] == "======" + a && s[..i] == "======" + a + "Thread";
    assert s == s[..i] + s[i..];
  }

  lemma HeaderDivided(s: string) returns (a: string, b: string, digits: string, c: string)
    requires Matches(HeaderPattern(), s)
    ensures HeaderParts(a, b, digits, c) && s == Header(a, b, digits, c)
  {
    var i := Divided(TitlePattern() + [Many(Digit)] + [Many(Space)], Literal("======"), s);
    var j := Divided(TitlePattern() + [Many(Digit)], [Many(Space)], s[..i]);
    var k := Divided(TitlePattern(), [Many(Digit)], s[..i][..j]);
    a, b := TitleDivided(s[..i][..j][..k]);
    digits, c := s[..i][..j][k..], s[..i][j..];
    ManyIsRun(Digit, digits);
    ManyIsRun(Space, c);
    LiteralMatches("======", s[i..]);
    assert s[..i][..j] == Title(a, b) + digits && s[..i] == Title(a, b) + digits + c;
    assert s == s[..i] + s[i..];
  }

  // ---- reading a header from the right

  lemma SpacesCut(s: string, spaces: string)
    requires Run(Space, spaces) && (s == "" || !IsSpace(s[|s| - 1]))
    ensures WithoutSpaces(s + spaces) == Some(s)
  {
    TrailingOf(Space, s, spaces);
    assert (s + spaces)[..|s|] == s;
  }

  lemma EndCut(s: string, end: string)
    ensures WithoutEnd(s + end, end) == Some(s)
  {
    assert (s + end)[..|s|] == s && (s + end)[|s|..] == end;
  }

  lemma TitleRead(before: string, a: string, b: string)
    requires Run(Space, a) && Run(Space, b)
    ensures ThreadTitle(before + Title(a, b))
  {
    var x := before + "======";
    assert before + Title(a, b) == ((x + a) + "Thread") + b;
    SpacesCut((x + a) + "Thread", b);
    EndCut(x + a, "Thread");
    SpacesCut(x, a);
    EndCut(before, "======");
  }

  /** A header names its thread, whatever is before it. */
  lemma HeaderRead(before: string, a: string, b: string, digits: string, c: string)
    requires HeaderParts(a, b, digits, c)
    ensures MatchThread(before + Header(a, b, digits, c)) == Some(Decimal(digits))
  {
    var title := before + Title(a, b);
    TitleRead(before, a, b);
    assert title[|title| - 1] == b[|b| - 1];
    TrailingOf(Digit, title, digits);
    assert (title + digits)[..|title|] == title && (title + digits)[|title|..] == digits;
    assert before + Header(a, b, digits, c) == ((title + digits) + c) + "======";
    EndCut((title + digits) + c, "======");
    SpacesCut(title + digits, c);
  }

  lemma CutSpaces(s: string) returns (rest: string, spaces: string)
    requires WithoutSpaces(s).Some?
    ensures s == rest + spaces && Run(Space, spaces) && WithoutSpaces(s) == Some(rest)
  {
    var n := TrailingSpaces(s);
    TrailingRun(Space, s);
    rest, spaces := s[..|s| - n], s[|s| - n..];
  }

  lemma CutEnd(s: string, end: string) returns (rest: string)
    requires EndsWith(s, end)
    ensures s == rest + end && WithoutEnd(s, end) == Some(rest)
  {
    rest := s[..|s| - |end|];
  }

  lemma TitleShape(s: string) returns (before: string, a: string, b: string)
    requires ThreadTitle(s)
    ensures Run(Space, a) && Run(Space, b) && s == before + Title(a, b)
  {
    var v, w, x;
    v, b := CutSpaces(s);
    w := CutEnd(v, "Thread");
    x, a := CutSpaces(w);
    before := CutEnd(x, "======");
    assert before + "======" + a + "Thread" + b == before + Title(a, b);
  }

  lemma HeaderShape(line: string) returns (before: string, a: string, b: string, digits: string, c: string)
    requires MatchThread(line).Some?
    ensures HeaderParts(a, b, digits, c) && line == before + Header(a, b, digits, c)
  {
    var s := CutEnd(line, "======");
    var t;
    t, c := CutSpaces(s);
    before, a, b, digits := BeforeShape(t);
    HeaderAfter(before, Title(a, b), digits, c);
  }

  lemma HeaderAfter(before: string, title: string, digits: string, c: string)
    ensures ((before + title) + digits) + c + "======" == before + (title + digits + c + "======")
  {
  }

  lemma BeforeShape(s: string) returns (before: string, a: string, b: string, digits: string)
    requires ThreadBefore(s).Some?
    ensures Run(Space, a) && Run(Space, b) && Run(Digit, digits) && s == (before + Title(a, b)) + digits
  {
    var title;
    title, digits := TrailingParts(Digit, s);
    assert s[..|s| - |digits|] == title;
    before, a, b := TitleShape(title);
  }

  /** Reading the line from the right finds a thread exactly when THREAD_RE finds one, that is, when it matches some end of
      the line. */
  lemma ThreadSearchAgrees(line: string)
    ensures MatchThread(line).Some? <==> exists k :: 0 <= k <= |line| && Matches(HeaderPattern(), line[k..])
  {
    if MatchThread(line).Some? {
      var k := FoundMatches(line);
    }
    if k :| 0 <= k <= |line| && Matches(HeaderPattern(), line[k..]) {
      MatchFound(line, k);
    }
  }

  lemma FoundMatches(line: string) returns (k: nat)
    requires MatchThread(line).Some?
    ensures k <= |line| && Matches(HeaderPattern(), line[k..])
  {
    var before, a, b, digits, c := HeaderShape(line);
    HeaderMatches(a, b, digits, c);
    k := |before|;
    assert line[k..] == Header(a, b, digits, c);
  }

  lemma MatchFound(line: string, k: nat)
    requires k <= |line| && Matches(HeaderPattern(), line[k..])
    ensures MatchThread(line).Some?
  {
    var a, b, digits, c := HeaderDivided(line[k..]);
    HeaderRead(line[..k], a, b, digits, c);
    assert line == line[..k] + line[k..];
  }

  /** A thread header makes the thread it names the current one, whatever its number and the spaces in it. */
  lemma ThreadLineParses(p: Parser, a: string, b: string, digits: string, c: string)
    requires HeaderParts(a, b, digits, c)
    ensures ParseLine(p, Header(a, b, digits, c) + "\n") == Some(p.(thread := Decimal(digits)))
  {
    var line := Header(a, b, digits, c);
    HeaderRead("", a, b, digits, c);
    assert "" + line == line;
    HeaderEnds(a, b, digits, c);
    StripLine(line);
    Differs(line + "\n", "DEBUG ", 0);
  }

  lemma HeaderEnds(a: string, b: string, digits: string, c: string)
    ensures var line := Header(a, b, digits, c); line != "" && line[0] == '=' && line[|line| - 1] == '=' && EndsWith(line, "======")
  {
    var line := Header(a, b, digits, c);
    EndCut(Title(a, b) + digits + c, "======");
    assert line == (Title(a, b) + digits + c) + "======";
    assert Title(a, b)[0] == '=';
  }

  /** So thread n is the current one after its header. */
  lemma ThreadNumberParses(p: Parser, n: nat, a: string, b: string, c: string)
    requires Run(Space, a) && Run(Space, b) && Run(Space, c)
    ensures ParseLine(p, "======" + a + "Thread" + b + Digits(n) + c + "======" + "\n") == Some(p.(thread := n))
  {
    DigitsRoundTrip(n);
    ThreadLineParses(p, a, b, Digits(n), c);
  }

  // ---------------------------------------------------------- register lines

  /** Hexadecimal digits are read in either case. */
  lemma EitherCase(d: nat)
    requires 10 <= d < 16
    ensures HexValue('a' + (d - 10) as char) == HexValue('A' + (d - 10) as char) == Some(d)
  {
  }

  /** A register line sets the register it names, whatever its number and the spaces around it, and raises an exception if
      there is no such register. */
  lemma RegisterNumberParses(p: Parser, before: string, digits: string, after: string, v: Word)
    requires Run(Space, before) && Run(Digit, digits) && Run(Space, after) && |p.Current().regs| == REGISTERS
    ensures ParseLine(p, "DEBUG MIPS REG" + (before + (digits + after)) + "0x" + Hex(v, 16) + "\n")
         == if Decimal(digits) < REGISTERS then Some(p.With(p.Current().(regs := p.Current().regs[Decimal(digits) := Some(v)])))
            else None
  {
    Between(before, digits, after);
    RegisterLineWith(p, before + (digits + after), Decimal(digits), v);
  }

  // ---------------------------------------------------------- capability lines

  lemma {:induction false} MaybeIsAll(c: Class, s: string)
    ensures Matches([Maybe(c)], s) <==> AllOf(c, s)
  {
    if s != "" {
      MaybeIsAll(c, s[1..]);
      assert forall i :: 1 <= i < |s| ==> s[i] == s[1..][i - 1];
    }
  }

  lemma {:induction false} HexDigitsMatch(n: nat, s: string)
    ensures Matches(HexDigits(n), s) <==> |s| == n && AllOf(Hexadecimal, s)
  {
    if n != 0 && s != "" {
      assert HexDigits(n)[1..] == HexDigits(n - 1);
      HexDigitsMatch(n - 1, s[1..]);
      assert forall i :: 1 <= i < |s| ==> s[i] == s[1..][i - 1];
    }
  }

  predicate IsBit(s: string) { s == "0" || s == "1" }

  lemma BitMatches(s: string)
    ensures Matches(Bit(), s) <==> IsBit(s)
  {
  }

  lemma LabelMatches(items: seq<Item>, name: string, value: seq<Item>, s: string, v: string)
    requires Matches(items, s) && Matches(value, v)
    ensures Matches(items + Literal(name) + value, s + name + v)
  {
    LiteralMatches(name, name);
    Concatenated(items, Literal(name), s, name);
    Concatenated(items + Literal(name), value, s + name, v);
  }

  /** t:1 s:0 */
  lemma FlagsMatch(tag: string, gap: string, kind: string, seal: string)
    requires IsBit(tag) && Run(Space, gap) && (kind == "s" || kind == "u") && IsBit(seal)
    ensures Matches(Flags(), "t:" + tag + gap + kind + ":" + seal)
  {
    BitMatches(tag);
    BitMatches(seal);
    ManyIsRun(Space, gap);
    LiteralMatches("t:", "t:");
    var either := [Once(Either('s', 'u'))];
    assert Matches(either, kind);
    Concatenated(Literal("t:"), Bit(), "t:", tag);
    Concatenated(Literal("t:") + Bit(), [Many(Space)], "t:" + tag, gap);
    Concatenated(Literal("t:") + Bit() + [Many(Space)], either, "t:" + tag + gap, kind);
    LabelMatches(Literal("t:") + Bit() + [Many(Space)] + either, ":", Bit(), "t:" + tag + gap + kind, seal);
  }

  lemma RightsMatch(perms: string, kind: string)
    requires Run(Hexadecimal, perms) && Run(Hexadecimal, kind)
    ensures Matches(Rights(), " perms:0x" + perms + " type:0x" + kind)
  {
    ManyIsRun(Hexadecimal, perms);
    ManyIsRun(Hexadecimal, kind);
    LiteralMatches(" perms:0x", " perms:0x");
    Concatenated(Literal(" perms:0x"), [Many(Hexadecimal)], " perms:0x", perms);
    LabelMatches(Literal(" perms:0x") + [Many(Hexadecimal)], " type:0x", [Many(Hexadecimal)], " perms:0x" + perms, kind);
  }

  predicate SixteenDigits(s: string) { |s| == 16 && AllOf(Hexadecimal, s) }

  lemma BoundsMatch(offset: string, base: string, length: string)
    requires SixteenDigits(offset) && SixteenDigits(base) && SixteenDigits(length)
    ensures Matches(Bounds(), " offset:0x" + offset + " base:0x" + base + " length:0x" + length)
  {
    HexDigitsMatch(16, offset);
    HexDigitsMatch(16, base);
    HexDigitsMatch(16, length);
    LiteralMatches(" offset:0x", " offset:0x");
    Concatenated(Literal(" offset:0x"), HexDigits(16), " offset:0x", offset);
    LabelMatches(Literal(" offset:0x") + HexDigits(16), " base:0x", HexDigits(16), " offset:0x" + offset, base);
    LabelMatches(Literal(" offset:0x") + HexDigits(16) + Literal(" base:0x") + HexDigits(16), " length:0x", HexDigits(16),
                 " offset:0x" + offset + " base:0x" + base, length);
  }

  /** A capability's value: its flags, its rights, its bounds and whether it is uninitialised. */
  lemma CapabilityMatches(tag: string, gap: string, kind: string, seal: string, perms: string, ctype: string,
                          offset: string, base: string, length: string, uninit: string)
    requires IsBit(tag) && Run(Space, gap) && (kind == "s" || kind == "u") && IsBit(seal)
    requires Run(Hexadecimal, perms) && Run(Hexadecimal, ctype)
    requires SixteenDigits(offset) && SixteenDigits(base) && SixteenDigits(length) && IsBit(uninit)
    ensures Matches(Capability(), ("t:" + tag + gap + kind + ":" + seal) + (" perms:0x" + perms + " type:0x" + ctype)
                                  + (" offset:0x" + offset + " base:0x" + base + " length:0x" + length) + " uninit:" + uninit)
  {
    FlagsMatch(tag, gap, kind, seal);
    RightsMatch(perms, ctype);
    BoundsMatch(offset, base, length);
    PartsMatch("t:" + tag + gap + kind + ":" + seal, " perms:0x" + perms + " type:0x" + ctype,
               " offset:0x" + offset + " base:0x" + base + " length:0x" + length, uninit);
  }

  lemma PartsMatch(flags: string, rights: string, bounds: string, uninit: string)
    requires Matches(Flags(), flags) && Matches(Rights(), rights) && Matches(Bounds(), bounds) && IsBit(uninit)
    ensures Matches(Capability(), flags + rights + bounds + " uninit:" + uninit)
  {
    BitMatches(uninit);
    Concatenated(Flags(), Rights(), flags, rights);
    Concatenated(Flags() + Rights(), Bounds(), flags + rights, bounds);
    LabelMatches(Flags() + Rights() + Bounds(), " uninit:", Bit(), flags + rights + bounds, uninit);
  }

  lemma CapabilityEnds(cap: string)
    requires Matches(Capability(), cap)
    ensures cap != "" && !IsSpace(cap[|cap| - 1])
  {
    FixedTail(Flags() + Rights() + Bounds() + Literal(" uninit:"), Bit(), cap);
    BitMatches(cap[|cap| - 1..]);
  }

  /** A line that starts as capability lines do goes to ParseCap without its newline. */
  lemma CapLine(p: Parser, line: string)
    requires |line| > 9 && line[..9] == "DEBUG CAP" && !IsSpace(line[|line| - 1])
    ensures ParseLine(p, line + "\n") == ParseCap(p, line)
  {
    assert line[0] == line[..9][0] && line[6] == line[..9][6];
    StripLine(line);
    assert (line + "\n")[..6] == line[..9][..6] == "DEBUG ";
    Differs(line, "DEBUG MIPS", 6);
  }

  /** CAPMIPS_CORE_RE */
  lemma CapCoreParses(p: Parser, spaces: string, digits: string)
    requires Run(Space, spaces) && Run(Digit, digits)
    ensures ParseLine(p, "DEBUG CAP COREID" + (spaces + digits) + "\n") == Some(p.(thread := Decimal(digits)))
  {
    var line := "DEBUG CAP COREID" + (spaces + digits);
    NumberRead(spaces, digits);
    assert line[|line| - 1] == digits[|digits| - 1];
    assert line[..16] == "DEBUG CAP COREID" && line[16..] == spaces + digits;
    assert line[..9] == line[..16][..9] == "DEBUG CAP";
    CapLine(p, line);
  }

  /** The search for the core's number agrees with CAPMIPS_CORE_RE. */
  lemma CapCoreAgrees(line: string)
    ensures StartsWith(line, "DEBUG CAP COREID") && MatchNumber(line[16..]).Some?
       <==> Matches(Literal("DEBUG CAP COREID") + [Many(Space), Many(Digit)], line)
  {
    LiteralPrefix("DEBUG CAP COREID", [Many(Space), Many(Digit)], line);
    if |line| >= 16 {
      NumberPattern(line[16..]);
    }
  }

  lemma StartFound(start: string, items: seq<Item>, body: string)
    requires Matches(items, body)
    ensures FasterSearch(start, items, start + body)
  {
    LiteralMatches(start, start);
    Concatenated(Literal(start), items, start, body);
  }

  lemma FirstNumberRead(spaces: string, digits: string, rest: string)
    requires Run(Space, spaces) && Run(Digit, digits) && rest != "" && !IsDigit(rest[0])
    ensures FirstNumber(spaces + (digits + rest)) == Decimal(digits)
  {
    LeadingOf(Space, spaces, digits + rest);
    LeadingOf(Digit, digits, rest);
    assert (spaces + (digits + rest))[|spaces|..] == digits + rest && (digits + rest)[..|digits|] == digits;
  }

  lemma NumberedMatches(spaces: string, digits: string, more: string)
    requires Run(Space, spaces) && Run(Digit, digits) && Run(Space, more)
    ensures Matches(NUMBERED, spaces + digits + more)
  {
    ManyIsRun(Space, spaces);
    ManyIsRun(Digit, digits);
    ManyIsRun(Space, more);
    Concatenated([Many(Space)], [Many(Digit)], spaces, digits);
    Concatenated([Many(Space)] + [Many(Digit)], [Many(Space)], spaces + digits, more);
    assert [Many(Space)] + [Many(Digit)] + [Many(Space)] == NUMBERED;
  }

  /** What a line about capability register n does: the current thread gets a status if it has none, and a register that does
      not exist raises an exception. */
  function AfterCapability(p: Parser, n: nat): Option<Parser> {
    if n < CAPABILITIES then Some(p.With(p.Current())) else None
  }

  /** CAPMIPS_REG_RE */
  lemma CapRegisterParses(p: Parser, spaces: string, digits: string, more: string, cap: string)
    requires Run(Space, spaces) && Run(Digit, digits) && Run(Space, more) && Matches(Capability(), cap)
    ensures ParseLine(p, "DEBUG CAP REG" + (spaces + digits + more + cap) + "\n") == AfterCapability(p, Decimal(digits))
  {
    var start := "DEBUG CAP REG";
    var line := start + (spaces + digits + more + cap);
    RegisterFound(spaces, digits, more, cap);
    CapabilityEnds(cap);
    LineEnds(start, spaces + digits + more, cap);
    StillDiffers(start, spaces + digits + more + cap, "DEBUG CAP COREID", 10);
    CapLine(p, line);
  }

  lemma RegisterFound(spaces: string, digits: string, more: string, cap: string)
    requires Run(Space, spaces) && Run(Digit, digits) && Run(Space, more) && Matches(Capability(), cap)
    ensures MatchCapability("DEBUG CAP REG" + (spaces + digits + more + cap)) == Some(Decimal(digits))
  {
    var start, body := "DEBUG CAP REG", spaces + digits + more + cap;
    NumberedMatches(spaces, digits, more);
    Concatenated(NUMBERED, Capability(), spaces + digits + more, cap);
    StartFound(start, NUMBERED + Capability(), body);
    NumberFirst(start, spaces, digits, more, cap);
  }

  lemma StillDiffers(start: string, body: string, other: string, k: nat)
    requires k < |start| && k < |other| && start[k] != other[k]
    ensures !StartsWith(start + body, other)
  {
    Differs(start + body, other, k);
  }

  lemma NumberFirst(start: string, spaces: string, digits: string, more: string, rest: string)
    requires Run(Space, spaces) && Run(Digit, digits) && Run(Space, more)
    ensures FirstNumber((start + (spaces + digits + more + rest))[|start|..]) == Decimal(digits)
  {
    Tail(start, spaces + digits + more + rest);
    Regrouped(spaces, digits, more, rest);
    FirstNumberRead(spaces, digits, more + rest);
  }

  lemma Tail(start: string, body: string)
    ensures (start + body)[|start|..] == body
  {
  }

  lemma Regrouped(a: string, b: string, c: string, d: string)
    ensures a + b + c + d == a + (b + (c + d))
  {
  }

  lemma LineEnds(start: string, middle: string, cap: string)
    requires |start| > 9 && start[..9] == "DEBUG CAP" && cap != ""
    ensures var line := start + (middle + cap);
            |line| > 9 && line[..9] == "DEBUG CAP" && line[|line| - 1] == cap[|cap| - 1]
  {
    var line := start + (middle + cap);
    assert line[..9] == start[..9];
  }

  /** A special capability register, whose name may follow in parentheses. */
  predicate SpecialName(name: string) {
    name == "" || (|name| > 2 && name[0] == '(' && name[|name| - 1] == ')' && AllOf(Letter, name[1..|name| - 1]))
  }

  lemma NameMatches(name: string)
    requires SpecialName(name) && name != ""
    ensures Matches(Literal("(") + [Many(Letter)] + Literal(")"), name)
  {
    var letters := name[1..|name| - 1];
    ManyIsRun(Letter, letters);
    LiteralMatches("(", "(");
    LiteralMatches(")", ")");
    Concatenated(Literal("("), [Many(Letter)], "(", letters);
    Concatenated(Literal("(") + [Many(Letter)], Literal(")"), "(" + letters, ")");
    assert name == "(" + letters + ")";
  }

  /** CAPMIPS_HWREG_RE */
  lemma CapSpecialParses(p: Parser, spaces: string, digits: string, more: string, name: string, blanks: string, cap: string)
    requires Run(Space, spaces) && Run(Digit, digits) && Run(Space, more) && SpecialName(name) && AllOf(Space, blanks)
    requires Matches(Capability(), cap)
    ensures ParseLine(p, "DEBUG CAP HWREG" + (spaces + digits + more + (name + blanks + cap)) + "\n")
         == AfterCapability(p, Decimal(digits))
  {
    var start, end := "DEBUG CAP HWREG", name + blanks + cap;
    var line := start + (spaces + digits + more + end);
    SpecialNumber(spaces, digits, more, name, blanks, cap);
    CapabilityEnds(cap);
    SpecialEnds(start, spaces + digits + more, name + blanks, cap);
    StillDiffers(start, spaces + digits + more + end, "DEBUG CAP COREID", 10);
    CapLine(p, line);
  }

  lemma SpecialEnds(start: string, number: string, name: string, cap: string)
    requires |start| > 9 && start[..9] == "DEBUG CAP" && cap != ""
    ensures var line := start + (number + (name + cap));
            |line| > 9 && line[..9] == "DEBUG CAP" && line[|line| - 1] == cap[|cap| - 1]
  {
    assert number + (name + cap) == (number + name) + cap;
    LineEnds(start, number + name, cap);
  }

  lemma SpecialNumber(spaces: string, digits: string, more: string, name: string, blanks: string, cap: string)
    requires Run(Space, spaces) && Run(Digit, digits) && Run(Space, more) && SpecialName(name) && AllOf(Space, blanks)
    requires Matches(Capability(), cap)
    ensures MatchCapability("DEBUG CAP HWREG" + (spaces + digits + more + (name + blanks + cap))) == Some(Decimal(digits))
  {
    var start, end := "DEBUG CAP HWREG", name + blanks + cap;
    SpecialFound(spaces, digits, more, name, blanks, cap);
    NumberFirst(start, spaces, digits, more, end);
    StillDiffers(start, spaces + digits + more + end, "DEBUG CAP REG", 10);
  }

  lemma SpecialFound(spaces: string, digits: string, more: string, name: string, blanks: string, cap: string)
    requires Run(Space, spaces) && Run(Digit, digits) && Run(Space, more) && SpecialName(name) && AllOf(Space, blanks)
    requires Matches(Capability(), cap)
    ensures var line := "DEBUG CAP HWREG" + (spaces + digits + more + (name + blanks + cap));
            || FasterSearch("DEBUG CAP HWREG", NUMBERED + [Maybe(Space)] + Capability(), line)
            || FasterSearch("DEBUG CAP HWREG",
                            NUMBERED + Literal("(") + [Many(Letter)] + Literal(")") + [Maybe(Space)] + Capability(), line)
  {
    var number := spaces + digits + more;
    NumberedMatches(spaces, digits, more);
    if name == "" {
      BlanksThenCapability(NUMBERED, number, blanks, cap);
      assert number + blanks + cap == number + (name + blanks + cap);
    } else {
      var items := Literal("(") + [Many(Letter)] + Literal(")");
      NameMatches(name);
      Concatenated(NUMBERED, items, number, name);
      BlanksThenCapability(NUMBERED + items, number + name, blanks, cap);
      assert number + name + blanks + cap == number + (name + blanks + cap);
      assert NUMBERED + items == NUMBERED + Literal("(") + [Many(Letter)] + Literal(")");
    }
  }

  lemma BlanksThenCapability(items: seq<Item>, s: string, blanks: string, cap: string)
    requires Matches(items, s) && AllOf(Space, blanks) && Matches(Capability(), cap)
    ensures FasterSearch("DEBUG CAP HWREG", items + [Maybe(Space)] + Capability(), "DEBUG CAP HWREG" + (s + blanks + cap))
  {
    MaybeIsAll(Space, blanks);
    Concatenated(items, [Maybe(Space)], s, blanks);
    Concatenated(items + [Maybe(Space)], Capability(), s + blanks, cap);
    StartFound("DEBUG CAP HWREG", items + [Maybe(Space)] + Capability(), s + blanks + cap);
  }

  /** CAPMIPS_PC_RE */
  lemma CapPcParses(p: Parser, spaces: string, cap: string)
    requires Run(Space, spaces) && Matches(Capability(), cap)
    ensures ParseLine(p, "DEBUG CAP PCC" + (spaces + cap) + "\n") == Some(p.With(p.Current()))
  {
    var start := "DEBUG CAP PCC";
    var line := start + (spaces + cap);
    ManyIsRun(Space, spaces);
    Concatenated([Many(Space)], Capability(), spaces, cap);
    StartFound(start, [Many(Space)] + Capability(), spaces + cap);
    CapabilityEnds(cap);
    LineEnds(start, spaces, cap);
    StillDiffers(start, spaces + cap, "DEBUG CAP COREID", 10);
    StillDiffers(start, spaces + cap, "DEBUG CAP REG", 10);
    StillDiffers(start, spaces + cap, "DEBUG CAP HWREG", 10);
    CapLine(p, line);
  }
}
