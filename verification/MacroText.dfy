// The words of a #define body (para_test.go:199, 213-221) and the integers
// among them (para_test.go:289), with a printer for each.
module MacroText {
  import opened Options
  import opened Text

  const WORD: nat := 0x1_0000_0000_0000_0000

  // A 64-bit unsigned value.
  type Word64 = v: nat | v < WORD

  predicate HexDigit(c: char) { Digit(c) || 'a' <= c <= 'f' || 'A' <= c <= 'F' }

  predicate NameStart(c: char) { 'a' <= c <= 'z' || 'A' <= c <= 'Z' || c == '_' }

  predicate WordChar(c: char) { NameStart(c) || Digit(c) }

  // \s of the token pattern.
  predicate Space(c: char) { c == ' ' || c == '\t' || c == '\n' || c == '\r' || c == '\U{0C}' }

  // What strings.TrimSpace removes: a vertical tab too.
  predicate Trimmed(c: char) { Space(c) || c == '\U{0B}' }

  predicate Blank(s: string) {
    forall c <- s :: Trimmed(c)
  }

  // The length of the token at the front, 0 for none. The alternatives of the
  // pattern are tried in this order.
  function TokenLength(s: string): (n: nat)
    ensures n <= |s|
  {
    if |s| >= 3 && s[0] == '0' && (s[1] == 'x' || s[1] == 'X') && HexDigit(s[2]) then 2 + Run(s[2..], HexDigit)
    else if |s| > 0 && Digit(s[0]) then Run(s, Digit)
    else if |s| > 0 && NameStart(s[0]) then Run(s, WordChar)
    else if |s| > 0 && s[0] in "()+-" then 1
    else if |s| >= 2 && s[..2] == "<<" then 2
    else 0
  }

  // The tokens of a body; None when some of it is no token.
  function Tokens(s: string): Option<seq<string>>
    decreases |s|
  {
    if Blank(s) then Some([]) else
    var t := s[Run(s, Space)..];
    var n := TokenLength(t);
    if n == 0 then None else
    match Tokens(t[n..])
    case None => None
    case Some(ts) => Some([t[..n]] + ts)
  }

  // --- writing tokens with blanks between them ----------------------------

  predicate AllIn(s: string, cls: char -> bool) {
    forall c <- s :: cls(c)
  }

  predicate HexNumber(t: string) {
    |t| >= 3 && t[0] == '0' && (t[1] == 'x' || t[1] == 'X') && AllIn(t[2..], HexDigit)
  }

  predicate Number(t: string) {
    HexNumber(t) || (t != "" && AllIn(t, Digit))
  }

  predicate Name(t: string) {
    t != "" && NameStart(t[0]) && AllIn(t, WordChar)
  }

  predicate Mark(t: string) {
    t == "(" || t == ")" || t == "+" || t == "-" || t == "<<"
  }

  predicate Token(t: string) {
    Number(t) || Name(t) || Mark(t)
  }

  // Whether the second may follow the first with nothing between them.
  predicate Joinable(a: string, b: string) {
    Mark(a) || Mark(b)
  }

  lemma TokenAtFront(t: string, rest: string)
    requires Token(t) && (Mark(t) || rest == "" || !WordChar(rest[0]))
    ensures TokenLength(t + rest) == |t|
  {
    var s := t + rest;
    if Mark(t) {
    } else if HexNumber(t) {
      assert rest == "" || !HexDigit(rest[0]);
      assert s[2] == t[2] && t[2..][0] == t[2];
      assert s[2..] == t[2..] + rest;
      RunStops(t[2..], rest, HexDigit);
    } else if Number(t) {
      RunStops(t, rest, Digit);
    } else if Name(t) {
      RunStops(t, rest, WordChar);
    }
  }

  // Tokens with a gap before each and one behind the last.
  function Spread(ts: seq<string>, gaps: seq<string>): string
    requires |gaps| == |ts| + 1
  {
    gaps[0] + if ts == [] then "" else ts[0] + Spread(ts[1..], gaps[1..])
  }

  predicate Gaps(ts: seq<string>, gaps: seq<string>) {
    && |gaps| == |ts| + 1
    && (forall g <- gaps :: AllIn(g, Space))
    && (forall i | 0 < i < |ts| :: gaps[i] != "" || Joinable(ts[i - 1], ts[i]))
  }

  // One step of the tokenizer over a gap and a token.
  lemma TokenStep(gap: string, t: string, rest: string)
    requires AllIn(gap, Space) && Token(t) && (Mark(t) || rest == "" || !WordChar(rest[0]))
    ensures var s := gap + (t + rest);
      Tokens(s) == match Tokens(rest) case None => None case Some(ts) => Some([t] + ts)
  {
    hide TokenLength;
    var s := gap + (t + rest);
    TokenAtFront(t, rest);
    assert (t + rest)[0] == t[0] && !Trimmed(t[0]) by {
      assert t[0] in t;
    }
    RunStops(gap, t + rest, Space);
    assert s[|gap|] == t[0] && s[|gap|] in s;
    assert s[|gap|..] == t + rest;
    assert (t + rest)[|t|..] == rest && (t + rest)[..|t|] == t;
  }

  // Tokens read back the tokens, however they are spread, as long as no two
  // words touch.
  lemma {:induction false} SpreadReads(ts: seq<string>, gaps: seq<string>)
    requires Gaps(ts, gaps) && forall t <- ts :: Token(t)
    ensures Tokens(Spread(ts, gaps)) == Some(ts)
  {
    hide Tokens;
    hide Token;
    assert AllIn(gaps[0], Space);
    if ts == [] {
      OnlyBlanks(gaps[0]);
      assert gaps[0] + "" == gaps[0];
    } else {
      assert Gaps(ts[1..], gaps[1..]) by {
        forall i | 0 < i < |ts[1..]| ensures gaps[1..][i] != "" || Joinable(ts[1..][i - 1], ts[1..][i]) {
          assert gaps[i + 1] != "" || Joinable(ts[i], ts[i + 1]);
        }
      }
      SpreadReads(ts[1..], gaps[1..]);
      NextIsApart(ts, gaps);
      TokenStep(gaps[0], ts[0], Spread(ts[1..], gaps[1..]));
      assert ts == [ts[0]] + ts[1..];
    }
  }

  lemma OnlyBlanks(gap: string)
    requires AllIn(gap, Space)
    ensures Tokens(gap) == Some([])
  {
  }

  lemma NextIsApart(ts: seq<string>, gaps: seq<string>)
    requires Gaps(ts, gaps) && ts != [] && forall t <- ts :: Token(t)
    ensures var rest := Spread(ts[1..], gaps[1..]);
      Mark(ts[0]) || rest == "" || !WordChar(rest[0])
  {
    assert AllIn(gaps[1], Space);
    var rest := Spread(ts[1..], gaps[1..]);
    var later := if ts[1..] == [] then "" else ts[1..][0] + Spread(ts[1..][1..], gaps[1..][1..]);
    assert rest == gaps[1] + later;
    if gaps[1] != "" {
      assert rest[0] == gaps[1][0] && gaps[1][0] in gaps[1];
    } else if |ts| > 1 {
      assert Token(ts[1]) && rest[0] == ts[1][0];
      assert gaps[1] != "" || Joinable(ts[0], ts[1]);
    }
  }

  // --- integers -----------------------------------------------------------

  function DigitValue(c: char): nat
    requires HexDigit(c)
  {
    if Digit(c) then c as int - '0' as int
    else if 'a' <= c <= 'f' then c as int - 'a' as int + 10
    else c as int - 'A' as int + 10
  }

  predicate InBase(s: string, b: nat) {
    forall c <- s :: HexDigit(c) && DigitValue(c) < b
  }

  function BaseValue(s: string, b: nat): nat
    requires InBase(s, b)
  {
    if s == "" then 0 else b * BaseValue(s[..|s| - 1], b) + DigitValue(s[|s| - 1])
  }

  function InRange(s: string, b: nat): Option<Word64> {
    if InBase(s, b) && BaseValue(s, b) < WORD then Some(BaseValue(s, b)) else None
  }

  // strconv.ParseUint(t, 0, 64) of a token that starts with a digit: the
  // prefixes 0b and 0o and the underscores it also knows are in no token.
  function ParseUint(t: string): Option<Word64>
    requires t != ""
  {
    if |t| >= 3 && t[0] == '0' && (t[1] == 'x' || t[1] == 'X') then InRange(t[2..], 16)
    else if t[0] == '0' then InRange(t[1..], 8)
    else InRange(t, 10)
  }

  datatype Form = Decimal | Octal | Hex

  function Base(f: Form): (b: nat)
    ensures b == 8 || b == 10 || b == 16
  {
    match f
    case Decimal => 10
    case Octal => 8
    case Hex => 16
  }

  function DigitOf(v: nat): (c: char)
    requires v < 16
    ensures HexDigit(c) && DigitValue(c) == v && (v < 10 ==> Digit(c)) && (v > 0 ==> c != '0')
  {
    if v < 10 then ('0' as int + v) as char else ('a' as int + v - 10) as char
  }

  function DigitsOf(v: nat, f: Form): string {
    if v < Base(f) then [DigitOf(v)] else DigitsOf(v / Base(f), f) + [DigitOf(v % Base(f))]
  }

  // A number as C writes it.
  function NumberText(v: nat, f: Form): string {
    match f
    case Decimal => DigitsOf(v, f)
    case Octal => "0" + DigitsOf(v, f)
    case Hex => "0x" + DigitsOf(v, f)
  }

  lemma {:induction false} DigitsValue(v: nat, f: Form)
    ensures DigitsOf(v, f) != "" && InBase(DigitsOf(v, f), Base(f)) && BaseValue(DigitsOf(v, f), Base(f)) == v
    ensures v > 0 ==> DigitsOf(v, f)[0] != '0'
  {
    var s := DigitsOf(v, f);
    if v < Base(f) {
      assert s[..0] == "";
    } else {
      DigitsValue(v / Base(f), f);
      assert s[..|s| - 1] == DigitsOf(v / Base(f), f);
    }
  }

  // A number in any of the three notations is one token, and is read as
  // itself if it fits 64 bits and refused if not.
  lemma NumberReads(v: nat, f: Form)
    ensures Number(NumberText(v, f)) && Digit(NumberText(v, f)[0])
    ensures ParseUint(NumberText(v, f)) == if v < WORD then Some(v) else None
  {
    var s, t := DigitsOf(v, f), NumberText(v, f);
    hide DigitsOf;
    hide BaseValue;
    DigitsValue(v, f);
    assert s[0] in s;
    match f {
      case Decimal =>
        if v == 0 {
          ZeroText();
        }
        assert AllIn(t, Digit) && ParseUint(t) == if v == 0 then Some(0) else InRange(t, 10);
      case Octal =>
        assert t[1..] == s && t[1] == s[0];
        assert AllIn(t, Digit) && ParseUint(t) == InRange(s, 8);
      case Hex =>
        assert t[2..] == s && t[0] == '0' && t[1] == 'x';
        assert AllIn(s, HexDigit) && ParseUint(t) == InRange(s, 16);
    }
  }

  lemma ZeroText()
    ensures DigitsOf(0, Decimal) == "0" && ParseUint("0") == Some(0)
  {
    assert "0"[1..] == "";
  }
}
