// The numeric keys of sort -n (text.go:202-277): what a line's leading number
// denotes, the string comparison that orders lines by it, and the sort.
module Decimals {
  import opened Options
  import opened Text

  predicate AllDigits(d: string) {
    forall i | 0 <= i < |d| :: Digit(d[i])
  }

  function DigitValue(c: char): (v: nat)
    ensures v <= 9
  {
    if Digit(c) then c as int - '0' as int else 0
  }

  function Pow10(n: nat): (p: nat)
    ensures p >= 1
  {
    if n == 0 then 1 else 10 * Pow10(n - 1)
  }

  // The number a digit string denotes, before and after the point.
  function IntValue(d: string): nat {
    if d == [] then 0 else DigitValue(d[0]) * Pow10(|d| - 1) + IntValue(d[1..])
  }

  function FracValue(d: string): real {
    if d == [] then 0.0 else (DigitValue(d[0]) as real + FracValue(d[1..])) / 10.0
  }

  // --- the numeric prefix -------------------------------------------------

  predicate Blank(c: char) {
    c == ' ' || c == '\t'
  }

  function Blanks(s: string): (n: nat)
    ensures n <= |s|
  {
    if s == [] || !Blank(s[0]) then 0 else 1 + Blanks(s[1..])
  }

  function Digits(s: string): (n: nat)
    ensures n <= |s|
  {
    if s == [] || !Digit(s[0]) then 0 else 1 + Digits(s[1..])
  }

  lemma {:induction false} BlanksIs(s: string, n: nat)
    requires n <= |s| && (n < |s| ==> !Blank(s[n])) && forall i | 0 <= i < n :: Blank(s[i])
    ensures Blanks(s) == n
  {
    if n > 0 { BlanksIs(s[1..], n - 1); }
  }

  lemma {:induction false} DigitsIs(s: string, n: nat)
    requires n <= |s| && (n < |s| ==> !Digit(s[n])) && forall i | 0 <= i < n :: Digit(s[i])
    ensures Digits(s) == n
  {
    if n > 0 { DigitsIs(s[1..], n - 1); }
  }

  lemma {:induction false} DigitsAre(s: string)
    ensures AllDigits(s[..Digits(s)])
    ensures Digits(s) < |s| ==> !Digit(s[Digits(s)])
  {
    if s != [] && Digit(s[0]) {
      DigitsAre(s[1..]);
      var n := Digits(s[1..]);
      assert forall i | 0 <= i < n :: s[1..][..n][i] == s[i + 1];
    }
  }

  // The number a line starts with, cut at its sign and its point.
  datatype Prefix = Prefix(neg: bool, intp: string, frac: string)

  function LeadingDigits(s: string): string {
    s[..Digits(s)]
  }

  function FractionPart(t: string): string {
    var n := Digits(t);
    if n < |t| && t[n] == '.' then LeadingDigits(t[n + 1..]) else []
  }

  // A line from its sign on, and past it.
  predicate Negative(s: string) {
    Blanks(s) < |s| && s[Blanks(s)] == '-'
  }

  function Unsigned(s: string): string {
    s[Blanks(s) + if Negative(s) then 1 else 0..]
  }

  function PrefixOf(s: string): Prefix {
    Prefix(Negative(s), LeadingDigits(Unsigned(s)), FractionPart(Unsigned(s)))
  }

  lemma PrefixDigits(s: string)
    ensures AllDigits(PrefixOf(s).intp) && AllDigits(PrefixOf(s).frac)
  {
    hide Unsigned;
    var t := Unsigned(s);
    DigitsAre(t);
    if Digits(t) < |t| { DigitsAre(t[Digits(t) + 1..]); }
  }

  function Magnitude(p: Prefix): real {
    IntValue(p.intp) as real + FracValue(p.frac)
  }

  // The rational a line's leading number denotes; 0 if it has none.
  function Value(s: string): real {
    var p := PrefixOf(s);
    if p.neg then -Magnitude(p) else Magnitude(p)
  }

  // --- the key ------------------------------------------------------------

  function TrimLeft(d: string): string {
    if d == [] || d[0] != '0' then d else TrimLeft(d[1..])
  }

  function TrimRight(d: string): string {
    if d == [] || d[|d| - 1] != '0' then d else TrimRight(d[..|d| - 1])
  }

  lemma {:induction false} TrimLeftDigits(d: string)
    requires AllDigits(d)
    ensures AllDigits(TrimLeft(d)) && (TrimLeft(d) != [] ==> TrimLeft(d)[0] != '0')
  {
    if d != [] && d[0] == '0' { TrimLeftDigits(d[1..]); }
  }

  lemma {:induction false} TrimRightDigits(d: string)
    requires AllDigits(d)
    ensures var r := TrimRight(d); AllDigits(r) && (r != [] ==> r[|r| - 1] != '0')
  {
    if d != [] && d[|d| - 1] == '0' { TrimRightDigits(d[..|d| - 1]); }
  }

  lemma {:induction false} IntTrim(d: string)
    ensures IntValue(TrimLeft(d)) == IntValue(d)
  {
    hide Pow10;
    if d != [] && d[0] == '0' {
      IntTrim(d[1..]);
      assert IntValue(d) == 0 * Pow10(|d| - 1) + IntValue(d[1..]);
    }
  }

  lemma {:induction false} FracSnoc(d: string)
    requires d != [] && d[|d| - 1] == '0'
    ensures FracValue(d[..|d| - 1]) == FracValue(d)
  {
    if |d| == 1 {
      assert FracValue(d) == (0.0 + FracValue([])) / 10.0;
    } else {
      FracSnoc(d[1..]);
      assert d[..|d| - 1][1..] == d[1..][..|d| - 2];
    }
  }

  lemma {:induction false} FracTrim(d: string)
    ensures FracValue(TrimRight(d)) == FracValue(d)
  {
    if d != [] && d[|d| - 1] == '0' {
      FracSnoc(d);
      FracTrim(d[..|d| - 1]);
    }
  }

  // The number of a line, with the zeros that do not matter dropped.
  function Key(s: string): Prefix {
    var p := PrefixOf(s);
    var intp, frac := TrimLeft(p.intp), TrimRight(p.frac);
    Prefix(p.neg && !(intp == [] && frac == []), intp, frac)
  }

  method ScanDigits(s: string, st: nat) returns (i: nat)
    requires st <= |s|
    ensures i == st + Digits(s[st..]) && i <= |s|
  {
    i := st;
    while i < |s| && '0' <= s[i] <= '9'
      invariant st <= i <= |s| && forall j | st <= j < i :: Digit(s[j])
    {
      i := i + 1;
    }
    DigitsIs(s[st..], i - st);
  }

  method NumKey(s: string) returns (neg: bool, intp: string, frac: string)
    ensures Prefix(neg, intp, frac) == Key(s)
  {
    hide TrimLeft;
    hide TrimRight;
    hide Digits;
    hide Blanks;
    hide LeadingDigits;
    var i := 0;
    while i < |s| && (s[i] == ' ' || s[i] == '\t')
      invariant i <= |s| && forall j | 0 <= j < i :: Blank(s[j])
    {
      i := i + 1;
    }
    BlanksIs(s, i);
    neg, frac := false, "";
    if i < |s| && s[i] == '-' {
      neg := true;
      i := i + 1;
    }
    var st := i;
    ghost var t := s[st..];
    assert neg == Negative(s) && t == Unsigned(s);
    i := ScanDigits(s, st);
    DigitsScanned(s, st, i);
    intp := TrimLeft(s[st..i]);
    if i < |s| && s[i] == '.' {
      var fst := i + 1;
      i := ScanDigits(s, fst);
      DigitsScanned(s, fst, i);
      frac := TrimRight(s[fst..i]);
      assert t[fst - st..] == s[fst..];
    } else {
      NothingToTrim();
    }
    assert frac == TrimRight(FractionPart(t));
    if intp == "" && frac == "" {
      neg := false;
    }
  }

  lemma DigitsScanned(s: string, st: nat, i: nat)
    requires st <= i <= |s| && i == st + Digits(s[st..])
    ensures LeadingDigits(s[st..]) == s[st..i]
  {
    assert s[st..][..i - st] == s[st..i];
  }

  lemma NothingToTrim()
    ensures TrimRight("") == ""
  {
  }

  // --- the comparison -----------------------------------------------------

  // strings.Compare: bytes in order, a prefix before what extends it.
  function Lex(a: string, b: string): int {
    if a == b then 0
    else if a == [] then -1
    else if b == [] then 1
    else if a[0] == b[0] then Lex(a[1..], b[1..])
    else if a[0] < b[0] then -1 else 1
  }

  lemma {:induction false} IntBound(d: string)
    requires AllDigits(d)
    ensures IntValue(d) < Pow10(|d|)
    ensures d != [] && d[0] != '0' ==> IntValue(d) >= Pow10(|d| - 1)
  {
    if d != [] {
      hide Pow10;
      IntBound(d[1..]);
      var x, p := DigitValue(d[0]), Pow10(|d| - 1);
      Pow10Step(|d| - 1);
      Scale(x, 10, p);
      if d[0] != '0' { Scale(0, x, p); }
    }
  }

  lemma Pow10Step(n: nat)
    ensures Pow10(n + 1) == 10 * Pow10(n) && Pow10(0) == 1
  {
  }

  // A smaller leading digit leaves room for the rest.
  lemma Scale(x: nat, y: nat, p: nat)
    requires x < y
    ensures x * p + p <= y * p
  {
    var k: nat := y - x - 1;
    NotNegative(k, p);
    assert y == x + 1 + k;
    assert y * p == x * p + p + k * p;
  }

  lemma NotNegative(x: nat, y: nat)
    ensures x * y >= 0
  {
  }

  lemma {:induction false} Pow10Grows(m: nat, n: nat)
    requires m <= n
    ensures Pow10(m) <= Pow10(n)
  {
    if m < n {
      Pow10Grows(m, n - 1);
    }
  }

  // Without leading zeros the longer number is the larger.
  lemma LongerIsLarger(a: string, b: string)
    requires AllDigits(a) && AllDigits(b) && |a| < |b| && b[0] != '0'
    ensures IntValue(a) < IntValue(b)
  {
    IntBound(a);
    IntBound(b);
    Pow10Grows(|a|, |b| - 1);
  }

  // At equal length the bytes decide.
  lemma {:induction false} SameLength(a: string, b: string)
    requires AllDigits(a) && AllDigits(b) && |a| == |b|
    ensures Lex(a, b) < 0 <==> IntValue(a) < IntValue(b)
    ensures Lex(a, b) == 0 <==> IntValue(a) == IntValue(b)
  {
    if a != [] {
      if a[0] == b[0] {
        SameLength(a[1..], b[1..]);
        assert a == [a[0]] + a[1..] && b == [b[0]] + b[1..];
      } else {
        IntBound(a[1..]);
        IntBound(b[1..]);
        var p, x, y := Pow10(|a| - 1), DigitValue(a[0]), DigitValue(b[0]);
        if x < y { Scale(x, y, p); } else { Scale(y, x, p); }
      }
    }
  }

  lemma {:induction false} FracBound(d: string)
    requires AllDigits(d)
    ensures 0.0 <= FracValue(d) < 1.0
    ensures d != [] && d[|d| - 1] != '0' ==> FracValue(d) > 0.0
  {
    if d != [] {
      FracBound(d[1..]);
      if |d| > 1 { assert d[1..][|d| - 2] == d[|d| - 1]; }
    }
  }

  // Without trailing zeros the bytes decide.
  lemma {:induction false} FracOrder(a: string, b: string)
    requires AllDigits(a) && AllDigits(b)
    requires (a != [] ==> a[|a| - 1] != '0') && (b != [] ==> b[|b| - 1] != '0')
    ensures Lex(a, b) < 0 <==> FracValue(a) < FracValue(b)
    ensures Lex(a, b) == 0 <==> FracValue(a) == FracValue(b)
  {
    FracBound(a);
    FracBound(b);
    if a != [] && b != [] {
      FracBound(a[1..]);
      FracBound(b[1..]);
      if a[0] == b[0] {
        if |a| > 1 { assert a[1..][|a| - 2] == a[|a| - 1]; }
        if |b| > 1 { assert b[1..][|b| - 2] == b[|b| - 1]; }
        FracOrder(a[1..], b[1..]);
        assert a == [a[0]] + a[1..] && b == [b[0]] + b[1..];
      }
    }
  }

  // Trimmed keys compared as numCompare compares them.
  function CompareMagnitudes(ai: string, af: string, bi: string, bf: string): int {
    if |ai| != |bi| then |ai| - |bi|
    else if ai != bi then Lex(ai, bi)
    else Lex(af, bf)
  }

  lemma MagnitudeOrder(a: Prefix, b: Prefix)
    requires AllDigits(a.intp) && AllDigits(a.frac) && AllDigits(b.intp) && AllDigits(b.frac)
    requires (a.intp != [] ==> a.intp[0] != '0') && (b.intp != [] ==> b.intp[0] != '0')
    requires (a.frac != [] ==> a.frac[|a.frac| - 1] != '0') && (b.frac != [] ==> b.frac[|b.frac| - 1] != '0')
    ensures var c := CompareMagnitudes(a.intp, a.frac, b.intp, b.frac);
      (c < 0 <==> Magnitude(a) < Magnitude(b)) && (c == 0 <==> Magnitude(a) == Magnitude(b))
  {
    FracBound(a.frac);
    FracBound(b.frac);
    if |a.intp| < |b.intp| {
      LongerIsLarger(a.intp, b.intp);
    } else if |a.intp| > |b.intp| {
      LongerIsLarger(b.intp, a.intp);
    } else {
      SameLength(a.intp, b.intp);
      FracOrder(a.frac, b.frac);
      LexEqual(a.intp, b.intp);
    }
  }

  lemma {:induction false} LexEqual(a: string, b: string)
    ensures Lex(a, b) == 0 <==> a == b
    ensures Lex(a, b) == -Lex(b, a)
  {
    if a != [] && b != [] && a[0] == b[0] {
      LexEqual(a[1..], b[1..]);
      assert a == [a[0]] + a[1..] && b == [b[0]] + b[1..];
    }
  }

  // The key denotes the line's number.
  lemma KeyValue(s: string)
    ensures var k := Key(s);
      && Value(s) == (if k.neg then -Magnitude(k) else Magnitude(k))
      && Magnitude(k) >= 0.0 && (k.neg ==> Magnitude(k) > 0.0)
      && AllDigits(k.intp) && AllDigits(k.frac)
      && (k.intp != [] ==> k.intp[0] != '0') && (k.frac != [] ==> k.frac[|k.frac| - 1] != '0')
  {
    hide PrefixOf;
    hide TrimLeft;
    hide TrimRight;
    hide IntValue;
    hide FracValue;
    var p, k := PrefixOf(s), Key(s);
    PrefixDigits(s);
    TrimLeftDigits(p.intp);
    TrimRightDigits(p.frac);
    IntTrim(p.intp);
    FracTrim(p.frac);
    FracBound(k.frac);
    IntBound(k.intp);
    ZeroMagnitude();
  }

  lemma ZeroMagnitude()
    ensures IntValue("") == 0 && FracValue("") == 0.0
  {
  }

  // numCompare has the sign of the difference of the numbers the two lines
  // begin with, whatever their signs, zeros and fractions.
  method NumCompare(a: string, b: string) returns (c: int)
    ensures c < 0 <==> Value(a) < Value(b)
    ensures c == 0 <==> Value(a) == Value(b)
  {
    hide Value;
    hide Key;
    hide Magnitude;
    var an, ai, af := NumKey(a);
    var bn, bi, bf := NumKey(b);
    KeyValue(a);
    KeyValue(b);
    MagnitudeOrder(Key(a), Key(b));
    if an != bn {
      if an {
        return -1;
      }
      return 1;
    }
    if |ai| != |bi| {
      c := |ai| - |bi|;
    } else if ai != bi {
      c := Lex(ai, bi);
    } else {
      c := Lex(af, bf);
    }
    if an {
      c := -c;
    }
  }

  // --- printing -----------------------------------------------------------

  // strconv.Itoa and the %d verb.
  function Dec(n: nat): (d: string)
    ensures |d| > 0
  {
    if n < 10 then [DigitChar(n)] else Dec(n / 10) + [DigitChar(n % 10)]
  }

  function DigitChar(n: nat): (c: char)
    requires n < 10
    ensures Digit(c) && DigitValue(c) == n
  {
    ('0' as int + n) as char
  }

  lemma {:induction false} IntValueSnoc(d: string, c: char)
    ensures IntValue(d + [c]) == 10 * IntValue(d) + DigitValue(c)
  {
    if d == [] {
      assert IntValue([c]) == DigitValue(c) * Pow10(0) + IntValue([c][1..]);
    } else {
      IntValueSnoc(d[1..], c);
      assert (d + [c])[1..] == d[1..] + [c];
      Times10(DigitValue(d[0]), Pow10(|d| - 1));
    }
  }

  lemma Times10(x: nat, p: nat)
    ensures x * (10 * p) == 10 * (x * p)
  {
  }

  lemma {:induction false} DecValue(n: nat)
    ensures AllDigits(Dec(n)) && IntValue(Dec(n)) == n
  {
    if n < 10 {
      assert IntValue(Dec(n)) == DigitValue(DigitChar(n)) * Pow10(0) + IntValue(Dec(n)[1..]);
    } else {
      DecValue(n / 10);
      IntValueSnoc(Dec(n / 10), DigitChar(n % 10));
    }
  }

  // --- reading integers ---------------------------------------------------

  // strconv.ParseInt(s, 10, 64) and strconv.Atoi: a sign, digits, 64 bits.
  function ParseInt(s: string): Option<int> {
    var neg := s != "" && s[0] == '-';
    var d := if s != "" && (s[0] == '-' || s[0] == '+') then s[1..] else s;
    if d == "" || !AllDigits(d) then None else
    var n: int := IntValue(d);
    if neg then if n > 0x8000_0000_0000_0000 then None else Some(-n)
    else if n > 0x7fff_ffff_ffff_ffff then None else Some(n)
  }
}
