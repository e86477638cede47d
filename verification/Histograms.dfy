// sort -rn and the agent's histograms (text.go:202-222, trace.go:64-147,
// 222-256): counting lines by a key in a map, listing the map in whatever
// order it comes, and sorting the rows.
module Histograms {
  import opened Options
  import opened Text
  import opened Lines
  import opened Decimals

  // --- the order ----------------------------------------------------------

  // a goes before b: by the leading number, then by the bytes, both reversed.
  ghost predicate Before(a: string, b: string) {
    Value(a) > Value(b) || (Value(a) == Value(b) && Lex(a, b) > 0)
  }

  lemma {:induction false} LexTransitive(a: string, b: string, c: string)
    requires Lex(a, b) >= 0 && Lex(b, c) >= 0
    ensures Lex(a, c) >= 0
  {
    if a != [] && b != [] && c != [] && a[0] == b[0] == c[0] {
      LexEqual(a[1..], b[1..]);
      LexEqual(b[1..], c[1..]);
      LexEqual(a[1..], c[1..]);
      assert a == [a[0]] + a[1..] && b == [b[0]] + b[1..] && c == [c[0]] + c[1..];
      LexTransitive(a[1..], b[1..], c[1..]);
    }
  }

  // The comparator is a strict total order on lines.
  lemma BeforeIsTotal(a: string, b: string, c: string)
    ensures !Before(a, a)
    ensures a != b ==> Before(a, b) || Before(b, a)
    ensures !(Before(a, b) && Before(b, a))
    ensures Before(a, b) && Before(b, c) ==> Before(a, c)
  {
    hide Value;
    LexEqual(a, a);
    LexEqual(a, b);
    LexEqual(b, c);
    LexEqual(a, c);
    if Lex(a, b) >= 0 && Lex(b, c) >= 0 { LexTransitive(a, b, c); }
    if Lex(a, b) > 0 && Lex(b, c) > 0 && Lex(a, c) == 0 { LexEqual(c, b); }
  }

  ghost predicate Ordered(s: seq<string>) {
    forall i, j | 0 <= i < j < |s| :: !Before(s[j], s[i])
  }

  // Whatever order the lines come in, sorting gives one result.
  lemma {:induction false} OrderedUnique(s: seq<string>, t: seq<string>)
    requires Ordered(s) && Ordered(t) && multiset(s) == multiset(t)
    ensures s == t
  {
    hide Before;
    hide Ordered;
    assert |s| == |multiset(s)| == |multiset(t)| == |t|;
    if s != [] {
      SameFirst(s, t);
      assert s == [s[0]] + s[1..] && t == [t[0]] + t[1..];
      assert multiset(s[1..]) == multiset(s) - multiset{s[0]};
      assert multiset(t[1..]) == multiset(t) - multiset{t[0]};
      OrderedRest(s);
      OrderedRest(t);
      OrderedUnique(s[1..], t[1..]);
    }
  }

  lemma OrderedRest(s: seq<string>)
    requires Ordered(s) && s != []
    ensures Ordered(s[1..])
  {
    hide Before;
  }

  lemma SameFirst(s: seq<string>, t: seq<string>)
    requires Ordered(s) && Ordered(t) && multiset(s) == multiset(t) && s != [] && t != []
    ensures s[0] == t[0]
  {
    hide Before;
    assert s[0] in multiset(s) && t[0] in multiset(t);
    assert s[0] in t && t[0] in s;
    var j :| 0 <= j < |t| && t[j] == s[0];
    var i :| 0 <= i < |s| && s[i] == t[0];
    BeforeIsTotal(s[0], t[0], s[0]);
    assert j == 0 || !Before(t[j], t[0]);
    assert i == 0 || !Before(s[i], s[0]);
  }

  method Less(a: string, b: string) returns (r: bool)
    ensures r == Before(a, b)
  {
    var c := NumCompare(a, b);
    if c == 0 {
      c := Lex(a, b);
    }
    return c > 0;
  }

  // sortRN: the lines of the slice, in order.
  method SortRN(lines: array<string>)
    modifies lines
    ensures Ordered(lines[..]) && multiset(lines[..]) == multiset(old(lines[..]))
  {
    hide Before;
    var s := lines[..];
    var out: seq<string> := [];
    for i := 0 to |s|
      invariant Ordered(out) && multiset(out) == multiset(s[..i])
    {
      out := InsertLine(out, s[i]);
      assert s[..i + 1] == s[..i] + [s[i]];
    }
    assert s[..|s|] == s;
    assert |out| == |multiset(out)| == |s|;
    forall i | 0 <= i < lines.Length {
      lines[i] := out[i];
    }
    assert lines[..] == out;
  }

  method InsertLine(s: seq<string>, x: string) returns (r: seq<string>)
    requires Ordered(s)
    ensures Ordered(r) && multiset(r) == multiset(s) + multiset{x}
  {
    hide Before;
    var j := 0;
    var less := false;
    while j < |s| && !less
      invariant j <= |s| && forall i | 0 <= i < j :: !Before(x, s[i])
      invariant less ==> j < |s| && Before(x, s[j])
      decreases |s| - j, !less
    {
      less := Less(x, s[j]);
      if !less { j := j + 1; }
    }
    r := s[..j] + [x] + s[j..];
    assert s == s[..j] + s[j..];
    Inserted(s, x, j, r);
  }

  lemma Inserted(s: seq<string>, x: string, j: nat, r: seq<string>)
    requires Ordered(s) && j <= |s| && r == s[..j] + [x] + s[j..]
    requires (forall i | 0 <= i < j :: !Before(x, s[i])) && (j < |s| ==> Before(x, s[j]))
    ensures Ordered(r)
  {
    hide Before;
    forall a, b | 0 <= a < b < |r| ensures !Before(r[b], r[a]) {
      if a == j {
        BeforeIsTotal(x, s[j], s[b - 1]);
        BeforeIsTotal(s[b - 1], x, s[j]);
        if b - 1 > j { assert !Before(s[b - 1], s[j]); }
      } else if b == j {
      } else {
        var a', b' := if a < j then a else a - 1, if b < j then b else b - 1;
        assert !Before(s[b'], s[a']);
      }
    }
  }

  // --- counting -----------------------------------------------------------

  // The lines a key is found in, and those with a given key.
  function Matching(lines: seq<string>, key: string -> Option<string>): nat {
    if lines == [] then 0 else
    Matching(lines[..|lines| - 1], key) + if key(lines[|lines| - 1]).Some? then 1 else 0
  }

  function CountOf(lines: seq<string>, key: string -> Option<string>, k: string): nat {
    if lines == [] then 0 else
    CountOf(lines[..|lines| - 1], key, k) + if key(lines[|lines| - 1]) == Some(k) then 1 else 0
  }

  // The count map says of every key how many lines have it.
  ghost predicate Counts(n: map<string, nat>, lines: seq<string>, key: string -> Option<string>) {
    forall k: string :: if k in n then n[k] == CountOf(lines, key, k) > 0 else CountOf(lines, key, k) == 0
  }

  lemma CountStep(n: map<string, nat>, lines: seq<string>, x: string, key: string -> Option<string>)
    requires Counts(n, lines, key)
    ensures Counts(Counted(n, key(x)), lines + [x], key)
  {
    assert (lines + [x])[..|lines|] == lines;
  }

  // n[key]++, when there is a key.
  function Counted(n: map<string, nat>, k: Option<string>): map<string, nat> {
    match k
    case None => n
    case Some(k) => n[k := (if k in n then n[k] else 0) + 1]
  }

  // The counting half of every histogram: eachLine with n[key]++.
  method CountKeys(r: BufReader, key: string -> Option<string>) returns (n: map<string, nat>)
    requires r.Valid() && r.pos == 0
    modifies r
    ensures Counts(n, SplitLines(r.data), key)
  {
    hide Counts;
    hide LinesOf;
    var lines, _ := EachLine(r, -1);
    ghost var texts := Texts(lines);
    n := map[];
    NothingCounted(key);
    for i := 0 to |lines|
      invariant Counts(n, texts[..i], key)
    {
      CountStep(n, texts[..i], texts[i], key);
      assert texts[..i + 1] == texts[..i] + [texts[i]] && texts[i] == lines[i].text;
      match key(lines[i].text) {
        case Some(k) => n := n[k := (if k in n then n[k] else 0) + 1];
        case None =>
      }
    }
    assert texts[..|lines|] == texts;
  }

  lemma NothingCounted(key: string -> Option<string>)
    ensures Counts(map[], [], key)
  {
  }

  // The counts of any list of the map's keys, each once, add up to the
  // matching lines.
  function SumOf(n: map<string, nat>, ks: seq<string>): nat {
    if ks == [] then 0 else SumOf(n, ks[..|ks| - 1]) + if ks[|ks| - 1] in n then n[ks[|ks| - 1]] else 0
  }

  predicate Distinct(ks: seq<string>) {
    forall i, j | 0 <= i < j < |ks| :: ks[i] != ks[j]
  }

  ghost predicate Lists(ks: seq<string>, n: map<string, nat>) {
    Distinct(ks) && forall k: string :: k in ks <==> k in n
  }

  function SumOfCounts(lines: seq<string>, key: string -> Option<string>, ks: seq<string>): nat {
    if ks == [] then 0 else SumOfCounts(lines, key, ks[..|ks| - 1]) + CountOf(lines, key, ks[|ks| - 1])
  }

  // One more line adds one to the sum exactly if its key is listed.
  lemma {:induction false} OneMoreLine(lines: seq<string>, key: string -> Option<string>, ks: seq<string>)
    requires lines != [] && Distinct(ks)
    ensures var k := key(lines[|lines| - 1]);
      SumOfCounts(lines, key, ks) == SumOfCounts(lines[..|lines| - 1], key, ks)
        + if k.Some? && k.value in ks then 1 else 0
  {
    if ks != [] {
      OneMoreLine(lines, key, ks[..|ks| - 1]);
      var k := key(lines[|lines| - 1]);
      assert ks == ks[..|ks| - 1] + [ks[|ks| - 1]];
    }
  }

  lemma {:induction false} NoLinesNoCounts(key: string -> Option<string>, ks: seq<string>)
    ensures SumOfCounts([], key, ks) == 0
  {
    if ks != [] {
      NoLinesNoCounts(key, ks[..|ks| - 1]);
    }
  }

  lemma {:induction false} CountsAddUp(lines: seq<string>, key: string -> Option<string>, ks: seq<string>)
    requires Distinct(ks)
    requires forall l <- lines :: key(l).Some? ==> key(l).value in ks
    ensures SumOfCounts(lines, key, ks) == Matching(lines, key)
  {
    if lines == [] {
      NoLinesNoCounts(key, ks);
    } else {
      OneMoreLine(lines, key, ks);
      CountsAddUp(lines[..|lines| - 1], key, ks);
    }
  }

  lemma {:induction false} KeyIsCounted(lines: seq<string>, key: string -> Option<string>, l: string)
    requires l in lines && key(l).Some?
    ensures CountOf(lines, key, key(l).value) > 0
  {
    if l != lines[|lines| - 1] {
      assert lines == lines[..|lines| - 1] + [lines[|lines| - 1]];
      KeyIsCounted(lines[..|lines| - 1], key, l);
    }
  }

  lemma {:induction false} SumsAgree(n: map<string, nat>, lines: seq<string>, key: string -> Option<string>,
      ks: seq<string>)
    requires Counts(n, lines, key)
    ensures SumOf(n, ks) == SumOfCounts(lines, key, ks)
  {
    if ks != [] {
      SumsAgree(n, lines, key, ks[..|ks| - 1]);
    }
  }

  // Before it is cut, a histogram accounts for every matching line.
  lemma HistogramAddsUp(n: map<string, nat>, lines: seq<string>, key: string -> Option<string>, ks: seq<string>)
    requires Counts(n, lines, key) && Lists(ks, n)
    ensures SumOf(n, ks) == Matching(lines, key)
  {
    SumsAgree(n, lines, key, ks);
    forall l | l in lines && key(l).Some? ensures key(l).value in ks {
      KeyIsCounted(lines, key, l);
    }
    CountsAddUp(lines, key, ks);
  }

  // --- rows ---------------------------------------------------------------

  function Spaces(n: nat): string {
    seq(n, _ => ' ')
  }

  // %8d and %7d: padded with spaces on the left.
  function Padded(n: nat, width: nat): string {
    var d := Dec(n);
    if |d| < width then Spaces(width - |d|) + d else d
  }

  // A row: the count, a gap that starts with a space, the key.
  datatype Format = Format(width: nat, gap: string)

  predicate RowFormat(f: Format) {
    f.gap != [] && f.gap[0] == ' '
  }

  function Row(f: Format, v: nat, k: string): string {
    Padded(v, f.width) + f.gap + k
  }

  lemma NumberAtHead(b: nat, d: string, tail: string)
    requires AllDigits(d) && d != [] && tail != [] && tail[0] == ' '
    ensures Value(Spaces(b) + (d + tail)) == IntValue(d) as real
  {
    hide IntValue;
    hide FracValue;
    hide Blanks;
    hide Digits;
    var rest := d + tail;
    var row := Spaces(b) + rest;
    assert Digit(d[0]) && row[b] == d[0];
    BlanksIs(row, b);
    DigitsIs(rest, |d|);
    assert row[b..] == rest && rest[..|d|] == d && rest[|d|] == ' ';
    assert PrefixOf(row) == Prefix(false, d, "");
    ZeroMagnitude();
  }

  // sort -n reads a row's count off its head.
  lemma RowValue(f: Format, v: nat, k: string)
    requires RowFormat(f)
    ensures Value(Row(f, v, k)) == v as real
  {
    var row, d := Row(f, v, k), Dec(v);
    var b := if |d| < f.width then f.width - |d| else 0;
    DecValue(v);
    var rest := d + (f.gap + k);
    assert row == Spaces(b) + rest;
    NumberAtHead(b, d, f.gap + k);
  }

  lemma {:induction false} LexPrefix(p: string, a: string, b: string)
    ensures Lex(p + a, p + b) == Lex(a, b)
  {
    if p == [] {
      assert p + a == a && p + b == b;
    } else {
      LexPrefix(p[1..], a, b);
      assert (p + a)[1..] == p[1..] + a && (p + b)[1..] == p[1..] + b;
      LexEqual(a, b);
      LexEqual(p[1..] + a, p[1..] + b);
      assert p + a == [p[0]] + (p[1..] + a) && p + b == [p[0]] + (p[1..] + b);
    }
  }

  // Rows are ordered by count, and within a count by their keys' bytes, both
  // descending.
  lemma RowOrder(f: Format, v: nat, k: string, w: nat, l: string)
    requires RowFormat(f)
    ensures Before(Row(f, v, k), Row(f, w, l)) <==> v > w || (v == w && Lex(k, l) > 0)
  {
    hide Value;
    hide Padded;
    RowValue(f, v, k);
    RowValue(f, w, l);
    if v == w {
      LexPrefix(Padded(v, f.width) + f.gap, k, l);
    }
  }

  function Rows(f: Format, n: map<string, nat>, ks: seq<string>): seq<string> {
    seq(|ks|, i requires 0 <= i < |ks| => Row(f, if ks[i] in n then n[ks[i]] else 0, ks[i]))
  }

  // What sorting the rows of a count map gives, whatever order they come in.
  ghost predicate IsHistogram(full: seq<string>, f: Format, n: map<string, nat>) {
    Ordered(full) && exists ks :: Lists(ks, n) && multiset(full) == multiset(Rows(f, n, ks))
  }

  lemma RowsSplit(f: Format, n: map<string, nat>, a: seq<string>, b: seq<string>)
    ensures Rows(f, n, a + b) == Rows(f, n, a) + Rows(f, n, b)
  {
  }

  // Rows of the same keys are the same rows.
  lemma {:induction false} RowsPermuted(f: Format, n: map<string, nat>, ks: seq<string>, ls: seq<string>)
    requires multiset(ks) == multiset(ls)
    ensures multiset(Rows(f, n, ks)) == multiset(Rows(f, n, ls))
    decreases |ks|
  {
    hide Rows;
    assert |ks| == |multiset(ks)| == |ls|;
    if ks != [] {
      var k := ks[0];
      assert k in multiset(ks) && k in ls;
      var j :| 0 <= j < |ls| && ls[j] == k;
      RowsTakeOut(f, n, ks, 0);
      RowsTakeOut(f, n, ls, j);
      assert multiset(Without(ks, 0)) == multiset(ks) - multiset{k};
      assert multiset(Without(ls, j)) == multiset(ls) - multiset{k};
      RowsPermuted(f, n, Without(ks, 0), Without(ls, j));
    }
  }

  function Without(ks: seq<string>, j: nat): (r: seq<string>)
    requires j < |ks|
    ensures |r| == |ks| - 1
  {
    ks[..j] + ks[j + 1..]
  }

  lemma TakeOut(ks: seq<string>, j: nat)
    requires j < |ks|
    ensures multiset(ks) == multiset(Without(ks, j)) + multiset{ks[j]}
    ensures forall k: string :: k in ks <==> k == ks[j] || k in Without(ks, j)
  {
    assert ks == ks[..j] + ([ks[j]] + ks[j + 1..]);
    assert multiset([ks[j]]) == multiset{ks[j]};
    forall k: string ensures k in ks <==> k == ks[j] || k in Without(ks, j) {
      assert k in ks <==> k in multiset(ks);
      assert k in Without(ks, j) <==> k in multiset(Without(ks, j));
    }
  }

  lemma StillDistinct(ks: seq<string>, j: nat)
    requires j < |ks| && Distinct(ks)
    ensures Distinct(Without(ks, j)) && ks[j] !in Without(ks, j)
  {
    var r := Without(ks, j);
    assert forall i | 0 <= i < |r| :: r[i] == ks[if i < j then i else i + 1];
  }

  lemma RowsTakeOut(f: Format, n: map<string, nat>, ks: seq<string>, j: nat)
    requires j < |ks|
    ensures multiset(ks) == multiset(Without(ks, j)) + multiset{ks[j]}
    ensures multiset(Rows(f, n, ks)) == multiset(Rows(f, n, Without(ks, j))) + multiset(Rows(f, n, [ks[j]]))
  {
    hide Rows;
    var a, k, b := ks[..j], [ks[j]], ks[j + 1..];
    TakeOut(ks, j);
    assert ks == a + (k + b);
    RowsSplit(f, n, a, k + b);
    RowsSplit(f, n, k, b);
    RowsSplit(f, n, a, b);
  }

  ghost predicate SameKeys(ks: seq<string>, ls: seq<string>) {
    forall k: string :: k in ks <==> k in ls
  }

  lemma SameRest(ks: seq<string>, ls: seq<string>, j: nat)
    requires Distinct(ks) && Distinct(ls) && SameKeys(ks, ls) && ks != [] && j < |ls| && ls[j] == ks[0]
    ensures SameKeys(Without(ks, 0), Without(ls, j))
  {
    hide Without;
    hide Distinct;
    TakeOut(ks, 0);
    TakeOut(ls, j);
    StillDistinct(ks, 0);
    StillDistinct(ls, j);
  }

  lemma NoKeys(ls: seq<string>)
    ensures SameKeys([], ls) ==> ls == []
  {
    if ls != [] { assert ls[0] in ls; }
  }

  lemma {:induction false} ListsPermuted(ks: seq<string>, ls: seq<string>)
    requires Distinct(ks)
    requires Distinct(ls)
    requires SameKeys(ks, ls)
    ensures multiset(ks) == multiset(ls)
    decreases |ks|
  {
    hide Without;
    hide Distinct;
    if ks == [] {
      NoKeys(ls);
    } else {
      var k := ks[0];
      assert k in ks && k in ls;
      var j :| 0 <= j < |ls| && ls[j] == k;
      TakeOut(ks, 0);
      TakeOut(ls, j);
      StillDistinct(ks, 0);
      StillDistinct(ls, j);
      SameRest(ks, ls, j);
      ListsPermuted(Without(ks, 0), Without(ls, j));
    }
  }

  // The histogram is one list, not depending on the map's iteration order.
  lemma HistogramUnique(full: seq<string>, full': seq<string>, f: Format, n: map<string, nat>)
    requires IsHistogram(full, f, n) && IsHistogram(full', f, n)
    ensures full == full'
  {
    hide Ordered;
    hide Rows;
    var ks :| Lists(ks, n) && multiset(full) == multiset(Rows(f, n, ks));
    var ks' :| Lists(ks', n) && multiset(full') == multiset(Rows(f, n, ks'));
    ListsPermuted(ks, ks');
    RowsPermuted(f, n, ks, ks');
    OrderedUnique(full, full');
  }

  // --- what the rows say --------------------------------------------------

  // Keys by count, then by bytes, both descending.
  ghost predicate KeysOrdered(n: map<string, nat>, ks: seq<string>) {
    forall i, j | 0 <= i < j < |ks| :: ks[i] in n && ks[j] in n &&
      (n[ks[i]] > n[ks[j]] || (n[ks[i]] == n[ks[j]] && Lex(ks[i], ks[j]) > 0))
  }

  lemma {:induction false} SortKeys(f: Format, n: map<string, nat>, ks: seq<string>) returns (sorted: seq<string>)
    ensures multiset(sorted) == multiset(ks) && Ordered(Rows(f, n, sorted))
  {
    hide Before;
    hide Row;
    hide Ordered;
    if ks == [] {
      sorted := [];
      assert Ordered(Rows(f, n, [])) by { NothingOrdered(f, n); }
    } else {
      var x := ks[|ks| - 1];
      var rest := SortKeys(f, n, ks[..|ks| - 1]);
      var row, rows := Row(f, if x in n then n[x] else 0, x), Rows(f, n, rest);
      var j := 0;
      while j < |rest| && !Before(row, rows[j])
        invariant j <= |rest| && forall i | 0 <= i < j :: !Before(row, rows[i])
      {
        j := j + 1;
      }
      sorted := rest[..j] + [x] + rest[j..];
      assert ks == ks[..|ks| - 1] + [x] && rest == rest[..j] + rest[j..];
      RowsInsert(f, n, rest, x, j);
      Inserted(rows, row, j, Rows(f, n, sorted));
    }
  }

  lemma NothingOrdered(f: Format, n: map<string, nat>)
    ensures Ordered(Rows(f, n, []))
  {
  }

  lemma RowsInsert(f: Format, n: map<string, nat>, ks: seq<string>, x: string, j: nat)
    requires j <= |ks|
    ensures Rows(f, n, ks[..j] + [x] + ks[j..]) ==
      Rows(f, n, ks)[..j] + [Row(f, if x in n then n[x] else 0, x)] + Rows(f, n, ks)[j..]
  {
    hide Row;
  }

  // A histogram is the rows of all the keys, by count and then by bytes.
  lemma HistogramRows(full: seq<string>, f: Format, n: map<string, nat>) returns (ks: seq<string>)
    requires IsHistogram(full, f, n) && RowFormat(f)
    ensures Lists(ks, n) && KeysOrdered(n, ks) && full == Rows(f, n, ks)
  {
    hide Ordered;
    hide Row;
    var ks0 :| Lists(ks0, n) && multiset(full) == multiset(Rows(f, n, ks0));
    ks := SortKeys(f, n, ks0);
    RowsPermuted(f, n, ks, ks0);
    OrderedUnique(full, Rows(f, n, ks));
    SameList(ks, ks0);
    OrderedKeys(f, n, ks);
  }

  lemma SameList(ks: seq<string>, ks0: seq<string>)
    requires multiset(ks) == multiset(ks0) && Distinct(ks0)
    ensures Distinct(ks)
    ensures forall k: string :: k in ks <==> k in ks0
  {
    forall k: string ensures k in ks <==> k in ks0 {
      assert k in ks <==> k in multiset(ks);
      assert k in ks0 <==> k in multiset(ks0);
    }
    forall i, j | 0 <= i < j < |ks| ensures ks[i] != ks[j] {
      Once(ks0, ks[i]);
      assert ks == ks[..i] + [ks[i]] + ks[i + 1..j] + [ks[j]] + ks[j + 1..];
      assert ks[i] == ks[j] ==> multiset(ks)[ks[i]] >= 2;
    }
  }

  lemma {:induction false} Once(ks: seq<string>, k: string)
    requires Distinct(ks)
    ensures multiset(ks)[k] <= 1
  {
    if ks != [] {
      Once(ks[1..], k);
      assert ks == [ks[0]] + ks[1..];
      if ks[0] == k { assert k !in ks[1..] && k !in multiset(ks[1..]); }
    }
  }

  lemma OrderedKeys(f: Format, n: map<string, nat>, ks: seq<string>)
    requires RowFormat(f) && Lists(ks, n) && Ordered(Rows(f, n, ks))
    ensures KeysOrdered(n, ks)
  {
    hide Before;
    hide Row;
    forall i, j | 0 <= i < j < |ks|
      ensures ks[i] in n && ks[j] in n && (n[ks[i]] > n[ks[j]] || (n[ks[i]] == n[ks[j]] && Lex(ks[i], ks[j]) > 0))
    {
      assert ks[i] in ks && ks[j] in ks;
      RowOrder(f, n[ks[j]], ks[j], n[ks[i]], ks[i]);
      LexEqual(ks[i], ks[j]);
      assert !Before(Rows(f, n, ks)[j], Rows(f, n, ks)[i]);
    }
  }

  // --- the report ---------------------------------------------------------

  // Any of the histograms: count, list the map as it comes, sort, cut.  What
  // comes out is the first rows of the one histogram of the stream's lines.
  method Report(r: BufReader, key: string -> Option<string>, f: Format, top: nat) returns (rows: seq<string>)
    requires r.Valid() && r.pos == 0
    modifies r
    ensures exists n, full :: Counts(n, SplitLines(r.data), key) && IsHistogram(full, f, n) && rows == Take(full, top)
  {
    hide Counts;
    hide Ordered;
    var n := CountKeys(r, key);
    var out: seq<string> := [];
    ghost var ks: seq<string> := [];
    var keys := n.Keys;
    while keys != {}
      invariant keys <= n.Keys && out == Rows(f, n, ks)
      invariant forall k: string :: k in ks <==> k in n && k !in keys
      invariant Distinct(ks)
      decreases keys
    {
      var k :| k in keys;
      keys := keys - {k};
      out := out + [Row(f, n[k], k)];
      RowsSplit(f, n, ks, [k]);
      ks := ks + [k];
    }
    assert Lists(ks, n);
    var lines := new string[|out|](i requires 0 <= i < |out| => out[i]);
    assert lines[..] == out;
    SortRN(lines);
    rows := Take(lines[..], top);
    assert IsHistogram(lines[..], f, n);
  }
}
