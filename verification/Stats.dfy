// The statistics over repeated runs (report.go:31-133, compare.go:75-124) on exact reals, and what the verdicts
// REGRESSION and disjoint say about the samples themselves.
module Stats {
  import H = Histograms
  import opened Decimals
  import opened Options

  // --- sorting ------------------------------------------------------------

  predicate Ascending(s: seq<real>) {
    forall i, j | 0 <= i <= j < |s| :: s[i] <= s[j]
  }

  function InsertReal(x: real, s: seq<real>): (r: seq<real>)
    ensures |r| == |s| + 1
  {
    if s == [] || x <= s[0] then [x] + s else [s[0]] + InsertReal(x, s[1..])
  }

  // sort.Float64s, without NaN.
  function SortReals(v: seq<real>): (s: seq<real>)
    ensures |s| == |v|
  {
    if v == [] then [] else InsertReal(v[0], SortReals(v[1..]))
  }

  lemma {:induction false} InsertedMembers(x: real, s: seq<real>)
    ensures multiset(InsertReal(x, s)) == multiset{x} + multiset(s)
  {
    if s != [] && x > s[0] {
      InsertedMembers(x, s[1..]);
      assert s == [s[0]] + s[1..];
    }
  }

  // Nothing below lo comes in by inserting something that is not.
  lemma {:induction false} InsertedBound(x: real, s: seq<real>, lo: real)
    requires lo <= x && forall i | 0 <= i < |s| :: lo <= s[i]
    ensures forall i | 0 <= i < |InsertReal(x, s)| :: lo <= InsertReal(x, s)[i]
  {
    if s != [] && x > s[0] {
      InsertedBound(x, s[1..], lo);
    }
  }

  lemma {:induction false} Inserted(x: real, s: seq<real>)
    requires Ascending(s)
    ensures Ascending(InsertReal(x, s))
  {
    if s != [] && x > s[0] {
      Inserted(x, s[1..]);
      InsertedBound(x, s[1..], s[0]);
    }
  }

  lemma {:induction false} Sorted(v: seq<real>)
    ensures Ascending(SortReals(v)) && multiset(SortReals(v)) == multiset(v)
  {
    if v != [] {
      Sorted(v[1..]);
      Inserted(v[0], SortReals(v[1..]));
      InsertedMembers(v[0], SortReals(v[1..]));
      assert v == [v[0]] + v[1..];
    }
  }

  lemma {:induction false} AscendingUnique(s: seq<real>, t: seq<real>)
    requires Ascending(s) && Ascending(t) && multiset(s) == multiset(t)
    ensures s == t
  {
    SameSize(s, t);
    if s != [] {
      Smallest(s, t);
      Smallest(t, s);
      RestOf(s);
      RestOf(t);
      AscendingUnique(s[1..], t[1..]);
      assert s == [s[0]] + s[1..] && t == [t[0]] + t[1..];
    }
  }

  lemma RestOf(s: seq<real>)
    requires s != []
    ensures multiset(s[1..]) == multiset(s) - multiset{s[0]}
  {
    assert s == [s[0]] + s[1..];
  }

  lemma Smallest(s: seq<real>, t: seq<real>)
    requires Ascending(s) && s != [] && t != [] && multiset(s) == multiset(t)
    ensures s[0] <= t[0]
  {
    assert t[0] in multiset(s);
    var i :| 0 <= i < |s| && s[i] == t[0];
  }

  lemma SameSize(s: seq<real>, t: seq<real>)
    requires multiset(s) == multiset(t)
    ensures |s| == |t|
  {
    assert |multiset(s)| == |s| && |multiset(t)| == |t|;
  }

  // --- median and range ---------------------------------------------------

  // The middle of an ascending list.
  function Middle(s: seq<real>): real
    requires s != []
  {
    if |s| % 2 == 1 then s[|s| / 2] else (s[|s| / 2 - 1] + s[|s| / 2]) / 2.0
  }

  // None stands for NaN.
  function Median(v: seq<real>): (m: Option<real>)
    ensures m.Some? <==> v != []
  {
    if v == [] then None else Some(Middle(SortReals(v)))
  }

  // The order of the runs does not matter.
  lemma MedianUnordered(v: seq<real>, w: seq<real>)
    requires multiset(v) == multiset(w)
    ensures Median(v) == Median(w)
  {
    Sorted(v);
    Sorted(w);
    AscendingUnique(SortReals(v), SortReals(w));
  }

  // How many of some samples satisfy a bound.
  function CountAbove(v: seq<real>, x: real): nat {
    if v == [] then 0 else (if v[0] > x then 1 else 0) + CountAbove(v[1..], x)
  }

  function CountBelow(v: seq<real>, x: real): nat {
    if v == [] then 0 else (if v[0] < x then 1 else 0) + CountBelow(v[1..], x)
  }

  lemma {:induction false} CountsInserted(y: real, s: seq<real>, x: real)
    ensures CountAbove(InsertReal(y, s), x) == (if y > x then 1 else 0) + CountAbove(s, x)
    ensures CountBelow(InsertReal(y, s), x) == (if y < x then 1 else 0) + CountBelow(s, x)
  {
    var r := InsertReal(y, s);
    if s == [] || y <= s[0] {
      assert r[1..] == s;
    } else {
      CountsInserted(y, s[1..], x);
      assert r[1..] == InsertReal(y, s[1..]);
    }
  }

  lemma {:induction false} CountsSorted(v: seq<real>, x: real)
    ensures CountAbove(SortReals(v), x) == CountAbove(v, x) && CountBelow(SortReals(v), x) == CountBelow(v, x)
  {
    if v != [] {
      CountsSorted(v[1..], x);
      CountsInserted(v[0], SortReals(v[1..]), x);
    }
  }

  lemma {:induction false} CountsAppend(a: seq<real>, b: seq<real>, x: real)
    ensures CountAbove(a + b, x) == CountAbove(a, x) + CountAbove(b, x)
    ensures CountBelow(a + b, x) == CountBelow(a, x) + CountBelow(b, x)
  {
    if a == [] {
      assert a + b == b;
    } else {
      CountsAppend(a[1..], b, x);
      assert (a + b)[1..] == a[1..] + b;
    }
  }

  lemma {:induction false} AllAbove(s: seq<real>, x: real)
    requires forall i | 0 <= i < |s| :: s[i] > x
    ensures CountAbove(s, x) == |s|
  {
    if s != [] {
      AllAbove(s[1..], x);
    }
  }

  lemma {:induction false} AllBelow(s: seq<real>, x: real)
    requires forall i | 0 <= i < |s| :: s[i] < x
    ensures CountBelow(s, x) == |s|
  {
    if s != [] {
      AllBelow(s[1..], x);
    }
  }

  lemma CountsFrom(s: seq<real>, h: nat, x: real)
    requires h <= |s|
    ensures (forall i | h <= i < |s| :: s[i] > x) ==> CountAbove(s, x) >= |s| - h
    ensures (forall i | 0 <= i < h :: s[i] < x) ==> CountBelow(s, x) >= h
  {
    assert s[..h] + s[h..] == s;
    CountsAppend(s[..h], s[h..], x);
    if forall i | h <= i < |s| :: s[i] > x {
      AllAbove(s[h..], x);
    }
    if forall i | 0 <= i < h :: s[i] < x {
      AllBelow(s[..h], x);
    }
  }

  // A median above a bound has half the samples, rounded up, above it; and the
  // same below.
  lemma MedianSplits(v: seq<real>, x: real)
    requires v != []
    ensures Median(v).value > x ==> 2 * CountAbove(v, x) >= |v|
    ensures Median(v).value < x ==> 2 * CountBelow(v, x) >= |v|
  {
    hide SortReals;
    hide CountAbove;
    hide CountBelow;
    var s := SortReals(v);
    Sorted(v);
    CountsSorted(v, x);
    CountsFrom(s, |s| / 2, x);
    CountsFrom(s, |s| - |s| / 2, x);
  }

  // The smallest and the largest; None stands for the infinities of no
  // samples.
  ghost predicate IsRange(r: Option<(real, real)>, v: seq<real>) {
    (r.Some? <==> v != [])
    && (r.Some? ==> r.value.0 in v && r.value.1 in v && forall y <- v :: r.value.0 <= y <= r.value.1)
  }

  method MinMax(v: seq<real>) returns (r: Option<(real, real)>)
    ensures IsRange(r, v)
  {
    r := None;
    for i := 0 to |v|
      invariant IsRange(r, v[..i])
    {
      var x := v[i];
      assert v[..i + 1] == v[..i] + [x];
      match r {
        case None => r := Some((x, x));
        case Some((lo, hi)) => r := Some((if x < lo then x else lo, if x > hi then x else hi));
      }
    }
    assert v[..|v|] == v;
  }

  lemma MedianInRange(v: seq<real>, lo: real, hi: real)
    requires IsRange(Some((lo, hi)), v)
    ensures lo <= Median(v).value <= hi
  {
    Sorted(v);
    var s := SortReals(v);
    forall i | 0 <= i < |s| ensures lo <= s[i] <= hi {
      assert s[i] in multiset(s);
      assert s[i] in v;
    }
  }

  // --- A/B ----------------------------------------------------------------

  predicate Disjoint(a: (real, real), b: (real, real)) {
    a.1 < b.0 || b.1 < a.0
  }

  // Disjoint ranges order the medians, and every sample of one side with them.
  lemma DisjointOrders(a: seq<real>, b: seq<real>, ra: (real, real), rb: (real, real))
    requires IsRange(Some(ra), a) && IsRange(Some(rb), b)
    ensures Disjoint(ra, rb) <==> (forall x <- a, y <- b :: x < y) || (forall x <- a, y <- b :: x > y)
    ensures (forall x <- a, y <- b :: x < y) ==> Median(a).value < Median(b).value
    ensures (forall x <- a, y <- b :: x > y) ==> Median(a).value > Median(b).value
  {
    MedianInRange(a, ra.0, ra.1);
    MedianInRange(b, rb.0, rb.1);
    assert ra.0 in a && ra.1 in a && rb.0 in b && rb.1 in b;
  }

  // --- the matrix ---------------------------------------------------------

  datatype Key = Key(metric: string, vendor: string, cpus: int)

  datatype Sample = Sample(key: Key, unit: string, value: real)

  datatype Row = Row(median: real, min: real, max: real, n: nat, unit: string)

  function Values(samples: seq<Sample>, k: Key): seq<real> {
    if samples == [] then []
    else
      var s := samples[|samples| - 1];
      Values(samples[..|samples| - 1], k) + if s.key == k then [s.value] else []
  }

  function UnitOf(samples: seq<Sample>, k: Key): string {
    if samples == [] then ""
    else if samples[|samples| - 1].key == k then samples[|samples| - 1].unit
    else UnitOf(samples[..|samples| - 1], k)
  }

  // A row says of the samples of its key what it should.
  ghost predicate IsRow(row: Row, v: seq<real>, unit: string) {
    v != [] && Median(v) == Some(row.median) && IsRange(Some((row.min, row.max)), v) && row.n == |v| && row.unit == unit
  }

  ghost predicate IsMatrix(m: map<Key, Row>, samples: seq<Sample>) {
    forall k :: (k in m <==> Values(samples, k) != [])
      && (k in m ==> IsRow(m[k], Values(samples, k), UnitOf(samples, k)))
  }

  // The table's order: by metric, then vCPUs, then vendor.
  predicate KeyLess(a: Key, b: Key) {
    if a.metric != b.metric then Lex(a.metric, b.metric) < 0
    else if a.cpus != b.cpus then a.cpus < b.cpus
    else Lex(a.vendor, b.vendor) < 0
  }

  lemma LexTotal(a: string, b: string, c: string)
    ensures a != b ==> Lex(a, b) < 0 || Lex(b, a) < 0
    ensures !(Lex(a, a) < 0) && !(Lex(a, b) < 0 && Lex(b, a) < 0)
    ensures Lex(a, b) < 0 && Lex(b, c) < 0 ==> Lex(a, c) < 0 && a != c
  {
    LexEqual(a, a);
    LexEqual(a, b);
    LexEqual(b, c);
    LexEqual(a, c);
    if Lex(a, b) < 0 && Lex(b, c) < 0 { H.LexTransitive(c, b, a); }
  }

  lemma KeyLessIsTotal(a: Key, b: Key, c: Key)
    ensures !KeyLess(a, a) && (a != b ==> KeyLess(a, b) || KeyLess(b, a))
    ensures KeyLess(a, b) && KeyLess(b, c) ==> KeyLess(a, c)
  {
    LexTotal(a.metric, b.metric, c.metric);
    LexTotal(a.vendor, b.vendor, c.vendor);
    LexTotal(a.vendor, a.vendor, a.vendor);
  }

  predicate InTableOrder(ks: seq<Key>) {
    forall i, j | 0 <= i < j < |ks| :: KeyLess(ks[i], ks[j])
  }

  // sort.Slice
  function SortKeys(ks: seq<Key>): seq<Key> {
    if ks == [] then [] else InsertKey(ks[0], SortKeys(ks[1..]))
  }

  function InsertKey(k: Key, ks: seq<Key>): seq<Key> {
    if ks == [] || KeyLess(k, ks[0]) then [k] + ks else [ks[0]] + InsertKey(k, ks[1..])
  }

  lemma {:induction false} KeyInserted(k: Key, ks: seq<Key>)
    requires InTableOrder(ks) && k !in ks
    ensures InTableOrder(InsertKey(k, ks)) && forall j :: j in InsertKey(k, ks) <==> j == k || j in ks
  {
    hide KeyLess;
    if ks != [] {
      KeyLessIsTotal(k, ks[0], ks[0]);
      if KeyLess(k, ks[0]) {
        forall j | 0 <= j < |ks| ensures KeyLess(k, ks[j]) {
          KeyLessIsTotal(k, ks[0], ks[j]);
        }
      } else {
        KeyInserted(k, ks[1..]);
        assert forall j :: j in ks <==> j == ks[0] || j in ks[1..];
        var r := InsertKey(k, ks[1..]);
        assert forall j | 0 <= j < |r| :: r[j] in r;
      }
    }
  }

  predicate Apart(ks: seq<Key>) {
    forall i, j | 0 <= i < j < |ks| :: ks[i] != ks[j]
  }

  lemma {:induction false} SortedKeys(ks: seq<Key>)
    requires Apart(ks)
    ensures InTableOrder(SortKeys(ks)) && forall k :: k in SortKeys(ks) <==> k in ks
  {
    if ks != [] {
      SortedKeys(ks[1..]);
      KeyInserted(ks[0], SortKeys(ks[1..]));
      assert forall k :: k in ks <==> k == ks[0] || k in ks[1..];
    }
  }

  // The table: a row for every key with samples, each once, in order.
  method WriteMatrix(samples: seq<Sample>) returns (rows: map<Key, Row>, order: seq<Key>)
    ensures IsMatrix(rows, samples)
    ensures InTableOrder(order) && forall k :: k in order <==> k in rows
  {
    hide InTableOrder;
    hide SortKeys;
    hide Median;
    var vals: map<Key, seq<real>>, units: map<Key, string> := map[], map[];
    assert samples[..0] == [];
    for i := 0 to |samples|
      invariant forall k ::
        && (k in vals <==> Values(samples[..i], k) != [])
        && (k in vals ==> vals[k] == Values(samples[..i], k))
      invariant forall k :: k in vals <==> k in units
      invariant forall k :: k in units ==> units[k] == UnitOf(samples[..i], k)
    {
      var s := samples[i];
      assert samples[..i + 1][..i] == samples[..i] && samples[..i + 1][i] == s;
      vals := vals[s.key := (if s.key in vals then vals[s.key] else []) + [s.value]];
      units := units[s.key := s.unit];
    }
    assert samples[..|samples|] == samples;
    order := TableKeys(vals);
    rows := map[];
    for i := 0 to |order|
      invariant forall k :: k in rows <==> k in order[..i]
      invariant forall k :: k in rows ==> k in vals && IsRow(rows[k], vals[k], units[k])
    {
      var k := order[i];
      assert order[..i + 1] == order[..i] + [k];
      assert k in order;
      var range := MinMax(vals[k]);
      assert range == Some((range.value.0, range.value.1));
      rows := rows[k := Row(Median(vals[k]).value, range.value.0, range.value.1, |vals[k]|, units[k])];
    }
    assert order[..|order|] == order;
  }

  method TableKeys(vals: map<Key, seq<real>>) returns (order: seq<Key>)
    ensures InTableOrder(order) && forall k :: k in order <==> k in vals
  {
    hide InTableOrder;
    order := [];
    var left := vals.Keys;
    while left != {}
      invariant left <= vals.Keys && Apart(order)
      invariant forall k :: k in order <==> k in vals && k !in left
      decreases left
    {
      var k :| k in left;
      left := left - {k};
      order := order + [k];
    }
    SortedKeys(order);
    order := SortKeys(order);
  }

  // --- the regression rule ------------------------------------------------

  predicate Timing(unit: string) {
    unit == "ns" || unit == "us" || unit == "s"
  }

  predicate Regression(p: Row, b: Row, threshold: real) {
    b.median > 0.0 && (p.median - b.median) / b.median * 100.0 > threshold && p.median > b.max
  }

  ghost predicate Regressed(now: map<Key, Row>, was: map<Key, Row>, threshold: real, k: Key) {
    k in now && k.vendor == "pvm" && Timing(now[k].unit) && k in was && Regression(now[k], was[k], threshold)
  }

  method CompareMatrix(now: map<Key, Row>, was: map<Key, Row>, threshold: real) returns (regressed: bool)
    ensures regressed <==> exists k :: Regressed(now, was, threshold, k)
  {
    regressed := false;
    var left := now.Keys;
    while left != {}
      invariant left <= now.Keys
      invariant regressed <==> exists k :: k !in left && Regressed(now, was, threshold, k)
      decreases |left|
    {
      var k :| k in left;
      var next := left - {k};
      if k.vendor == "pvm" && Timing(now[k].unit) {
        if k in was && was[k].median > 0.0 {
          var d := (now[k].median - was[k].median) / was[k].median * 100.0;
          if d > threshold && now[k].median > was[k].max {
            assert Regressed(now, was, threshold, k);
            regressed := true;
          }
        }
      }
      assert forall j :: j !in next && Regressed(now, was, threshold, j) ==>
        (j !in left && Regressed(now, was, threshold, j)) || j == k;
      left := next;
    }
  }

  // A regression means that half of the new samples, rounded up, exceed every
  // sample of the baseline, however the runs were ordered.
  lemma RegressionMeans(v: seq<real>, w: seq<real>, p: Row, b: Row, threshold: real)
    requires v != [] && Median(v) == Some(p.median) && IsRange(Some((b.min, b.max)), w) && Regression(p, b, threshold)
    ensures 2 * CountAbove(v, b.max) >= |v|
    ensures b.max in w && forall y <- w :: y <= b.max
  {
    MedianSplits(v, b.max);
  }

  // It never comes of runs that one of the baseline's reaches or exceeds.
  lemma NoRegressionInside(v: seq<real>, w: seq<real>, p: Row, b: Row, threshold: real, y: real)
    requires IsRange(Some((p.min, p.max)), v) && Median(v) == Some(p.median) && IsRange(Some((b.min, b.max)), w)
    requires y in w && forall x <- v :: x <= y
    ensures !Regression(p, b, threshold)
  {
    hide Median;
    MedianInRange(v, p.min, p.max);
    assert p.max in v;
    assert p.median <= p.max <= y <= b.max;
  }

  // The matrix's verdict on a key is one on the samples of that key.
  lemma MatrixRegression(before: seq<Sample>, after: seq<Sample>, was: map<Key, Row>, now: map<Key, Row>,
      threshold: real, k: Key)
    requires IsMatrix(was, before) && IsMatrix(now, after) && Regressed(now, was, threshold, k)
    ensures 2 * CountAbove(Values(after, k), was[k].max) >= |Values(after, k)| > 0
    ensures was[k].max in Values(before, k) && forall y <- Values(before, k) :: y <= was[k].max
  {
    RegressionMeans(Values(after, k), Values(before, k), now[k], was[k], threshold);
  }
}
