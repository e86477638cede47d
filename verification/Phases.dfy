// The phases between two marks of a log (parse.go:138-166, 178-207): the counters printed at the second mark less those
// printed at the first, each summed over the prints of its mark.
module Phases {
  import opened Options
  import opened ResultLog
  import opened Text
  import opened Words

  // --- what a line says of marks and counters -----------------------------

  // The parser gets as far as the marks, and the line is not L1's own.
  predicate Late(line: string) {
    !Settled(Body(line)) && !ResultLineOf(line) && FirstMatch(Body(line), MetricHere) == None
      && !HasPrefix(line, "L1: ")
  }

  function PhaseName(title: string): string {
    TrimSuffix(TrimSuffix(title, "/before"), "/after")
  }

  // An even mark and the name of what it opens.
  function MarkBy(line: string): Option<(int, string)> {
    if !Late(line) then None else
    match FirstMatch<(string, string)>(Body(line), MarkHere)
    case None => None
    case Some((v, title)) => if Atoi(v) % 2 == 0 then Some((Atoi(v), PhaseName(title))) else None
  }

  function CountersOf(vm: bool, words: seq<string>): seq<(string, int)> {
    if words == [] then [] else
    match Counter(vm, words[0])
    case None => CountersOf(vm, words[1..])
    case Some(c) => [c] + CountersOf(vm, words[1..])
  }

  // A mark and the counters a line prints for it.
  function StatsBy(line: string): Option<(int, seq<(string, int)>)> {
    if !Late(line) || FirstMatch<(string, string)>(Body(line), MarkHere).Some? then None else
    match FirstMatch<(bool, string, string)>(Body(line), StatsHere)
    case None => None
    case Some((vm, v, rest)) => Some((Atoi(v), CountersOf(vm, Fields(rest))))
  }

  function Sum(cs: seq<(string, int)>, k: string): int {
    if cs == [] then 0 else (if cs[0].0 == k then cs[0].1 else 0) + Sum(cs[1..], k)
  }

  function Keys(cs: seq<(string, int)>): seq<string> {
    seq(|cs|, i requires 0 <= i < |cs| => cs[i].0)
  }

  // What a line adds to a mark's counter.
  function Adds(line: string, mark: int, k: string): int {
    match StatsBy(line)
    case None => 0
    case Some((m, cs)) => if m == mark then Sum(cs, k) else 0
  }

  function Total(lines: seq<string>, mark: int, k: string): int {
    if lines == [] then 0 else Adds(CutReturns(lines[0]), mark, k) + Total(lines[1..], mark, k)
  }

  predicate Prints(line: string, mark: int) {
    StatsBy(line).Some? && StatsBy(line).value.0 == mark
  }

  predicate AnyPrints(lines: seq<string>, mark: int) {
    lines != [] && (Prints(CutReturns(lines[0]), mark) || AnyPrints(lines[1..], mark))
  }

  // The name the last mark line of a number gave it.
  function Title(lines: seq<string>, v: int): Option<string> {
    if lines == [] then None else
    match Title(lines[1..], v)
    case Some(t) => Some(t)
    case None =>
      match MarkBy(CutReturns(lines[0]))
      case None => None
      case Some((w, t)) => if v == w then Some(t) else None
  }

  // --- one line -----------------------------------------------------------

  // Int64 is the remainder modulo 2^64 that lies between -2^63 and 2^63.
  lemma Wrapped(n: int) returns (q: int)
    ensures Int64(n) == n - q * 0x1_0000_0000_0000_0000 && -0x8000_0000_0000_0000 <= Int64(n) < 0x8000_0000_0000_0000
  {
    q := (n + 0x8000_0000_0000_0000) / 0x1_0000_0000_0000_0000;
  }

  lemma Wraps(a: int, b: int)
    ensures Int64(Int64(a) + b) == Int64(a + b) && Int64(Int64(a)) == Int64(a)
  {
    hide Int64;
    var p := Wrapped(a);
    var q := Wrapped(a + b);
    var r := Wrapped(Int64(a) + b);
    var s := Wrapped(Int64(a));
  }

  // A difference of wrapped numbers is the wrapped difference.
  lemma WrappedLess(a: int, b: int, x: int, y: int)
    requires Int64(a) == Int64(x) && Int64(b) == Int64(y)
    ensures Int64(a - b) == Int64(x - y)
  {
    Wraps(a, -b);
    Wraps(x, -b);
    Wraps(b, x - b - y);
    Wraps(y, x - b - y);
    assert Int64(a - b) == Int64(x - b);
    assert Int64(x - y) == Int64(b + (x - b - y));
    assert Int64(x - b) == Int64(y + (x - b - y));
  }

  // The counters after some words: the values, the marks and the keys.
  lemma {:induction false} CountersAdd(o: Outcome, mark: int, vm: bool, words: seq<string>, m: int, k: string)
    requires mark in o.stats
    ensures var p := AddCounters(o, mark, vm, words);
      && Int64(Recorded(p, m, k)) == Int64(Recorded(o, m, k) + if m == mark then Sum(CountersOf(vm, words), k) else 0)
      && p.statsKeys == AddNames(o.statsKeys, Keys(CountersOf(vm, words)))
      && p.stats.Keys == o.stats.Keys && p.marks == o.marks
    decreases words
  {
    hide Counter;
    hide AddNames;
    hide Int64;
    if words == [] {
      NoNames(o.statsKeys);
    } else {
      var c := Counter(vm, words[0]);
      var next := AddCounter(o, mark, c);
      CountersAdd(next, mark, vm, words[1..], m, k);
      if c.Some? {
        var (key, n) := c.value;
        var cs := CountersOf(vm, words[1..]);
        assert Keys([c.value] + cs) == [key] + Keys(cs);
        AddNamesAppend(o.statsKeys, [key], Keys(cs));
        CounterAdds(o, mark, key, n, m, k);
        Wraps(Recorded(o, m, k) + (if m == mark && key == k then n else 0), 0);
        Wraps(Recorded(next, m, k), if m == mark then Sum(cs, k) else 0);
        Wraps(Recorded(o, m, k) + (if m == mark && key == k then n else 0), if m == mark then Sum(cs, k) else 0);
      }
    }
  }

  lemma NoNames(f: seq<string>)
    ensures AddNames(f, []) == f && Keys([]) == []
  {
  }

  lemma CounterAdds(o: Outcome, mark: int, key: string, n: int, m: int, k: string)
    requires mark in o.stats
    ensures var p := AddCounter(o, mark, Some((key, n)));
      && Int64(Recorded(p, m, k)) == Int64(Recorded(o, m, k) + if m == mark && key == k then n else 0)
      && p.stats.Keys == o.stats.Keys && p.marks == o.marks && p.statsKeys == AddNames(o.statsKeys, [key])
  {
    hide AddNames;
    hide Int64;
    Wraps(Recorded(o, m, k) + n, 0);
  }

  // What a line does to marks and counters.
  ghost predicate Says(o: Outcome, line: string, next: Outcome, m: int, k: string) {
    && next.marks == (match MarkBy(line) case None => o.marks case Some((v, t)) => o.marks[v := t])
    && (m in next.stats <==> m in o.stats || Prints(line, m))
    && Int64(Recorded(next, m, k)) == Int64(Recorded(o, m, k) + Adds(line, m, k))
    && next.statsKeys == AddNames(o.statsKeys, match StatsBy(line) case None => [] case Some((_, cs)) => Keys(cs))
  }

  // Two outcomes that agree on marks and counters.
  ghost predicate SameMarks(o: Outcome, p: Outcome) {
    o.marks == p.marks && o.stats == p.stats && o.statsKeys == p.statsKeys
  }

  lemma SaysTheSame(o: Outcome, o': Outcome, line: string, next: Outcome, next': Outcome, m: int, k: string)
    requires SameMarks(o, o') && SameMarks(next, next') && Says(o', line, next', m, k)
    ensures Says(o, line, next, m, k)
  {
    hide MarkBy;
    hide StatsBy;
    hide Adds;
    hide Int64;
  }

  lemma LateSays(o: Outcome, line: string, m: int, k: string)
    requires !Settled(Body(line)) && !ResultLineOf(line) && FirstMatch(Body(line), MetricHere) == None
    ensures Says(o, line, LateLine(o, line), m, k)
  {
    hide FirstMatch;
    hide Fields;
    hide Body;
    hide Complains;
    hide AddCounters;
    hide AddNames;
    hide Counter;
    hide Int64;
    hide TrimSuffix;
    hide Settled;
    hide ResultLineOf;
    NoNames(o.statsKeys);
    if !HasPrefix(line, "L1: ") && FirstMatch<(string, string)>(Body(line), MarkHere) == None {
      match FirstMatch<(bool, string, string)>(Body(line), StatsHere)
      case None =>
      case Some((vm, v, rest)) =>
        var mark := Atoi(v);
        var p := o.(stats := o.stats[mark := StatsOf(o, mark)]);
        CountersAdd(p, mark, vm, Fields(rest), m, k);
        assert Recorded(p, m, k) == Recorded(o, m, k);
    }
  }

  lemma StaysSaid(o: Outcome, line: string, m: int, k: string)
    requires !Late(line)
    ensures Says(o, line, o, m, k)
  {
    hide Late;
    hide Int64;
    NoNames(o.statsKeys);
  }

  lemma OtherSays(o: Outcome, line: string, m: int, k: string)
    requires !Settled(Body(line)) && !ResultLineOf(line) && FirstMatch(Body(line), MetricHere) == None
    ensures OtherLine(o, line).Some? ==> Says(o, line, OtherLine(o, line).value, m, k)
  {
    hide LateLine;
    hide LoadLine;
    hide Fields;
    hide HasPrefix;
    hide Settled;
    hide ResultLineOf;
    hide FirstMatch;
    hide Body;
    hide Says;
    if OtherLine(o, line).Some? {
      var closed := if HasPrefix(line, FAILCLOSED) then o.(failClosed := Fields(line)[1]) else o;
      var p := if LoadLine(line) then closed.(loadFailed := true) else closed;
      LateSays(p, line, m, k);
      SaysTheSame(o, p, line, LateLine(p, line), LateLine(p, line), m, k);
    }
  }

  lemma StepSays(o: Outcome, line: string, isFloat: string -> bool, m: int, k: string)
    ensures Step(o, line, isFloat).Some? ==> Says(o, line, Step(o, line, isFloat).value, m, k)
  {
    hide OtherLine;
    hide AddHost;
    hide FirstMatch;
    hide Fields;
    hide Body;
    hide Tap;
    hide AddNames;
    hide Says;
    hide HasPrefix;
    if Step(o, line, isFloat).Some? {
      var next := Step(o, line, isFloat).value;
      var p := AddHost(o, FirstMatch(Body(line), HostHere));
      HostKeeps(o, FirstMatch(Body(line), HostHere));
      if Late(line) || (!Settled(Body(line)) && !ResultLineOf(line) && FirstMatch(Body(line), MetricHere) == None) {
        OtherSays(p, line, m, k);
        SaysTheSame(o, p, line, next, next, m, k);
      } else {
        StaysSaid(o, line, m, k);
        SaysTheSame(next, o, line, next, o, m, k);
        SaysTheSame(o, next, line, next, next, m, k);
      }
    }
  }

  // --- a whole log --------------------------------------------------------

  function AllKeys(lines: seq<string>): seq<string> {
    if lines == [] then [] else
    (match StatsBy(CutReturns(lines[0])) case None => [] case Some((_, cs)) => Keys(cs)) + AllKeys(lines[1..])
  }

  // After any lines, a counter is its total modulo 2^64, a mark's counters are
  // there if a line printed them, a mark's name is the last one given, and the
  // keys are listed in the order they came up.
  lemma {:induction false} FoldSays(o: Outcome, lines: seq<string>, isFloat: string -> bool, m: int, k: string)
    requires Fold(o, lines, isFloat).Some?
    ensures var out := Fold(o, lines, isFloat).value;
      && Int64(Recorded(out, m, k)) == Int64(Recorded(o, m, k) + Total(lines, m, k))
      && (m in out.stats <==> m in o.stats || AnyPrints(lines, m))
      && (m in out.marks <==> m in o.marks || Title(lines, m).Some?)
      && (m in out.marks ==> out.marks[m] == if Title(lines, m).Some? then Title(lines, m).value else o.marks[m])
      && out.statsKeys == AddNames(o.statsKeys, AllKeys(lines))
    decreases lines
  {
    hide Step;
    hide MarkBy;
    hide StatsBy;
    hide Adds;
    hide Prints;
    hide Int64;
    hide AddNames;
    hide Recorded;
    if lines == [] {
      NoNames(o.statsKeys);
    } else {
      var line := CutReturns(lines[0]);
      var next := Step(o, line, isFloat).value;
      StepSays(o, line, isFloat, m, k);
      FoldSays(next, lines[1..], isFloat, m, k);
      Wraps(Recorded(next, m, k), Total(lines[1..], m, k));
      Wraps(Recorded(o, m, k) + Adds(line, m, k), Total(lines[1..], m, k));
      AddNamesAppend(o.statsKeys, match StatsBy(line) case None => [] case Some((_, cs)) => Keys(cs),
        AllKeys(lines[1..]));
    }
  }

  // --- the pairs ----------------------------------------------------------

  datatype Phase = Phase(title: string, deltas: map<string, int>)

  function Delta(o: Outcome, v: int, k: string): int {
    Int64(Recorded(o, v + 1, k) - Recorded(o, v, k))
  }

  function PhaseOf(o: Outcome, v: int): Phase
    requires v in o.marks
  {
    Phase(o.marks[v], map k | k in o.statsKeys :: Delta(o, v, k))
  }

  // A mark with counters printed at it and at the next one.
  predicate Opens(o: Outcome, v: int) {
    v in o.marks && v in o.stats && v + 1 in o.stats
  }

  predicate Rising(s: seq<int>) {
    forall i, j | 0 <= i < j < |s| :: s[i] < s[j]
  }

  // The marks the phases open at, each once, in order.
  ghost predicate Openings(o: Outcome, evens: seq<int>) {
    Rising(evens) && forall v :: v in evens <==> Opens(o, v)
  }

  // sort.Ints
  function SortInts(s: seq<int>): seq<int> {
    if s == [] then [] else InsertInt(s[0], SortInts(s[1..]))
  }

  function InsertInt(x: int, s: seq<int>): seq<int> {
    if s == [] || x <= s[0] then [x] + s else [s[0]] + InsertInt(x, s[1..])
  }

  lemma {:induction false} IntInserted(x: int, s: seq<int>)
    requires Rising(s) && x !in s
    ensures Rising(InsertInt(x, s)) && forall v :: v in InsertInt(x, s) <==> v == x || v in s
  {
    if s != [] && x > s[0] {
      IntInserted(x, s[1..]);
      assert forall v :: v in s <==> v == s[0] || v in s[1..];
      var r := InsertInt(x, s[1..]);
      assert forall j | 0 <= j < |r| :: r[j] in r;
    }
  }

  predicate Apart(s: seq<int>) {
    forall i, j | 0 <= i < j < |s| :: s[i] != s[j]
  }

  lemma {:induction false} SortedInts(s: seq<int>)
    requires Apart(s)
    ensures Rising(SortInts(s)) && forall v :: v in SortInts(s) <==> v in s
  {
    if s != [] {
      SortedInts(s[1..]);
      IntInserted(s[0], SortInts(s[1..]));
      assert forall v :: v in s <==> v == s[0] || v in s[1..];
    }
  }

  method StatsPairs(o: Outcome) returns (pairs: seq<Phase>, keys: seq<string>, ghost marks: seq<int>)
    ensures keys == o.statsKeys && Openings(o, marks)
    ensures |pairs| == |marks| && forall i | 0 <= i < |marks| :: Opens(o, marks[i]) && pairs[i] == PhaseOf(o, marks[i])
  {
    hide Delta;
    hide Rising;
    var evens := Evens(o);
    pairs := [];
    for i := 0 to |evens|
      invariant |pairs| == i
      invariant forall j | 0 <= j < i :: Opens(o, evens[j]) && pairs[j] == PhaseOf(o, evens[j])
    {
      var v := evens[i];
      assert v in evens;
      var d := Deltas(o, v);
      pairs := pairs + [Phase(o.marks[v], d)];
    }
    keys, marks := o.statsKeys, evens;
  }

  lemma Member<T>(s: set<T>) returns (v: T)
    requires s != {}
    ensures v in s
  {
    v :| v in s;
  }

  method Evens(o: Outcome) returns (evens: seq<int>)
    ensures Openings(o, evens)
  {
    hide Rising;
    evens := [];
    var left := o.marks.Keys;
    while left != {}
      invariant left <= o.marks.Keys && Apart(evens)
      invariant forall v :: v in evens <==> Opens(o, v) && v !in left
      decreases left
    {
      assert exists v :: v in left by {
        var v := Member(left);
      }
      var v :| v in left;
      left := left - {v};
      if v in o.stats && v + 1 in o.stats {
        evens := evens + [v];
      }
    }
    SortedInts(evens);
    evens := SortInts(evens);
  }

  method Deltas(o: Outcome, v: int) returns (d: map<string, int>)
    ensures d == map k | k in o.statsKeys :: Delta(o, v, k)
  {
    hide Int64;
    hide Recorded;
    d := map[];
    for j := 0 to |o.statsKeys|
      invariant d == map k | k in o.statsKeys[..j] :: Delta(o, v, k)
    {
      var k := o.statsKeys[j];
      assert o.statsKeys[..j + 1] == o.statsKeys[..j] + [k];
      d := d[k := Int64(Recorded(o, v + 1, k) - Recorded(o, v, k))];
    }
    assert o.statsKeys[..|o.statsKeys|] == o.statsKeys;
  }

  // The marks come out in one order only.
  lemma {:induction false} OpeningsUnique(s: seq<int>, t: seq<int>)
    requires Rising(s) && Rising(t) && forall v :: v in s <==> v in t
    ensures s == t
    decreases |s|
  {
    hide Rising;
    if s == [] {
      if t != [] {
        var v := First(t);
      }
    } else {
      var v := First(s);
      LeastFirst(s, t);
      LeastFirst(t, s);
      Others(s);
      Others(t);
      OpeningsUnique(s[1..], t[1..]);
      assert s == [s[0]] + s[1..] && t == [t[0]] + t[1..];
    }
  }

  lemma LeastFirst(s: seq<int>, t: seq<int>)
    requires Rising(s) && s != [] && forall v :: v in s <==> v in t
    ensures t != [] && s[0] <= t[0]
  {
    var v := First(s);
    var w := First(t);
    assert w in s;
  }

  lemma First(t: seq<int>) returns (v: int)
    requires t != []
    ensures v in t && v == t[0]
  {
    v := t[0];
  }

  lemma Others(s: seq<int>)
    requires Rising(s) && s != []
    ensures Rising(s[1..]) && forall v :: v in s[1..] <==> v in s && v != s[0]
  {
    assert forall v :: v in s <==> v == s[0] || v in s[1..];
  }

  // --- from the log to the phases -----------------------------------------

  // A phase of a log: there is one at a mark exactly if a line names the mark
  // and lines print counters at it and at the next.  It goes by the last name
  // given, and each of its counters is what was printed at the second mark
  // less what was at the first, added up over all prints, modulo 2^64.
  lemma PhasesTell(lines: seq<string>, isFloat: string -> bool, v: int, k: string)
    requires Fold(EMPTY, lines, isFloat).Some?
    ensures var o := Fold(EMPTY, lines, isFloat).value;
      && (Opens(o, v) <==> Title(lines, v).Some? && AnyPrints(lines, v) && AnyPrints(lines, v + 1))
      && (v in o.marks ==> Title(lines, v) == Some(PhaseOf(o, v).title))
      && Delta(o, v, k) == Int64(Total(lines, v + 1, k) - Total(lines, v, k))
      && o.statsKeys == AddNames([], AllKeys(lines))
  {
    hide Fold;
    hide AddNames;
    hide Title;
    hide Total;
    hide AnyPrints;
    hide Recorded;
    hide Int64;
    var o := Fold(EMPTY, lines, isFloat).value;
    FoldSays(EMPTY, lines, isFloat, v, k);
    FoldSays(EMPTY, lines, isFloat, v + 1, k);
    NothingRecorded(v, k);
    NothingRecorded(v + 1, k);
    WrappedLess(Recorded(o, v + 1, k), Recorded(o, v, k), Total(lines, v + 1, k), Total(lines, v, k));
  }

  lemma NothingRecorded(v: int, k: string)
    ensures Recorded(EMPTY, v, k) == 0
  {
  }

  // A case's mark gives the phase the case's name, unless that ends like the
  // other mark's.
  lemma PhaseNameIs(name: string)
    ensures PhaseName(name + "/before") == name <==> !(|name| >= 6 && name[|name| - 6..] == "/after")
  {
    var title := name + "/before";
    assert title[|title| - 7..] == "/before" && title[..|title| - 7] == name;
  }
}
