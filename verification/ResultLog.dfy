// What the host makes of one boot's log (parse.go:53-176) and the verdict on
// it (run.go:175-223). The regular expressions are matchers on byte strings.
module ResultLog {
  import opened Decimals
  import opened Lines
  import opened Options
  import opened Text
  import opened Words

  // --- matchers -----------------------------------------------------------

  // The leftmost place where a pattern matches, and what it captures there.
  function FirstMatch<T>(s: string, here: string -> Option<T>): Option<T> {
    if here(s).Some? then here(s) else if s == "" then None else FirstMatch(s[1..], here)
  }

  lemma {:induction false} NoMatch<T>(s: string, here: string -> Option<T>)
    requires forall i | 0 <= i <= |s| :: here(s[i..]) == None
    ensures FirstMatch(s, here) == None
  {
    assert s[0..] == s;
    if s != "" {
      forall i | 0 <= i <= |s[1..]| ensures here(s[1..][i..]) == None {
        assert s[1..][i..] == s[i + 1..];
      }
      NoMatch(s[1..], here);
    }
  }

  predicate LowerOrDigit(c: char) { 'a' <= c <= 'z' || Digit(c) }

  // A line without the agent's prefix: "G[tag]: " or "H: ".
  function Body(line: string): string {
    if HasPrefix(line, "H: ") then line[3..]
    else if HasPrefix(line, "G[") then
      var n := Run(line[2..], LowerOrDigit);
      if n > 0 && HasPrefix(line[2 + n..], "]: ") then line[5 + n..] else line
    else line
  }

  predicate NameChar(c: char) {
    'A' <= c <= 'Z' || 'a' <= c <= 'z' || Digit(c) || c == '_' || c == '.' || c == '/' || c == '+' || c == '-'
  }

  // "12 - name": the name, when there is a number and a name.
  function TapName(s: string): Option<string> {
    var d := Digits(s);
    if d == 0 || !HasPrefix(s[d..], " - ") then None else
    var rest := s[d + 3..];
    if Run(rest, NameChar) == 0 then None else Some(rest[..Run(rest, NameChar)])
  }

  // A case's line: whether it passed, and its name.
  function Tap(body: string): Option<(bool, string)> {
    if HasPrefix(body, "ok ") then
      match TapName(body[3..]) case None => None case Some(n) => Some((true, n))
    else if HasPrefix(body, "not ok ") then
      match TapName(body[7..]) case None => None case Some(n) => Some((false, n))
    else None
  }

  function ResultWord(s: string): Option<string> {
    if HasPrefix(s, "ok") then Some("ok") else if HasPrefix(s, "fail") then Some("fail") else None
  }

  function ResultHere(s: string): Option<string> {
    if HasPrefix(s, "PVMTEST-RESULT: ") then ResultWord(s[16..])
    else if HasPrefix(s, "PVMHOSTTEST-RESULT: ") then ResultWord(s[20..])
    else None
  }

  // " pass=12 fail=3"
  function Counts(s: string): Option<(string, string)> {
    if !HasPrefix(s, " pass=") then None else
    var a := s[6..];
    var p := Digits(a);
    if p == 0 || !HasPrefix(a[p..], " fail=") then None else
    var b := a[p + 6..];
    var f := Digits(b);
    if f == 0 then None else Some((a[..p], b[..f]))
  }

  function HostHere(s: string): Option<(string, string)> {
    if HasPrefix(s, "PVMHOSTTEST-RESULT: ok") then Counts(s[22..])
    else if HasPrefix(s, "PVMHOSTTEST-RESULT: fail") then Counts(s[24..])
    else None
  }

  datatype Metric = Metric(name: string, value: string, unit: string)

  // \S of the metric pattern.
  predicate Solid(c: char) {
    c != ' ' && c != '\t' && c != '\n' && c != '\r' && c != '\U{0C}'
  }

  function MetricHere(s: string): Option<Metric> {
    if !HasPrefix(s, "PVMTEST-METRIC: ") then None else
    var a := s[16..];
    var n := Run(a, Solid);
    if n == 0 || !HasPrefix(a[n..], " ") then None else
    var b := a[n + 1..];
    var v := Run(b, Solid);
    if v == 0 || !HasPrefix(b[v..], " ") then None else
    var c := b[v + 1..];
    var u := Run(c, Solid);
    if u == 0 || !HasPrefix(c[u..], " #END") then None else
    Some(Metric(a[..n], b[..v], c[..u]))
  }

  // A mark's number, as digits, and its title.
  function MarkHere(s: string): Option<(string, string)> {
    if !HasPrefix(s, "PVMTEST-MARK: ") then None else
    var a := s[14..];
    var n := Digits(a);
    if n == 0 || !HasPrefix(a[n..], " ") then None else
    var b := a[n + 1..];
    var t := Run(b, Solid);
    if t == 0 || !HasPrefix(b[t..], " #END") then None else Some((a[..n], b[..t]))
  }

  // A print of counters: whether a VM's, the mark it belongs to, and the rest
  // of the line.
  function StatsHere(s: string): Option<(bool, string, string)> {
    if HasPrefix(s, "PVMSTATS: mark=") then StatsMark(false, s[15..])
    else if HasPrefix(s, "PVMSTATS-VM: mark=") then StatsMark(true, s[18..])
    else None
  }

  function StatsMark(vm: bool, a: string): Option<(bool, string, string)> {
    var n := Digits(a);
    if n == 0 || !HasPrefix(a[n..], " ") then None else Some((vm, a[..n], a[n + 1..]))
  }

  // Texts that make a line of the host kernel's a complaint.
  const COMPLAINTS: seq<string> := ["WARNING: CPU", "BUG: ", "Oops", "general protection fault", "Kernel panic",
    "RIP: 0010", "soft lockup", "rcu_sched self-detected", "refcount_t: "]

  predicate Complains(line: string) {
    !HasPrefix(line, "G[") && exists c <- COMPLAINTS :: Contains(line, c)
  }

  const INT_MAX: int := 0x7fff_ffff_ffff_ffff

  // strconv.Atoi of digits, its error ignored: too large a number is the
  // largest one.
  function Atoi(d: string): int {
    if IntValue(d) > INT_MAX then INT_MAX else IntValue(d)
  }

  // int arithmetic on 64 bits.
  function Int64(n: int): int {
    (n + INT_MAX + 1) % (2 * (INT_MAX + 1)) - (INT_MAX + 1)
  }

  const LOAD_FAILED: string := "L1: insmod failed"

  // --- the outcome of a log -----------------------------------------------

  datatype Outcome = Outcome(
    passed: seq<string>,
    failed: seq<string>,
    results: seq<string>,
    hostPass: int,
    hostFail: int,
    selftests: nat,
    kut: nat,
    loadFailed: bool,
    failClosed: string,
    metrics: seq<Metric>,
    complaints: seq<string>,
    marks: map<int, string>,
    stats: map<int, map<string, int>>,
    statsKeys: seq<string>)

  const EMPTY: Outcome := Outcome([], [], [], 0, 0, 0, 0, false, "", [], [], map[], map[], [])

  // Names are listed once, where they first come up.
  function AddNames(failed: seq<string>, names: seq<string>): seq<string>
    decreases names
  {
    if names == [] then failed
    else AddNames(if names[0] in failed then failed else failed + [names[0]], names[1..])
  }

  function TrimComma(w: string): string {
    if w != "" && w[|w| - 1] == ',' then w[..|w| - 1] else w
  }

  function TrimCommas(ws: seq<string>): seq<string> {
    seq(|ws|, i requires 0 <= i < |ws| => TrimComma(ws[i]))
  }

  function AddHost(o: Outcome, counts: Option<(string, string)>): Outcome {
    match counts
    case None => o
    case Some((p, f)) => o.(hostPass := Int64(o.hostPass + Atoi(p)), hostFail := Int64(o.hostFail + Atoi(f)))
  }

  function AddMetric(o: Outcome, m: Metric, isFloat: string -> bool): Outcome {
    if isFloat(m.value) then o.(metrics := o.metrics + [m]) else o
  }

  const FAILCLOSED: string := "FAILCLOSED: "

  function TrimSuffix(s: string, end: string): string {
    if |s| >= |end| && s[|s| - |end|..] == end then s[..|s| - |end|] else s
  }

  // The even mark of a pair carries the name of what lies between them.
  function AddMark(o: Outcome, v: int, title: string): Outcome {
    if v % 2 == 0 then o.(marks := o.marks[v := TrimSuffix(TrimSuffix(title, "/before"), "/after")]) else o
  }

  // key=value with a number, but for the vCPU's own.
  function Counter(vm: bool, word: string): Option<(string, int)> {
    var i := Find(word, '=');
    if i == |word| || word[..i] == "vcpu" then None else
    match ParseInt(word[i + 1..])
    case None => None
    case Some(n) => Some((if vm then "vm." + word[..i] else word[..i], n))
  }

  function StatsOf(o: Outcome, mark: int): map<string, int> {
    if mark in o.stats then o.stats[mark] else map[]
  }

  function Recorded(o: Outcome, mark: int, k: string): int {
    if k in StatsOf(o, mark) then StatsOf(o, mark)[k] else 0
  }

  // One counter more: summed over the prints of its mark, its key listed where
  // it first comes up.
  function AddCounter(o: Outcome, mark: int, c: Option<(string, int)>): Outcome {
    match c
    case None => o
    case Some((k, n)) =>
      o.(stats := o.stats[mark := StatsOf(o, mark)[k := Int64(Recorded(o, mark, k) + n)]],
         statsKeys := AddNames(o.statsKeys, [k]))
  }

  function AddCounters(o: Outcome, mark: int, vm: bool, words: seq<string>): Outcome
    decreases words
  {
    if words == [] then o else AddCounters(AddCounter(o, mark, Counter(vm, words[0])), mark, vm, words[1..])
  }

  // Marks, counters and complaints, which come last.
  function LateLine(o: Outcome, line: string): Outcome {
    if HasPrefix(line, "L1: ") then o
    else match FirstMatch<(string, string)>(Body(line), MarkHere)
      case Some((v, title)) => AddMark(o, Atoi(v), title)
      case None =>
        match FirstMatch<(bool, string, string)>(Body(line), StatsHere)
        case Some((vm, v, rest)) =>
          AddCounters(o.(stats := o.stats[Atoi(v) := StatsOf(o, Atoi(v))]), Atoi(v), vm, Fields(rest))
        case None => if Complains(line) then o.(complaints := o.complaints + [line]) else o
  }

  predicate LoadLine(line: string) {
    Contains(Body(line), LOAD_FAILED) || HasPrefix(line, LOAD_FAILED)
  }

  // What is left once no case, result or metric pattern has matched; None is
  // the panic on a FAILCLOSED line that has no word.
  function OtherLine(o: Outcome, line: string): Option<Outcome> {
    if HasPrefix(line, FAILCLOSED) && |Fields(line)| < 2 then None else
    var closed := if HasPrefix(line, FAILCLOSED) then o.(failClosed := Fields(line)[1]) else o;
    Some(LateLine(if LoadLine(line) then closed.(loadFailed := true) else closed, line))
  }

  // One line, without its carriage returns.
  function Step(o: Outcome, line: string, isFloat: string -> bool): Option<Outcome> {
    var body := Body(line);
    if Tap(body).Some? then
      var (ok, name) := Tap(body).value;
      Some(if ok then o.(passed := o.passed + [name]) else o.(failed := AddNames(o.failed, [name])))
    else if HasPrefix(body, "# failed: ") then Some(o.(failed := AddNames(o.failed, TrimCommas(Fields(body[10..])))))
    else if HasPrefix(body, "SELFTEST: ") then Some(o.(selftests := o.selftests + 1))
    else if HasPrefix(body, "KUT: ") then Some(o.(kut := o.kut + 1))
    else ResultStep(AddHost(o, FirstMatch(body, HostHere)), line, isFloat)
  }

  // A result or a metric, or neither; the host's own counts are in already.
  function ResultStep(o: Outcome, line: string, isFloat: string -> bool): Option<Outcome> {
    if ResultLineOf(line) then Some(o.(results := o.results + [FirstMatch(Body(line), ResultHere).value]))
    else if FirstMatch(Body(line), MetricHere).Some?
      then Some(AddMetric(o, FirstMatch(Body(line), MetricHere).value, isFloat))
    else OtherLine(o, line)
  }

  predicate ResultLineOf(line: string) {
    FirstMatch(Body(line), ResultHere).Some? && !HasPrefix(line, "L1: ")
  }

  function Fold(o: Outcome, lines: seq<string>, isFloat: string -> bool): Option<Outcome>
    decreases lines
  {
    if lines == [] then Some(o) else
    match Step(o, CutReturns(lines[0]), isFloat)
    case None => None
    case Some(next) => Fold(next, lines[1..], isFloat)
  }

  function CutReturns(s: string): string {
    if s != "" && s[|s| - 1] == '\r' then CutReturns(s[..|s| - 1]) else s
  }

  const SCAN_MAX: nat := 0x10_0000

  // The scanner's buffer holds a line with its newline, or the scan ends.
  function UpToLong(lines: seq<string>): seq<string> {
    if lines == [] || |lines[0]| >= SCAN_MAX then [] else [lines[0]] + UpToLong(lines[1..])
  }

  method ParseLog(log: string, isFloat: string -> bool) returns (r: Option<Outcome>)
    ensures r == Fold(EMPTY, UpToLong(SplitLines(log)), isFloat)
  {
    hide Step;
    hide UpToLong;
    hide SplitLines;
    hide CutReturns;
    hide Body;
    hide Tap;
    hide Fields;
    hide FirstMatch;
    hide Contains;
    hide HasPrefix;
    var o := EMPTY;
    var failed: set<string>, keys: set<string> := {}, {};
    var rest := log;
    while rest != ""
      invariant Mirrors(failed, o.failed) && Mirrors(keys, o.statsKeys)
      invariant Fold(EMPTY, UpToLong(SplitLines(log)), isFloat) == Fold(o, UpToLong(SplitLines(rest)), isFloat)
      decreases |rest|
    {
      var i := Find(rest, '\n');
      NextScanned(rest);
      if i >= SCAN_MAX {
        return Some(o);
      }
      var line := CutReturns(rest[..i]);
      rest := if i < |rest| then rest[i + 1..] else "";
      o, failed, keys, r := ParseLine(o, failed, keys, line, isFloat);
      if r == None {
        return;
      }
    }
    NothingScanned();
    r := Some(o);
  }

  // A set kept beside a list, to ask it what the list has.
  ghost predicate Mirrors(names: set<string>, listed: seq<string>) {
    forall n :: n in names <==> n in listed
  }

  lemma NothingScanned()
    ensures UpToLong(SplitLines("")) == []
  {
  }

  lemma NextScanned(rest: string)
    requires rest != ""
    ensures var i := Find(rest, '\n');
      var later := if i < |rest| then rest[i + 1..] else "";
      UpToLong(SplitLines(rest)) == if i >= SCAN_MAX then [] else [rest[..i]] + UpToLong(SplitLines(later))
  {
    var i := Find(rest, '\n');
    if i == |rest| {
      assert rest[..i] == rest;
      assert SplitLines(rest) == [rest] + SplitLines("");
    } else {
      assert SplitLines(rest) == [rest[..i]] + SplitLines(rest[i + 1..]);
    }
  }

  // The body of the loop: the outcome, and the sets that keep failed names and
  // counter keys from being listed twice.
  method ParseLine(was: Outcome, seen: set<string>, seenKeys: set<string>, line: string, isFloat: string -> bool)
    returns (o: Outcome, failed: set<string>, keys: set<string>, r: Option<Outcome>)
    requires Mirrors(seen, was.failed) && Mirrors(seenKeys, was.statsKeys)
    ensures r == Step(was, line, isFloat)
    ensures r.Some? ==> r.value == o && Mirrors(failed, o.failed) && Mirrors(keys, o.statsKeys)
  {
    hide FirstMatch;
    hide Fields;
    hide Body;
    hide Tap;
    hide Contains;
    hide HasPrefix;
    hide Int64;
    hide LateLine;
    o, failed, keys := was, seen, seenKeys;
    var fromL1Echo := HasPrefix(line, "L1: ");
    var body := Body(line);
    var tap := Tap(body);
    if tap.Some? {
      var (ok, name) := tap.value;
      AddOne(was.failed, name);
      if ok {
        o := o.(passed := o.passed + [name]);
      } else if name !in failed {
        failed := failed + {name};
        o := o.(failed := o.failed + [name]);
      }
      assert !ok ==> o == was.(failed := AddNames(was.failed, [name]));
      return o, failed, keys, Some(o);
    }
    if HasPrefix(body, "# failed: ") {
      o, failed := ListFailed(o, failed, Fields(FailedRest(body)));
      return o, failed, keys, Some(o);
    }
    if HasPrefix(body, "SELFTEST: ") {
      o := o.(selftests := o.selftests + 1);
      return o, failed, keys, Some(o);
    }
    if HasPrefix(body, "KUT: ") {
      o := o.(kut := o.kut + 1);
      return o, failed, keys, Some(o);
    }
    o := AddHost(o, FirstMatch(body, HostHere));
    var result := FirstMatch(body, ResultHere);
    if result.Some? && !fromL1Echo {
      o := o.(results := o.results + [result.value]);
      return o, failed, keys, Some(o);
    }
    var metric := FirstMatch(body, MetricHere);
    if metric.Some? {
      o := AddMetric(o, metric.value, isFloat);
      return o, failed, keys, Some(o);
    }
    if HasPrefix(line, FAILCLOSED) {
      if |Fields(line)| < 2 {
        return o, failed, keys, None;
      }
      o := o.(failClosed := Fields(line)[1]);
    }
    if Contains(body, LOAD_FAILED) || HasPrefix(line, LOAD_FAILED) {
      o := o.(loadFailed := true);
    }
    o, keys := ParseLate(o, keys, line);
    r := Some(o);
  }

  method ParseLate(was: Outcome, seen: set<string>, line: string) returns (o: Outcome, keys: set<string>)
    requires Mirrors(seen, was.statsKeys)
    ensures o == LateLine(was, line) && o.failed == was.failed && Mirrors(keys, o.statsKeys)
  {
    hide FirstMatch;
    hide Fields;
    hide Body;
    hide HasPrefix;
    hide Complains;
    hide Mirrors;
    o, keys := was, seen;
    if HasPrefix(line, "L1: ") {
      return;
    }
    var body := Body(line);
    var mark := FirstMatch(body, MarkHere);
    if mark.Some? {
      var v := Atoi(mark.value.0);
      if v % 2 == 0 {
        o := o.(marks := o.marks[v := TrimSuffix(TrimSuffix(mark.value.1, "/before"), "/after")]);
      }
      return;
    }
    var stats := FirstMatch(body, StatsHere);
    if stats.Some? {
      var (vm, v, rest) := stats.value;
      var m := Atoi(v);
      if m !in o.stats {
        o := o.(stats := o.stats[m := map[]]);
      }
      assert o == was.(stats := was.stats[m := StatsOf(was, m)]);
      o, keys := ParseCounters(o, keys, m, vm, Fields(rest));
      return;
    }
    if Complains(line) {
      o := o.(complaints := o.complaints + [line]);
    }
  }

  method ParseCounters(was: Outcome, seen: set<string>, mark: int, vm: bool, words: seq<string>)
      returns (o: Outcome, keys: set<string>)
    requires Mirrors(seen, was.statsKeys) && mark in was.stats
    ensures o == AddCounters(was, mark, vm, words) && o.failed == was.failed && Mirrors(keys, o.statsKeys)
  {
    hide Counter;
    o, keys := was, seen;
    assert words[0..] == words;
    for i := 0 to |words|
      invariant AddCounters(was, mark, vm, words) == AddCounters(o, mark, vm, words[i..])
      invariant o.failed == was.failed && Mirrors(keys, o.statsKeys) && mark in o.stats
    {
      assert words[i..][0] == words[i] && words[i..][1..] == words[i + 1..];
      var counter := Counter(vm, words[i]);
      if counter == None {
        continue;
      }
      var (k, n) := counter.value;
      ghost var before := o;
      AddOne(o.statsKeys, k);
      if k !in keys {
        keys := keys + {k};
        o := o.(statsKeys := o.statsKeys + [k]);
      }
      var sum := (if k in o.stats[mark] then o.stats[mark][k] else 0) + n;
      o := o.(stats := o.stats[mark := o.stats[mark][k := Int64(sum)]]);
      assert o == AddCounter(before, mark, counter);
    }
    assert words[|words|..] == [];
  }

  lemma AddOne(f: seq<string>, name: string)
    ensures AddNames(f, [name]) == if name in f then f else f + [name]
  {
    assert [name][1..] == [];
  }

  function FailedRest(body: string): string
    requires HasPrefix(body, "# failed: ")
  {
    body[10..]
  }

  method ListFailed(was: Outcome, seen: set<string>, words: seq<string>) returns (o: Outcome, failed: set<string>)
    requires Mirrors(seen, was.failed)
    ensures o == was.(failed := AddNames(was.failed, TrimCommas(words)))
    ensures Mirrors(failed, o.failed)
  {
    o, failed := was, seen;
    ghost var names := TrimCommas(words);
    assert names[0..] == names;
    for i := 0 to |words|
      invariant o == was.(failed := o.failed)
      invariant Mirrors(failed, o.failed)
      invariant AddNames(was.failed, names) == AddNames(o.failed, names[i..])
    {
      var name := TrimComma(words[i]);
      assert names[i..][0] == name && names[i..][1..] == names[i + 1..];
      if name !in failed {
        failed := failed + {name};
        o := o.(failed := o.failed + [name]);
      }
    }
    assert names[|words|..] == [];
  }

  // --- the names -----------------------------------------------------------

  predicate GoodName(name: string) {
    name != "" && forall c <- name :: NameChar(c)
  }

  lemma DigitsOfDec(n: nat, rest: string)
    requires rest == "" || !Digit(rest[0])
    ensures Digits(Dec(n) + rest) == |Dec(n)|
  {
    DecValue(n);
    DigitsIs(Dec(n) + rest, |Dec(n)|);
  }

  // Behind the number stands the longest run of name characters.
  lemma TapValue(n: nat, tail: string)
    ensures TapName(Dec(n) + (" - " + tail)) ==
      if Run(tail, NameChar) == 0 then None else Some(tail[..Run(tail, NameChar)])
  {
    hide Dec;
    hide Digits;
    hide Run;
    var s := Dec(n) + (" - " + tail);
    DigitsOfDec(n, " - " + tail);
    assert s[|Dec(n)|..] == " - " + tail;
    assert s[|Dec(n)| + 3..] == tail;
  }

  // The name in a verdict line is what the parser finds, if and only if it is
  // made of the characters the pattern knows.
  lemma TapNameIs(n: nat, name: string, took: string)
    ensures TapName(Dec(n) + " - " + name + " (" + took + ")") == Some(name) <==> GoodName(name)
  {
    hide Dec;
    hide TapName;
    hide Run;
    hide NameChar;
    var behind := " (" + took + ")";
    var tail := name + behind;
    assert Dec(n) + " - " + name + " (" + took + ")" == Dec(n) + (" - " + tail);
    TapValue(n, tail);
    RunOnly(tail, NameChar);
    if GoodName(name) {
      assert !NameChar(behind[0]) by {
        BlankEndsName();
      }
      RunStops(name, behind, NameChar);
      assert tail[..|name|] == name;
    }
  }

  lemma BlankEndsName()
    ensures !NameChar(' ')
  {
  }

  lemma {:induction false} NamesListed(f: seq<string>, names: seq<string>)
    ensures forall n <- f :: n in AddNames(f, names)
    ensures forall n <- names :: n in AddNames(f, names)
    decreases names
  {
    if names != [] {
      var g := if names[0] in f then f else f + [names[0]];
      assert names[0] in g && forall n <- f :: n in g;
      NamesListed(g, names[1..]);
    }
  }

  // Distinct names are listed as they are.
  lemma {:induction false} DistinctNames(f: seq<string>, names: seq<string>)
    requires forall i, j | 0 <= i < j < |f + names| :: (f + names)[i] != (f + names)[j]
    ensures AddNames(f, names) == f + names
    decreases names
  {
    if names == [] {
      assert f + names == f;
    } else {
      assert (f + names)[|f|] == names[0];
      assert forall i | 0 <= i < |f| :: f[i] == (f + names)[i] != (f + names)[|f|];
      assert names[0] !in f;
      assert (f + [names[0]]) + names[1..] == f + names;
      DistinctNames(f + [names[0]], names[1..]);
    }
  }

  // --- what each line adds ------------------------------------------------

  // The names a line gives for passed and for failed.
  function PassedIn(line: string): seq<string> {
    match Tap(Body(line))
    case Some((true, name)) => [name]
    case _ => []
  }

  function FailedIn(line: string): seq<string> {
    match Tap(Body(line))
    case Some((ok, name)) => if ok then [] else [name]
    case None => if HasPrefix(Body(line), "# failed: ") then TrimCommas(Fields(Body(line)[10..])) else []
  }

  function AllPassed(lines: seq<string>): seq<string> {
    if lines == [] then [] else PassedIn(CutReturns(lines[0])) + AllPassed(lines[1..])
  }

  function AllFailed(lines: seq<string>): seq<string> {
    if lines == [] then [] else FailedIn(CutReturns(lines[0])) + AllFailed(lines[1..])
  }

  // The one line that stops the parser dead: a panic, an index out of range.
  predicate Panics(line: string) {
    HasPrefix(line, FAILCLOSED) && |Fields(line)| < 2
  }

  // Marks, counters and complaints are no part of the rest.
  predicate SameButLate(o: Outcome, p: Outcome) {
    p.(complaints := o.complaints, marks := o.marks, stats := o.stats, statsKeys := o.statsKeys) == o
  }

  lemma {:induction false} CountersKeep(o: Outcome, mark: int, vm: bool, words: seq<string>)
    ensures SameButLate(o, AddCounters(o, mark, vm, words))
    decreases words
  {
    hide Counter;
    hide AddNames;
    if words != [] {
      CountersKeep(AddCounter(o, mark, Counter(vm, words[0])), mark, vm, words[1..]);
    }
  }

  lemma LateKeeps(o: Outcome, line: string)
    ensures SameButLate(o, LateLine(o, line))
  {
    hide FirstMatch;
    hide Fields;
    hide Body;
    hide Complains;
    hide AddCounters;
    match FirstMatch<(bool, string, string)>(Body(line), StatsHere)
    case Some((vm, v, rest)) =>
      CountersKeep(o.(stats := o.stats[Atoi(v) := StatsOf(o, Atoi(v))]), Atoi(v), vm, Fields(rest));
    case None =>
  }

  // A line that is no result may say that the module did not load; the rest of
  // what it says comes late.
  lemma OtherKeeps(o: Outcome, line: string)
    ensures OtherLine(o, line).Some? ==>
      var next := OtherLine(o, line).value;
      && next.passed == o.passed && next.failed == o.failed && next.results == o.results
      && next.hostPass == o.hostPass && next.hostFail == o.hostFail && next.selftests == o.selftests
      && next.kut == o.kut
      && next.metrics == o.metrics && next.loadFailed == (o.loadFailed || LoadLine(line))
  {
    hide LateLine;
    hide LoadLine;
    hide Fields;
    hide HasPrefix;
    if OtherLine(o, line).Some? {
      var closed := if HasPrefix(line, FAILCLOSED) then o.(failClosed := Fields(line)[1]) else o;
      LateKeeps(if LoadLine(line) then closed.(loadFailed := true) else closed, line);
    }
  }

  lemma HostKeeps(o: Outcome, counts: Option<(string, string)>)
    ensures AddHost(o, counts) == o.(hostPass := AddHost(o, counts).hostPass, hostFail := AddHost(o, counts).hostFail)
    ensures counts == None ==> AddHost(o, counts) == o
  {
  }

  // The first four patterns: the parser is done with a line that matches one.
  predicate Settled(body: string) {
    Tap(body).Some? || HasPrefix(body, "# failed: ") || HasPrefix(body, "SELFTEST: ") || HasPrefix(body, "KUT: ")
  }

  // A host program's counts, as far as the parser gets to see them.
  function HostBy(line: string): Option<(string, string)> {
    if Settled(Body(line)) then None else FirstMatch(Body(line), HostHere)
  }

  // Whether the line makes the parser believe that the module did not load.
  predicate LoadsBy(line: string) {
    !Settled(Body(line)) && !ResultLineOf(line) && FirstMatch(Body(line), MetricHere) == None && LoadLine(line)
  }

  // Whether it counts as a result of some kind, a case's or a host's apart.
  predicate Counted(line: string) {
    HasPrefix(Body(line), "SELFTEST: ") || HasPrefix(Body(line), "KUT: ")
    || (FirstMatch(Body(line), MetricHere).Some? && !ResultLineOf(line))
  }

  lemma ResultKeeps(o: Outcome, line: string, isFloat: string -> bool)
    requires !Settled(Body(line))
    ensures ResultStep(o, line, isFloat).Some? ==>
      var next := ResultStep(o, line, isFloat).value;
      && next.passed == o.passed && next.failed == o.failed && next.selftests == o.selftests && next.kut == o.kut
      && next.hostPass == o.hostPass && next.hostFail == o.hostFail
      && next.loadFailed == (o.loadFailed || LoadsBy(line))
      && (!Counted(line) ==> next.metrics == o.metrics)
  {
    hide OtherLine;
    hide FirstMatch;
    hide Body;
    hide LoadLine;
    hide Settled;
    OtherKeeps(o, line);
  }

  lemma StepNames(o: Outcome, line: string, isFloat: string -> bool)
    ensures Step(o, line, isFloat).Some? ==>
      var next := Step(o, line, isFloat).value;
      next.passed == o.passed + PassedIn(line) && next.failed == AddNames(o.failed, FailedIn(line))
  {
    hide ResultStep;
    hide AddHost;
    hide FirstMatch;
    hide Fields;
    hide Body;
    hide TapName;
    HostKeeps(o, FirstMatch(Body(line), HostHere));
    if !Settled(Body(line)) {
      ResultKeeps(AddHost(o, FirstMatch(Body(line), HostHere)), line, isFloat);
    }
  }

  // What a line does to the other counts, and nothing more.
  lemma StepLedger(o: Outcome, line: string, isFloat: string -> bool)
    ensures Step(o, line, isFloat).Some? ==>
      var next := Step(o, line, isFloat).value;
      && next.hostPass == AddHost(o, HostBy(line)).hostPass && next.hostFail == AddHost(o, HostBy(line)).hostFail
      && next.loadFailed == (o.loadFailed || LoadsBy(line))
      && (!Counted(line) ==> next.selftests == o.selftests && next.kut == o.kut && next.metrics == o.metrics)
  {
    hide ResultStep;
    hide AddHost;
    hide FirstMatch;
    hide Fields;
    hide Body;
    hide Tap;
    hide AddNames;
    HostKeeps(o, FirstMatch(Body(line), HostHere));
    HostKeeps(o, None);
    if !Settled(Body(line)) {
      ResultKeeps(AddHost(o, FirstMatch(Body(line), HostHere)), line, isFloat);
    }
  }

  // The failures of host programs, added up in 64 bits.
  function HostFails(from: int, lines: seq<string>): int
    decreases lines
  {
    if lines == [] then from else
    HostFails(match HostBy(CutReturns(lines[0])) case None => from case Some((_, f)) => Int64(from + Atoi(f)),
      lines[1..])
  }

  lemma {:induction false} HostFailsAppend(from: int, a: seq<string>, b: seq<string>)
    ensures HostFails(from, a + b) == HostFails(HostFails(from, a), b)
    decreases a
  {
    hide HostBy;
    if a == [] {
      assert a + b == b;
    } else {
      assert (a + b)[1..] == a[1..] + b && (a + b)[0] == a[0];
      HostFailsAppend(match HostBy(CutReturns(a[0])) case None => from case Some((_, f)) => Int64(from + Atoi(f)),
        a[1..], b);
    }
  }

  predicate AnyLoads(lines: seq<string>) {
    exists l <- lines :: LoadsBy(CutReturns(l))
  }

  // A fold of lines does what its lines do.
  lemma {:induction false} FoldLedger(o: Outcome, lines: seq<string>, isFloat: string -> bool)
    requires Fold(o, lines, isFloat).Some?
    ensures var out := Fold(o, lines, isFloat).value;
      && out.hostFail == HostFails(o.hostFail, lines) && out.loadFailed == (o.loadFailed || AnyLoads(lines))
      && ((forall l <- lines :: HostBy(CutReturns(l)) == None) ==> out.hostPass == o.hostPass)
      && ((forall l <- lines :: !Counted(CutReturns(l))) ==>
      out.selftests == o.selftests && out.kut == o.kut && out.metrics == o.metrics)
    decreases lines
  {
    hide Step;
    hide HostBy;
    hide LoadsBy;
    hide Counted;
    if lines != [] {
      var line := CutReturns(lines[0]);
      StepLedger(o, line, isFloat);
      FoldLedger(Step(o, line, isFloat).value, lines[1..], isFloat);
      assert forall l :: l in lines <==> l == lines[0] || l in lines[1..];
    }
  }

  lemma {:induction false} AddNamesAppend(f: seq<string>, a: seq<string>, b: seq<string>)
    ensures AddNames(f, a + b) == AddNames(AddNames(f, a), b)
    decreases a
  {
    if a == [] {
      assert a + b == b;
    } else {
      assert (a + b)[1..] == a[1..] + b;
      AddNamesAppend(if a[0] in f then f else f + [a[0]], a[1..], b);
    }
  }

  // The names in the outcome are those of the lines, in line order; failed
  // ones once each.
  lemma {:induction false} FoldNames(o: Outcome, lines: seq<string>, isFloat: string -> bool)
    ensures Fold(o, lines, isFloat).Some? ==>
      var out := Fold(o, lines, isFloat).value;
      out.passed == o.passed + AllPassed(lines) && out.failed == AddNames(o.failed, AllFailed(lines))
    decreases lines
  {
    hide Step;
    hide PassedIn;
    hide FailedIn;
    if lines != [] && Fold(o, lines, isFloat).Some? {
      var line := CutReturns(lines[0]);
      StepNames(o, line, isFloat);
      var next := Step(o, line, isFloat).value;
      FoldNames(next, lines[1..], isFloat);
      AddNamesAppend(o.failed, FailedIn(line), AllFailed(lines[1..]));
      assert (o.passed + PassedIn(line)) + AllPassed(lines[1..]) == o.passed + AllPassed(lines);
    }
  }

  // The parser panics exactly on a log with such a line among those scanned.
  lemma {:induction false} PanicsExactly(o: Outcome, lines: seq<string>, isFloat: string -> bool)
    ensures Fold(o, lines, isFloat) == None <==> exists l <- lines :: Panics(CutReturns(l))
    decreases lines
  {
    hide Step;
    hide Panics;
    if lines != [] {
      StepPanics(o, CutReturns(lines[0]), isFloat);
      match Step(o, CutReturns(lines[0]), isFloat)
      case None => assert lines[0] in lines;
      case Some(next) =>
        PanicsExactly(next, lines[1..], isFloat);
        assert forall l :: l in lines <==> l == lines[0] || l in lines[1..];
    }
  }

  // That is the prefix with nothing but white space behind it, and the bare
  // prefix is one such line.
  lemma PanicsIs(line: string)
    ensures Panics(line) <==> HasPrefix(line, FAILCLOSED) && forall k | 12 <= k < |line| :: White(line[k])
  {
    if Panics(line) {
      WhiteTail(line);
    } else if HasPrefix(line, FAILCLOSED) && forall k | 12 <= k < |line| :: White(line[k]) {
      var w, rest := "FAILCLOSED:", line[11..];
      assert line == w + rest && rest[0] == line[11] == FAILCLOSED[11];
      FieldsFirst(w, rest);
      forall c | c in rest ensures White(c) {
        var k :| 0 <= k < |rest| && rest[k] == c;
        assert rest[k] == line[k + 11];
      }
      OnlyWhite(rest);
      assert false;
    }
  }

  lemma {:induction false} OnlyWhite(s: string)
    requires forall c <- s :: White(c)
    ensures Fields(s) == []
  {
    if s != "" {
      assert s[0] in s;
      OnlyWhite(s[1..]);
    }
  }

  lemma BarePrefixPanics(o: Outcome, isFloat: string -> bool)
    ensures Fold(o, [FAILCLOSED], isFloat) == None
  {
    hide Panics;
    hide Fold;
    PanicsIs(FAILCLOSED);
    assert CutReturns(FAILCLOSED) == FAILCLOSED;
    PanicsExactly(o, [FAILCLOSED], isFloat);
    assert [FAILCLOSED][0] in [FAILCLOSED];
  }

  // Such a line has nothing in it that an earlier pattern could match.
  lemma StepPanics(o: Outcome, line: string, isFloat: string -> bool)
    ensures Step(o, line, isFloat) == None <==> Panics(line)
  {
    hide FirstMatch;
    hide Fields;
    hide Contains;
    hide Int64;
    hide TapName;
    if Panics(line) {
      WhiteTail(line);
      NotPrefixed(line);
      forall i | 0 <= i <= |line| ensures ResultHere(line[i..]) == None && MetricHere(line[i..]) == None {
        NoPattern(line, i);
      }
      NoMatch(line, ResultHere);
      NoMatch(line, MetricHere);
    }
  }

  lemma NotPrefixed(line: string)
    requires HasPrefix(line, FAILCLOSED)
    ensures Body(line) == line && Tap(line) == None
    ensures !HasPrefix(line, "# failed: ") && !HasPrefix(line, "SELFTEST: ") && !HasPrefix(line, "KUT: ")
  {
    assert line[0] == FAILCLOSED[0];
  }

  // Every unanchored pattern starts with a P.
  lemma PatternStart(t: string)
    requires t == "" || t[0] != 'P'
    ensures ResultHere(t) == None && MetricHere(t) == None && HostHere(t) == None
  {
    hide Counts;
    hide ResultWord;
    hide Solid;
    hide HasPrefix;
    NoPrefix(t, "PVMTEST-RESULT: ");
    NoPrefix(t, "PVMHOSTTEST-RESULT: ");
    NoPrefix(t, "PVMHOSTTEST-RESULT: ok");
    NoPrefix(t, "PVMHOSTTEST-RESULT: fail");
    NoPrefix(t, "PVMTEST-METRIC: ");
  }

  lemma NoPrefix(t: string, p: string)
    requires p != "" && (t == "" || t[0] != p[0])
    ensures !HasPrefix(t, p)
  {
  }

  lemma NoPattern(line: string, i: nat)
    requires i <= |line| && |line| >= 12 && line[..12] == FAILCLOSED && forall k | 12 <= k < |line| :: White(line[k])
    ensures ResultHere(line[i..]) == None && MetricHere(line[i..]) == None
  {
    hide ResultHere;
    hide MetricHere;
    hide HostHere;
    if i < |line| {
      assert line[i..][0] == line[i];
      if i < 12 {
        assert line[i] == FAILCLOSED[i];
      }
    }
    PatternStart(line[i..]);
  }

  // FAILCLOSED with no second word is followed by white space only.
  lemma WhiteTail(line: string)
    requires Panics(line)
    ensures |line| >= 12 && line[..12] == FAILCLOSED && forall k | 12 <= k < |line| :: White(line[k])
  {
    var w, rest := "FAILCLOSED:", line[11..];
    assert line == w + rest;
    assert rest[0] == line[11] == ' ';
    FieldsFirst(w, rest);
    NoWords(rest);
    forall k | 12 <= k < |line| ensures White(line[k]) {
      assert line[k] == rest[k - 11];
    }
  }

  lemma {:induction false} NoWords(s: string)
    requires Fields(s) == []
    ensures forall c <- s :: White(c)
  {
    if s != "" {
      NoWords(s[1..]);
      assert s == [s[0]] + s[1..];
    }
  }

  // --- the verdict --------------------------------------------------------

  // A failed case is allowed to fail by its name, or by a garbled one that an
  // allowed name starts with.
  predicate Allowed(name: string, allow: seq<string>) {
    exists a <- allow :: name == a || (|name| >= 8 && HasPrefix(a, name))
  }

  function NotAllowed(failed: seq<string>, allow: seq<string>): seq<string> {
    if failed == [] then []
    else (if Allowed(failed[0], allow) then [] else [failed[0]]) + NotAllowed(failed[1..], allow)
  }

  method Unexpected(failed: seq<string>, allow: seq<string>) returns (out: seq<string>)
    ensures out == NotAllowed(failed, allow)
    ensures forall f :: f in out <==> f in failed && !Allowed(f, allow)
  {
    hide Allowed;
    out := [];
    assert failed[0..] == failed;
    for i := 0 to |failed|
      invariant NotAllowed(failed, allow) == out + NotAllowed(failed[i..], allow)
    {
      assert failed[i..][0] == failed[i] && failed[i..][1..] == failed[i + 1..];
      var ok := AllowedLoop(failed[i], allow);
      if !ok {
        out := out + [failed[i]];
      }
    }
    NotAllowedIs(failed, allow);
  }

  lemma {:induction false} NotAllowedIs(failed: seq<string>, allow: seq<string>)
    ensures forall f :: f in NotAllowed(failed, allow) <==> f in failed && !Allowed(f, allow)
  {
    hide Allowed;
    if failed != [] {
      NotAllowedIs(failed[1..], allow);
      assert failed == [failed[0]] + failed[1..];
    }
  }

  method AllowedLoop(name: string, allow: seq<string>) returns (ok: bool)
    ensures ok == Allowed(name, allow)
  {
    ok := false;
    for j := 0 to |allow|
      invariant !(exists a <- allow[..j] :: name == a || (|name| >= 8 && HasPrefix(a, name)))
    {
      if name == allow[j] || (|name| >= 8 && HasPrefix(allow[j], name)) {
        assert allow[j] in allow;
        return true;
      }
      assert allow[..j + 1] == allow[..j] + [allow[j]];
    }
    assert allow[..|allow|] == allow;
  }

  // What an item says it expects. A reason to look for is either found in the
  // log or not.
  datatype Expect = Pass(allow: seq<string>) | RefuseLoad(reasonFound: bool)

  function Judge(e: Expect, o: Outcome, checksPassed: bool): bool {
    match e
    case RefuseLoad(found) => (o.loadFailed || o.failClosed == "ok") && found && checksPassed
    case Pass(allow) =>
      if o.loadFailed then false
      else if NotAllowed(o.failed, allow) != [] then false
      else if o.hostFail > 0 then false
      else if o.passed == [] && o.hostPass == 0 && o.selftests == 0 && o.kut == 0 && o.metrics == [] then false
      else checksPassed
  }
}
