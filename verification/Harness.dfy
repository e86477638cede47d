// The guest's test harness (harness.go:178-297): which cases run, in what
// order, and what it prints. What a case's function does is part of the case.
module Harnesses {
  import opened Decimals
  import opened Lines
  import opened Options
  import opened Text
  import H = Histograms

  // The error a case returns (or its panic, or its timeout), what it logs,
  // the lines it prints itself, and how long it took.
  datatype Ran = Ran(error: Option<string>, notes: seq<string>, printed: seq<string>, took: string)

  datatype Case = Case(name: string, suites: seq<string>, ran: Ran)

  const SMOKE: string := "smoke"
  const CORE: string := "default"
  const FULL: string := "full"
  const PERF: string := "perf"

  // --- which cases --------------------------------------------------------

  function Rank(suite: string): Option<nat> {
    if suite == SMOKE then Some(0) else if suite == CORE then Some(1)
    else if suite == FULL then Some(2) else if suite == PERF then Some(3) else None
  }

  predicate InSuite(c: Case, suite: string) {
    if suite == "all" || suite in c.suites then true
    else match Rank(suite)
      case None => false
      case Some(want) => suite != PERF && exists s <- c.suites :: Rank(s).Some? && Rank(s).value <= want && s != PERF
  }

  // pvmtest.only: a "|" list of names, or one name in any suite, or a piece
  // of a name within the suite.
  predicate Selected(suite: string, only: string, c: Case) {
    if '|' in only then c.name in Split(only, '|')
    else if only != "" && !Contains(c.name, only) then false
    else (only != "" && c.name == only) || InSuite(c, suite)
  }

  // A list of names selects exactly those, whatever the suite.
  lemma ListSelects(suite: string, names: seq<string>, c: Case)
    requires |names| > 1 && forall n <- names :: '|' !in n
    ensures Selected(suite, Join(names, "|"), c) <==> c.name in names
  {
    SplitJoin(names, '|');
    assert Join(names, "|")[|names[0]|] == '|';
  }

  // Each suite of the ranking takes in the one below it, and none but perf
  // itself takes in a case that is only in perf.
  lemma SuitesNest(c: Case)
    ensures InSuite(c, SMOKE) ==> InSuite(c, CORE)
    ensures InSuite(c, CORE) ==> InSuite(c, FULL)
    ensures InSuite(c, FULL) ==> InSuite(c, "all")
    ensures (forall s <- c.suites :: s == PERF) ==> !InSuite(c, SMOKE) && !InSuite(c, CORE) && !InSuite(c, FULL)
    ensures InSuite(c, FULL) <==> exists s <- c.suites :: s == SMOKE || s == CORE || s == FULL
  {
  }

  function Chosen(suite: string, only: string, cases: seq<Case>): (r: seq<Case>)
    ensures |r| <= |cases|
  {
    if cases == [] then []
    else (if Selected(suite, only, cases[0]) then [cases[0]] else []) + Chosen(suite, only, cases[1..])
  }

  // --- the order ----------------------------------------------------------

  predicate NotAfter(a: Case, b: Case) { Lex(a.name, b.name) <= 0 }

  // sort.SliceStable by name.
  function SortCases(cases: seq<Case>): (s: seq<Case>)
    ensures |s| == |cases|
  {
    if cases == [] then [] else Place(cases[0], SortCases(cases[1..]))
  }

  function Place(c: Case, sorted: seq<Case>): (s: seq<Case>)
    ensures |s| == |sorted| + 1
  {
    if sorted == [] || NotAfter(c, sorted[0]) then [c] + sorted else [sorted[0]] + Place(c, sorted[1..])
  }

  ghost predicate InOrder(cases: seq<Case>) {
    forall i, j | 0 <= i < j < |cases| :: NotAfter(cases[i], cases[j])
  }

  function Called(cases: seq<Case>, name: string): seq<Case> {
    if cases == [] then [] else (if cases[0].name == name then [cases[0]] else []) + Called(cases[1..], name)
  }

  lemma NotAfterIsTotal(a: Case, b: Case, c: Case)
    ensures NotAfter(a, b) || NotAfter(b, a)
    ensures NotAfter(a, b) && NotAfter(b, c) ==> NotAfter(a, c)
  {
    LexEqual(a.name, b.name);
    LexEqual(b.name, c.name);
    LexEqual(a.name, c.name);
    if NotAfter(a, b) && NotAfter(b, c) { H.LexTransitive(c.name, b.name, a.name); }
  }

  lemma {:induction false} Placed(c: Case, sorted: seq<Case>)
    requires InOrder(sorted)
    ensures InOrder(Place(c, sorted)) && multiset(Place(c, sorted)) == multiset{c} + multiset(sorted)
  {
    hide NotAfter;
    if sorted == [] || NotAfter(c, sorted[0]) {
      PlacedFirst(c, sorted);
    } else {
      Placed(c, sorted[1..]);
      PlacedLater(sorted[0], c, sorted[1..], Place(c, sorted[1..]));
      assert sorted == [sorted[0]] + sorted[1..];
    }
  }

  lemma PlacedFirst(c: Case, sorted: seq<Case>)
    requires InOrder(sorted) && (sorted != [] ==> NotAfter(c, sorted[0]))
    ensures InOrder([c] + sorted)
  {
    hide NotAfter;
    var s := [c] + sorted;
    forall i, j | 0 <= i < j < |s| ensures NotAfter(s[i], s[j]) {
      if i == 0 && j > 1 { NotAfterIsTotal(c, sorted[0], sorted[j - 1]); }
    }
  }

  lemma PlacedLater(first: Case, c: Case, sorted: seq<Case>, rest: seq<Case>)
    requires InOrder([first] + sorted) && InOrder(rest) && !NotAfter(c, first)
    requires multiset(rest) == multiset{c} + multiset(sorted)
    ensures InOrder([first] + rest)
  {
    hide NotAfter;
    NotAfterIsTotal(first, c, c);
    var s := [first] + rest;
    forall i, j | 0 <= i < j < |s| ensures NotAfter(s[i], s[j]) {
      if i == 0 {
        assert rest[j - 1] in multiset(rest);
        if s[j] != c {
          assert s[j] in multiset(sorted);
          var k :| 0 <= k < |sorted| && sorted[k] == s[j];
          assert NotAfter(([first] + sorted)[0], ([first] + sorted)[k + 1]);
        }
      }
    }
  }

  lemma NotAfterItself(a: Case, b: Case)
    ensures a.name == b.name ==> NotAfter(a, b)
  {
    LexEqual(a.name, b.name);
  }

  // Placing goes in front of the cases of the same name.
  lemma {:induction false} PlacedStably(c: Case, sorted: seq<Case>, name: string)
    ensures Called(Place(c, sorted), name) == (if c.name == name then [c] else []) + Called(sorted, name)
  {
    hide NotAfter;
    if sorted == [] || NotAfter(c, sorted[0]) {
      assert ([c] + sorted)[1..] == sorted;
    } else {
      NotAfterItself(c, sorted[0]);
      PlacedStably(c, sorted[1..], name);
      assert ([sorted[0]] + Place(c, sorted[1..]))[1..] == Place(c, sorted[1..]);
    }
  }

  // Cases come out by name, all of them, and those of one name in the order
  // they were added.
  lemma {:induction false} SortedCases(cases: seq<Case>, name: string)
    ensures InOrder(SortCases(cases)) && multiset(SortCases(cases)) == multiset(cases)
    ensures Called(SortCases(cases), name) == Called(cases, name)
  {
    if cases != [] {
      SortedCases(cases[1..], name);
      Placed(cases[0], SortCases(cases[1..]));
      PlacedStably(cases[0], SortCases(cases[1..]), name);
      assert cases == [cases[0]] + cases[1..];
    }
  }

  // --- what is printed ----------------------------------------------------

  function Unlines(ls: seq<string>): string {
    if ls == [] then "" else ls[0] + "\n" + Unlines(ls[1..])
  }

  lemma {:induction false} UnlinesAppend(a: seq<string>, b: seq<string>)
    ensures Unlines(a + b) == Unlines(a) + Unlines(b)
  {
    if a == [] {
      assert a + b == b;
    } else {
      UnlinesAppend(a[1..], b);
      assert (a + b)[1..] == a[1..] + b;
    }
  }

  // A print with newlines inside is the lines it splits into.
  lemma {:induction false} UnlinesSplit(s: string)
    ensures Unlines(Split(s, '\n')) == s + "\n"
    decreases |s|
  {
    var i := Find(s, '\n');
    if i == |s| {
      assert Unlines([s]) == s + "\n" + Unlines([s][1..]);
    } else {
      UnlinesSplit(s[i + 1..]);
      assert s == s[..i] + "\n" + s[i + 1..];
      assert ([s[..i]] + Split(s[i + 1..], '\n'))[1..] == Split(s[i + 1..], '\n');
    }
  }

  // Lines without newlines are the lines of the text.
  lemma {:induction false} LinesOfUnlines(ls: seq<string>)
    requires forall l <- ls :: '\n' !in l
    ensures LinesOf(Unlines(ls)) == seq(|ls|, i requires 0 <= i < |ls| => Line(ls[i], true))
    ensures SplitLines(Unlines(ls)) == ls
  {
    if ls != [] {
      assert '\n' !in ls[0];
      LinesOfUnlines(ls[1..]);
      FirstLine(ls[0], Unlines(ls[1..]));
    }
    assert |Texts(LinesOf(Unlines(ls)))| == |ls|;
  }

  function Verdict(n: nat, c: Case): string {
    (if c.ran.error.Some? then "not ok " else "ok ") + Dec(n) + " - " + c.name + " (" + c.ran.took + ")"
  }

  function Indented(ls: seq<string>): seq<string> {
    seq(|ls|, i requires 0 <= i < |ls| => "#   " + ls[i])
  }

  function NoteLines(notes: seq<string>): seq<string> {
    if notes == [] then [] else Split("#   " + notes[0], '\n') + NoteLines(notes[1..])
  }

  // Every line of an error is indented; only the first of a note is.
  function Remarks(c: Case): seq<string> {
    (if c.ran.error.Some? then Indented(Split(c.ran.error.value, '\n')) else []) + NoteLines(c.ran.notes)
  }

  function CaseLines(n: nat, c: Case): seq<string> {
    c.ran.printed + [Verdict(n, c)] + Remarks(c)
  }

  // The MSR the marks go to: not opened, or opened and taking or refusing the
  // writes.
  datatype MarkDev = NoDevice | Device(refusal: Option<string>)

  function MarkLine(v: nat, title: string): string {
    "PVMTEST-MARK: " + Dec(v) + " " + title + " #END"
  }

  function MarkLines(dev: MarkDev, v: nat, title: string): seq<string> {
    match dev
    case NoDevice => []
    case Device(None) => [MarkLine(v, title)]
    case Device(Some(e)) => [MarkLine(v, title), "PVMINIT: mark " + Dec(v) + " failed: " + e]
  }

  // A case between its two marks.
  function Bracketed(dev: MarkDev, n: nat, c: Case): seq<string> {
    MarkLines(dev, 2 * n, c.name + "/before") + CaseLines(n, c) + MarkLines(dev, 2 * n + 1, c.name + "/after")
  }

  function RunLines(dev: MarkDev, n: nat, cases: seq<Case>): seq<string>
    decreases cases
  {
    if cases == [] then [] else Bracketed(dev, n, cases[0]) + RunLines(dev, n + 1, cases[1..])
  }

  function FailedHead(c: Case): seq<string> { if c.ran.error.Some? then [c.name] else [] }

  function PassedHead(c: Case): seq<string> { if c.ran.error.Some? then [] else [c.name] }

  function FailedNames(cases: seq<Case>): seq<string> {
    if cases == [] then [] else FailedHead(cases[0]) + FailedNames(cases[1..])
  }

  function PassedNames(cases: seq<Case>): seq<string> {
    if cases == [] then [] else PassedHead(cases[0]) + PassedNames(cases[1..])
  }

  function Summary(pass: nat, fail: nat, skip: nat, elapsed: string): string {
    "# ran " + Dec(pass + fail) + ", passed " + Dec(pass) + ", failed " + Dec(fail) + ", not selected " + Dec(skip)
      + ", in " + elapsed
  }

  function RunStatus(pass: nat, fail: nat): string {
    if fail > 0 || pass == 0 then "fail" else "ok"
  }

  function ResultLine(pass: nat, fail: nat, tag: string, suite: string): string {
    "PVMTEST-RESULT: " + RunStatus(pass, fail) + " tag=" + tag + " suite=" + suite + " pass=" + Dec(pass)
      + " fail=" + Dec(fail)
  }

  function ReportLines(pass: nat, fail: nat, skip: nat, failed: seq<string>, tag: string, suite: string,
      elapsed: string): seq<string> {
    ["", Summary(pass, fail, skip, elapsed)]
    + (if failed == [] then [] else ["# failed: " + Join(failed, " ")])
    + [ResultLine(pass, fail, tag, suite)]
  }

  // Everything a run prints, as lines.
  function Printed(dev: MarkDev, chosen: seq<Case>, skip: nat, tag: string, suite: string,
      elapsed: string): seq<string> {
    ["1.." + Dec(|chosen|)] + RunLines(dev, 1, chosen)
    + ReportLines(|PassedNames(chosen)|, |FailedNames(chosen)|, skip, FailedNames(chosen), tag, suite, elapsed)
  }

  class Harness {
    const suite: string
    const tag: string
    const only: string
    const markDev: MarkDev
    var cases: seq<Case>
    var pass: nat
    var fail: nat
    var skip: nat
    var failed: seq<string>
    var out: string

    constructor (suite: string, tag: string, only: string, markDev: MarkDev)
      ensures this.suite == suite && this.tag == tag && this.only == only && this.markDev == markDev
      ensures cases == [] && pass == 0 && fail == 0 && skip == 0 && failed == [] && out == ""
    {
      this.suite, this.tag, this.only, this.markDev := suite, tag, only, markDev;
      cases, pass, fail, skip, failed, out := [], 0, 0, 0, [], "";
    }

    method Add(c: Case)
      modifies this`cases
      ensures cases == old(cases) + [c]
    {
      cases := cases + [c];
    }

    method Println(s: string)
      modifies this`out
      ensures out == old(out) + s + "\n"
    {
      out := out + s + "\n";
    }

    // Counts the cases that are not chosen and lists those that are.
    method Select() returns (run: seq<Case>)
      modifies this`skip
      ensures run == Chosen(suite, only, cases) && skip == old(skip) + |cases| - |run|
    {
      hide Selected;
      run := [];
      for i := 0 to |cases|
        invariant Chosen(suite, only, cases) == run + Chosen(suite, only, cases[i..])
        invariant skip == old(skip) + i - |run| && |run| <= i
      {
        assert cases[i..][0] == cases[i] && cases[i..][1..] == cases[i + 1..];
        if Selected(suite, only, cases[i]) {
          run := run + [cases[i]];
        } else {
          skip := skip + 1;
        }
      }
      assert cases[|cases|..] == [] && run == Chosen(suite, only, cases);
    }

    method Mark(v: nat, title: string)
      modifies this`out
      ensures out == old(out) + Unlines(MarkLines(markDev, v, title))
    {
      hide Unlines;
      ghost var was := out;
      Nothing(was);
      if markDev.NoDevice? {
        return;
      }
      Println(MarkLine(v, title));
      ghost var done := Then(was, [], [MarkLine(v, title)], out);
      if markDev.refusal.Some? {
        Println("PVMINIT: mark " + Dec(v) + " failed: " + markDev.refusal.value);
        done := Then(was, done, ["PVMINIT: mark " + Dec(v) + " failed: " + markDev.refusal.value], out);
      }
      assert done == MarkLines(markDev, v, title);
    }

    // Sorts the cases and runs the chosen ones.
    method Run()
      requires pass == 0 && fail == 0 && failed == []
      modifies this
      ensures cases == SortCases(old(cases))
      ensures var chosen := Chosen(suite, only, cases);
        && skip == old(skip) + |cases| - |chosen|
        && pass == |PassedNames(chosen)| && fail == |FailedNames(chosen)| && failed == FailedNames(chosen)
        && out == old(out) + Unlines(["1.." + Dec(|chosen|)] + RunLines(markDev, 1, chosen))
    {
      hide Unlines;
      hide RunLines;
      hide CaseLines;
      hide MarkLines;
      hide SortCases;
      hide Chosen;
      hide PassedNames;
      hide FailedNames;
      hide Dec;
      cases := SortCases(cases);
      ghost var was := out;
      var run := Select();
      ghost var sorted, skipped := cases, skip;
      var head := "1.." + Dec(|run|);
      Println(head);
      ghost var done := OneLine(markDev, head, was, out);
      NobodyRan();
      assert run[..0] == [];
      for i := 0 to |run|
        invariant cases == sorted && skip == skipped
        invariant pass == |PassedNames(run[..i])| && fail == |FailedNames(run[..i])| && failed == FailedNames(run[..i])
        invariant done == [head] + RunLines(markDev, 1, run[..i]) && out == was + Unlines(done)
      {
        ghost var before := done;
        Mark(2 * (i + 1), run[i].name + "/before");
        done := Then(was, done, MarkLines(markDev, 2 * (i + 1), run[i].name + "/before"), out);
        RunOne(i + 1, run[i]);
        done := Then(was, done, CaseLines(i + 1, run[i]), out);
        Mark(2 * (i + 1) + 1, run[i].name + "/after");
        done := Then(was, done, MarkLines(markDev, 2 * (i + 1) + 1, run[i].name + "/after"), out);
        Bracket(before, markDev, i + 1, run[i], done);
        assert run[..i + 1] == run[..i] + [run[i]];
        OneMoreCase(markDev, 1, run[..i], run[i]);
        assert done == [head] + RunLines(markDev, 1, run[..i + 1]);
        OneMoreFailed(run[..i], run[i]);
        OneMorePassed(run[..i], run[i]);
      }
      assert run[..|run|] == run;
    }

    method PrintError(error: string)
      modifies this`out
      ensures out == old(out) + Unlines(Indented(Split(error, '\n')))
    {
      hide Unlines;
      hide Split;
      ghost var was := out;
      var parts := Split(error, '\n');
      ghost var done := Indented(parts)[..0];
      Nothing(was);
      for i := 0 to |parts|
        invariant done == Indented(parts)[..i] && out == was + Unlines(done)
      {
        Println("#   " + parts[i]);
        done := Then(was, done, ["#   " + parts[i]], out);
        assert Indented(parts)[..i + 1] == Indented(parts)[..i] + ["#   " + parts[i]];
      }
      assert Indented(parts)[..|parts|] == Indented(parts);
    }

    method PrintNotes(notes: seq<string>)
      modifies this`out
      ensures out == old(out) + Unlines(NoteLines(notes))
    {
      hide Unlines;
      hide Split;
      ghost var was := out;
      ghost var done: seq<string> := [];
      Nothing(was);
      assert notes[..0] == [];
      for i := 0 to |notes|
        invariant done == NoteLines(notes[..i]) && out == was + Unlines(done)
      {
        var note := "#   " + notes[i];
        Println(note);
        UnlinesSplit(note);
        done := Then(was, done, Split(note, '\n'), out);
        assert notes[..i + 1] == notes[..i] + [notes[i]];
        NoteAdded(notes[..i], notes[i]);
      }
      assert notes[..|notes|] == notes;
    }

    // One case: its verdict, its error or none, its notes.
    method RunOne(n: nat, c: Case)
      modifies this`pass, this`fail, this`failed, this`out
      ensures out == old(out) + Unlines(CaseLines(n, c))
      ensures pass == old(pass) + if c.ran.error.Some? then 0 else 1
      ensures fail == old(fail) + if c.ran.error.Some? then 1 else 0
      ensures failed == old(failed) + if c.ran.error.Some? then [c.name] else []
    {
      hide Unlines;
      hide Split;
      hide Indented;
      hide NoteLines;
      hide Verdict;
      ghost var was := out;
      out := out + Unlines(c.ran.printed);
      ghost var done := c.ran.printed;
      Println(Verdict(n, c));
      done := Then(was, done, [Verdict(n, c)], out);
      if c.ran.error.Some? {
        fail := fail + 1;
        failed := failed + [c.name];
        PrintError(c.ran.error.value);
        done := Then(was, done, Indented(Split(c.ran.error.value, '\n')), out);
      } else {
        pass := pass + 1;
      }
      PrintNotes(c.ran.notes);
      done := Then(was, done, NoteLines(c.ran.notes), out);
      assert done == CaseLines(n, c);
    }

    method Report(elapsed: string)
      modifies this`out
      ensures out == old(out) + Unlines(ReportLines(pass, fail, skip, failed, tag, suite, elapsed))
    {
      hide Unlines;
      ghost var was := out;
      var status := "ok";
      if fail > 0 || pass == 0 {
        status := "fail";
      }
      Println("");
      ghost var done := Then(was, [], [""], out);
      Println(Summary(pass, fail, skip, elapsed));
      done := Then(was, done, [Summary(pass, fail, skip, elapsed)], out);
      if |failed| > 0 {
        Println("# failed: " + Join(failed, " "));
        done := Then(was, done, ["# failed: " + Join(failed, " ")], out);
      }
      Println("PVMTEST-RESULT: " + status + " tag=" + tag + " suite=" + suite + " pass=" + Dec(pass)
        + " fail=" + Dec(fail));
      done := Then(was, done, [ResultLine(pass, fail, tag, suite)], out);
      assert done == ReportLines(pass, fail, skip, failed, tag, suite, elapsed);
    }
  }

  // Output that was some lines and has grown by some more.
  lemma Then(was: string, done: seq<string>, more: seq<string>, out: string) returns (now: seq<string>)
    requires out == was + Unlines(done) + Unlines(more) || (|more| == 1 && out == was + Unlines(done) + more[0] + "\n")
      || (done == [] && |more| == 1 && out == was + more[0] + "\n")
    ensures now == done + more && out == was + Unlines(now)
  {
    now := done + more;
    UnlinesAppend(done, more);
    if |more| == 1 {
      assert more[1..] == [];
      assert Unlines(more) == more[0] + "\n";
    }
  }

  lemma Bracket(before: seq<string>, dev: MarkDev, n: nat, c: Case, done: seq<string>)
    requires done == before + MarkLines(dev, 2 * n, c.name + "/before") + CaseLines(n, c)
      + MarkLines(dev, 2 * n + 1, c.name + "/after")
    ensures done == before + Bracketed(dev, n, c)
  {
    hide MarkLines;
    hide CaseLines;
  }

  lemma OneLine(dev: MarkDev, s: string, was: string, out: string) returns (done: seq<string>)
    requires out == was + s + "\n"
    ensures done == [s] + RunLines(dev, 1, []) && out == was + Unlines(done)
  {
    done := [s];
    assert [s][1..] == [];
  }

  lemma Nothing(was: string)
    ensures was + Unlines([]) == was
  {
  }

  lemma NobodyRan()
    ensures PassedNames([]) == [] && FailedNames([]) == []
  {
  }

  lemma {:induction false} NoteAdded(notes: seq<string>, note: string)
    ensures NoteLines(notes + [note]) == NoteLines(notes) + Split("#   " + note, '\n')
  {
    hide Split;
    if notes == [] {
      assert (notes + [note])[1..] == [];
      assert notes + [note] == [note];
    } else {
      NoteAdded(notes[1..], note);
      assert (notes + [note])[1..] == notes[1..] + [note];
    }
  }

  lemma {:induction false} OneMoreCase(dev: MarkDev, n: nat, cases: seq<Case>, c: Case)
    ensures RunLines(dev, n, cases + [c]) == RunLines(dev, n, cases) + Bracketed(dev, n + |cases|, c)
    decreases cases
  {
    hide Bracketed;
    var more := cases + [c];
    if cases == [] {
      assert more == [c] && more[1..] == [];
    } else {
      OneMoreCase(dev, n + 1, cases[1..], c);
      assert more[1..] == cases[1..] + [c] && more[0] == cases[0];
      assert Bracketed(dev, n, cases[0]) + (RunLines(dev, n + 1, cases[1..]) + Bracketed(dev, n + |cases|, c))
        == (Bracketed(dev, n, cases[0]) + RunLines(dev, n + 1, cases[1..])) + Bracketed(dev, n + |cases|, c);
    }
  }

  lemma {:induction false} OneMoreFailed(cases: seq<Case>, c: Case)
    ensures FailedNames(cases + [c]) == FailedNames(cases) + FailedHead(c)
  {
    hide FailedHead;
    var more := cases + [c];
    if cases == [] {
      assert more == [c] && more[1..] == [];
    } else {
      OneMoreFailed(cases[1..], c);
      assert more[1..] == cases[1..] + [c] && more[0] == cases[0];
      var x, y, z := FailedHead(cases[0]), FailedNames(cases[1..]), FailedHead(c);
      assert x + (y + z) == (x + y) + z;
    }
  }

  lemma {:induction false} OneMorePassed(cases: seq<Case>, c: Case)
    ensures PassedNames(cases + [c]) == PassedNames(cases) + PassedHead(c)
  {
    hide PassedHead;
    var more := cases + [c];
    if cases == [] {
      assert more == [c] && more[1..] == [];
    } else {
      OneMorePassed(cases[1..], c);
      assert more[1..] == cases[1..] + [c] && more[0] == cases[0];
      var x, y, z := PassedHead(cases[0]), PassedNames(cases[1..]), PassedHead(c);
      assert x + (y + z) == (x + y) + z;
    }
  }

  // A whole run: what has been printed by the end are the lines of Printed.
  method RunAll(dev: MarkDev, suite: string, tag: string, only: string, cases: seq<Case>, elapsed: string)
      returns (out: string)
    ensures var chosen := Chosen(suite, only, SortCases(cases));
      out == Unlines(Printed(dev, chosen, |cases| - |chosen|, tag, suite, elapsed))
  {
    hide Unlines;
    hide RunLines;
    hide ReportLines;
    hide SortCases;
    hide Chosen;
    var h := new Harness(suite, tag, only, dev);
    for i := 0 to |cases|
      invariant h.cases == cases[..i] && h.pass == 0 && h.fail == 0 && h.skip == 0 && h.failed == [] && h.out == ""
    {
      h.Add(cases[i]);
      assert cases[..i + 1] == cases[..i] + [cases[i]];
    }
    assert cases[..|cases|] == cases;
    h.Run();
    ghost var chosen := Chosen(suite, only, SortCases(cases));
    ghost var first := ["1.." + Dec(|chosen|)] + RunLines(dev, 1, chosen);
    assert h.out == Unlines(first);
    h.Report(elapsed);
    UnlinesAppend(first, ReportLines(h.pass, h.fail, h.skip, h.failed, tag, suite, elapsed));
    out := h.out;
  }
}
