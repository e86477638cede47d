// What the guest's lines are to the host: the agent's prefix in front of each,
// other lines anywhere between them, and which of them the parser takes for
// cases, results or failed loads.
//
// What a line adds to the names and to the verdict does not depend on the
// lines around it, so noise can be dropped line by line.
module ResultLines {
  import opened Decimals
  import opened Harnesses
  import opened Lines
  import opened Options
  import opened ResultLog
  import opened Text
  import opened Words

  const PREFIX: string := "G[q35]: "

  function Tagged(ls: seq<string>): seq<string> {
    seq(|ls|, i requires 0 <= i < |ls| => PREFIX + ls[i])
  }

  // A log that has the guest's lines in their order, with noise anywhere
  // between them.
  predicate Woven(log: seq<string>, guest: seq<string>, noise: string -> bool) {
    if log == [] then guest == []
    else
      || (guest != [] && log[0] == guest[0] && Woven(log[1..], guest[1..], noise))
      || (noise(log[0]) && Woven(log[1..], guest, noise))
  }

  // --- lines without effect -----------------------------------------------

  // No case is named in it, and it does not stop the parser.
  predicate Nameless(l: string) {
    var line := CutReturns(l);
    PassedIn(line) == [] && FailedIn(line) == [] && !Panics(line)
  }

  // It says nothing against the run: no host test result, no failed load.
  predicate Bland(l: string) {
    HostBy(CutReturns(l)) == None && !LoadsBy(CutReturns(l))
  }

  // It does not count as a result of any kind.
  predicate Barren(l: string) {
    !Counted(CutReturns(l))
  }

  predicate Harmless(l: string) {
    Nameless(l) && Bland(l) && Barren(l)
  }

  lemma {:induction false} WovenNames(log: seq<string>, guest: seq<string>, noise: string -> bool)
    requires Woven(log, guest, noise) && forall l :: noise(l) ==> Nameless(l)
    ensures AllPassed(log) == AllPassed(guest) && AllFailed(log) == AllFailed(guest)
  {
    hide Nameless;
    if log != [] {
      if guest != [] && log[0] == guest[0] && Woven(log[1..], guest[1..], noise) {
        WovenNames(log[1..], guest[1..], noise);
      } else {
        WovenNames(log[1..], guest, noise);
        NamelessAddsNothing(log[0]);
        assert [] + AllPassed(log[1..]) == AllPassed(log[1..]) && [] + AllFailed(log[1..]) == AllFailed(log[1..]);
      }
    }
  }

  lemma NamelessAddsNothing(l: string)
    requires Nameless(l)
    ensures PassedIn(CutReturns(l)) == [] && FailedIn(CutReturns(l)) == [] && !Panics(CutReturns(l))
  {
  }

  // Every line of the log is one of the guest's or noise.
  lemma {:induction false} WovenLines(log: seq<string>, guest: seq<string>, noise: string -> bool)
    requires Woven(log, guest, noise)
    ensures forall l <- log :: l in guest || noise(l)
  {
    if log != [] {
      if guest != [] && log[0] == guest[0] && Woven(log[1..], guest[1..], noise) {
        WovenLines(log[1..], guest[1..], noise);
      } else {
        WovenLines(log[1..], guest, noise);
      }
    }
  }

  // --- the guest's own lines ----------------------------------------------

  lemma {:induction false} CutBehind(a: string, b: string)
    requires a != "" && a[|a| - 1] != '\r'
    ensures CutReturns(a + b) == a + CutReturns(b)
  {
    var s := a + b;
    if b == "" {
      assert s == a;
    } else if b[|b| - 1] == '\r' {
      CutBehind(a, b[..|b| - 1]);
      assert s[..|s| - 1] == a + b[..|b| - 1];
    }
  }

  // The parser takes off the prefix the agent put on.
  lemma Unprefixed(l: string)
    ensures CutReturns(PREFIX + l) == PREFIX + CutReturns(l)
    ensures Body(PREFIX + CutReturns(l)) == CutReturns(l)
    ensures !Panics(PREFIX + CutReturns(l)) && !HasPrefix(PREFIX + CutReturns(l), "L1: ")
      && !HasPrefix(PREFIX + CutReturns(l), LOAD_FAILED)
  {
    hide Fields;
    hide Body;
    hide HasPrefix;
    CutBehind(PREFIX, l);
    var line := PREFIX + CutReturns(l);
    TagBody(CutReturns(l));
    NoPrefix(line, FAILCLOSED);
    NoPrefix(line, "L1: ");
    NoPrefix(line, LOAD_FAILED);
  }

  lemma TagBody(s: string)
    ensures Body(PREFIX + s) == s && (PREFIX + s)[0] == 'G'
  {
    var line := PREFIX + s;
    assert line[2..] == "q35" + ("]: " + s);
    RunStops("q35", "]: " + s, LowerOrDigit);
    assert line[5..] == "]: " + s;
    assert line[8..] == s;
    assert !HasPrefix(line, "H: ") by {
      NoPrefix(line, "H: ");
    }
  }

  lemma VerdictNames(n: nat, c: Case)
    requires GoodName(c.name)
    ensures CutReturns(Verdict(n, c)) == Verdict(n, c)
    ensures Tap(Verdict(n, c)) == Some((c.ran.error == None, c.name))
  {
    hide TapName;
    TapNameIs(n, c.name, c.ran.took);
    var v, rest := Verdict(n, c), Dec(n) + " - " + c.name + " (" + c.ran.took + ")";
    assert v[|v| - 1] == ')';
    if c.ran.error.Some? {
      assert v == "not ok " + rest;
      assert v[0] == 'n' && v[7..] == rest;
    } else {
      assert v == "ok " + rest;
      assert v[3..] == rest;
    }
  }

  // --- what the guest's lines name ----------------------------------------

  lemma AllAppend(a: seq<string>, b: seq<string>)
    ensures AllPassed(a + b) == AllPassed(a) + AllPassed(b)
    ensures AllFailed(a + b) == AllFailed(a) + AllFailed(b)
  {
    hide AllPassed;
    hide AllFailed;
    AllPassedAppend(a, b);
    AllFailedAppend(a, b);
  }

  lemma {:induction false} AllPassedAppend(a: seq<string>, b: seq<string>)
    ensures AllPassed(a + b) == AllPassed(a) + AllPassed(b)
  {
    hide PassedIn;
    if a == [] {
      assert a + b == b;
    } else {
      AllPassedAppend(a[1..], b);
      assert (a + b)[1..] == a[1..] + b && (a + b)[0] == a[0];
    }
  }

  lemma {:induction false} AllFailedAppend(a: seq<string>, b: seq<string>)
    ensures AllFailed(a + b) == AllFailed(a) + AllFailed(b)
  {
    hide FailedIn;
    if a == [] {
      assert a + b == b;
    } else {
      AllFailedAppend(a[1..], b);
      assert (a + b)[1..] == a[1..] + b && (a + b)[0] == a[0];
    }
  }

  lemma AllOne(l: string)
    ensures AllPassed([l]) == PassedIn(CutReturns(l)) && AllFailed([l]) == FailedIn(CutReturns(l))
  {
    hide PassedIn;
    hide FailedIn;
    assert [l][1..] == [];
  }

  lemma {:induction false} NamelessAll(ls: seq<string>)
    requires forall l <- ls :: Nameless(l)
    ensures AllPassed(ls) == [] && AllFailed(ls) == []
  {
    hide Nameless;
    if ls != [] {
      NamelessAddsNothing(ls[0]);
      NamelessAll(ls[1..]);
    }
  }

  // A line of the guest's is nameless by how it starts.
  lemma NamelessStart(l: string)
    requires var b := CutReturns(l); Tap(b) == None && !HasPrefix(b, "# failed: ")
    ensures Nameless(PREFIX + l)
  {
    hide Body;
    hide Tap;
    hide Panics;
    hide HasPrefix;
    Unprefixed(l);
  }

  lemma PrefixAt(s: string, p: string, k: nat)
    requires HasPrefix(s, p) && k < |p|
    ensures k < |s| && s[k] == p[k]
  {
    assert s[0..|p|][k] == s[k];
  }

  // Lines that start with # and a blank, but not with "# f".
  lemma Comment(start: string, rest: string)
    requires |start| >= 3 && start[..2] == "# " && start[2] != 'f' && start[|start| - 1] != '\r'
    ensures Nameless(PREFIX + (start + rest))
  {
    CutBehind(start, rest);
    var b := start + CutReturns(rest);
    assert b[0] == '#' && b[2] == start[2];
    assert Tap(b) == None by {
      NoPrefix(b, "ok ");
      NoPrefix(b, "not ok ");
    }
    assert !HasPrefix(b, "# failed: ") by {
      if HasPrefix(b, "# failed: ") {
        PrefixAt(b, "# failed: ", 2);
        assert false;
      }
    }
    NamelessStart(start + rest);
  }

  lemma TaggedAll(ls: seq<string>)
    requires forall l <- ls :: Nameless(PREFIX + l)
    ensures AllPassed(Tagged(ls)) == [] && AllFailed(Tagged(ls)) == []
  {
    hide Nameless;
    NamelessAll(Tagged(ls));
  }

  lemma TaggedAppend(a: seq<string>, b: seq<string>)
    ensures AllPassed(Tagged(a + b)) == AllPassed(Tagged(a)) + AllPassed(Tagged(b))
    ensures AllFailed(Tagged(a + b)) == AllFailed(Tagged(a)) + AllFailed(Tagged(b))
  {
    assert Tagged(a + b) == Tagged(a) + Tagged(b);
    AllAppend(Tagged(a), Tagged(b));
  }

  lemma CutNothing(s: string)
    requires s == "" || s[|s| - 1] != '\r'
    ensures CutReturns(s) == s
  {
  }

  // What the summary of failed cases lists: the words of their names, each
  // without a comma at its end.
  function Summarised(names: seq<string>): seq<string> {
    TrimCommas(Fields(Join(names, " ")))
  }

  lemma NothingSummarised()
    ensures Summarised([]) == []
  {
    hide Fields;
    NoFields();
  }

  // Good names are listed as they are.
  lemma GoodSummary(names: seq<string>)
    requires forall n <- names :: GoodName(n)
    ensures Summarised(names) == names
  {
    hide Join;
    hide Fields;
    forall n | n in names ensures Word(n) && TrimComma(n) == n {
      assert GoodName(n);
      assert n[|n| - 1] in n;
    }
    FieldsJoin(names);
    assert TrimCommas(names) == names;
  }

  // A carriage return is white space to the words in front of it.
  lemma {:induction false} FieldsCut(s: string)
    ensures Fields(CutReturns(s)) == Fields(s)
  {
    hide Fields;
    if s != "" && s[|s| - 1] == '\r' {
      var t := s[..|s| - 1];
      FieldsCut(t);
      FieldsAppend(t, '\r', "");
      NoFields();
      assert s == t + (['\r'] + "");
    }
  }

  lemma FailedLine(names: seq<string>)
    ensures AllFailed(Tagged(["# failed: " + Join(names, " ")])) == Summarised(names)
  {
    hide Body;
    hide Join;
    hide Fields;
    var rest := Join(names, " ");
    var l := "# failed: " + rest;
    CutBehind("# failed: ", rest);
    FieldsCut(rest);
    Unprefixed(l);
    AllOne(PREFIX + l);
    assert Tagged([l]) == [PREFIX + l];
    var b := CutReturns(l);
    assert b[..10] == "# failed: " && b[10..] == CutReturns(rest);
    NoPrefix(b, "ok ");
    NoPrefix(b, "not ok ");
  }

  // Whatever it lists, it names no passed case.
  lemma FailedLinePassed(names: seq<string>)
    ensures AllPassed(Tagged(["# failed: " + Join(names, " ")])) == []
  {
    hide Body;
    hide Join;
    var rest := Join(names, " ");
    var l := "# failed: " + rest;
    CutBehind("# failed: ", rest);
    Unprefixed(l);
    AllOne(PREFIX + l);
    assert Tagged([l]) == [PREFIX + l];
    assert CutReturns(l)[0] == '#';
    NoPrefix(CutReturns(l), "ok ");
    NoPrefix(CutReturns(l), "not ok ");
  }

  lemma PlainLine(l: string)
    requires l == "" || (l[0] != 'o' && l[0] != 'n' && l[0] != '#' && l[0] != '\r')
    ensures Nameless(PREFIX + l)
  {
    if l != "" {
      CutBehind([l[0]], l[1..]);
      assert l == [l[0]] + l[1..];
    }
    var b := CutReturns(l);
    NoPrefix(b, "ok ");
    NoPrefix(b, "not ok ");
    NoPrefix(b, "# failed: ");
    NamelessStart(l);
  }

  lemma ReportFailed(pass: nat, fail: nat, skip: nat, failed: seq<string>, tag: string, suite: string, elapsed: string)
    ensures AllFailed(Tagged(ReportLines(pass, fail, skip, failed, tag, suite, elapsed))) == Summarised(failed)
  {
    hide AllPassed;
    hide AllFailed;
    hide Tagged;
    hide Nameless;
    hide Join;
    hide Summarised;
    var sum, res := Summary(pass, fail, skip, elapsed), ResultLine(pass, fail, tag, suite);
    var more := if failed == [] then [] else ["# failed: " + Join(failed, " ")];
    PlainLine("");
    SummaryIsComment(pass, fail, skip, elapsed);
    assert res[0] == 'P';
    PlainLine(res);
    TaggedAll(["", sum]);
    TaggedAll([res]);
    if failed == [] {
      TaggedAll([]);
      NothingSummarised();
    } else {
      FailedLine(failed);
    }
    TaggedAppend(["", sum] + more, [res]);
    TaggedAppend(["", sum], more);
  }

  lemma ReportPassed(pass: nat, fail: nat, skip: nat, failed: seq<string>, tag: string, suite: string, elapsed: string)
    ensures AllPassed(Tagged(ReportLines(pass, fail, skip, failed, tag, suite, elapsed))) == []
  {
    hide AllPassed;
    hide AllFailed;
    hide Tagged;
    hide Nameless;
    hide Join;
    var sum, res := Summary(pass, fail, skip, elapsed), ResultLine(pass, fail, tag, suite);
    var more := if failed == [] then [] else ["# failed: " + Join(failed, " ")];
    PlainLine("");
    SummaryIsComment(pass, fail, skip, elapsed);
    assert res[0] == 'P';
    PlainLine(res);
    TaggedAll(["", sum]);
    TaggedAll([res]);
    if failed == [] { TaggedAll([]); } else { FailedLinePassed(failed); }
    TaggedAppend(["", sum] + more, [res]);
    TaggedAppend(["", sum], more);
  }

  lemma SummaryIsComment(pass: nat, fail: nat, skip: nat, elapsed: string)
    ensures Nameless(PREFIX + Summary(pass, fail, skip, elapsed))
  {
    hide Nameless;
    var rest := Dec(pass + fail) + ", passed " + Dec(pass) + ", failed " + Dec(fail) + ", not selected " + Dec(skip)
      + ", in " + elapsed;
    assert Summary(pass, fail, skip, elapsed) == "# ran " + rest;
    Comment("# ran ", rest);
  }

  lemma HeadIsPlain(n: nat)
    ensures Nameless(PREFIX + ("1.." + Dec(n)))
  {
    hide Nameless;
    PlainLine("1.." + Dec(n));
  }

  // --- from text to text --------------------------------------------------

  // What has to be one line is one line.
  predicate OneLiners(dev: MarkDev, chosen: seq<Case>, tag: string, suite: string, elapsed: string) {
    '\n' !in tag && '\n' !in suite && '\n' !in elapsed
      && (dev.Device? && dev.refusal.Some? ==> '\n' !in dev.refusal.value)
    && forall c <- chosen :: OneLineCase(c)
  }

  predicate OneLineCase(c: Case) {
    '\n' !in c.name && '\n' !in c.ran.took && forall l <- c.ran.printed :: '\n' !in l
  }

  lemma DecHasNone(n: nat, c: char)
    requires !Digit(c)
    ensures c !in Dec(n)
  {
    DecValue(n);
  }

  lemma {:induction false} NoteLinesWhole(notes: seq<string>)
    ensures forall l <- NoteLines(notes) :: '\n' !in l
  {
    hide Split;
    if notes != [] {
      NoteLinesWhole(notes[1..]);
      SplitHasNone("#   " + notes[0], '\n');
    }
  }

  lemma RemarksWhole(c: Case)
    ensures forall l <- Remarks(c) :: '\n' !in l
  {
    hide Split;
    hide NoteLines;
    NoteLinesWhole(c.ran.notes);
    if c.ran.error.Some? {
      SplitHasNone(c.ran.error.value, '\n');
    }
  }

  lemma VerdictWhole(n: nat, c: Case)
    requires '\n' !in c.name && '\n' !in c.ran.took
    ensures '\n' !in Verdict(n, c)
  {
    hide Dec;
    DecHasNone(n, '\n');
  }

  lemma MarksWhole(dev: MarkDev, v: nat, title: string)
    requires '\n' !in title && (dev.Device? && dev.refusal.Some? ==> '\n' !in dev.refusal.value)
    ensures forall l <- MarkLines(dev, v, title) :: '\n' !in l
  {
    hide Dec;
    DecHasNone(v, '\n');
  }

  lemma {:induction false} RunWhole(dev: MarkDev, n: nat, cases: seq<Case>)
    requires (forall c <- cases :: OneLineCase(c)) && (dev.Device? && dev.refusal.Some? ==> '\n' !in dev.refusal.value)
    ensures forall l <- RunLines(dev, n, cases) :: '\n' !in l
    decreases cases
  {
    hide Verdict;
    hide Remarks;
    hide MarkLines;
    if cases != [] {
      var c := cases[0];
      assert OneLineCase(c);
      MarksWhole(dev, 2 * n, c.name + "/before");
      MarksWhole(dev, 2 * n + 1, c.name + "/after");
      VerdictWhole(n, c);
      RemarksWhole(c);
      RunWhole(dev, n + 1, cases[1..]);
    }
  }

  lemma SummaryWhole(pass: nat, fail: nat, skip: nat, elapsed: string)
    requires '\n' !in elapsed
    ensures '\n' !in Summary(pass, fail, skip, elapsed)
  {
    hide Dec;
    DecHasNone(pass + fail, '\n');
    DecHasNone(pass, '\n');
    DecHasNone(fail, '\n');
    DecHasNone(skip, '\n');
  }

  lemma ResultWhole(pass: nat, fail: nat, tag: string, suite: string)
    requires '\n' !in tag && '\n' !in suite
    ensures '\n' !in ResultLine(pass, fail, tag, suite)
  {
    hide Dec;
    DecHasNone(pass, '\n');
    DecHasNone(fail, '\n');
  }

  lemma {:induction false} FailedOneLine(cases: seq<Case>)
    requires forall c <- cases :: OneLineCase(c)
    ensures forall n <- FailedNames(cases) :: '\n' !in n
  {
    if cases != [] {
      assert OneLineCase(cases[0]);
      FailedOneLine(cases[1..]);
    }
  }

  lemma PrintedWhole(dev: MarkDev, chosen: seq<Case>, skip: nat, tag: string, suite: string, elapsed: string)
    requires OneLiners(dev, chosen, tag, suite, elapsed)
    ensures forall l <- Printed(dev, chosen, skip, tag, suite, elapsed) :: '\n' !in l
  {
    hide RunLines;
    hide Join;
    hide Summary;
    hide ResultLine;
    hide OneLineCase;
    var failed := FailedNames(chosen);
    DecHasNone(|chosen|, '\n');
    RunWhole(dev, 1, chosen);
    FailedOneLine(chosen);
    JoinChars(failed, ' ', '\n');
    SummaryWhole(|PassedNames(chosen)|, |failed|, skip, elapsed);
    ResultWhole(|PassedNames(chosen)|, |failed|, tag, suite);
  }

  // The prefixed stream reads as the printed lines, each behind the prefix.
  lemma PrefixedText(ls: seq<string>)
    requires forall l <- ls :: '\n' !in l
    ensures SplitLines(Prefixed(PREFIX, LinesOf(Unlines(ls)))) == Tagged(ls)
  {
    hide LinesOf;
    hide Prefixed;
    hide Unlines;
    LinesOfUnlines(ls);
    LinesAreWhole(Unlines(ls));
    PrefixedLines(PREFIX, LinesOf(Unlines(ls)));
  }

  lemma {:induction false} NoneTooLong(lines: seq<string>)
    requires forall l <- lines :: |l| < SCAN_MAX
    ensures UpToLong(lines) == lines
  {
    if lines != [] {
      NoneTooLong(lines[1..]);
      assert lines == [lines[0]] + lines[1..];
    }
  }

  // --- lines without a verdict ----------------------------------------------

  // Nothing in the line starts one of the unanchored patterns.
  predicate PatternLess(s: string) {
    'P' !in s && 'L' !in s
  }

  lemma {:induction false} CutKeeps(s: string)
    ensures forall c <- CutReturns(s) :: c in s
  {
    if s != "" && s[|s| - 1] == '\r' {
      CutKeeps(s[..|s| - 1]);
    }
  }

  lemma PatternFree(l: string)
    requires PatternLess(l) && (l != "" ==> l[0] != 'S' && l[0] != 'K')
    ensures Bland(PREFIX + l) && Barren(PREFIX + l)
  {
    hide ResultHere;
    hide MetricHere;
    hide HostHere;
    hide Body;
    hide HasPrefix;
    hide Contains;
    var b := CutReturns(l);
    Unprefixed(l);
    CutKeeps(l);
    forall i | 0 <= i <= |b|
      ensures ResultHere(b[i..]) == None && MetricHere(b[i..]) == None && HostHere(b[i..]) == None
    {
      if i < |b| {
        assert b[i..][0] == b[i] && b[i] in b;
      }
      PatternStart(b[i..]);
    }
    NoMatch(b, ResultHere);
    NoMatch(b, MetricHere);
    NoMatch(b, HostHere);
    NotContained(b);
    FirstKept(l);
    NoPrefix(b, "SELFTEST: ");
    NoPrefix(b, "KUT: ");
  }

  lemma {:induction false} FirstKept(l: string)
    ensures CutReturns(l) != "" ==> l != "" && CutReturns(l)[0] == l[0]
  {
    if l != "" && l[|l| - 1] == '\r' {
      FirstKept(l[..|l| - 1]);
    }
  }

  lemma StartsWith(s: string, sub: string, i: nat)
    requires sub != "" && StartsAt(s, sub, i)
    ensures sub[0] in s
  {
    assert s[i..i + |sub|][0] == s[i];
  }

  lemma NotContained(b: string)
    requires 'L' !in b
    ensures !Contains(b, LOAD_FAILED)
  {
    if Contains(b, LOAD_FAILED) {
      var i :| 0 <= i <= |b| && StartsAt(b, LOAD_FAILED, i);
      StartsWith(b, LOAD_FAILED, i);
      assert false;
    }
  }

  // One key and its value, a blank in front and none inside.
  predicate Chunk(c: string) {
    |c| >= 2 && c[0] == ' ' && forall k | 1 <= k < |c| :: c[k] != ' '
  }

  predicate Unspaced(s: string) { forall k | 0 <= k < |s| :: s[k] != ' ' }

  lemma ChunkOf(key: string, value: string)
    requires Chunk(key) && Unspaced(value)
    ensures Chunk(key + value) && (key + value)[1] == key[1]
    ensures (key + value)[|key + value| - 1] == if value == "" then key[|key| - 1] else value[|value| - 1]
  {
  }

  // Blanks only where one chunk meets the next.
  lemma ChunkBlanks(a: string, b: string, c: string, d: string, j: nat)
    requires Chunk(a) && Chunk(b) && Chunk(c) && Chunk(d)
    requires j < |a + b + c + d| && (a + b + c + d)[j] == ' '
    ensures j == 0 || j == |a| || j == |a + b| || j == |a + b + c|
  {
  }

  // A colon and a blank inside the four chunks are never followed by an o or
  // an f, when only the fourth starts with one and the third ends in no colon.
  lemma NoWordInChunks(a: string, b: string, c: string, d: string, k: nat)
    requires Chunk(a) && Chunk(b) && Chunk(c) && Chunk(d) && c[|c| - 1] != ':'
    requires b[1] != 'o' && b[1] != 'f' && c[1] != 'o' && c[1] != 'f'
    requires k + 2 < |a + b + c + d| && (a + b + c + d)[k] == ':' && (a + b + c + d)[k + 1] == ' '
    ensures (a + b + c + d)[k + 2] != 'o' && (a + b + c + d)[k + 2] != 'f'
  {
    ChunkBlanks(a, b, c, d, k + 1);
  }

  // The result line as its word and four chunks.
  lemma ResultChunks(pass: nat, fail: nat, tag: string, suite: string)
      returns (a: string, b: string, c: string, d: string)
    requires Unspaced(tag) && Unspaced(suite)
    ensures ResultLine(pass, fail, tag, suite) == ("PVMTEST-RESULT: " + RunStatus(pass, fail)) + (a + b + c + d)
    ensures Chunk(a) && Chunk(b) && Chunk(c) && Chunk(d) && |c| >= 2 && |d| >= 2 && Digit(c[|c| - 1])
      && Digit(d[|d| - 1]) && |b| >= 2 && b[1] == 's' && c[1] == 'p'
  {
    hide Dec;
    hide Chunk;
    hide Unspaced;
    hide RunStatus;
    var p, f := Dec(pass), Dec(fail);
    a, b, c, d := " tag=" + tag, " suite=" + suite, " pass=" + p, " fail=" + f;
    DecIsUnspaced(pass);
    DecIsUnspaced(fail);
    Keys();
    ChunkOf(" tag=", tag);
    ChunkOf(" suite=", suite);
    ChunkOf(" pass=", p);
    ChunkOf(" fail=", f);
    Grouped("PVMTEST-RESULT: ", RunStatus(pass, fail), tag, suite, p, f);
  }

  lemma Keys()
    ensures Chunk(" tag=") && Chunk(" suite=") && Chunk(" pass=") && Chunk(" fail=")
  {
  }

  lemma DecIsUnspaced(n: nat)
    ensures Unspaced(Dec(n)) && Digit(Dec(n)[|Dec(n)| - 1])
  {
    DecValue(n);
  }

  lemma Grouped(head: string, st: string, tag: string, suite: string, p: string, f: string)
    ensures head + st + " tag=" + tag + " suite=" + suite + " pass=" + p + " fail=" + f
      == (head + st) + ((" tag=" + tag) + (" suite=" + suite) + (" pass=" + p) + (" fail=" + f))
  {
  }

  // No host test result stands anywhere in the guest's own result line.
  lemma NoHostInResult(head: string, st: string, tail: string, i: nat)
    requires head == "PVMTEST-RESULT: " && (st == "ok" || st == "fail") && i <= |head + st + tail|
    requires forall k | 0 <= k < |tail| - 2 :: tail[k] == ':' && tail[k + 1] == ' ' ==>
      tail[k + 2] != 'o' && tail[k + 2] != 'f'
    ensures HostHere((head + st + tail)[i..]) == None
  {
    hide Counts;
    hide HasPrefix;
    var s := head + st + tail;
    if HasPrefix(s[i..], "PVMHOSTTEST-RESULT: ok") {
      HostPlace(s, i, "PVMHOSTTEST-RESULT: ok");
      NoHostAt(head, st, tail, i);
    } else if HasPrefix(s[i..], "PVMHOSTTEST-RESULT: fail") {
      HostPlace(s, i, "PVMHOSTTEST-RESULT: fail");
      NoHostAt(head, st, tail, i);
    }
  }

  lemma HostPlace(s: string, i: nat, p: string)
    requires i <= |s| && HasPrefix(s[i..], p) && (p == "PVMHOSTTEST-RESULT: ok" || p == "PVMHOSTTEST-RESULT: fail")
    ensures i + 20 < |s| && s[i + 3] == 'H' && s[i + 18] == ':' && s[i + 19] == ' '
      && (s[i + 20] == 'o' || s[i + 20] == 'f')
  {
    PrefixAt(s[i..], p, 3);
    PrefixAt(s[i..], p, 18);
    PrefixAt(s[i..], p, 19);
    PrefixAt(s[i..], p, 20);
  }

  lemma NoHostAt(head: string, st: string, tail: string, i: nat)
    requires head == "PVMTEST-RESULT: " && (st == "ok" || st == "fail") && i + 20 < |head + st + tail|
    requires forall k | 0 <= k < |tail| - 2 :: tail[k] == ':' && tail[k + 1] == ' ' ==>
      tail[k + 2] != 'o' && tail[k + 2] != 'f'
    ensures var s := head + st + tail;
      !(s[i + 3] == 'H' && s[i + 18] == ':' && s[i + 19] == ' ' && (s[i + 20] == 'o' || s[i + 20] == 'f'))
  {
  }

  lemma WordFirst(st: string, tail: string)
    requires st == "ok" || st == "fail"
    ensures ResultWord(st + tail) == Some(st)
  {
    assert (st + tail)[0..|st|] == st;
    assert (st + tail)[0] == st[0];
  }

  // The result line is the run's own verdict and nothing else to the parser.
  lemma ResultIsBland(pass: nat, fail: nat, tag: string, suite: string)
    requires Unspaced(tag) && Unspaced(suite)
    ensures Bland(PREFIX + ResultLine(pass, fail, tag, suite)) && Barren(PREFIX + ResultLine(pass, fail, tag, suite))
  {
    hide MetricHere;
    hide HostHere;
    hide Body;
    hide Contains;
    hide Chunk;
    hide ResultWord;
    hide Dec;
    hide ResultLine;
    var l := ResultLine(pass, fail, tag, suite);
    var head, st := "PVMTEST-RESULT: ", RunStatus(pass, fail);
    var a, b, c, d := ResultChunks(pass, fail, tag, suite);
    var tail := a + b + c + d;
    assert l == head + st + tail && l[|l| - 1] == d[|d| - 1];
    CutNothing(l);
    Unprefixed(l);
    forall k | 0 <= k < |tail| - 2 && tail[k] == ':' && tail[k + 1] == ' '
      ensures tail[k + 2] != 'o' && tail[k + 2] != 'f'
    {
      NoWordInChunks(a, b, c, d, k);
    }
    forall i | 0 <= i <= |l| ensures HostHere(l[i..]) == None {
      NoHostInResult(head, st, tail, i);
    }
    NoMatch(l, HostHere);
    assert l[16..] == st + tail;
    WordFirst(st, tail);
    assert HasPrefix(l, head) && ResultHere(l) == Some(st);
    NoPrefix(l, "SELFTEST: ");
    NoPrefix(l, "KUT: ");
  }

  lemma SettledIsBland(l: string)
    requires Settled(CutReturns(l))
    ensures Bland(PREFIX + l)
  {
    hide Settled;
    hide Body;
    hide FirstMatch;
    Unprefixed(l);
  }

  lemma VerdictIsBland(n: nat, c: Case)
    requires GoodName(c.name)
    ensures Bland(PREFIX + Verdict(n, c))
  {
    hide Bland;
    hide Tap;
    hide Verdict;
    VerdictNames(n, c);
    SettledIsBland(Verdict(n, c));
  }

  // --- the marks ----------------------------------------------------------

  lemma MarksNameless(dev: MarkDev, v: nat, title: string)
    ensures forall l <- MarkLines(dev, v, title) :: Nameless(PREFIX + l)
  {
    hide Nameless;
    hide Dec;
    forall l | l in MarkLines(dev, v, title) ensures Nameless(PREFIX + l) {
      assert l[0] == 'P';
      PlainLine(l);
    }
  }

  // What is said about a mark that could not be written.
  function Refusal(dev: MarkDev, v: nat): seq<string> {
    match dev
    case Device(Some(e)) => ["PVMINIT: mark " + Dec(v) + " failed: " + e]
    case _ => []
  }

  // A line whose only colon is its thirteenth character has no host result and
  // no failed load.
  lemma OneColon(b: string)
    requires |b| >= 13 && b[0] == 'P' && b[10] == 'R' && forall k | 0 <= k < |b| && k != 12 :: b[k] != ':'
    ensures FirstMatch(b, HostHere) == None && !Contains(b, LOAD_FAILED)
  {
    hide HostHere;
    forall i | 0 <= i <= |b| ensures HostHere(b[i..]) == None {
      NoHostThere(b, i);
    }
    NoMatch(b, HostHere);
    if Contains(b, LOAD_FAILED) {
      var i :| 0 <= i <= |b| && StartsAt(b, LOAD_FAILED, i);
      PlaceChar(b, LOAD_FAILED, i, 0);
      PlaceChar(b, LOAD_FAILED, i, 2);
      assert false;
    }
  }

  lemma PlaceChar(s: string, sub: string, i: nat, k: nat)
    requires StartsAt(s, sub, i) && k < |sub|
    ensures i + k < |s| && s[i + k] == sub[k]
  {
    assert s[i..i + |sub|][k] == s[i + k];
  }

  lemma NoHostThere(b: string, i: nat)
    requires i <= |b| && forall k | 0 <= k < |b| && k != 12 :: b[k] != ':'
    ensures HostHere(b[i..]) == None
  {
    hide Counts;
    hide HasPrefix;
    assert forall k | 0 <= k < |b| - i :: b[i..][k] == b[i + k];
    if HasPrefix(b[i..], "PVMHOSTTEST-RESULT: ok") {
      PrefixAt(b[i..], "PVMHOSTTEST-RESULT: ok", 18);
    }
    if HasPrefix(b[i..], "PVMHOSTTEST-RESULT: fail") {
      PrefixAt(b[i..], "PVMHOSTTEST-RESULT: fail", 18);
    }
  }

  lemma MarkIsBland(v: nat, title: string)
    requires ':' !in title
    ensures Bland(PREFIX + MarkLine(v, title))
  {
    hide MarkLine;
    hide FirstMatch;
    hide Body;
    hide Contains;
    hide Settled;
    var l := MarkLine(v, title);
    var rest := MarkShape(v, title);
    CutNothing(l);
    Unprefixed(l);
    OneColonLine(rest);
    OneColon(l);
  }

  lemma MarkShape(v: nat, title: string) returns (rest: string)
    requires ':' !in title
    ensures MarkLine(v, title) == "PVMTEST-MARK:" + rest && ':' !in rest
    ensures var l := MarkLine(v, title); l[|l| - 1] == 'D'
  {
    hide Dec;
    DecHasNone(v, ':');
    rest := " " + Dec(v) + " " + title + " #END";
  }

  lemma OneColonLine(rest: string)
    requires ':' !in rest
    ensures var b := "PVMTEST-MARK:" + rest;
      b[0] == 'P' && b[10] == 'R' && forall k | 0 <= k < |b| && k != 12 :: b[k] != ':'
  {
    var b := "PVMTEST-MARK:" + rest;
    forall k | 0 <= k < |b| && k != 12 ensures b[k] != ':' {
      if k >= 13 {
        assert b[k] == rest[k - 13];
      }
    }
  }

  // A mark's lines: one of its own, and what is said when it is refused.
  lemma MarkAndRefusal(dev: MarkDev, v: nat, title: string)
    ensures MarkLines(dev, v, title) == (if dev.NoDevice? then [] else [MarkLine(v, title)]) + Refusal(dev, v)
  {
    hide MarkLine;
  }

  lemma SummaryPattern(pass: nat, fail: nat, skip: nat, elapsed: string)
    requires PatternLess(elapsed)
    ensures PatternLess(Summary(pass, fail, skip, elapsed)) && Summary(pass, fail, skip, elapsed)[0] == '#'
  {
    hide Dec;
    forall n: nat ensures 'P' !in Dec(n) && 'L' !in Dec(n) {
      DecHasNone(n, 'P');
      DecHasNone(n, 'L');
    }
  }

  lemma FailedIsBland(names: seq<string>)
    ensures Bland(PREFIX + ("# failed: " + Join(names, " ")))
  {
    hide Bland;
    hide Join;
    var rest := Join(names, " ");
    CutBehind("# failed: ", rest);
    assert ("# failed: " + CutReturns(rest))[0..10] == "# failed: ";
    SettledIsBland("# failed: " + rest);
  }
}
