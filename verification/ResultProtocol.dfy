// Three programs and one stream of lines: the guest's harness prints, the agent prefixes, the host parses and judges.
// NamesRecovered and VerdictAgrees say for every log, as text, exactly when the host finds what the guest did.
module ResultProtocol {
  import opened Decimals
  import opened Harnesses
  import opened Lines
  import opened Options
  import opened ResultLines
  import opened ResultLog
  import opened Text

  // --- what a case's lines name -------------------------------------------

  // The lines notes go on with behind their first: nothing is put in front of
  // them.
  function Continued(notes: seq<string>): seq<string> {
    if notes == [] then [] else Split(notes[0], '\n')[1..] + Continued(notes[1..])
  }

  // What a case prints as it likes.
  function Loose(c: Case): seq<string> {
    c.ran.printed + Continued(c.ran.notes)
  }

  lemma {:induction false} NotesNames(notes: seq<string>)
    ensures AllPassed(Tagged(NoteLines(notes))) == AllPassed(Tagged(Continued(notes)))
    ensures AllFailed(Tagged(NoteLines(notes))) == AllFailed(Tagged(Continued(notes)))
  {
    hide AllPassed;
    hide AllFailed;
    hide Tagged;
    hide Nameless;
    hide Split;
    if notes != [] {
      var first, more := "#   " + Split(notes[0], '\n')[0], Split(notes[0], '\n')[1..];
      NotesNames(notes[1..]);
      SplitPrefix("#   ", notes[0], '\n');
      Comment("#   ", Split(notes[0], '\n')[0]);
      TaggedAll([first]);
      TaggedAppend([first] + more, NoteLines(notes[1..]));
      TaggedAppend([first], more);
      TaggedAppend(more, Continued(notes[1..]));
    }
  }

  // Whatever an error says, its lines name no case; a note's first line
  // neither.
  lemma RemarksNames(c: Case)
    ensures AllPassed(Tagged(Remarks(c))) == AllPassed(Tagged(Continued(c.ran.notes)))
    ensures AllFailed(Tagged(Remarks(c))) == AllFailed(Tagged(Continued(c.ran.notes)))
  {
    hide AllPassed;
    hide AllFailed;
    hide Tagged;
    hide Nameless;
    hide Split;
    hide NoteLines;
    hide Continued;
    var errors := if c.ran.error.Some? then Indented(Split(c.ran.error.value, '\n')) else [];
    forall l | l in errors ensures Nameless(PREFIX + l) {
      var parts := Split(c.ran.error.value, '\n');
      var i :| 0 <= i < |parts| && l == "#   " + parts[i];
      Comment("#   ", parts[i]);
    }
    TaggedAll(errors);
    NotesNames(c.ran.notes);
    TaggedAppend(errors, NoteLines(c.ran.notes));
  }

  // What a case's own verdict lists as failed: its name up to the first
  // character the pattern does not know.
  function OwnListed(c: Case): seq<string> {
    var known := Run(c.name, NameChar);
    if c.ran.error.Some? && known > 0 then [c.name[..known]] else []
  }

  lemma OwnIsName(c: Case)
    requires GoodName(c.name)
    ensures OwnListed(c) == FailedHead(c)
  {
    Text.RunAll(c.name, NameChar);
    assert c.name[..|c.name|] == c.name;
  }

  lemma VerdictLists(n: nat, c: Case)
    ensures Tap(Verdict(n, c)).Some? && !Tap(Verdict(n, c)).value.0 ==> OwnListed(c) == [Tap(Verdict(n, c)).value.1]
    ensures Tap(Verdict(n, c)).Some? && Tap(Verdict(n, c)).value.0 ==> OwnListed(c) == []
    ensures Tap(Verdict(n, c)) == None ==> OwnListed(c) == []
  {
    hide TapName;
    hide Dec;
    hide Run;
    hide NameChar;
    var behind := " (" + c.ran.took + ")";
    var tail := c.name + behind;
    var rest := Dec(n) + (" - " + tail);
    TapValue(n, tail);
    assert !NameChar(behind[0]) by {
      BlankEndsName();
    }
    RunEnds(c.name, behind, NameChar);
    assert Dec(n) + " - " + c.name + " (" + c.ran.took + ")" == rest;
    var v := Verdict(n, c);
    if c.ran.error.Some? {
      assert v == "not ok " + rest;
      assert v[0] == 'n' && v[7..] == rest;
      assert tail[..Run(c.name, NameChar)] == c.name[..Run(c.name, NameChar)];
    } else {
      assert v == "ok " + rest;
      assert v[0] == 'o' && v[3..] == rest;
    }
  }

  lemma VerdictLine(n: nat, c: Case)
    ensures GoodName(c.name) ==> AllPassed(Tagged([Verdict(n, c)])) == PassedHead(c)
    ensures GoodName(c.name) ==> AllFailed(Tagged([Verdict(n, c)])) == FailedHead(c)
    ensures c.ran.error.Some? ==> AllPassed(Tagged([Verdict(n, c)])) == []
    ensures AllFailed(Tagged([Verdict(n, c)])) == OwnListed(c)
  {
    hide TapName;
    hide Body;
    hide Verdict;
    hide GoodName;
    hide OwnListed;
    var v := Verdict(n, c);
    if GoodName(c.name) {
      VerdictNames(n, c);
      OwnIsName(c);
    }
    VerdictLists(n, c);
    VerdictStarts(n, c);
    Unprefixed(v);
    AllOne(PREFIX + v);
    assert Tagged([v]) == [PREFIX + v];
  }

  lemma VerdictStarts(n: nat, c: Case)
    ensures CutReturns(Verdict(n, c)) == Verdict(n, c)
    ensures c.ran.error.Some? ==> !HasPrefix(Verdict(n, c), "ok ")
    ensures c.ran.error.None? ==> !HasPrefix(Verdict(n, c), "not ok ")
    ensures !HasPrefix(Verdict(n, c), "# failed: ")
  {
    hide Dec;
    hide HasPrefix;
    var v := Verdict(n, c);
    assert v[|v| - 1] == ')';
    CutNothing(v);
    if c.ran.error.Some? {
      assert v[0] == 'n';
      NoPrefix(v, "ok ");
    } else {
      assert v[0] == 'o';
      NoPrefix(v, "not ok ");
    }
    NoPrefix(v, "# failed: ");
  }

  // A case adds what it prints, its own verdict and its notes' later lines.
  lemma CaseNames(dev: MarkDev, n: nat, c: Case)
    ensures AllPassed(Tagged(Bracketed(dev, n, c)))
      == AllPassed(Tagged(c.ran.printed)) + AllPassed(Tagged([Verdict(n, c)]))
        + AllPassed(Tagged(Continued(c.ran.notes)))
    ensures AllFailed(Tagged(Bracketed(dev, n, c)))
      == AllFailed(Tagged(c.ran.printed)) + AllFailed(Tagged([Verdict(n, c)]))
        + AllFailed(Tagged(Continued(c.ran.notes)))
  {
    hide AllPassed;
    hide AllFailed;
    hide Tagged;
    hide Nameless;
    hide Verdict;
    hide Remarks;
    hide Continued;
    hide MarkLines;
    var before, after := MarkLines(dev, 2 * n, c.name + "/before"), MarkLines(dev, 2 * n + 1, c.name + "/after");
    MarksNameless(dev, 2 * n, c.name + "/before");
    MarksNameless(dev, 2 * n + 1, c.name + "/after");
    TaggedAll(before);
    TaggedAll(after);
    RemarksNames(c);
    TaggedAppend(before + CaseLines(n, c), after);
    TaggedAppend(before, CaseLines(n, c));
    TaggedAppend(c.ran.printed + [Verdict(n, c)], Remarks(c));
    TaggedAppend(c.ran.printed, [Verdict(n, c)]);
  }

  // --- the passed names ---------------------------------------------------

  // The parser takes the line for a passed case.
  predicate OkVerdict(l: string) {
    Tap(CutReturns(l)).Some? && Tap(CutReturns(l)).value.0
  }

  // Exactly when the host finds the passed cases: their names are ones the
  // pattern knows, and nothing else looks like one.
  predicate PassedClearly(cases: seq<Case>) {
    (forall c <- cases :: c.ran.error == None ==> GoodName(c.name))
    && forall c <- cases, l <- Loose(c) :: !OkVerdict(l)
  }

  lemma {:induction false} NoOkVerdicts(ls: seq<string>)
    ensures AllPassed(Tagged(ls)) == [] <==> forall l <- ls :: !OkVerdict(l)
  {
    hide AllPassed;
    hide AllFailed;
    hide Tagged;
    hide OkVerdict;
    if ls == [] {
      TaggedAll([]);
    } else {
      OneOkVerdict(ls[0]);
      NoOkVerdicts(ls[1..]);
      TaggedAppend([ls[0]], ls[1..]);
      assert [ls[0]] + ls[1..] == ls;
      assert forall l :: l in ls <==> l == ls[0] || l in ls[1..];
    }
  }

  lemma OneOkVerdict(l: string)
    ensures AllPassed(Tagged([l])) == [] <==> !OkVerdict(l)
  {
    hide Body;
    hide Tap;
    hide AllPassed;
    Unprefixed(l);
    AllOne(PREFIX + l);
    assert Tagged([l]) == [PREFIX + l];
  }

  lemma NameIsGood(s: string)
    ensures TapName(s).Some? ==> GoodName(TapName(s).value)
  {
    hide Digits;
    if TapName(s).Some? {
      RunOnly(s[Digits(s) + 3..], NameChar);
    }
  }

  lemma {:induction false} PassedAreGood(ls: seq<string>)
    ensures forall n <- AllPassed(ls) :: GoodName(n)
  {
    hide TapName;
    hide GoodName;
    if ls != [] {
      var body := Body(CutReturns(ls[0]));
      if |body| >= 3 { NameIsGood(body[3..]); }
      PassedAreGood(ls[1..]);
    }
  }

  // How many passed cases the loose lines make up.
  function Made(cases: seq<Case>): nat {
    if cases == [] then 0 else
    |AllPassed(Tagged(cases[0].ran.printed))| + |AllPassed(Tagged(Continued(cases[0].ran.notes)))| + Made(cases[1..])
  }

  lemma {:induction false} NoneMade(cases: seq<Case>)
    ensures Made(cases) == 0 <==> forall c <- cases, l <- Loose(c) :: !OkVerdict(l)
  {
    hide AllPassed;
    hide Tagged;
    hide OkVerdict;
    hide Continued;
    if cases != [] {
      var c := cases[0];
      NoneMade(cases[1..]);
      NoOkVerdicts(c.ran.printed);
      NoOkVerdicts(Continued(c.ran.notes));
      assert forall l :: l in Loose(c) <==> l in c.ran.printed || l in Continued(c.ran.notes);
      assert forall d :: d in cases <==> d == c || d in cases[1..];
    }
  }

  lemma {:induction false} RunPassed(dev: MarkDev, n: nat, cases: seq<Case>)
    requires forall c <- cases :: c.ran.error == None ==> GoodName(c.name)
    ensures |AllPassed(Tagged(RunLines(dev, n, cases)))| == |PassedNames(cases)| + Made(cases)
    ensures Made(cases) == 0 ==> AllPassed(Tagged(RunLines(dev, n, cases))) == PassedNames(cases)
    decreases cases
  {
    hide AllPassed;
    hide AllFailed;
    hide Tagged;
    hide Bracketed;
    hide GoodName;
    hide Continued;
    hide OwnListed;
    hide Verdict;
    if cases == [] {
      TaggedAll([]);
    } else {
      var c := cases[0];
      assert c.ran.error == None ==> GoodName(c.name);
      CaseNames(dev, n, c);
      VerdictLine(n, c);
      RunPassed(dev, n + 1, cases[1..]);
      TaggedAppend(Bracketed(dev, n, c), RunLines(dev, n + 1, cases[1..]));
    }
  }

  // Everything the passing cases are called is among the passed names, so a
  // name the pattern does not know cannot be recovered.
  lemma {:induction false} PassedHasAll(cases: seq<Case>, c: Case)
    requires c in cases && c.ran.error == None
    ensures c.name in PassedNames(cases)
  {
    if cases[0] != c {
      PassedHasAll(cases[1..], c);
    }
  }

  // The head line and the report name no passed case.
  lemma PrintedPassed(dev: MarkDev, chosen: seq<Case>, skip: nat, tag: string, suite: string, elapsed: string)
    ensures AllPassed(Tagged(Printed(dev, chosen, skip, tag, suite, elapsed)))
      == AllPassed(Tagged(RunLines(dev, 1, chosen)))
  {
    hide AllPassed;
    hide AllFailed;
    hide Tagged;
    hide Nameless;
    hide RunLines;
    hide ReportLines;
    var failed := FailedNames(chosen);
    var head := ["1.." + Dec(|chosen|)];
    var report := ReportLines(|PassedNames(chosen)|, |failed|, skip, failed, tag, suite, elapsed);
    HeadIsPlain(|chosen|);
    TaggedAll(head);
    ReportPassed(|PassedNames(chosen)|, |failed|, skip, failed, tag, suite, elapsed);
    TaggedAppend(head + RunLines(dev, 1, chosen), report);
    TaggedAppend(head, RunLines(dev, 1, chosen));
  }

  lemma PassedExactly(dev: MarkDev, chosen: seq<Case>, skip: nat, tag: string, suite: string, elapsed: string)
    ensures AllPassed(Tagged(Printed(dev, chosen, skip, tag, suite, elapsed))) == PassedNames(chosen) <==>
      PassedClearly(chosen)
  {
    hide AllPassed;
    hide Tagged;
    hide Printed;
    hide RunLines;
    hide GoodName;
    hide Loose;
    hide OkVerdict;
    var found := AllPassed(Tagged(Printed(dev, chosen, skip, tag, suite, elapsed)));
    PrintedPassed(dev, chosen, skip, tag, suite, elapsed);
    PassedAreGood(Tagged(Printed(dev, chosen, skip, tag, suite, elapsed)));
    NoneMade(chosen);
    if forall c <- chosen :: c.ran.error == None ==> GoodName(c.name) {
      RunPassed(dev, 1, chosen);
    } else {
      var c :| c in chosen && c.ran.error == None && !GoodName(c.name);
      PassedHasAll(chosen, c);
      assert c.name in PassedNames(chosen) && c.name !in found;
    }
  }

  // --- the failed names ---------------------------------------------------

  // Names that come up in the order of d: each is listed already or is the
  // next of d.
  predicate InTurn(listed: seq<string>, names: seq<string>, d: seq<string>)
    decreases names
  {
    names == []
    || (names[0] in listed && InTurn(listed, names[1..], d))
    || (names[0] !in listed && |listed| < |d| && names[0] == d[|listed|] && InTurn(listed + [names[0]], names[1..], d))
  }

  // What loose lines list as failed only ever names a case that has failed
  // already or is the next to fail.
  predicate FailedInTurn(listed: seq<string>, cases: seq<Case>, d: seq<string>)
    decreases cases
  {
    cases == [] ||
    var before, after := AllFailed(Tagged(cases[0].ran.printed)), AllFailed(Tagged(Continued(cases[0].ran.notes)));
    var failed := AddNames(AddNames(listed, before), FailedHead(cases[0]));
    InTurn(listed, before, d) && InTurn(failed, after, d) && FailedInTurn(AddNames(failed, after), cases[1..], d)
  }

  lemma {:induction false} AddNamesExtends(f: seq<string>, names: seq<string>)
    ensures f <= AddNames(f, names)
    decreases names
  {
    if names != [] {
      AddNamesExtends(if names[0] in f then f else f + [names[0]], names[1..]);
    }
  }

  lemma {:induction false} InTurnIsPrefix(listed: seq<string>, names: seq<string>, d: seq<string>)
    requires listed <= d
    ensures InTurn(listed, names, d) <==> AddNames(listed, names) <= d
    decreases names
  {
    if names != [] {
      if names[0] in listed {
        InTurnIsPrefix(listed, names[1..], d);
      } else {
        var more := listed + [names[0]];
        AddNamesExtends(more, names[1..]);
        if |listed| < |d| && names[0] == d[|listed|] {
          InTurnIsPrefix(more, names[1..], d);
        } else {
          NotThePrefix(listed, names[0], AddNames(more, names[1..]), d);
        }
      }
    }
  }

  lemma NotThePrefix(listed: seq<string>, x: string, all: seq<string>, d: seq<string>)
    requires listed + [x] <= all && (|listed| < |d| ==> x != d[|listed|])
    ensures !(all <= d)
  {
  }

  // Names listed early, but in turn, change nothing in the end.
  lemma {:induction false} EarlyIsHarmless(behind: seq<string>, ahead: seq<string>, names: seq<string>)
    requires behind <= ahead <= AddNames(behind, names)
    ensures AddNames(ahead, names) == AddNames(behind, names)
    decreases names
  {
    if names != [] {
      var x, d := names[0], AddNames(behind, names);
      if x in behind {
        assert x in ahead;
        EarlyIsHarmless(behind, ahead, names[1..]);
      } else {
        AddNamesExtends(behind + [x], names[1..]);
        assert d[|behind|] == x;
        if |ahead| > |behind| {
          assert ahead[|behind|] == x && behind + [x] <= ahead;
          EarlyIsHarmless(behind + [x], ahead, names[1..]);
        } else {
          assert ahead == behind;
        }
      }
    }
  }

  // A case's own verdict comes in its turn.
  lemma OwnInTurn(behind: seq<string>, listed: seq<string>, x: string, rest: seq<string>)
    requires behind <= listed <= AddNames(behind, [x] + rest)
    ensures AddNames(behind, [x]) <= AddNames(listed, [x]) <= AddNames(behind, [x] + rest)
    ensures AddNames(AddNames(behind, [x]), rest) == AddNames(behind, [x] + rest)
  {
    AddNamesAppend(behind, [x], rest);
    AddOne(behind, x);
    AddOne(listed, x);
    AddNamesExtends(AddNames(behind, [x]), rest);
    var d := AddNames(behind, [x] + rest);
    if x !in behind {
      assert d[|behind|] == x;
      if |listed| > |behind| {
        assert listed[|behind|] == x;
      }
    }
  }

  // Every name the lines of a run list as failed, in their order.
  function Listings(cases: seq<Case>): seq<string> {
    if cases == [] then [] else
    AllFailed(Tagged(cases[0].ran.printed)) + OwnListed(cases[0]) + AllFailed(Tagged(Continued(cases[0].ran.notes)))
      + Listings(cases[1..])
  }

  lemma {:induction false} FailedInTurnIsPrefix(behind: seq<string>, listed: seq<string>, cases: seq<Case>,
      d: seq<string>)
    requires behind <= listed <= d && d == AddNames(behind, FailedNames(cases)) && FailedAreGood(cases)
    ensures FailedInTurn(listed, cases, d) <==> AddNames(listed, Listings(cases)) <= d
    decreases cases
  {
    hide AllFailed;
    hide Tagged;
    hide Continued;
    hide InTurn;
    hide AddNames;
    hide GoodName;
    hide OwnListed;
    if cases == [] {
      NothingAdded(listed);
    } else {
      var c, rest := cases[0], FailedNames(cases[1..]);
      if c.ran.error.Some? { OwnIsName(c); } else { OwnPassed(c); }
      var before, own, after := AllFailed(Tagged(c.ran.printed)), FailedHead(c),
        AllFailed(Tagged(Continued(c.ran.notes)));
      var l1 := AddNames(listed, before);
      var l2 := AddNames(l1, own);
      var l3 := AddNames(l2, after);
      Stages(listed, before, own, after, Listings(cases[1..]));
      InTurnIsPrefix(listed, before, d);
      AddNamesExtends(listed, before);
      AddNamesExtends(l1, own);
      AddNamesExtends(l2, after);
      AddNamesExtends(l3, Listings(cases[1..]));
      if l1 <= d {
        var p := OwnStep(behind, l1, c, rest);
        InTurnIsPrefix(l2, after, d);
        if l3 <= d {
          FailedInTurnIsPrefix(p, l3, cases[1..], d);
        }
      }
    }
  }

  lemma OwnPassed(c: Case)
    requires c.ran.error == None
    ensures OwnListed(c) == FailedHead(c) == []
  {
  }

  lemma OwnStep(behind: seq<string>, listed: seq<string>, c: Case, rest: seq<string>) returns (p: seq<string>)
    requires behind <= listed <= AddNames(behind, FailedHead(c) + rest)
    ensures p <= AddNames(listed, FailedHead(c)) <= AddNames(behind, FailedHead(c) + rest)
    ensures AddNames(p, rest) == AddNames(behind, FailedHead(c) + rest)
  {
    if c.ran.error.Some? {
      p := AddNames(behind, [c.name]);
      OwnInTurn(behind, listed, c.name, rest);
    } else {
      p := behind;
      assert [] + rest == rest;
    }
  }

  lemma NothingAdded(listed: seq<string>)
    ensures AddNames(listed, []) == listed
  {
  }

  lemma Stages(listed: seq<string>, a: seq<string>, b: seq<string>, c: seq<string>, rest: seq<string>)
    ensures AddNames(listed, a + b + c + rest) == AddNames(AddNames(AddNames(AddNames(listed, a), b), c), rest)
  {
    hide AddNames;
    AddNamesAppend(listed, a + b + c, rest);
    AddNamesAppend(listed, a + b, c);
    AddNamesAppend(listed, a, b);
  }

  predicate FailedAreGood(cases: seq<Case>) {
    forall c <- cases :: c.ran.error.Some? ==> GoodName(c.name)
  }

  lemma {:induction false} RunFailed(dev: MarkDev, n: nat, cases: seq<Case>)
    ensures AllFailed(Tagged(RunLines(dev, n, cases))) == Listings(cases)
    decreases cases
  {
    hide AllPassed;
    hide AllFailed;
    hide Tagged;
    hide Bracketed;
    hide GoodName;
    hide Continued;
    hide OwnListed;
    if cases == [] {
      TaggedAll([]);
    } else {
      var c := cases[0];
      CaseNames(dev, n, c);
      VerdictLine(n, c);
      RunFailed(dev, n + 1, cases[1..]);
      TaggedAppend(Bracketed(dev, n, c), RunLines(dev, n + 1, cases[1..]));
    }
  }

  // What all the guest prints lists as failed.
  function AllListed(chosen: seq<Case>): seq<string> {
    Listings(chosen) + Summarised(FailedNames(chosen))
  }

  lemma PrintedFailed(dev: MarkDev, chosen: seq<Case>, skip: nat, tag: string, suite: string, elapsed: string)
    ensures AllFailed(Tagged(Printed(dev, chosen, skip, tag, suite, elapsed))) == AllListed(chosen)
  {
    hide AllPassed;
    hide AllFailed;
    hide Tagged;
    hide Nameless;
    hide RunLines;
    hide ReportLines;
    hide Listings;
    hide Summarised;
    var failed := FailedNames(chosen);
    var head := ["1.." + Dec(|chosen|)];
    var report := ReportLines(|PassedNames(chosen)|, |failed|, skip, failed, tag, suite, elapsed);
    HeadIsPlain(|chosen|);
    TaggedAll(head);
    RunFailed(dev, 1, chosen);
    ReportFailed(|PassedNames(chosen)|, |failed|, skip, failed, tag, suite, elapsed);
    TaggedAppend(head + RunLines(dev, 1, chosen), report);
    TaggedAppend(head, RunLines(dev, 1, chosen));
  }

  // Exactly when the host finds the failed cases, whatever they are called:
  // loose lines, own verdicts and the summary list none but them, each when it
  // has been listed already or is the next to come, and all of them somewhere.
  predicate FailedClearly(chosen: seq<Case>) {
    InTurn([], AllListed(chosen), AddNames([], FailedNames(chosen)))
    && forall n <- FailedNames(chosen) :: n in AllListed(chosen)
  }

  lemma {:induction false} NamesAdded(f: seq<string>, names: seq<string>)
    ensures forall n :: n in AddNames(f, names) <==> n in f || n in names
    decreases names
  {
    if names != [] {
      var g := if names[0] in f then f else f + [names[0]];
      NamesAdded(g, names[1..]);
      assert forall n :: n in names <==> n == names[0] || n in names[1..];
    }
  }

  predicate Once(names: seq<string>) {
    forall i, j | 0 <= i < j < |names| :: names[i] != names[j]
  }

  lemma {:induction false} AddedOnce(f: seq<string>, names: seq<string>)
    requires Once(f)
    ensures Once(AddNames(f, names))
    decreases names
  {
    if names != [] {
      AddedOnce(if names[0] in f then f else f + [names[0]], names[1..]);
    }
  }

  // A prefix that has everything is everything.
  lemma WholePrefix(p: seq<string>, d: seq<string>)
    requires p <= d && Once(d) && forall n <- d :: n in p
    ensures p == d
  {
    if p < d {
      FirstMissing(p, d);
    }
  }

  lemma FirstMissing(p: seq<string>, d: seq<string>)
    requires p < d && Once(d)
    ensures d[|p|] in d && d[|p|] !in p
  {
    forall i | 0 <= i < |p| ensures p[i] != d[|p|] {
      assert p[i] == d[i];
    }
  }

  lemma FailedExactly(dev: MarkDev, chosen: seq<Case>, skip: nat, tag: string, suite: string, elapsed: string)
    ensures AddNames([], AllFailed(Tagged(Printed(dev, chosen, skip, tag, suite, elapsed))))
      == AddNames([], FailedNames(chosen))
      <==> FailedClearly(chosen)
  {
    hide AllFailed;
    hide Tagged;
    hide Printed;
    hide AddNames;
    hide AllListed;
    hide InTurn;
    hide Once;
    var all, d := AllListed(chosen), AddNames([], FailedNames(chosen));
    PrintedFailed(dev, chosen, skip, tag, suite, elapsed);
    InTurnIsPrefix([], all, d);
    NamesAdded([], all);
    NamesAdded([], FailedNames(chosen));
    assert Once([]) by { NothingTwice(); }
    AddedOnce([], FailedNames(chosen));
    if FailedClearly(chosen) {
      WholePrefix(AddNames([], all), d);
    }
  }

  lemma NothingTwice()
    ensures Once([])
  {
  }

  // With names of the pattern's characters the verdicts and the summary are in
  // order of themselves, and all depends on the loose lines.
  lemma GoodNamesInTurn(chosen: seq<Case>)
    requires FailedAreGood(chosen)
    ensures FailedClearly(chosen) <==> FailedInTurn([], chosen, AddNames([], FailedNames(chosen)))
  {
    hide AddNames;
    hide Listings;
    hide FailedInTurn;
    hide InTurn;
    hide GoodName;
    hide Summarised;
    var f := FailedNames(chosen);
    var d, l := AddNames([], f), AddNames([], Listings(chosen));
    FailedNamesGood(chosen);
    GoodSummary(f);
    AddNamesAppend([], Listings(chosen), f);
    AddNamesExtends(l, f);
    FailedInTurnIsPrefix([], [], chosen, d);
    InTurnIsPrefix([], AllListed(chosen), d);
    if l <= d {
      EarlyIsHarmless([], l, f);
    }
  }

  // A name with another character is listed cut off there: one failed case
  // called a:b is found as a.
  lemma ColonIsCut(c: Case)
    requires c.name == "a:b" && c.ran.error.Some? && c.ran.printed == [] && c.ran.notes == []
    ensures OwnListed(c) == ["a"] && !FailedClearly([c])
  {
    hide Summarised;
    hide AllFailed;
    assert c.name[..1] == "a" && c.name[1..][0] == ':';
    assert Run(c.name, NameChar) == 1;
    assert Tagged([]) == [];
    assert AllFailed([]) == [] by { NothingFails(); }
    assert [c][1..] == [];
    var d := AddNames([], FailedNames([c]));
    assert FailedNames([c]) == ["a:b"];
    AddOne([], "a:b");
    assert d == ["a:b"];
    assert Listings([c]) == [] + ["a"] + [] + [];
    assert AllListed([c])[0] == "a";
  }

  lemma NothingFails()
    ensures AllFailed([]) == []
  {
  }

  lemma {:induction false} FailedNamesGood(cases: seq<Case>)
    requires FailedAreGood(cases)
    ensures forall n <- FailedNames(cases) :: GoodName(n)
  {
    hide GoodName;
    if cases != [] {
      assert cases[0].ran.error.Some? ==> GoodName(cases[0].name);
      FailedNamesGood(cases[1..]);
    }
  }

  // --- from the log -------------------------------------------------------

  // The log of a boot, as text: the guest's prefixed output, with other lines
  // anywhere between its lines, none too long for the scanner.
  predicate BootLog(log: string, dev: MarkDev, chosen: seq<Case>, skip: nat, tag: string, suite: string,
      elapsed: string, noise: string -> bool) {
    var guest := Unlines(Printed(dev, chosen, skip, tag, suite, elapsed));
    Woven(SplitLines(log), SplitLines(Prefixed(PREFIX, LinesOf(guest))), noise)
    && forall l <- SplitLines(log) :: |l| < SCAN_MAX
  }

  function Parsed(log: string, isFloat: string -> bool): Option<Outcome> {
    Fold(EMPTY, UpToLong(SplitLines(log)), isFloat)
  }

  // What the names in the outcome come from.
  lemma ParsedIs(log: string, dev: MarkDev, chosen: seq<Case>, skip: nat, tag: string, suite: string, elapsed: string,
      noise: string -> bool, isFloat: string -> bool)
    requires OneLiners(dev, chosen, tag, suite, elapsed)
    requires BootLog(log, dev, chosen, skip, tag, suite, elapsed, noise) && forall l :: noise(l) ==> Nameless(l)
    ensures Parsed(log, isFloat).Some?
    ensures Parsed(log, isFloat).value.passed == AllPassed(Tagged(Printed(dev, chosen, skip, tag, suite, elapsed)))
    ensures Parsed(log, isFloat).value.failed ==
      AddNames([], AllFailed(Tagged(Printed(dev, chosen, skip, tag, suite, elapsed))))
  {
    hide Printed;
    hide Nameless;
    hide OneLiners;
    hide BootLog;
    hide Tagged;
    hide AllPassed;
    hide AllFailed;
    hide Fold;
    hide Panics;
    hide AddNames;
    var ls := Printed(dev, chosen, skip, tag, suite, elapsed);
    var lines := LogLines(log, dev, chosen, skip, tag, suite, elapsed, noise);
    WovenNames(lines, Tagged(ls), noise);
    NoPanic(lines, ls, noise);
    PanicsExactly(EMPTY, lines, isFloat);
    FoldNames(EMPTY, lines, isFloat);
    assert [] + AllPassed(lines) == AllPassed(lines);
  }

  // Whatever the errors say and whatever nameless lines come between, the host
  // finds the passed cases in order exactly when nothing loose looks like one,
  // and the failed ones, once each, exactly when they are listed in their turn;
  // for names the pattern knows that is up to the loose lines alone.
  lemma NamesRecovered(log: string, dev: MarkDev, chosen: seq<Case>, skip: nat, tag: string, suite: string,
      elapsed: string, noise: string -> bool, isFloat: string -> bool)
    requires OneLiners(dev, chosen, tag, suite, elapsed)
    requires BootLog(log, dev, chosen, skip, tag, suite, elapsed, noise) && forall l :: noise(l) ==> Nameless(l)
    ensures Parsed(log, isFloat).Some?
    ensures Parsed(log, isFloat).value.passed == PassedNames(chosen) <==> PassedClearly(chosen)
    ensures Parsed(log, isFloat).value.failed == AddNames([], FailedNames(chosen)) <==> FailedClearly(chosen)
    ensures FailedAreGood(chosen) ==>
      (FailedClearly(chosen) <==> FailedInTurn([], chosen, AddNames([], FailedNames(chosen))))
  {
    hide Printed;
    hide Nameless;
    hide OneLiners;
    hide BootLog;
    hide Parsed;
    hide Tagged;
    hide AllPassed;
    hide AllFailed;
    hide PassedClearly;
    hide FailedAreGood;
    hide FailedInTurn;
    hide FailedClearly;
    hide AddNames;
    ParsedIs(log, dev, chosen, skip, tag, suite, elapsed, noise, isFloat);
    PassedExactly(dev, chosen, skip, tag, suite, elapsed);
    FailedExactly(dev, chosen, skip, tag, suite, elapsed);
    if FailedAreGood(chosen) {
      GoodNamesInTurn(chosen);
    }
  }

  lemma LogLines(log: string, dev: MarkDev, chosen: seq<Case>, skip: nat, tag: string, suite: string, elapsed: string,
      noise: string -> bool) returns (lines: seq<string>)
    requires OneLiners(dev, chosen, tag, suite, elapsed) && BootLog(log, dev, chosen, skip, tag, suite, elapsed, noise)
    ensures UpToLong(SplitLines(log)) == lines
    ensures Woven(lines, Tagged(Printed(dev, chosen, skip, tag, suite, elapsed)), noise)
  {
    hide Printed;
    hide OneLiners;
    hide LinesOf;
    hide Prefixed;
    hide Unlines;
    hide Tagged;
    hide Woven;
    lines := SplitLines(log);
    PrintedWhole(dev, chosen, skip, tag, suite, elapsed);
    PrefixedText(Printed(dev, chosen, skip, tag, suite, elapsed));
    NoneTooLong(lines);
  }

  lemma NoPanic(lines: seq<string>, ls: seq<string>, noise: string -> bool)
    requires Woven(lines, Tagged(ls), noise) && forall l :: noise(l) ==> Nameless(l)
    ensures forall l <- lines :: !Panics(CutReturns(l))
  {
    hide Woven;
    hide Nameless;
    hide Panics;
    WovenLines(lines, Tagged(ls), noise);
    forall l | l in lines ensures !Panics(CutReturns(l)) {
      if noise(l) {
        NamelessAddsNothing(l);
      } else {
        var i :| 0 <= i < |ls| && l == PREFIX + ls[i];
        Unprefixed(ls[i]);
      }
    }
  }

  // --- the verdict --------------------------------------------------------

  // The parser takes the line for a list of failed cases, or one of them.
  predicate FailedVerdict(l: string) {
    FailedIn(PREFIX + CutReturns(l)) != []
  }

  lemma {:induction false} NoFailedVerdicts(ls: seq<string>)
    ensures AllFailed(Tagged(ls)) == [] <==> forall l <- ls :: !FailedVerdict(l)
  {
    hide AllPassed;
    hide AllFailed;
    hide Tagged;
    hide FailedVerdict;
    if ls == [] {
      TaggedAll([]);
    } else {
      OneFailedVerdict(ls[0]);
      NoFailedVerdicts(ls[1..]);
      TaggedAppend([ls[0]], ls[1..]);
      assert [ls[0]] + ls[1..] == ls;
      assert forall l :: l in ls <==> l == ls[0] || l in ls[1..];
    }
  }

  lemma OneFailedVerdict(l: string)
    ensures AllFailed(Tagged([l])) == [] <==> !FailedVerdict(l)
  {
    hide FailedIn;
    hide AllFailed;
    Unprefixed(l);
    AllOne(PREFIX + l);
    assert Tagged([l]) == [PREFIX + l];
  }

  lemma {:induction false} NothingListed(cases: seq<Case>)
    requires FailedNames(cases) == []
    ensures Listings(cases) == [] <==> forall c <- cases, l <- Loose(c) :: !FailedVerdict(l)
  {
    hide AllFailed;
    hide Tagged;
    hide FailedVerdict;
    hide Continued;
    if cases != [] {
      var c := cases[0];
      NothingListed(cases[1..]);
      NoFailedVerdicts(c.ran.printed);
      NoFailedVerdicts(Continued(c.ran.notes));
      assert forall l :: l in Loose(c) <==> l in c.ran.printed || l in Continued(c.ran.notes);
      assert forall d :: d in cases <==> d == c || d in cases[1..];
    }
  }

  // The lines of a case whose text is not the harness's own.
  function Said(dev: MarkDev, n: nat, c: Case): seq<string> {
    Refusal(dev, 2 * n) + c.ran.printed + Remarks(c) + Refusal(dev, 2 * n + 1)
  }

  function AllSaid(dev: MarkDev, n: nat, cases: seq<Case>): seq<string>
    decreases cases
  {
    if cases == [] then [] else Said(dev, n, cases[0]) + AllSaid(dev, n + 1, cases[1..])
  }

  // What some of the guest's lines do to the count of failed host tests and
  // to the belief that the module loaded.
  function Charged(from: int, ls: seq<string>): int { HostFails(from, Tagged(ls)) }

  predicate Loading(ls: seq<string>) { AnyLoads(Tagged(ls)) }

  lemma ChargedAppend(from: int, a: seq<string>, b: seq<string>)
    ensures Charged(from, a + b) == Charged(Charged(from, a), b)
    ensures Loading(a + b) <==> Loading(a) || Loading(b)
  {
    hide HostFails;
    hide LoadsBy;
    assert Tagged(a + b) == Tagged(a) + Tagged(b);
    HostFailsAppend(from, Tagged(a), Tagged(b));
  }

  lemma {:induction false} BlandCharges(from: int, ls: seq<string>)
    requires forall l <- ls :: Bland(l)
    ensures HostFails(from, ls) == from && !AnyLoads(ls)
  {
    hide HostBy;
    hide LoadsBy;
    if ls != [] {
      assert Bland(ls[0]);
      BlandCharges(from, ls[1..]);
    }
  }

  lemma OwnCharges(from: int, ls: seq<string>)
    requires forall l <- ls :: Bland(PREFIX + l)
    ensures Charged(from, ls) == from && !Loading(ls)
  {
    hide Bland;
    BlandCharges(from, Tagged(ls));
  }

  // The harness's own lines of a case charge nothing.
  lemma CaseCharges(from: int, dev: MarkDev, n: nat, c: Case)
    requires GoodName(c.name)
    ensures Charged(from, Bracketed(dev, n, c)) == Charged(from, Said(dev, n, c))
    ensures Loading(Bracketed(dev, n, c)) <==> Loading(Said(dev, n, c))
  {
    hide Charged;
    hide Loading;
    hide Bland;
    hide Refusal;
    hide Remarks;
    hide Verdict;
    hide MarkLine;
    hide MarkLines;
    var m1 := MarkCharges(dev, 2 * n, c.name + "/before");
    var m2 := MarkCharges(dev, 2 * n + 1, c.name + "/after");
    NoColon(c.name);
    var r1, r2, p, v, q := Refusal(dev, 2 * n), Refusal(dev, 2 * n + 1), c.ran.printed, [Verdict(n, c)], Remarks(c);
    VerdictIsBland(n, c);
    MarksAreBland(dev, 2 * n, c.name + "/before", m1);
    MarksAreBland(dev, 2 * n + 1, c.name + "/after", m2);
    forall f: int
      ensures Charged(f, m1) == f && Charged(f, m2) == f && Charged(f, v) == f
      ensures !Loading(m1) && !Loading(m2) && !Loading(v)
    {
      OwnCharges(f, m1);
      OwnCharges(f, m2);
      OwnCharges(f, v);
    }
    assert Bracketed(dev, n, c) == (m1 + r1) + (p + v + q) + (m2 + r2);
    ChargedAppend(from, (m1 + r1) + (p + v + q), m2 + r2);
    ChargedAppend(from, m1 + r1, p + v + q);
    ChargedAppend(from, m1, r1);
    var x := Charged(from, r1);
    ChargedAppend(x, p + v, q);
    ChargedAppend(x, p, v);
    var y := Charged(Charged(x, p), q);
    ChargedAppend(y, m2, r2);
    ChargedAppend(from, r1 + p + q, r2);
    ChargedAppend(from, r1 + p, q);
    ChargedAppend(from, r1, p);
  }

  lemma MarkCharges(dev: MarkDev, v: nat, title: string) returns (own: seq<string>)
    ensures own == (if dev.NoDevice? then [] else [MarkLine(v, title)])
      && MarkLines(dev, v, title) == own + Refusal(dev, v)
  {
    hide MarkLine;
    own := if dev.NoDevice? then [] else [MarkLine(v, title)];
    MarkAndRefusal(dev, v, title);
  }

  lemma MarksAreBland(dev: MarkDev, v: nat, title: string, own: seq<string>)
    requires ':' !in title && own == if dev.NoDevice? then [] else [MarkLine(v, title)]
    ensures forall l <- own :: Bland(PREFIX + l)
  {
    hide Bland;
    hide MarkLine;
    MarkIsBland(v, title);
  }

  lemma NoColon(name: string)
    requires GoodName(name)
    ensures ':' !in name + "/before" && ':' !in name + "/after"
  {
  }

  lemma {:induction false} RunCharges(from: int, dev: MarkDev, n: nat, cases: seq<Case>)
    requires forall c <- cases :: GoodName(c.name)
    ensures Charged(from, RunLines(dev, n, cases)) == Charged(from, AllSaid(dev, n, cases))
    ensures Loading(RunLines(dev, n, cases)) <==> Loading(AllSaid(dev, n, cases))
    decreases cases
  {
    hide Charged;
    hide Loading;
    hide Bracketed;
    hide Said;
    hide GoodName;
    if cases != [] {
      var c := cases[0];
      assert GoodName(c.name);
      CaseCharges(from, dev, n, c);
      RunCharges(Charged(from, Bracketed(dev, n, c)), dev, n + 1, cases[1..]);
      ChargedAppend(from, Bracketed(dev, n, c), RunLines(dev, n + 1, cases[1..]));
      ChargedAppend(from, Said(dev, n, c), AllSaid(dev, n + 1, cases[1..]));
    }
  }

  // The lines around the cases: the count in front, the report behind.
  function Around(chosen: seq<Case>, skip: nat, tag: string, suite: string, elapsed: string)
      : (seq<string>, seq<string>) {
    (["1.." + Dec(|chosen|)],
     ReportLines(|PassedNames(chosen)|, |FailedNames(chosen)|, skip, FailedNames(chosen), tag, suite, elapsed))
  }

  lemma AroundIsBland(chosen: seq<Case>, skip: nat, tag: string, suite: string, elapsed: string)
    requires Unspaced(tag) && Unspaced(suite) && PatternLess(elapsed)
    ensures var (head, report) := Around(chosen, skip, tag, suite, elapsed);
      && (forall l <- head + report :: Bland(PREFIX + l))
      && (FailedNames(chosen) == [] ==> forall l <- head + report :: Barren(PREFIX + l))
  {
    hide Bland;
    hide Barren;
    hide Join;
    hide Summary;
    hide ResultLine;
    var pass, fail := |PassedNames(chosen)|, |FailedNames(chosen)|;
    DecHasNone(|chosen|, 'P');
    DecHasNone(|chosen|, 'L');
    PatternFree("1.." + Dec(|chosen|));
    PatternFree("");
    SummaryPattern(pass, fail, skip, elapsed);
    PatternFree(Summary(pass, fail, skip, elapsed));
    ResultIsBland(pass, fail, tag, suite);
    FailedIsBland(FailedNames(chosen));
  }

  lemma PrintedCharges(dev: MarkDev, chosen: seq<Case>, skip: nat, tag: string, suite: string, elapsed: string)
    requires forall c <- chosen :: GoodName(c.name)
    requires Unspaced(tag) && Unspaced(suite) && PatternLess(elapsed)
    ensures Charged(0, Printed(dev, chosen, skip, tag, suite, elapsed)) == Charged(0, AllSaid(dev, 1, chosen))
    ensures Loading(Printed(dev, chosen, skip, tag, suite, elapsed)) <==> Loading(AllSaid(dev, 1, chosen))
  {
    hide Charged;
    hide Loading;
    hide Bland;
    hide Barren;
    hide RunLines;
    hide ReportLines;
    hide AllSaid;
    var (head, report) := Around(chosen, skip, tag, suite, elapsed);
    AroundIsBland(chosen, skip, tag, suite, elapsed);
    OwnCharges(0, head);
    var x := Charged(0, RunLines(dev, 1, chosen));
    OwnCharges(x, report);
    ChargedAppend(0, head + RunLines(dev, 1, chosen), report);
    ChargedAppend(0, head, RunLines(dev, 1, chosen));
    RunCharges(0, dev, 1, chosen);
  }

  lemma {:induction false} WovenCharges(from: int, log: seq<string>, guest: seq<string>, noise: string -> bool)
    requires Woven(log, guest, noise) && forall l :: noise(l) ==> Bland(l)
    ensures HostFails(from, log) == HostFails(from, guest) && (AnyLoads(log) <==> AnyLoads(guest))
    decreases log
  {
    hide HostBy;
    hide LoadsBy;
    if log != [] {
      if guest != [] && log[0] == guest[0] && Woven(log[1..], guest[1..], noise) {
        WovenCharges(match HostBy(CutReturns(log[0])) case None => from case Some((_, f)) => Int64(from + Atoi(f)),
          log[1..], guest[1..], noise);
        assert forall l :: l in guest <==> l == guest[0] || l in guest[1..];
      } else {
        assert noise(log[0]);
        WovenCharges(from, log[1..], guest, noise);
      }
      assert forall l :: l in log <==> l == log[0] || l in log[1..];
    }
  }

  lemma ParsedCharges(log: string, dev: MarkDev, chosen: seq<Case>, skip: nat, tag: string, suite: string,
      elapsed: string, noise: string -> bool, isFloat: string -> bool)
    requires OneLiners(dev, chosen, tag, suite, elapsed) && forall c <- chosen :: GoodName(c.name)
    requires Unspaced(tag) && Unspaced(suite) && PatternLess(elapsed)
    requires BootLog(log, dev, chosen, skip, tag, suite, elapsed, noise) && forall l :: noise(l) ==> Harmless(l)
    requires Parsed(log, isFloat).Some?
    ensures Parsed(log, isFloat).value.hostFail == Charged(0, AllSaid(dev, 1, chosen))
    ensures Parsed(log, isFloat).value.loadFailed == Loading(AllSaid(dev, 1, chosen))
  {
    hide Printed;
    hide Nameless;
    hide OneLiners;
    hide BootLog;
    hide Tagged;
    hide Fold;
    hide AllSaid;
    hide Bland;
    hide Barren;
    hide HostFails;
    hide AnyLoads;
    hide Unspaced;
    hide PatternLess;
    var lines := LogLines(log, dev, chosen, skip, tag, suite, elapsed, noise);
    assert forall l :: noise(l) ==> Harmless(l) && Bland(l);
    WovenCharges(0, lines, Tagged(Printed(dev, chosen, skip, tag, suite, elapsed)), noise);
    PrintedCharges(dev, chosen, skip, tag, suite, elapsed);
    FoldLedger(EMPTY, lines, isFloat);
  }

  // With no case chosen there is nothing in the log that counts.
  lemma NothingCounts(log: string, dev: MarkDev, skip: nat, tag: string, suite: string, elapsed: string,
      noise: string -> bool, isFloat: string -> bool)
    requires OneLiners(dev, [], tag, suite, elapsed) && Unspaced(tag) && Unspaced(suite) && PatternLess(elapsed)
    requires BootLog(log, dev, [], skip, tag, suite, elapsed, noise) && forall l :: noise(l) ==> Harmless(l)
    requires Parsed(log, isFloat).Some?
    ensures var o := Parsed(log, isFloat).value; o.hostPass == 0 && o.selftests == 0 && o.kut == 0 && o.metrics == []
  {
    hide Nameless;
    hide OneLiners;
    hide BootLog;
    hide Tagged;
    hide Fold;
    hide Bland;
    hide Barren;
    hide ReportLines;
    hide Unspaced;
    hide PatternLess;
    var ls := Printed(dev, [], skip, tag, suite, elapsed);
    var lines := LogLines(log, dev, [], skip, tag, suite, elapsed, noise);
    AroundIsBland([], skip, tag, suite, elapsed);
    assert ls == Around([], skip, tag, suite, elapsed).0 + Around([], skip, tag, suite, elapsed).1;
    EveryLineHarmless(lines, ls, noise);
    forall l | l in lines ensures HostBy(CutReturns(l)) == None && !Counted(CutReturns(l)) {
      CountsNothing(l);
    }
    FoldLedger(EMPTY, lines, isFloat);
  }

  lemma CountsNothing(l: string)
    requires Bland(l) && Barren(l)
    ensures HostBy(CutReturns(l)) == None && !Counted(CutReturns(l))
  {
  }

  lemma EveryLineHarmless(lines: seq<string>, ls: seq<string>, noise: string -> bool)
    requires Woven(lines, Tagged(ls), noise) && (forall l :: noise(l) ==> Harmless(l))
    requires forall l <- ls :: Bland(PREFIX + l) && Barren(PREFIX + l)
    ensures forall l <- lines :: Bland(l) && Barren(l)
  {
    hide Woven;
    hide Bland;
    hide Barren;
    hide Nameless;
    WovenLines(lines, Tagged(ls), noise);
    forall l | l in lines ensures Bland(l) && Barren(l) {
      if noise(l) {
        assert Harmless(l);
      } else {
        var i :| 0 <= i < |ls| && l == PREFIX + ls[i];
        assert ls[i] in ls;
      }
    }
  }

  lemma {:induction false} CountsAre(chosen: seq<Case>)
    ensures |PassedNames(chosen)| + |FailedNames(chosen)| == |chosen|
  {
    if chosen != [] {
      CountsAre(chosen[1..]);
    }
  }

  lemma SomeListed(names: seq<string>)
    ensures AddNames([], names) == [] <==> names == []
  {
    NamesListed([], names);
    if names != [] {
      assert names[0] in AddNames([], names);
    }
  }

  lemma {:induction false} NothingUnexpected(failed: seq<string>)
    ensures NotAllowed(failed, []) == failed
  {
    if failed != [] {
      NothingUnexpected(failed[1..]);
      assert failed == [failed[0]] + failed[1..];
    }
  }

  // Exactly when the host's verdict is the guest's own: a case failed or none
  // ran, or nothing loose lists a failed case and nothing said in the run is a
  // failed host test or a failed load to the parser.
  predicate VerdictClear(dev: MarkDev, chosen: seq<Case>) {
    FailedNames(chosen) != [] || chosen == []
    || ((forall c <- chosen, l <- Loose(c) :: !FailedVerdict(l))
        && Charged(0, AllSaid(dev, 1, chosen)) <= 0 && !Loading(AllSaid(dev, 1, chosen)))
  }

  // The names in a log of good names, as far as the verdict needs them.
  lemma VerdictNamesAre(log: string, dev: MarkDev, chosen: seq<Case>, skip: nat, tag: string, suite: string,
      elapsed: string, noise: string -> bool, isFloat: string -> bool)
    requires OneLiners(dev, chosen, tag, suite, elapsed) && forall c <- chosen :: GoodName(c.name)
    requires BootLog(log, dev, chosen, skip, tag, suite, elapsed, noise) && forall l :: noise(l) ==> Nameless(l)
    ensures Parsed(log, isFloat).Some?
    ensures var o := Parsed(log, isFloat).value;
      && (o.failed == [] <==> FailedNames(chosen) == [] && forall c <- chosen, l <- Loose(c) :: !FailedVerdict(l))
      && |o.passed| >= |PassedNames(chosen)| && (chosen == [] ==> o.passed == [])
  {
    hide Printed;
    hide Nameless;
    hide OneLiners;
    hide BootLog;
    hide Parsed;
    hide Tagged;
    hide AllPassed;
    hide AllFailed;
    hide AddNames;
    hide GoodName;
    hide Loose;
    hide FailedVerdict;
    hide Listings;
    hide RunLines;
    ParsedIs(log, dev, chosen, skip, tag, suite, elapsed, noise, isFloat);
    PrintedPassed(dev, chosen, skip, tag, suite, elapsed);
    RunPassed(dev, 1, chosen);
    hide Summarised;
    PrintedFailed(dev, chosen, skip, tag, suite, elapsed);
    FailedNamesGood(chosen);
    GoodSummary(FailedNames(chosen));
    SomeListed(Listings(chosen) + FailedNames(chosen));
    if FailedNames(chosen) == [] {
      NothingListed(chosen);
    }
  }

  // With no allow-list and no failing check, for every log with nothing else
  // in it to judge.
  lemma VerdictAgrees(log: string, dev: MarkDev, chosen: seq<Case>, skip: nat, tag: string, suite: string,
      elapsed: string, noise: string -> bool, isFloat: string -> bool)
    requires OneLiners(dev, chosen, tag, suite, elapsed) && forall c <- chosen :: GoodName(c.name)
    requires Unspaced(tag) && Unspaced(suite) && PatternLess(elapsed)
    requires BootLog(log, dev, chosen, skip, tag, suite, elapsed, noise) && forall l :: noise(l) ==> Harmless(l)
    ensures Parsed(log, isFloat).Some?
    ensures (Judge(Pass([]), Parsed(log, isFloat).value, true) <==>
      RunStatus(|PassedNames(chosen)|, |FailedNames(chosen)|) == "ok")
      <==> VerdictClear(dev, chosen)
  {
    hide Nameless;
    hide Bland;
    hide Barren;
    hide OneLiners;
    hide BootLog;
    hide Parsed;
    hide GoodName;
    hide Charged;
    hide Loading;
    hide Loose;
    hide FailedVerdict;
    hide Unspaced;
    hide PatternLess;
    assert forall l :: noise(l) ==> Harmless(l) && Nameless(l);
    VerdictNamesAre(log, dev, chosen, skip, tag, suite, elapsed, noise, isFloat);
    var o := Parsed(log, isFloat).value;
    ParsedCharges(log, dev, chosen, skip, tag, suite, elapsed, noise, isFloat);
    NothingUnexpected(o.failed);
    CountsAre(chosen);
    if chosen == [] {
      NothingCounts(log, dev, skip, tag, suite, elapsed, noise, isFloat);
    }
  }

  // Where no loose line lists a failed case there is nothing out of turn, so
  // printing and logging freely, with no line in the form of a verdict, keeps
  // every name.
  lemma {:induction false} QuietIsInTurn(listed: seq<string>, cases: seq<Case>, d: seq<string>)
    requires forall c <- cases, l <- Loose(c) :: !FailedVerdict(l)
    ensures FailedInTurn(listed, cases, d)
    decreases cases
  {
    hide AllFailed;
    hide Tagged;
    hide FailedVerdict;
    hide Continued;
    if cases != [] {
      var c := cases[0];
      assert forall l :: l in Loose(c) <==> l in c.ran.printed || l in Continued(c.ran.notes);
      NoFailedVerdicts(c.ran.printed);
      NoFailedVerdicts(Continued(c.ran.notes));
      QuietIsInTurn(AddNames(AddNames(AddNames(listed, []), FailedHead(c)), []), cases[1..], d);
    }
  }

  // --- notes that forge ---------------------------------------------------

  // A passing case whose one note goes on with a verdict line: the host counts
  // the forged case too, so names come back wrong, and with a failed one the
  // verdict as well.
  lemma NotesCanForge(c: Case, k: nat, forged: Case, dev: MarkDev)
    requires GoodName(c.name) && c.ran.printed == [] && c.ran.error == None
    requires GoodName(forged.name) && '\n' !in forged.ran.took
    requires c.ran.notes == ["\n" + Verdict(k, forged)]
    ensures forged.ran.error == None ==> !PassedClearly([c])
    ensures forged.ran.error.Some? ==> !FailedInTurn([], [c], []) && !VerdictClear(dev, [c])
  {
    hide Verdict;
    hide AllPassed;
    hide AllFailed;
    hide Tagged;
    var v := Verdict(k, forged);
    VerdictWhole(k, forged);
    SplitFirst("", '\n', v);
    SplitNone(v, '\n');
    assert "" + "\n" + v == "\n" + v;
    assert Split(c.ran.notes[0], '\n') == [""] + [v];
    assert Continued(c.ran.notes) == [v] by {
      assert c.ran.notes[1..] == [];
    }
    assert v in Loose(c);
    VerdictLine(k, forged);
    OneOkVerdict(v);
    OneFailedVerdict(v);
    if forged.ran.error.Some? {
      NotInTurn(c, forged.name);
      assert FailedNames([c]) == [] by {
        assert [c][1..] == [];
      }
    }
  }

  lemma NotInTurn(c: Case, name: string)
    requires c.ran.printed == [] && c.ran.error == None && AllFailed(Tagged(Continued(c.ran.notes))) == [name]
    ensures !FailedInTurn([], [c], [])
  {
    assert Tagged([]) == [];
    assert AddNames(AddNames([], []), []) == [];
  }
}
