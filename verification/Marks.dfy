// The harness's marks on their way to the host's phases (harness.go:111-142,
// parse.go:117-124).
module Marks {
  import opened Decimals
  import opened Harnesses
  import opened Options
  import opened Phases
  import opened ResultLines
  import opened ResultLog
  import opened Text

  // No result or metric stands in a line whose only colon is its thirteenth
  // character.
  lemma NoResultThere(b: string, i: nat)
    requires i <= |b| && forall k | 0 <= k < |b| && k != 12 :: b[k] != ':'
    ensures ResultHere(b[i..]) == None && MetricHere(b[i..]) == None
  {
    hide ResultWord;
    hide HasPrefix;
    hide Solid;
    assert forall k | 0 <= k < |b| - i :: b[i..][k] == b[i + k];
    if HasPrefix(b[i..], "PVMTEST-RESULT: ") {
      PrefixAt(b[i..], "PVMTEST-RESULT: ", 14);
    }
    if HasPrefix(b[i..], "PVMHOSTTEST-RESULT: ") {
      PrefixAt(b[i..], "PVMHOSTTEST-RESULT: ", 18);
    }
    if HasPrefix(b[i..], "PVMTEST-METRIC: ") {
      PrefixAt(b[i..], "PVMTEST-METRIC: ", 14);
    }
  }

  lemma MarkIsLate(v: nat, title: string)
    requires ':' !in title
    ensures Body(CutReturns(PREFIX + MarkLine(v, title))) == MarkLine(v, title)
    ensures Late(CutReturns(PREFIX + MarkLine(v, title)))
  {
    hide MarkLine;
    hide FirstMatch;
    hide Body;
    hide ResultHere;
    hide MetricHere;
    hide TapName;
    var l := MarkLine(v, title);
    var rest := MarkShape(v, title);
    CutNothing(l);
    Unprefixed(l);
    OneColonLine(rest);
    forall i | 0 <= i <= |l| ensures ResultHere(l[i..]) == None && MetricHere(l[i..]) == None {
      NoResultThere(l, i);
    }
    NoMatch(l, ResultHere);
    NoMatch(l, MetricHere);
    NoPrefix(l, "ok ");
    NoPrefix(l, "not ok ");
    NoPrefix(l, "# failed: ");
    NoPrefix(l, "SELFTEST: ");
    OtherFirst(l, rest);
  }

  lemma OtherFirst(l: string, rest: string)
    requires l == "PVMTEST-MARK:" + rest
    ensures !HasPrefix(l, "KUT: ")
  {
    assert l[0] == 'P';
  }

  lemma MarkParts(l: string, a: string, b: string, d: string, t: string)
    requires HasPrefix(l, "PVMTEST-MARK: ") && l[14..] == a
    requires Digits(a) == |d| > 0 && a[..|d|] == d && HasPrefix(a[|d|..], " ") && a[|d| + 1..] == b
    requires Run(b, Solid) == |t| > 0 && b[..|t|] == t && HasPrefix(b[|t|..], " #END")
    ensures FirstMatch<(string, string)>(l, MarkHere) == Some((d, t))
  {
    hide HasPrefix;
    hide Digits;
    hide Run;
    assert MarkHere(l) == Some((d, t));
  }

  lemma Behind(p: string, rest: string)
    ensures HasPrefix(p + rest, p) && (p + rest)[|p|..] == rest && (p + rest)[..|p|] == p
  {
  }

  lemma MarkText(v: nat, title: string)
    requires title != "" && forall c <- title :: Solid(c)
    ensures FirstMatch<(string, string)>(MarkLine(v, title), MarkHere) == Some((Dec(v), title))
  {
    hide Dec;
    hide Solid;
    hide Run;
    hide Digits;
    hide HasPrefix;
    hide MarkHere;
    var d, end := Dec(v), " #END";
    var b := title + end;
    var a := d + (" " + b);
    var l := MarkLine(v, title);
    assert l == "PVMTEST-MARK: " + a;
    Behind("PVMTEST-MARK: ", a);
    Behind(d, " " + b);
    Behind(" ", b);
    Behind(title, end);
    Behind(end, "");
    assert end + "" == end;
    assert a[|d| + 1..] == a[|d|..][1..];
    DigitsOfDec(v, " " + b);
    DecValue(v);
    BlankIsNotSolid();
    RunStops(title, end, Solid);
    MarkParts(l, a, b, d, title);
  }

  lemma BlankIsNotSolid()
    ensures !Solid(' ')
  {
  }

  // A mark line is read as the mark it was printed for; an odd one, behind a
  // case, names nothing.
  lemma MarkReads(v: nat, title: string)
    requires title != "" && (forall c <- title :: Solid(c)) && ':' !in title && v <= INT_MAX
    ensures MarkBy(CutReturns(PREFIX + MarkLine(v, title))) == if v % 2 == 0 then Some((v, PhaseName(title))) else None
  {
    hide MarkLine;
    hide FirstMatch;
    hide Body;
    hide Late;
    hide Dec;
    hide PhaseName;
    MarkIsLate(v, title);
    MarkText(v, title);
    DecValue(v);
  }

  // The marks around the nth case open one phase, by the case's name, unless
  // that ends like the other mark's.
  lemma CaseMarks(n: nat, name: string)
    requires GoodName(name) && 2 * n + 1 <= INT_MAX
    ensures MarkBy(CutReturns(PREFIX + MarkLine(2 * n, name + "/before"))) == Some((2 * n, name))
      <==> !(|name| >= 6 && name[|name| - 6..] == "/after")
    ensures MarkBy(CutReturns(PREFIX + MarkLine(2 * n + 1, name + "/after"))) == None
  {
    hide MarkBy;
    hide MarkLine;
    hide PhaseName;
    hide CutReturns;
    MarkTitle(name, "/before");
    MarkTitle(name, "/after");
    MarkReads(2 * n, name + "/before");
    MarkReads(2 * n + 1, name + "/after");
    PhaseNameIs(name);
  }

  lemma AfterIsCut(n: nat)
    requires 2 * n + 1 <= INT_MAX
    ensures MarkBy(CutReturns(PREFIX + MarkLine(2 * n, "x/after" + "/before"))) == Some((2 * n, "x"))
  {
    hide MarkBy;
    hide MarkLine;
    hide CutReturns;
    var name := "x/after";
    MarkTitle(name, "/before");
    MarkReads(2 * n, name + "/before");
    var title := name + "/before";
    assert title[|title| - 7..] == "/before" && title[..|title| - 7] == name;
    assert name[1..] == "/after" && name[..1] == "x";
  }

  lemma MarkTitle(name: string, end: string)
    requires GoodName(name) && (end == "/before" || end == "/after")
    ensures name + end != "" && (forall c <- name + end :: Solid(c)) && ':' !in name + end
  {
    forall c | c in name + end ensures Solid(c) && c != ':' {
      assert c in name || c in end;
      if c in name {
        assert NameChar(c);
      }
    }
  }
}
