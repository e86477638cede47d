// The second hop of the launch options: the guest's command line the agent makes (params.go:154-190, text.go:279-286)
// and the map the guest's init reads from it (sysinit.go:143-164).
module GuestParams {
  import opened Cmdlines
  import opened Options
  import opened Params
  import opened Text
  import opened Words

  // echo takes an argument of these letters only as its options.
  predicate EchoOption(s: string) {
    |s| > 1 && s[0] == '-' && forall i | 1 <= i < |s| :: s[i] in "neE"
  }

  function EchoTr(s: string): string {
    if EchoOption(s) then "" else Replace(s, ',', ' ')
  }

  datatype Mode = Run | Profile | Lock | Other

  // The words every guest gets, and those that depend on the suite.
  function FirstWords(vendor: string, suite: string): seq<string> {
    ["console=ttyS0,115200", "panic=-1", "oops=panic", "pvmtest.suite=" + suite, "pvmtest.tag=" + vendor + "-guest"]
  }

  function OnlyWord(p: Parameters, mode: Mode): seq<string> {
    if mode == Profile then ["pvmtest.only=" + OrDefault(p.profileCase, "perf/syscall")]
    else if mode == Lock then ["pvmtest.only=" + OrDefault(p.profileCase, "perf/fault-scaling")]
    else []
  }

  function SuiteWords(p: Parameters, mode: Mode, suite: string): seq<string> {
    if suite == "perf" then ["quiet"] + ["loglevel=0"] + OnlyWord(p, mode) else ["earlyprintk=serial,ttyS0,115200"]
  }

  function FixedGuest(p: Parameters, mode: Mode, suite: string): seq<string> {
    FirstWords(p.vendor, suite) + SuiteWords(p, mode, suite)
  }

  const EXPECT: seq<string> := ["pvmtest.expect" + "=" + "pvm"]

  function GuestLine(p: Parameters, mode: Mode, suite: string): string {
    Join(FixedGuest(p, mode, suite), " ")
    + (if p.guestAppend != "" then " " + EchoTr(p.guestAppend) else "")
    + (if p.vendor == "pvm" then " " + EXPECT[0] else "")
  }

  method GuestAppend(p: Parameters, mode: Mode, suite: string) returns (s: string)
    ensures s == GuestLine(p, mode, suite)
  {
    hide EchoTr;
    hide Join;
    hide FirstWords;
    hide SuiteWords;
    s := FirstText(p.vendor, suite);
    s := AddSuite(s, FirstWords(p.vendor, suite), p, mode, suite);
    if p.guestAppend != "" {
      s := s + (" " + EchoTr(p.guestAppend));
    }
    if p.vendor == "pvm" {
      s := s + (" " + EXPECT[0]);
    }
  }

  // A perf guest boots quietly, and runs one benchmark in the modes that look
  // at one; any other has its early console.
  method AddSuite(line: string, ghost words: seq<string>, p: Parameters, mode: Mode, suite: string) returns (s: string)
    requires words != [] && line == Join(words, " ")
    ensures s == Join(words + SuiteWords(p, mode, suite), " ")
  {
    hide Join;
    hide OrDefault;
    ghost var all := words;
    if suite == "perf" {
      s := line + " " + "quiet" + " " + "loglevel=0";
      all := JoinOne(all, "quiet");
      all := JoinOne(all, "loglevel=0");
      var only := OnlyWord(p, mode);
      if only != [] {
        s := s + " " + only[0];
        all := JoinOne(all, only[0]);
      }
      assert all == words + (["quiet"] + ["loglevel=0"] + only);
    } else {
      s := line + " " + "earlyprintk=serial,ttyS0,115200";
      all := JoinOne(all, "earlyprintk=serial,ttyS0,115200");
    }
  }

  method FirstText(vendor: string, suite: string) returns (s: string)
    ensures s == Join(FirstWords(vendor, suite), " ") && FirstWords(vendor, suite) != []
  {
    hide Join;
    var a, b, c, d, e := "console=ttyS0,115200", "panic=-1", "oops=panic", "pvmtest.suite=" + suite,
      "pvmtest.tag=" + vendor + "-guest";
    s := a + " " + b + " " + c + " " + d + " " + e;
    FiveJoined(a, b, c, d, e);
  }

  lemma {:induction false} JoinSnoc(ws: seq<string>, w: string, sep: string)
    requires ws != []
    ensures Join(ws + [w], sep) == Join(ws, sep) + sep + w
  {
    if |ws| == 1 {
      assert (ws + [w])[1..] == [w];
    } else {
      JoinSnoc(ws[1..], w, sep);
      assert (ws + [w])[1..] == ws[1..] + [w];
    }
  }

  lemma JoinOne(ws: seq<string>, w: string) returns (more: seq<string>)
    requires ws != []
    ensures more == ws + [w] && more != [] && Join(more, " ") == Join(ws, " ") + " " + w
  {
    more := ws + [w];
    JoinSnoc(ws, w, " ");
  }

  lemma FiveJoined(a: string, b: string, c: string, d: string, e: string)
    ensures Join([a, b, c, d, e], " ") == a + " " + b + " " + c + " " + d + " " + e
  {
    hide Join;
    JoinSnoc([a, b, c, d], e, " ");
    JoinSnoc([a, b, c], d, " ");
    JoinSnoc([a, b], c, " ");
    JoinSnoc([a], b, " ");
    JoinSingle(a);
    assert [a, b, c, d] + [e] == [a, b, c, d, e] && [a, b, c] + [d] == [a, b, c, d] && [a, b] + [c] == [a, b, c]
      && [a] + [b] == [a, b];
  }

  lemma JoinSingle(a: string)
    ensures Join([a], " ") == a
  {
  }

  // --- the guest ----------------------------------------------------------

  function KeyOf(tok: string): string {
    tok[..Find(tok, '=')]
  }

  function ValueOf(tok: string): string {
    if Find(tok, '=') < |tok| then tok[Find(tok, '=') + 1..] else ""
  }

  // The last value a key has among some words.
  function Last(words: seq<string>, k: string): Option<string> {
    if words == [] then None
    else if KeyOf(words[|words| - 1]) == k then Some(ValueOf(words[|words| - 1]))
    else Last(words[..|words| - 1], k)
  }

  ghost predicate IsCmdline(m: map<string, string>, words: seq<string>) {
    forall k :: (k in m <==> Last(words, k).Some?) && (k in m ==> Last(words, k) == Some(m[k]))
  }

  method Cmdline(line: string) returns (m: map<string, string>)
    ensures IsCmdline(m, Fields(line))
  {
    hide Fields;
    hide KeyOf;
    hide ValueOf;
    m := map[];
    var toks := Fields(line);
    assert toks[..0] == [];
    for i := 0 to |toks|
      invariant IsCmdline(m, toks[..i])
    {
      assert toks[..i + 1][..i] == toks[..i] && toks[..i + 1][i] == toks[i];
      m := m[KeyOf(toks[i]) := ValueOf(toks[i])];
    }
    assert toks[..|toks|] == toks;
  }

  function Get(m: map<string, string>, key: string, def: string): string {
    if key in m && m[key] != "" then m[key] else def
  }

  lemma {:induction false} LastAppend(a: seq<string>, b: seq<string>, k: string)
    ensures Last(a + b, k) == if Last(b, k).Some? then Last(b, k) else Last(a, k)
    decreases |b|
  {
    if b == [] {
      assert a + b == a;
    } else {
      LastAppend(a, b[..|b| - 1], k);
      assert (a + b)[..|a + b| - 1] == a + b[..|b| - 1];
    }
  }

  // --- end to end ---------------------------------------------------------

  lemma {:induction false} Spaced(ws: seq<string>)
    requires forall w <- ws :: ',' !in w
    ensures Replace(Join(ws, ","), ',', ' ') == Join(ws, " ")
  {
    if ws != [] {
      assert ',' !in ws[0];
      Spaced(ws[1..]);
    }
  }

  // An argument of the guest's: a word without a comma.
  predicate Argument(w: string) {
    Word(w) && ',' !in w
  }

  // The words arrive as they were given, unless all of them together look
  // like an option of echo, and then none does.
  lemma WordsArrive(guest: seq<string>)
    requires guest != [] && forall g <- guest :: Argument(g)
    ensures Fields(EchoTr(Join(guest, ","))) == guest <==> !EchoOption(Join(guest, ","))
  {
    hide Fields;
    hide Join;
    Spaced(guest);
    FieldsJoin(guest);
    NoFields();
  }

  // "-n" alone is such an option: the guest gets no argument at all.
  lemma OneOptionIsLost()
    ensures Argument("-n") && Fields(EchoTr(Join(["-n"], ","))) == []
  {
    hide Fields;
    var w := "-n";
    assert Argument(w) && EchoOption(w);
    JoinOnly(w);
    NoFields();
  }

  lemma JoinOnly(w: string)
    ensures Join([w], ",") == w
  {
  }

  predicate Inside(v: string) {
    forall c <- v :: !White(c)
  }

  lemma FixedAreWords(p: Parameters, mode: Mode, suite: string)
    requires Inside(p.vendor) && Inside(p.profileCase) && Inside(suite)
    ensures forall w <- FixedGuest(p, mode, suite) :: Word(w)
  {
    hide Word;
    FirstAreWords(p.vendor, suite);
    SuiteAreWords(p, mode, suite);
  }

  predicate Printed(s: string) {
    forall i | 0 <= i < |s| :: '!' <= s[i]
  }

  lemma KeyedWord(key: string, v: string)
    requires Printed(key) && key != "" && Inside(v)
    ensures Word(key + v) && Word(key)
  {
  }

  lemma PrintedIsInside(s: string)
    requires Printed(s)
    ensures Inside(s)
  {
  }

  lemma FirstAreWords(vendor: string, suite: string)
    requires Inside(vendor) && Inside(suite)
    ensures forall w <- FirstWords(vendor, suite) :: Word(w)
  {
    hide Word;
    hide Inside;
    KeyedWord("console=ttyS0,115200", PrintedText());
    KeyedWord("panic=-1", PrintedText());
    KeyedWord("oops=panic", PrintedText());
    KeyedWord("pvmtest.suite=", suite);
    TaggedWord(vendor);
  }

  function PrintedText(): (s: string)
    ensures Inside(s)
  {
    ""
  }

  lemma TaggedWord(vendor: string)
    requires Inside(vendor)
    ensures Word("pvmtest.tag=" + vendor + "-guest")
  {
    PrintedIsInside("-guest");
    KeyedWord("pvmtest.tag=", vendor + "-guest");
    assert "pvmtest.tag=" + (vendor + "-guest") == "pvmtest.tag=" + vendor + "-guest";
  }

  lemma SuiteAreWords(p: Parameters, mode: Mode, suite: string)
    requires Inside(p.profileCase)
    ensures forall w <- SuiteWords(p, mode, suite) :: Word(w)
  {
    hide Word;
    hide Inside;
    KeyedWord("quiet", PrintedText());
    KeyedWord("loglevel=0", PrintedText());
    KeyedWord("earlyprintk=serial,ttyS0,115200", PrintedText());
    PrintedIsInside("perf/syscall");
    PrintedIsInside("perf/fault-scaling");
    KeyedWord("pvmtest.only=", OrDefault(p.profileCase, "perf/syscall"));
    KeyedWord("pvmtest.only=", OrDefault(p.profileCase, "perf/fault-scaling"));
  }

  lemma GuestFields(p: Parameters, mode: Mode, suite: string)
    requires Inside(p.vendor) && Inside(p.profileCase) && Inside(suite)
    ensures Fields(GuestLine(p, mode, suite)) == FixedGuest(p, mode, suite)
      + (if p.guestAppend != "" then Fields(EchoTr(p.guestAppend)) else [])
      + (if p.vendor == "pvm" then EXPECT else [])
  {
    hide Fields;
    hide Join;
    hide FixedGuest;
    hide EchoTr;
    FixedAreWords(p, mode, suite);
    FieldsJoin(FixedGuest(p, mode, suite));
    var s := Join(FixedGuest(p, mode, suite), " ");
    var x, y := EchoTr(p.guestAppend), EXPECT[0];
    FieldsAppend(s, ' ', x);
    var t := if p.guestAppend != "" then s + ([' '] + x) else s;
    FieldsAppend(t, ' ', y);
    ExpectIsWord();
    FieldsFirst(y, "");
    NoFields();
    assert y + "" == y;
    assert t + "" == t && s + "" == s;
  }

  // The arguments the agent's echo passes on.
  function Arrived(guest: seq<string>): seq<string> {
    if EchoOption(Join(guest, ",")) then [] else guest
  }

  // From the host's options to the guest's map: the guest sees the fixed
  // parameters, then every argument given, in order, unless they look like an
  // option of echo, then the agent's own.
  lemma GuestSees(o: L1Opts, mode: Mode, suite: string)
    requires Clean(o) && (forall g <- o.guest :: Argument(g))
    requires Inside(o.vendor) && Inside(o.profile) && Inside(suite)
    ensures var p := ParseCmdline(Join(L1Words(o), " ") + "\n");
      Fields(GuestLine(p, mode, suite)) == FixedGuest(p, mode, suite) + Arrived(o.guest)
        + (if p.vendor == "pvm" then EXPECT else [])
  {
    hide Fields;
    hide Join;
    hide L1Words;
    hide ParseCmdline;
    hide GuestLine;
    hide FixedGuest;
    hide EchoTr;
    hide EchoOption;
    hide Clean;
    var p := ParseCmdline(Join(L1Words(o), " ") + "\n");
    OptionsArrive(o);
    assert Inside(p.vendor) && p.guestAppend == Join(o.guest, ",");
    GuestFields(p, mode, suite);
    Lost(Join(o.guest, ","));
    if o.guest == [] {
      NothingJoined();
    } else {
      assert Argument(o.guest[0]);
      WordsArrive(o.guest);
      NonEmptyJoin(o.guest);
      NoFields();
    }
  }

  lemma Lost(s: string)
    ensures EchoOption(s) ==> EchoTr(s) == "" && s != ""
  {
  }

  lemma NothingJoined()
    ensures Join([], ",") == "" && !EchoOption("")
  {
  }

  lemma NonEmptyJoin(ws: seq<string>)
    requires ws != [] && ws[0] != ""
    ensures Join(ws, ",") != ""
  {
  }

  // What the agent's own words give a key.
  function FixedValue(p: Parameters, mode: Mode, suite: string, k: string): Option<string> {
    if k == "console" then Some("ttyS0,115200")
    else if k == "panic" then Some("-1")
    else if k == "oops" then Some("panic")
    else if k == "pvmtest.suite" then Some(suite)
    else if k == "pvmtest.tag" then Some(p.vendor + "-guest")
    else if suite != "perf" then (if k == "earlyprintk" then Some("serial,ttyS0,115200") else None)
    else if k == "quiet" then Some("")
    else if k == "loglevel" then Some("0")
    else if k == "pvmtest.only" && mode == Profile then Some(OrDefault(p.profileCase, "perf/syscall"))
    else if k == "pvmtest.only" && mode == Lock then Some(OrDefault(p.profileCase, "perf/fault-scaling"))
    else None
  }

  // What a key is asked for: under pvm its own expectation is the agent's to
  // say; any other key is the given arguments' first, the agent's otherwise.
  function Told(p: Parameters, guest: seq<string>, mode: Mode, suite: string, k: string): Option<string> {
    if p.vendor == "pvm" && k == "pvmtest.expect" then Some("pvm")
    else if Last(guest, k).Some? then Last(guest, k)
    else FixedValue(p, mode, suite, k)
  }

  // The guest's Get of any key at all, from the host's options.
  lemma LastValueWins(o: L1Opts, mode: Mode, suite: string, m: map<string, string>, k: string, def: string)
    requires Clean(o) && (forall g <- o.guest :: Argument(g))
    requires Inside(o.vendor) && Inside(o.profile) && Inside(suite)
    requires IsCmdline(m, Fields(GuestLine(ParseCmdline(Join(L1Words(o), " ") + "\n"), mode, suite)))
    ensures var told := Told(ParseCmdline(Join(L1Words(o), " ") + "\n"), Arrived(o.guest), mode, suite, k);
      Get(m, k, def) == if told.Some? then OrDefault(told.value, def) else def
  {
    hide Fields;
    hide Join;
    hide L1Words;
    hide ParseCmdline;
    hide GuestLine;
    hide FixedGuest;
    hide FixedValue;
    hide EchoOption;
    hide Clean;
    hide Last;
    GuestSees(o, mode, suite);
    var p := ParseCmdline(Join(L1Words(o), " ") + "\n");
    var last := if p.vendor == "pvm" then EXPECT else [];
    LastAppend(FixedGuest(p, mode, suite) + Arrived(o.guest), last, k);
    LastAppend(FixedGuest(p, mode, suite), Arrived(o.guest), k);
    FixedIs(p, mode, suite, k);
    OnlyExpect(k);
  }

  lemma FixedIs(p: Parameters, mode: Mode, suite: string, k: string)
    ensures Last(FixedGuest(p, mode, suite), k) == FixedValue(p, mode, suite, k)
  {
    hide Last;
    hide OrDefault;
    hide FirstWords;
    hide SuiteWords;
    LastAppend(FirstWords(p.vendor, suite), SuiteWords(p, mode, suite), k);
    FirstIs(p.vendor, suite, k);
    SuiteIs(p, mode, suite, k);
  }

  // The literals, cut at their equals signs.
  lemma Spelled()
    ensures "console" + "=" + "ttyS0,115200" == "console=ttyS0,115200"
    ensures "panic" + "=" + "-1" == "panic=-1" && "oops" + "=" + "panic" == "oops=panic"
    ensures "pvmtest.suite" + "=" == "pvmtest.suite=" && "pvmtest.tag" + "=" == "pvmtest.tag="
    ensures "earlyprintk" + "=" + "serial,ttyS0,115200" == "earlyprintk=serial,ttyS0,115200"
    ensures "loglevel" + "=" + "0" == "loglevel=0" && "pvmtest.only" + "=" == "pvmtest.only="
  {
  }

  lemma FirstIs(vendor: string, suite: string, k: string)
    ensures Last(FirstWords(vendor, suite), k) ==
      if k == "console" then Some("ttyS0,115200") else if k == "panic" then Some("-1")
      else if k == "oops" then Some("panic")
      else if k == "pvmtest.suite" then Some(suite) else if k == "pvmtest.tag" then Some(vendor + "-guest") else None
  {
    hide Last;
    var a, b, c := ["console" + "=" + "ttyS0,115200"], ["panic" + "=" + "-1"], ["oops" + "=" + "panic"];
    var d, e := ["pvmtest.suite" + "=" + suite], ["pvmtest.tag" + "=" + (vendor + "-guest")];
    Spelled();
    assert "pvmtest.tag=" + (vendor + "-guest") == "pvmtest.tag=" + vendor + "-guest";
    assert FirstWords(vendor, suite) == a + b + c + d + e;
    LastPair("console", "ttyS0,115200", k);
    LastPair("panic", "-1", k);
    LastPair("oops", "panic", k);
    LastPair("pvmtest.suite", suite, k);
    LastPair("pvmtest.tag", vendor + "-guest", k);
    LastAppend(a, b, k);
    LastAppend(a + b, c, k);
    LastAppend(a + b + c, d, k);
    LastAppend(a + b + c + d, e, k);
  }

  lemma SuiteIs(p: Parameters, mode: Mode, suite: string, k: string)
    ensures Last(SuiteWords(p, mode, suite), k) ==
      if suite != "perf" then (if k == "earlyprintk" then Some("serial,ttyS0,115200") else None)
      else if k == "pvmtest.only" && mode == Profile then Some(OrDefault(p.profileCase, "perf/syscall"))
      else if k == "pvmtest.only" && mode == Lock then Some(OrDefault(p.profileCase, "perf/fault-scaling"))
      else if k == "loglevel" then Some("0")
      else if k == "quiet" then Some("")
      else None
  {
    hide Last;
    hide OrDefault;
    Spelled();
    if suite != "perf" {
      LastPair("earlyprintk", "serial,ttyS0,115200", k);
    } else {
      var only := OnlyWord(p, mode);
      var a, b := ["quiet"], ["loglevel" + "=" + "0"];
      assert SuiteWords(p, mode, suite) == a + b + only;
      LastFlag("quiet", k);
      LastPair("loglevel", "0", k);
      LastPair("pvmtest.only", OrDefault(p.profileCase, "perf/syscall"), k);
      LastPair("pvmtest.only", OrDefault(p.profileCase, "perf/fault-scaling"), k);
      NoneLast(k);
      assert a + b + [] == a + b;
      LastAppend(a, b, k);
      LastAppend(a + b, only, k);
    }
  }

  lemma NoneLast(k: string)
    ensures Last([], k) == None
  {
  }

  lemma LastPair(key: string, v: string, k: string)
    requires '=' !in key
    ensures Last([key + "=" + v], k) == if k == key then Some(v) else None
  {
    var w := key + "=" + v;
    FindIs(w, '=', |key|);
    assert w[..|key|] == key && w[|key| + 1..] == v;
    NoneLast(k);
  }

  lemma LastFlag(key: string, k: string)
    requires '=' !in key
    ensures Last([key], k) == if k == key then Some("") else None
  {
    FindIs(key, '=', |key|);
    assert key[..|key|] == key;
    NoneLast(k);
  }

  lemma ExpectIsWord()
    ensures Word(EXPECT[0])
  {
    KeyedWord("pvmtest.expect" + "=", "pvm");
  }

  lemma OnlyExpect(k: string)
    ensures Last(EXPECT, k) == if k == "pvmtest.expect" then Some("pvm") else None
    ensures Last([], k) == None
  {
    hide Last;
    LastPair("pvmtest.expect", "pvm", k);
    NoneLast(k);
  }
}
