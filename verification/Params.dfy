// Launch options on their way: the host's L1 command line (boot.go:265-290) and the agent's reading of it
// (params.go:31-90).
module Params {
  import opened Cmdlines
  import opened Options
  import opened Text
  import opened Words

  // --- the host -----------------------------------------------------------

  datatype L1Opts = L1Opts(
    suite: string,
    vendor: string,
    profile: string,
    guest: seq<string>,
    mods: seq<string>,
    cpus: string,
    mem: string,
    args: seq<string>)

  const ROOT: seq<string> := ["root=/dev/vda", "rw", "console=ttyS0,115200", "panic=-1"]
  const HOST: seq<string> := ["pvm_host"]
  const SYSTEMD: seq<string> := ["systemd.mask=serial-getty@ttyS0.service", "systemd.show_status=false"]

  function Optional(present: bool, key: string, v: string): seq<(string, string)> {
    if present then [(key, v)] else []
  }

  // The agent parameters the options give, in order.
  function Given(o: L1Opts): seq<(string, string)> {
    [("suite", o.suite), ("vendor", o.vendor)]
    + Optional(o.profile != "", "profile_case", o.profile)
    + Optional(o.guest != [], "guest_append", Join(o.guest, ","))
    + Optional(o.mods != [], "mod_args", Join(o.mods, ","))
    + Optional(o.cpus != "", "guest_cpus", o.cpus)
    + Optional(o.mem != "", "guest_mem", o.mem)
  }

  function Spelled(given: seq<(string, string)>): seq<string> {
    seq(|given|, i requires 0 <= i < |given| => Needle(given[i].0) + given[i].1)
  }

  function L1Words(o: L1Opts): seq<string> {
    ROOT + Spelled(Given(o)) + (if o.vendor == "pvm" then HOST else []) + o.args + SYSTEMD
  }

  method L1Append(o: L1Opts) returns (line: string)
    ensures line == Join(L1Words(o), " ")
  {
    hide Join;
    hide Needle;
    hide Spelled;
    hide Optional;
    var words := ROOT + [Needle("suite") + o.suite, Needle("vendor") + o.vendor];
    ghost var given := [("suite", o.suite), ("vendor", o.vendor)];
    SpelledTwo(o.suite, o.vendor);
    if o.profile != "" {
      words := words + [Needle("profile_case") + o.profile];
    }
    given := SpelledMore(given, o.profile != "", "profile_case", o.profile);
    if |o.guest| > 0 {
      words := words + [Needle("guest_append") + Join(o.guest, ",")];
    }
    given := SpelledMore(given, o.guest != [], "guest_append", Join(o.guest, ","));
    if |o.mods| > 0 {
      words := words + [Needle("mod_args") + Join(o.mods, ",")];
    }
    given := SpelledMore(given, o.mods != [], "mod_args", Join(o.mods, ","));
    if o.cpus != "" {
      words := words + [Needle("guest_cpus") + o.cpus];
    }
    given := SpelledMore(given, o.cpus != "", "guest_cpus", o.cpus);
    if o.mem != "" {
      words := words + [Needle("guest_mem") + o.mem];
    }
    given := SpelledMore(given, o.mem != "", "guest_mem", o.mem);
    assert given == Given(o);
    assert words + [] == words;
    if o.vendor == "pvm" {
      words := words + HOST;
    }
    words := words + o.args + SYSTEMD;
    assert words == L1Words(o);
    line := Join(words, " ");
  }

  lemma SpelledTwo(suite: string, vendor: string)
    ensures Spelled([("suite", suite), ("vendor", vendor)]) == [Needle("suite") + suite, Needle("vendor") + vendor]
  {
    hide Needle;
  }

  lemma SpelledMore(given: seq<(string, string)>, present: bool, key: string, v: string)
      returns (more: seq<(string, string)>)
    ensures more == given + Optional(present, key, v)
    ensures ROOT + Spelled(more) == if present then ROOT + Spelled(given) + [Needle(key) + v] else ROOT + Spelled(given)
  {
    hide Needle;
    more := given + Optional(present, key, v);
    if present {
      assert Spelled(more) == Spelled(given) + [Needle(key) + v];
    }
  }

  // --- the agent ----------------------------------------------------------

  datatype Parameters = Parameters(
    vendor: string,
    suite: string,
    guestCPUs: string,
    guestMem: string,
    modArgs: string,
    testTimeout: string,
    guestTimeout: string,
    profileCase: string,
    guestAppend: string)

  function OrDefault(v: string, def: string): string {
    if v == "" then def else v
  }

  // strings.ReplaceAll and tr, one byte for one byte.
  function Replace(s: string, c: char, d: char): string {
    seq(|s|, i requires 0 <= i < |s| => if s[i] == c then d else s[i])
  }

  function ParseCmdline(cmdline: string): Parameters {
    Parameters(
      OrDefault(Value(cmdline, "vendor", NotBlank), "pvm"),
      OrDefault(Value(cmdline, "suite", NotBlank), "default"),
      OrDefault(Value(cmdline, "guest_cpus", NotBlank), "2"),
      OrDefault(Value(cmdline, "guest_mem", NotBlank), "1G"),
      Replace(Value(cmdline, "mod_args", NotBlank), ',', ' '),
      OrDefault(Value(cmdline, "test_timeout", Digit), "300"),
      Value(cmdline, "guest_timeout", Digit),
      Value(cmdline, "profile_case", NotBlank),
      Value(cmdline, "guest_append", NotBlank))
  }

  const KEYS: seq<string> := ["vendor", "suite", "guest_cpus", "guest_mem", "mod_args", "profile_case", "guest_append",
    "test_timeout", "guest_timeout"]

  // Keys whose values may come from the L1 arguments instead.
  const TIMEOUTS: seq<string> := ["test_timeout", "guest_timeout"]

  // --- which word a key is in ---------------------------------------------

  // No blank, no newline, and no agent key spelled out.
  predicate Innocent(v: string) {
    ' ' !in v && '\n' !in v && forall key <- KEYS :: !Contains(v, Needle(key))
  }

  // What the keys have to be for their text to be found nowhere else.
  predicate KeyShape(key: string) {
    '=' !in key && ' ' !in key && '\n' !in key && ',' !in key
    && forall i | 0 <= i < |key| - 1 :: key[i] == 'p' ==> key[i + 1] != 'v'
  }

  lemma KeysAreShaped(key: string)
    requires key in KEYS
    ensures KeyShape(key)
  {
    hide KeyShape;
    ShapedHere(key);
    ShapedThere(key);
    ShapedTimes(key);
  }

  lemma ShapedHere(key: string)
    ensures key == "vendor" || key == "suite" || key == "guest_cpus" || key == "guest_mem" ==> KeyShape(key)
  {
  }

  lemma ShapedThere(key: string)
    ensures key == "mod_args" || key == "profile_case" || key == "guest_append" ==> KeyShape(key)
  {
  }

  lemma ShapedTimes(key: string)
    ensures key == "test_timeout" || key == "guest_timeout" ==> KeyShape(key)
  {
  }

  // Inside "pvmtest.other=value" a key's text is its head or in its value.
  lemma NotInHead(other: string, v: string, key: string, i: nat)
    requires KeyShape(other) && KeyShape(key) && i <= |Needle(other)|
    requires StartsAt(Needle(other) + v, Needle(key), i)
    ensures i == |Needle(other)| || (i == 0 && other == key)
  {
    var w, n := Needle(other) + v, Needle(key);
    assert w[i..i + |n|][0] == w[i] && w[i..i + |n|][1] == w[i + 1];
    assert n[0] == 'p' && n[1] == 'v';
    assert forall k | 0 <= k < |Needle(other)| :: w[k] == Needle(other)[k];
    if i == 0 {
      SameKey(other, v, key);
    } else if i < |Needle(other)| {
      HeadHasOne(other, i);
      assert false;
    }
  }

  lemma HeadHasOne(other: string, i: nat)
    requires KeyShape(other) && 0 < i < |Needle(other)|
    ensures Needle(other)[i] == 'p' ==> i + 1 < |Needle(other)| && Needle(other)[i + 1] != 'v'
  {
    var n := Needle(other);
    if i >= 8 && i - 8 < |other| {
      assert n[i] == other[i - 8];
      if i - 8 < |other| - 1 {
        assert n[i + 1] == other[i - 8 + 1];
      }
    }
  }

  lemma SameKey(other: string, v: string, key: string)
    requires '=' !in other && '=' !in key && StartsAt(Needle(other) + v, Needle(key), 0)
    ensures other == key
  {
    var w, n := Needle(other) + v, Needle(key);
    assert w[0..|n|] == n;
    assert n[8 + |key|] == '=' && w[8 + |other|] == '=';
    assert forall k | 0 <= k < |n| :: w[k] == w[0..|n|][k] == n[k];
    assert forall k | 0 <= k < |other| :: w[8 + k] == other[k];
    assert forall k | 0 <= k < |key| :: n[8 + k] == key[k];
    if |key| == |other| {
      assert key == n[8..8 + |key|] == w[8..8 + |key|] == other;
    }
  }

  // What is heard of a key in a spelled parameter: what stands behind its text
  // in the value, or else the value, if the key is the parameter's own.
  function Said(g: (string, string), key: string): Option<string> {
    if Contains(g.1, Needle(key)) then Suffix(g.1, key) else if g.0 == key then Some(g.1) else None
  }

  lemma SpelledSuffix(other: string, v: string, key: string)
    requires KeyShape(other) && KeyShape(key)
    ensures Suffix(Needle(other) + v, key) == Said((other, v), key)
  {
    hide StartsAt;
    var h, n := Needle(other), Needle(key);
    var w := h + v;
    LastPlaceNone(v, n);
    LastAtIs(v, n, |v|);
    if Contains(v, n) {
      ValueSuffix(h, v, key);
    } else {
      forall i | 0 <= i <= |w| ensures StartsAt(w, n, i) ==> i == 0 && other == key {
        if i < |h| {
          if StartsAt(w, n, i) { NotInHead(other, v, key, i); }
        } else {
          StartsInTail(h, v, n, i - |h|);
        }
      }
      if other == key {
        StartsItself(n, v);
        LastPlaceIs(w, n, 0);
        assert w[0 + |n|..] == v;
      } else {
        LastPlaceNone(w, n);
      }
    }
  }

  // A key's text in the value is later than any in front of it.
  lemma ValueSuffix(h: string, v: string, key: string)
    requires Contains(v, Needle(key))
    ensures Suffix(h + v, key) == Suffix(v, key)
  {
    hide StartsAt;
    var n, w := Needle(key), h + v;
    LastPlaceNone(v, n);
    LastPlaceFits(v, n);
    LastAtIs(v, n, |v|);
    var p := LastPlace(v, n).value;
    StartsInTail(h, v, n, p);
    forall j | |h| + p < j <= |w| ensures !StartsAt(w, n, j) {
      StartsInTail(h, v, n, j - |h|);
    }
    LastPlaceIs(w, n, |h| + p);
    assert w[|h| + p + |n|..] == v[p + |n|..];
  }

  lemma StartsInTail(h: string, v: string, sub: string, j: nat)
    requires j <= |v|
    ensures StartsAt(h + v, sub, |h| + j) <==> StartsAt(v, sub, j)
  {
    if j + |sub| <= |v| {
      assert (h + v)[|h| + j..|h| + j + |sub|] == v[j..j + |sub|];
    }
  }

  lemma StartsItself(sub: string, v: string)
    ensures StartsAt(sub + v, sub, 0)
  {
  }

  lemma {:induction false} NoSuffix(ws: seq<string>, key: string)
    ensures LastSuffix(ws, key) == None <==> forall w <- ws :: !Contains(w, Needle(key))
  {
    hide Contains;
    hide LastPlace;
    if ws != [] {
      NoSuffix(ws[1..], key);
      LastPlaceNone(ws[0], Needle(key));
      assert forall w :: w in ws <==> w == ws[0] || w in ws[1..];
    }
  }

  // The last value given for a key.
  function Lookup(given: seq<(string, string)>, key: string): Option<string> {
    if given == [] then None
    else if Lookup(given[1..], key).Some? then Lookup(given[1..], key)
    else if given[0].0 == key then Some(given[0].1) else None
  }

  lemma {:induction false} LookupAppend(a: seq<(string, string)>, b: seq<(string, string)>, key: string)
    ensures Lookup(a + b, key) == if Lookup(b, key).Some? then Lookup(b, key) else Lookup(a, key)
  {
    if a == [] {
      assert a + b == b;
    } else {
      LookupAppend(a[1..], b, key);
      assert (a + b)[1..] == a[1..] + b && (a + b)[0] == a[0];
    }
  }

  // The last thing heard of a key.
  function HeardIn(given: seq<(string, string)>, key: string): Option<string> {
    if given == [] then None
    else if HeardIn(given[1..], key).Some? then HeardIn(given[1..], key)
    else Said(given[0], key)
  }

  lemma {:induction false} GivenSuffix(given: seq<(string, string)>, key: string)
    requires KeyShape(key) && forall g <- given :: KeyShape(g.0)
    ensures LastSuffix(Spelled(given), key) == HeardIn(given, key)
  {
    hide KeyShape;
    hide Said;
    hide Suffix;
    if given != [] {
      assert given[0] in given;
      GivenSuffix(given[1..], key);
      SpelledSuffix(given[0].0, given[0].1, key);
      assert Spelled(given)[1..] == Spelled(given[1..]);
    }
  }

  // Where no value has the key's text in it, the key's own values are heard.
  lemma {:induction false} HeardIsGiven(given: seq<(string, string)>, key: string)
    requires forall g <- given :: !Contains(g.1, Needle(key))
    ensures HeardIn(given, key) == Lookup(given, key)
  {
    hide Contains;
    if given != [] {
      assert given[0] in given;
      HeardIsGiven(given[1..], key);
    }
  }

  // --- the fixed words ----------------------------------------------------

  predicate NoStart(s: string) {
    forall i | 0 <= i < |s| - 3 :: s[i] == 'p' && s[i + 1] == 'v' ==> s[i + 3] != 't'
  }

  lemma NotThere(s: string, key: string)
    requires NoStart(s)
    ensures !Contains(s, Needle(key))
  {
    var n := Needle(key);
    assert n[0] == 'p' && n[1] == 'v' && n[3] == 't';
    forall i | 0 <= i <= |s| ensures !StartsAt(s, n, i) {
      if StartsAt(s, n, i) {
        assert false;
      }
    }
  }

  lemma FixedWords(key: string)
    ensures LastSuffix(ROOT, key) == None && LastSuffix(HOST, key) == None && LastSuffix(SYSTEMD, key) == None
      && LastSuffix([], key) == None
  {
    hide Contains;
    hide LastSuffix;
    hide NoStart;
    Starts();
    NoSuffix(ROOT, key);
    NoSuffix(HOST, key);
    NoSuffix(SYSTEMD, key);
    NoSuffix([], key);
    forall w | w in ROOT || w in HOST || w in SYSTEMD ensures !Contains(w, Needle(key)) {
      assert Fixed(w);
      NotThere(w, key);
    }
  }

  predicate Fixed(w: string) { NoStart(w) && '\n' !in w }

  lemma RootIsFixed()
    ensures Fixed("root=/dev/vda")
  {
    NoP("root=/dev/vda");
  }

  lemma RwIsFixed()
    ensures Fixed("rw")
  {
    NoP("rw");
  }

  lemma ConsoleIsFixed()
    ensures Fixed("console=ttyS0,115200")
  {
    NoP("console=ttyS0,115200");
  }

  lemma PanicIsFixed()
    ensures Fixed("panic=-1")
  {
  }

  lemma PvmHostIsFixed()
    ensures Fixed("pvm_host")
  {
  }

  lemma MaskIsFixed()
    ensures Fixed("systemd.mask=serial-getty@ttyS0.service")
  {
    NoP("systemd.mask=serial-getty@ttyS0.service");
  }

  lemma ShowIsFixed()
    ensures Fixed("systemd.show_status=false")
  {
    NoP("systemd.show_status=false");
  }

  lemma Starts()
    ensures forall w | w in ROOT || w in HOST || w in SYSTEMD :: Fixed(w)
  {
    hide Fixed;
    RootIsFixed();
    RwIsFixed();
    ConsoleIsFixed();
    PanicIsFixed();
    PvmHostIsFixed();
    MaskIsFixed();
    ShowIsFixed();
  }

  lemma NoP(s: string)
    requires 'p' !in s
    ensures NoStart(s)
  {
  }

  // --- from the options to the agent --------------------------------------

  // What the host demands of the options it spells: no blank, no newline and
  // no agent key inside a value. The L1 arguments, which stand last, may set
  // the timeouts and nothing else of the agent's.
  predicate Clean(o: L1Opts) {
    && Innocent(o.suite) && Innocent(o.vendor) && Innocent(o.profile) && Innocent(o.cpus) && Innocent(o.mem)
    && (forall g <- o.guest :: Innocent(g)) && (forall m <- o.mods :: Innocent(m))
    && (forall a <- o.args :: '\n' !in a)
    && forall a <- o.args, key <- KEYS :: key in TIMEOUTS || !Contains(a, Needle(key))
  }

  lemma JoinedInnocent(ws: seq<string>)
    requires forall w <- ws :: Innocent(w)
    ensures Innocent(Join(ws, ","))
  {
    hide Contains;
    hide Join;
    JoinChars(ws, ',', ' ');
    JoinChars(ws, ',', '\n');
    forall key | key in KEYS ensures !Contains(Join(ws, ","), Needle(key)) {
      KeysAreShaped(key);
      ContainsJoin(ws, ',', Needle(key));
    }
  }

  lemma GivenInnocent(o: L1Opts)
    requires Clean(o)
    ensures forall g <- Given(o) :: g.0 in KEYS && Innocent(g.1)
  {
    hide Innocent;
    hide Join;
    JoinedInnocent(o.guest);
    JoinedInnocent(o.mods);
  }

  // What the host's options say of a key: the L1 arguments come last.
  function Heard(o: L1Opts, key: string): Option<string> {
    if LastSuffix(o.args, key).Some? then LastSuffix(o.args, key) else HeardIn(Given(o), key)
  }

  lemma KeySource(o: L1Opts, key: string)
    requires key in KEYS
    ensures LastSuffix(L1Words(o), key) == Heard(o, key)
  {
    hide KeyShape;
    hide Contains;
    hide LastSuffix;
    hide Given;
    hide HeardIn;
    hide Spelled;
    KeysAreShaped(key);
    GivenKeys(o);
    forall g | g in Given(o) ensures KeyShape(g.0) {
      KeysAreShaped(g.0);
    }
    GivenSuffix(Given(o), key);
    FixedWords(key);
    var host := if o.vendor == "pvm" then HOST else [];
    var a := ROOT + Spelled(Given(o));
    LastSuffixAppend(a + host + o.args, SYSTEMD, key);
    LastSuffixAppend(a + host, o.args, key);
    LastSuffixAppend(a, host, key);
    LastSuffixAppend(ROOT, Spelled(Given(o)), key);
  }

  lemma GivenKeys(o: L1Opts)
    ensures forall g <- Given(o) :: g.0 in KEYS
  {
    hide Join;
  }

  // Among clean options a key is heard from its own option only.
  lemma CleanHeard(o: L1Opts, key: string)
    requires Clean(o) && key in KEYS
    ensures HeardIn(Given(o), key) == Lookup(Given(o), key)
    ensures key !in TIMEOUTS ==> LastSuffix(o.args, key) == None
  {
    hide Contains;
    hide LastSuffix;
    hide Given;
    hide HeardIn;
    hide Lookup;
    GivenInnocent(o);
    HeardIsGiven(Given(o), key);
    NoSuffix(o.args, key);
  }

  // A command line has no newline in it.
  predicate NoNewlines(o: L1Opts) {
    && '\n' !in o.suite && '\n' !in o.vendor && '\n' !in o.profile && '\n' !in o.cpus && '\n' !in o.mem
    && (forall g <- o.guest :: '\n' !in g) && (forall m <- o.mods :: '\n' !in m) && forall a <- o.args :: '\n' !in a
  }

  lemma CleanLine(o: L1Opts)
    requires Clean(o)
    ensures NoNewlines(o)
  {
    hide Contains;
  }

  lemma GivenOneLine(o: L1Opts)
    requires NoNewlines(o)
    ensures forall g <- Given(o) :: g.0 in KEYS && '\n' !in g.1
  {
    hide Join;
    JoinChars(o.guest, ',', '\n');
    JoinChars(o.mods, ',', '\n');
  }

  lemma {:induction false} SpelledOneLine(given: seq<(string, string)>)
    requires forall g <- given :: g.0 in KEYS && '\n' !in g.1
    ensures forall w <- Spelled(given) :: '\n' !in w
  {
    hide Contains;
    forall w | w in Spelled(given) ensures '\n' !in w {
      var i :| 0 <= i < |given| && w == Needle(given[i].0) + given[i].1;
      assert given[i] in given;
      KeysAreShaped(given[i].0);
    }
  }

  lemma OneLine(o: L1Opts)
    requires NoNewlines(o)
    ensures '\n' !in Join(L1Words(o), " ")
  {
    hide Join;
    hide Given;
    hide Spelled;
    GivenOneLine(o);
    SpelledOneLine(Given(o));
    Starts();
    JoinChars(L1Words(o), ' ', '\n');
  }

  function Cut(v: Option<string>, cls: char -> bool): string {
    match v
    case None => ""
    case Some(s) => s[..Run(s, cls)]
  }

  lemma KeyValue(o: L1Opts, key: string, cls: char -> bool)
    requires NoNewlines(o) && key in KEYS && !cls(' ')
    ensures Value(Join(L1Words(o), " ") + "\n", key, cls) == Cut(Heard(o, key), cls)
  {
    hide LastSuffix;
    hide Heard;
    hide L1Words;
    hide Join;
    hide NoNewlines;
    KeysAreShaped(key);
    OneLine(o);
    KeySource(o, key);
    WordsValue(L1Words(o), key, cls);
    OneLineValue(Join(L1Words(o), " "), key, cls);
  }

  function Absent(v: string): Option<string> {
    if v == "" then None else Some(v)
  }

  // The options by key.
  function Chosen(o: L1Opts, key: string): Option<string> {
    if key == "suite" then Some(o.suite)
    else if key == "vendor" then Some(o.vendor)
    else if key == "profile_case" then Absent(o.profile)
    else if key == "guest_append" then if o.guest == [] then None else Some(Join(o.guest, ","))
    else if key == "mod_args" then if o.mods == [] then None else Some(Join(o.mods, ","))
    else if key == "guest_cpus" then Absent(o.cpus)
    else if key == "guest_mem" then Absent(o.mem)
    else None
  }

  lemma GivenValue(o: L1Opts, key: string)
    ensures Lookup(Given(o), key) == Chosen(o, key)
  {
    hide Join;
    hide Lookup;
    var a := [("suite", o.suite), ("vendor", o.vendor)];
    var b, c := Optional(o.profile != "", "profile_case", o.profile),
      Optional(o.guest != [], "guest_append", Join(o.guest, ","));
    var d, e := Optional(o.mods != [], "mod_args", Join(o.mods, ",")), Optional(o.cpus != "", "guest_cpus", o.cpus);
    var f := Optional(o.mem != "", "guest_mem", o.mem);
    LookupAppend(a + b + c + d + e, f, key);
    LookupAppend(a + b + c + d, e, key);
    LookupAppend(a + b + c, d, key);
    LookupAppend(a + b, c, key);
    LookupAppend(a, b, key);
    LookupTwo(o.suite, o.vendor, key);
    LookupOptional(o.profile != "", "profile_case", o.profile, key);
    LookupOptional(o.guest != [], "guest_append", Join(o.guest, ","), key);
    LookupOptional(o.mods != [], "mod_args", Join(o.mods, ","), key);
    LookupOptional(o.cpus != "", "guest_cpus", o.cpus, key);
    LookupOptional(o.mem != "", "guest_mem", o.mem, key);
  }

  lemma LookupOptional(present: bool, k: string, v: string, key: string)
    ensures Lookup(Optional(present, k, v), key) == if present && k == key then Some(v) else None
  {
    assert [(k, v)][1..] == [];
  }

  lemma LookupTwo(suite: string, vendor: string, key: string)
    ensures Lookup([("suite", suite), ("vendor", vendor)], key)
      == if key == "vendor" then Some(vendor) else if key == "suite" then Some(suite) else None
  {
    LookupOptional(true, "suite", suite, key);
    LookupOptional(true, "vendor", vendor, key);
    LookupAppend([("suite", suite)], [("vendor", vendor)], key);
    assert [("suite", suite)] + [("vendor", vendor)] == [("suite", suite), ("vendor", vendor)];
  }

  function Spelling(v: Option<string>): string {
    match v
    case None => ""
    case Some(s) => s
  }

  lemma ChosenIsWord(o: L1Opts, key: string)
    requires Clean(o)
    ensures ' ' !in Spelling(Chosen(o, key))
  {
    hide Contains;
    hide Join;
    JoinedInnocent(o.guest);
    JoinedInnocent(o.mods);
  }

  // One option, all the way.
  lemma OptionArrives(o: L1Opts, key: string)
    requires Clean(o) && key in KEYS && key !in TIMEOUTS
    ensures Cut(Heard(o, key), NotBlank) == Spelling(Chosen(o, key))
  {
    hide Clean;
    hide LastSuffix;
    hide Lookup;
    hide HeardIn;
    hide Given;
    hide Chosen;
    CleanHeard(o, key);
    GivenValue(o, key);
    ChosenIsWord(o, key);
    RunAll(Spelling(Chosen(o, key)), NotBlank);
  }

  lemma TimeoutArrives(o: L1Opts, key: string)
    requires Clean(o) && key in TIMEOUTS
    ensures Cut(Heard(o, key), Digit) == Cut(LastSuffix(o.args, key), Digit)
  {
    hide Clean;
    hide LastSuffix;
    hide Lookup;
    hide HeardIn;
    hide Given;
    CleanHeard(o, key);
    GivenValue(o, key);
  }

  // What the agent reads, for any options that are one line: of each key the
  // last thing heard, up to a blank.
  lemma OptionsRead(o: L1Opts)
    requires NoNewlines(o)
    ensures ParseCmdline(Join(L1Words(o), " ") + "\n") == Parameters(
      OrDefault(Cut(Heard(o, "vendor"), NotBlank), "pvm"),
      OrDefault(Cut(Heard(o, "suite"), NotBlank), "default"),
      OrDefault(Cut(Heard(o, "guest_cpus"), NotBlank), "2"),
      OrDefault(Cut(Heard(o, "guest_mem"), NotBlank), "1G"),
      Replace(Cut(Heard(o, "mod_args"), NotBlank), ',', ' '),
      OrDefault(Cut(Heard(o, "test_timeout"), Digit), "300"),
      Cut(Heard(o, "guest_timeout"), Digit),
      Cut(Heard(o, "profile_case"), NotBlank),
      Cut(Heard(o, "guest_append"), NotBlank))
  {
    hide L1Words;
    hide Value;
    hide NoNewlines;
    hide Heard;
    hide Cut;
    hide Replace;
    KeyValue(o, "vendor", NotBlank);
    KeyValue(o, "suite", NotBlank);
    KeyValue(o, "guest_cpus", NotBlank);
    KeyValue(o, "guest_mem", NotBlank);
    KeyValue(o, "mod_args", NotBlank);
    KeyValue(o, "profile_case", NotBlank);
    KeyValue(o, "guest_append", NotBlank);
    KeyValue(o, "test_timeout", Digit);
    KeyValue(o, "guest_timeout", Digit);
  }

  // What went into the command line, with defaults for what did not.
  function Sent(o: L1Opts): Parameters {
    Parameters(
      OrDefault(o.vendor, "pvm"),
      OrDefault(o.suite, "default"),
      OrDefault(o.cpus, "2"),
      OrDefault(o.mem, "1G"),
      Replace(Join(o.mods, ","), ',', ' '),
      OrDefault(Cut(LastSuffix(o.args, "test_timeout"), Digit), "300"),
      Cut(LastSuffix(o.args, "guest_timeout"), Digit),
      o.profile,
      Join(o.guest, ","))
  }

  // Every clean launch option reaches the agent: reading the command line the
  // host made gives back what went into it.
  lemma OptionsArrive(o: L1Opts)
    requires Clean(o)
    ensures ParseCmdline(Join(L1Words(o), " ") + "\n") == Sent(o)
  {
    hide LastSuffix;
    hide L1Words;
    hide Value;
    hide Clean;
    hide Cut;
    hide Heard;
    hide ParseCmdline;
    hide Replace;
    CleanLine(o);
    OptionsRead(o);
    OptionArrives(o, "vendor");
    OptionArrives(o, "suite");
    OptionArrives(o, "guest_cpus");
    OptionArrives(o, "guest_mem");
    OptionArrives(o, "mod_args");
    OptionArrives(o, "profile_case");
    OptionArrives(o, "guest_append");
    TimeoutArrives(o, "test_timeout");
    TimeoutArrives(o, "guest_timeout");
    SpelledOptions(o);
  }

  // An option is heard as it was given: no blank in it, and nothing that comes
  // later on the line spells its key, or the last that does says the same.
  predicate HeardAs(o: L1Opts, key: string, v: string, def: string) {
    OrDefault(Cut(Heard(o, key), NotBlank), def) == OrDefault(v, def)
  }

  // Exactly when the options arrive.
  lemma OptionsArriveExactly(o: L1Opts)
    requires NoNewlines(o)
    ensures ParseCmdline(Join(L1Words(o), " ") + "\n") == Sent(o) <==>
      && HeardAs(o, "vendor", o.vendor, "pvm") && HeardAs(o, "suite", o.suite, "default")
      && HeardAs(o, "guest_cpus", o.cpus, "2") && HeardAs(o, "guest_mem", o.mem, "1G")
      && HeardAs(o, "profile_case", o.profile, "") && HeardAs(o, "guest_append", Join(o.guest, ","), "")
      && Replace(Cut(Heard(o, "mod_args"), NotBlank), ',', ' ') == Replace(Join(o.mods, ","), ',', ' ')
      && OrDefault(Cut(Heard(o, "test_timeout"), Digit), "300")
      == OrDefault(Cut(LastSuffix(o.args, "test_timeout"), Digit), "300")
      && Cut(Heard(o, "guest_timeout"), Digit) == Cut(LastSuffix(o.args, "guest_timeout"), Digit)
  {
    hide L1Words;
    hide NoNewlines;
    hide Heard;
    hide Cut;
    hide Replace;
    hide ParseCmdline;
    hide LastSuffix;
    OptionsRead(o);
  }

  // A guest argument that spells an agent's key takes that option over.
  const SPELLING: string := "a=" + (Needle("suite") + "perf")

  lemma SpellingSays()
    ensures Said(("guest_append", SPELLING), "suite") == Some("perf")
  {
    hide StartsAt;
    hide KeyShape;
    var v := Needle("suite") + "perf";
    KeysAreShaped("suite");
    NotThere("perf", "suite");
    SpelledSuffix("suite", "perf", "suite");
    LastPlaceNone(v, Needle("suite"));
    ValueSuffix("a=", v, "suite");
    LastPlaceNone(SPELLING, Needle("suite"));
  }

  lemma KeyInAnArgument()
    ensures var o := L1Opts("default", "pvm", "", [SPELLING], [], "", "", []);
      NoNewlines(o) && ParseCmdline(Join(L1Words(o), " ") + "\n").suite == "perf"
  {
    hide ParseCmdline;
    hide L1Words;
    hide Said;
    var o := L1Opts("default", "pvm", "", [SPELLING], [], "", "", []);
    var last := ("guest_append", SPELLING);
    assert Join(o.guest, ",") == SPELLING;
    assert Given(o) == [("suite", "default"), ("vendor", "pvm"), last];
    SpellingSays();
    HeardLast([("suite", "default"), ("vendor", "pvm")], last, "suite");
    assert Given(o) == [("suite", "default"), ("vendor", "pvm")] + [last];
    assert Heard(o, "suite") == Some("perf");
    OptionsRead(o);
    RunAll("perf", NotBlank);
  }

  lemma {:induction false} HeardLast(given: seq<(string, string)>, g: (string, string), key: string)
    requires Said(g, key).Some?
    ensures HeardIn(given + [g], key) == Said(g, key)
  {
    hide Said;
    if given == [] {
      assert given + [g] == [g] && [g][1..] == [];
    } else {
      HeardLast(given[1..], g, key);
      assert (given + [g])[1..] == given[1..] + [g];
    }
  }

  lemma SpelledOptions(o: L1Opts)
    ensures Spelling(Chosen(o, "vendor")) == o.vendor && Spelling(Chosen(o, "suite")) == o.suite
    ensures Spelling(Chosen(o, "guest_cpus")) == o.cpus && Spelling(Chosen(o, "guest_mem")) == o.mem
    ensures Spelling(Chosen(o, "mod_args")) == Join(o.mods, ",")
      && Spelling(Chosen(o, "guest_append")) == Join(o.guest, ",")
    ensures Spelling(Chosen(o, "profile_case")) == o.profile
  {
  }
}
