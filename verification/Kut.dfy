// The kvm-unit-tests manifest, written by the host (kut.go:82-95) and read by the agent (params.go:367-382), and the
// choice of its tests (kut.go:97-119).
module Kut {
  import opened Options
  import opened Quoting
  import opened Text
  import W = Words

  // One section of unittests.cfg.
  datatype Test = Test(
    name: string,
    file: string,
    smp: string,
    timeout: string,
    check: string,
    accel: string,
    arch: string,
    params: string,
    args: string)

  // --- writing ------------------------------------------------------------

  function TrimLeft(s: string): string {
    if s != "" && W.White(s[0]) then TrimLeft(s[1..]) else s
  }

  function TrimRight(s: string): string {
    if s != "" && W.White(s[|s| - 1]) then TrimRight(s[..|s| - 1]) else s
  }

  // strings.TrimSpace of ASCII text.
  function TrimSpace(s: string): string {
    TrimRight(TrimLeft(s))
  }

  // The qemu arguments: test_args go behind -append, quoted as they were.
  function Arguments(t: Test): string {
    if t.args != "" then TrimSpace(t.params + " -append " + t.args) else t.params
  }

  function Row(t: Test): seq<string> {
    [t.name, t.file, t.smp, t.timeout, t.check, Arguments(t)]
  }

  function Manifest(tests: seq<Test>): string {
    if tests == [] then "" else Join(Row(tests[0]), "\t") + "\n" + Manifest(tests[1..])
  }

  method KutManifest(tests: seq<Test>) returns (b: string)
    ensures b == Manifest(tests)
  {
    hide Arguments;
    b := "";
    assert tests[..0] == [];
    for i := 0 to |tests|
      invariant b == Manifest(tests[..i])
    {
      var t := tests[i];
      var args := t.params;
      if t.args != "" {
        args := TrimSpace(args + " -append " + t.args);
      }
      ArgumentsAre(t, args);
      b := b + (t.name + "\t" + t.file + "\t" + t.smp + "\t" + t.timeout + "\t" + t.check + "\t" + args + "\n");
      SixJoined(t.name, t.file, t.smp, t.timeout, t.check, args);
      assert tests[..i + 1] == tests[..i] + [t];
      ManifestSnoc(tests[..i], t);
    }
    assert tests[..|tests|] == tests;
  }

  lemma ArgumentsAre(t: Test, args: string)
    requires args == if t.args != "" then TrimSpace(t.params + " -append " + t.args) else t.params
    ensures args == Arguments(t)
  {
  }

  lemma SixJoined(a: string, b: string, c: string, d: string, e: string, f: string)
    ensures Join([a, b, c, d, e, f], "\t") + "\n" == a + "\t" + b + "\t" + c + "\t" + d + "\t" + e + "\t" + f + "\n"
  {
    hide Join;
    Joined(a, [b, c, d, e, f]);
    Joined(b, [c, d, e, f]);
    Joined(c, [d, e, f]);
    Joined(d, [e, f]);
    Joined(e, [f]);
    JoinedOne(f);
    Built(a, b, c, d, e, f);
  }

  lemma Built(a: string, b: string, c: string, d: string, e: string, f: string)
    ensures [a] + [b, c, d, e, f] == [a, b, c, d, e, f] && [b] + [c, d, e, f] == [b, c, d, e, f]
    ensures [c] + [d, e, f] == [c, d, e, f] && [d] + [e, f] == [d, e, f] && [e] + [f] == [e, f]
  {
  }

  lemma Joined(a: string, rest: seq<string>)
    requires rest != []
    ensures Join([a] + rest, "\t") == a + "\t" + Join(rest, "\t")
  {
    assert ([a] + rest)[1..] == rest;
  }

  lemma JoinedOne(a: string)
    ensures Join([a], "\t") == a
  {
  }

  lemma {:induction false} ManifestSnoc(tests: seq<Test>, t: Test)
    ensures Manifest(tests + [t]) == Manifest(tests) + (Join(Row(t), "\t") + "\n")
  {
    hide Row;
    hide Join;
    if tests == [] {
      assert [t][1..] == [] && tests + [t] == [t];
    } else {
      ManifestSnoc(tests[1..], t);
      assert (tests + [t])[1..] == tests[1..] + [t];
    }
  }

  // --- reading ------------------------------------------------------------

  // A line of the manifest as the agent has it.
  datatype Staged = Staged(name: string, file: string, smp: string, timeout: string, check: string, args: seq<string>)

  // strings.SplitN: at most n parts, the last with whatever is left.
  function SplitN(s: string, c: char, n: nat): (parts: seq<string>)
    requires n > 0
    ensures 0 < |parts| <= n
    decreases n
  {
    var i := Find(s, c);
    if n == 1 || i == |s| then [s] else [s[..i]] + SplitN(s[i + 1..], c, n - 1)
  }

  function LineTest(l: string): seq<Staged> {
    if l == "" || HasPrefix(l, "#") then [] else
    var f := SplitN(l, '\t', 6);
    if |f| < 6 then [] else [Staged(f[0], f[1], f[2], f[3], f[4], QuotedWords(f[5]))]
  }

  function LineTests(lines: seq<string>): seq<Staged> {
    if lines == [] then [] else LineTest(lines[0]) + LineTests(lines[1..])
  }

  method ParseKUTManifest(b: string) returns (out: seq<Staged>)
    ensures out == LineTests(Split(b, '\n'))
  {
    hide Split;
    hide SplitN;
    hide QuotedWords;
    hide HasPrefix;
    hide LineTests;
    out := [];
    var lines := Split(b, '\n');
    assert lines[0..] == lines;
    for i := 0 to |lines|
      invariant LineTests(lines) == out + LineTests(lines[i..])
    {
      var l := lines[i];
      OneMoreLine(l, lines[i + 1..]);
      assert lines[i..] == [l] + lines[i + 1..];
      if l == "" || HasPrefix(l, "#") {
        continue;
      }
      var f := SplitN(l, '\t', 6);
      if |f| < 6 {
        continue;
      }
      var args := SplitQuoted(f[5]);
      out := out + [Staged(f[0], f[1], f[2], f[3], f[4], args)];
    }
    NoLine();
    assert lines[|lines|..] == [];
  }

  lemma NoLine()
    ensures LineTests([]) == []
  {
  }

  // --- there and back -----------------------------------------------------

  predicate Column(s: string) {
    '\t' !in s && '\n' !in s
  }

  predicate Columns(t: Test) {
    && Column(t.name) && Column(t.file) && Column(t.smp) && Column(t.timeout) && Column(t.check)
    && !HasPrefix(t.name, "#")
  }

  function Stage(t: Test): Staged {
    Staged(t.name, t.file, t.smp, t.timeout, t.check, QuotedWords(Arguments(t)))
  }

  lemma {:induction false} TrimKeeps(s: string, c: char)
    requires c !in s
    ensures c !in TrimLeft(s) && c !in TrimRight(s)
    decreases |s|
  {
    if s != "" {
      TrimKeeps(s[1..], c);
      TrimKeeps(s[..|s| - 1], c);
    }
  }

  lemma ArgumentsOneLine(t: Test)
    requires '\n' !in t.params && '\n' !in t.args
    ensures '\n' !in Arguments(t)
  {
    hide TrimLeft;
    hide TrimRight;
    var s := t.params + " -append " + t.args;
    assert '\n' !in s;
    TrimKeeps(s, '\n');
    TrimKeeps(TrimLeft(s), '\n');
  }

  lemma SplitOne(a: string, rest: string, n: nat)
    requires '\t' !in a && n > 0
    ensures SplitN(a + "\t" + rest, '\t', n + 1) == [a] + SplitN(rest, '\t', n)
  {
    var s := a + "\t" + rest;
    FindIs(s, '\t', |a|);
    assert s[..|a|] == a && s[|a| + 1..] == rest;
  }

  // A row up to its arguments.
  function RowHead(t: Test): string {
    t.name + ("\t" + (t.file + ("\t" + (t.smp + ("\t" + (t.timeout + ("\t" + (t.check + "\t"))))))))
  }

  function StageWith(t: Test, args: string): Staged {
    Staged(t.name, t.file, t.smp, t.timeout, t.check, QuotedWords(args))
  }

  lemma RowIs(t: Test)
    ensures Join(Row(t), "\t") == RowHead(t) + Arguments(t)
  {
    hide Join;
    hide Arguments;
    var args := Arguments(t);
    Joined(t.check, [args]);
    Joined(t.timeout, [t.check, args]);
    Joined(t.smp, [t.timeout, t.check, args]);
    Joined(t.file, [t.smp, t.timeout, t.check, args]);
    Joined(t.name, [t.file, t.smp, t.timeout, t.check, args]);
    JoinedOne(args);
    Built(t.name, t.file, t.smp, t.timeout, t.check, args);
  }

  // With good columns the rest of the line is the arguments, whatever it is.
  lemma RowReads(t: Test, args: string)
    requires Columns(t)
    ensures LineTest(RowHead(t) + args) == [StageWith(t, args)]
  {
    hide SplitN;
    hide QuotedWords;
    var e := t.check + "\t" + args;
    var d := t.timeout + "\t" + e;
    var c := t.smp + "\t" + d;
    var b := t.file + "\t" + c;
    SplitOne(t.check, args, 1);
    SplitOne(t.timeout, e, 2);
    SplitOne(t.smp, d, 3);
    SplitOne(t.file, c, 4);
    SplitOne(t.name, b, 5);
    SplitLast(args);
    var l := t.name + "\t" + b;
    assert l == RowHead(t) + args;
    NotAComment(t.name, b);
    SixParts(SplitN(l, '\t', 6), t.name, t.file, t.smp, t.timeout, t.check, args);
  }

  lemma SixParts(f: seq<string>, a: string, b: string, c: string, d: string, e: string, g: string)
    requires f == [a] + ([b] + ([c] + ([d] + ([e] + [g]))))
    ensures f == [a, b, c, d, e, g]
  {
  }

  lemma SplitLast(s: string)
    ensures SplitN(s, '\t', 1) == [s]
  {
  }

  lemma NotAComment(name: string, rest: string)
    requires !HasPrefix(name, "#")
    ensures !HasPrefix(name + "\t" + rest, "#")
  {
    var l := name + "\t" + rest;
    if name != "" {
      assert l[0..1] == name[0..1];
    } else {
      assert l[0..1][0] == '\t';
    }
  }

  lemma {:induction false} LineTestsAppend(a: seq<string>, b: seq<string>)
    ensures LineTests(a + b) == LineTests(a) + LineTests(b)
  {
    hide LineTest;
    hide LineTests;
    if a == [] {
      assert a + b == b;
      NoLine();
    } else {
      LineTestsAppend(a[1..], b);
      assert a + b == [a[0]] + (a[1..] + b) && a == [a[0]] + a[1..];
      OneMoreLine(a[0], a[1..] + b);
      OneMoreLine(a[0], a[1..]);
    }
  }

  // What the agent makes of one test's row.
  function Block(t: Test): seq<Staged> {
    LineTests(Split(Join(Row(t), "\t"), '\n'))
  }

  function Blocks(tests: seq<Test>): seq<Staged> {
    if tests == [] then [] else Block(tests[0]) + Blocks(tests[1..])
  }

  lemma {:induction false} ManifestBlocks(tests: seq<Test>)
    ensures LineTests(Split(Manifest(tests), '\n')) == Blocks(tests)
  {
    hide Split;
    hide LineTest;
    hide Row;
    hide Join;
    if tests == [] {
      SplitNone("", '\n');
      NoTest();
    } else {
      var row, rest := Join(Row(tests[0]), "\t"), Manifest(tests[1..]);
      SplitAppend(row, '\n', rest);
      assert Manifest(tests) == row + (['\n'] + rest);
      LineTestsAppend(Split(row, '\n'), Split(rest, '\n'));
      ManifestBlocks(tests[1..]);
    }
  }

  // With good columns a row's first line is its test; more lines may follow.
  lemma BlockIs(t: Test)
    requires Columns(t)
    ensures var parts := Split(Arguments(t), '\n');
      Block(t) == [StageWith(t, parts[0])] + LineTests(parts[1..])
  {
    hide Split;
    hide LineTest;
    hide QuotedWords;
    hide Arguments;
    hide Join;
    var parts := Split(Arguments(t), '\n');
    RowIs(t);
    HeadOneLine(t);
    SplitPrefix(RowHead(t), Arguments(t), '\n');
    RowReads(t, parts[0]);
    OneMoreLine(RowHead(t) + parts[0], parts[1..]);
  }

  lemma HeadOneLine(t: Test)
    requires Columns(t)
    ensures '\n' !in RowHead(t)
  {
  }

  // What can have been read: columns, and no comment.
  predicate Readable(s: Staged) {
    Column(s.name) && Column(s.file) && Column(s.smp) && Column(s.timeout) && Column(s.check) && !HasPrefix(s.name, "#")
  }

  lemma {:induction false} PartsAreColumns(s: string, n: nat)
    requires n > 0 && '\n' !in s
    ensures forall i | 0 <= i < |SplitN(s, '\t', n)| - 1 :: Column(SplitN(s, '\t', n)[i])
    ensures |SplitN(s, '\t', n)| > 1 ==> SplitN(s, '\t', n)[0] == s[..Find(s, '\t')] && Find(s, '\t') < |s|
    decreases n
  {
    var i := Find(s, '\t');
    if n > 1 && i < |s| {
      PartsAreColumns(s[i + 1..], n - 1);
      assert Column(s[..i]);
    }
  }

  lemma LineReadable(l: string)
    requires '\n' !in l
    ensures forall s <- LineTest(l) :: Readable(s)
  {
    hide SplitN;
    hide QuotedWords;
    hide Column;
    PartsAreColumns(l, 6);
    if l != "" && !HasPrefix(l, "#") {
      assert l[0] != '#' by {
        assert l[0..1] == [l[0]];
      }
      var name := l[..Find(l, '\t')];
      assert name != "" ==> name[0] == l[0];
    }
  }

  lemma {:induction false} LinesReadable(lines: seq<string>)
    requires forall l <- lines :: '\n' !in l
    ensures forall s <- LineTests(lines) :: Readable(s)
  {
    hide LineTest;
    hide Readable;
    if lines != [] {
      LineReadable(lines[0]);
      LinesReadable(lines[1..]);
    }
  }

  function Stages(tests: seq<Test>): seq<Staged> {
    seq(|tests|, i requires 0 <= i < |tests| => Stage(tests[i]))
  }

  // Exactly what the format carries: columns, no comment, and arguments whose
  // first line has all their words and whose other lines are no tests.
  predicate Carried(t: Test) {
    Columns(t) && var parts := Split(Arguments(t), '\n');
      QuotedWords(parts[0]) == QuotedWords(Arguments(t)) && LineTests(parts[1..]) == []
  }

  // Arguments of one line are carried whole.
  lemma OneLineIsCarried(t: Test)
    requires Columns(t) && '\n' !in t.params && '\n' !in t.args
    ensures Carried(t)
  {
    hide Columns;
    hide Arguments;
    hide QuotedWords;
    ArgumentsOneLine(t);
    SplitNone(Arguments(t), '\n');
  }

  lemma {:induction false} CarriedReads(tests: seq<Test>)
    requires forall t <- tests :: Columns(t)
    ensures |Blocks(tests)| >= |tests|
    ensures Blocks(tests) == Stages(tests) <==> forall t <- tests :: Carried(t)
  {
    hide Columns;
    hide Arguments;
    hide QuotedWords;
    hide LineTests;
    hide Block;
    hide Split;
    if tests != [] {
      var t, rest := tests[0], tests[1..];
      assert Columns(t);
      BlockIs(t);
      CarriedReads(rest);
      var more := LineTests(Split(Arguments(t), '\n')[1..]);
      assert Stages(tests) == [Stage(t)] + Stages(rest);
      assert forall u :: u in tests <==> u == t || u in rest;
      FirstReads(StageWith(t, Split(Arguments(t), '\n')[0]), more, Blocks(rest), Stage(t), Stages(rest));
    }
  }

  lemma FirstReads(a: Staged, more: seq<Staged>, rest: seq<Staged>, b: Staged, want: seq<Staged>)
    requires |rest| >= |want|
    ensures ([a] + more) + rest == [b] + want <==> a == b && more == [] && rest == want
  {
    var l, r := ([a] + more) + rest, [b] + want;
    if l == r {
      assert l[0] == a && r[0] == b;
      assert |more| == 0;
      assert l[1..] == rest && r[1..] == want;
    }
  }

  // The agent reads every test the host listed, in order, its arguments split
  // as unittests.cfg quotes them, exactly when the format carries all of them.
  lemma ManifestReads(tests: seq<Test>)
    ensures LineTests(Split(Manifest(tests), '\n')) == Stages(tests) <==> forall t <- tests :: Carried(t)
  {
    hide Columns;
    hide Arguments;
    hide QuotedWords;
    hide LineTests;
    hide Split;
    hide Readable;
    hide Manifest;
    ManifestBlocks(tests);
    var read := LineTests(Split(Manifest(tests), '\n'));
    if forall t <- tests :: Columns(t) {
      CarriedReads(tests);
    } else {
      var t :| t in tests && !Columns(t);
      var i :| 0 <= i < |tests| && tests[i] == t;
      SplitHasNone(Manifest(tests), '\n');
      LinesReadable(Split(Manifest(tests), '\n'));
      StageReadable(t);
      assert Stages(tests)[i] == Stage(t);
      assert Stage(t) in Stages(tests);
    }
  }

  lemma StageReadable(t: Test)
    ensures Readable(Stage(t)) <==> Columns(t)
  {
  }

  // A name like a comment is one whose test is lost.
  lemma CommentIsLost(t: Test)
    requires HasPrefix(t.name, "#")
    ensures !Carried(t)
  {
    hide HasPrefix;
  }

  lemma NoTest()
    ensures LineTests([""]) == []
  {
    assert LineTests([""]) == LineTest("") + LineTests([""][1..]);
  }

  lemma OneMoreLine(l: string, lines: seq<string>)
    ensures LineTests([l] + lines) == LineTest(l) + LineTests(lines)
  {
    assert ([l] + lines)[1..] == lines;
  }

  // --- choosing -----------------------------------------------------------

  predicate Runnable(t: Test) {
    t.arch != "i386" && t.accel != "tcg" && '`' !in t.params + t.args
  }

  // The last section of a name.
  function Named(all: seq<Test>, name: string): Option<Test> {
    if all == [] then None
    else if all[|all| - 1].name == name then Some(all[|all| - 1])
    else Named(all[..|all| - 1], name)
  }

  // The listed tests, in the list's order; or an error if and only if one of
  // the names has no test that can run here.
  method SelectKUT(all: seq<Test>, names: seq<string>) returns (r: Option<seq<Test>>)
    ensures r.Some? <==> forall n <- names :: Named(all, n).Some? && Runnable(Named(all, n).value)
    ensures r.Some? ==> |r.value| == |names| && forall i | 0 <= i < |names| ::
      Named(all, names[i]) == Some(r.value[i]) && r.value[i].name == names[i]
  {
    hide Runnable;
    var byName: map<string, Test> := map[];
    assert all[..0] == [];
    for i := 0 to |all|
      invariant forall n ::
        && (n in byName <==> Named(all[..i], n).Some?)
        && (n in byName ==> Named(all[..i], n) == Some(byName[n]) && byName[n].name == n)
    {
      assert all[..i + 1][..i] == all[..i] && all[..i + 1][i] == all[i];
      byName := byName[all[i].name := all[i]];
    }
    assert all[..|all|] == all;
    var out := [];
    for i := 0 to |names|
      invariant |out| == i && forall j | 0 <= j < i ::
        Named(all, names[j]) == Some(out[j]) && out[j].name == names[j] && Runnable(out[j])
    {
      var n := names[i];
      assert n in names;
      if n !in byName {
        return None;
      }
      if !Runnable(byName[n]) {
        return None;
      }
      out := out + [byName[n]];
    }
    r := Some(out);
  }
}
