// Two splitters that know quotes: SplitQuoted of the agent (params.go:384-412)
// and fields of the battery reader (spec.go:171-205), each against a printer.
module Quoting {
  import opened Options
  import opened Text

  // --- SplitQuoted --------------------------------------------------------

  datatype Scan = Scan(out: seq<string>, cur: string, inside: bool, quote: char, word: bool)

  function Next(st: Scan, ch: char): Scan {
    if st.inside && ch == st.quote then st.(inside := false)
    else if st.inside then st.(cur := st.cur + [ch])
    else if ch == '\'' || ch == '"' then st.(inside := true, quote := ch, word := true)
    else if ch == ' ' || ch == '\t' then
      if st.word then st.(out := st.out + [st.cur], cur := "", word := false) else st
    else st.(cur := st.cur + [ch], word := true)
  }

  function Scanned(st: Scan, s: string): Scan
    decreases |s|
  {
    if s == "" then st else Scanned(Next(st, s[0]), s[1..])
  }

  // An open quote at the end counts as closed there.
  function Flushed(st: Scan): seq<string> {
    if st.word then st.out + [st.cur] else st.out
  }

  const START: Scan := Scan([], "", false, '\0', false)

  function QuotedWords(s: string): seq<string> {
    Flushed(Scanned(START, s))
  }

  method SplitQuoted(s: string) returns (out: seq<string>)
    ensures out == QuotedWords(s)
  {
    out := [];
    var cur := "";
    var inside, quote, word := false, '\0', false;
    assert s[0..] == s;
    for i := 0 to |s|
      invariant Scanned(START, s) == Scanned(Scan(out, cur, inside, quote, word), s[i..])
    {
      var ch := s[i];
      assert s[i..][0] == ch && s[i..][1..] == s[i + 1..];
      if inside && ch == quote {
        inside := false;
      } else if inside {
        cur := cur + [ch];
      } else if ch == '\'' || ch == '"' {
        inside, quote, word := true, ch, true;
      } else if ch == ' ' || ch == '\t' {
        if word {
          out := out + [cur];
          cur := "";
          word := false;
        }
      } else {
        cur := cur + [ch];
        word := true;
      }
    }
    if word {
      out := out + [cur];
    }
  }

  // A word and the quote to print it in.
  datatype Quoted = Quoted(text: string, quote: char)

  predicate Printable(w: Quoted) {
    (w.quote == '\'' || w.quote == '"') && w.quote !in w.text
  }

  function PrintQuoted(ws: seq<Quoted>): seq<string> {
    seq(|ws|, i requires 0 <= i < |ws| => [ws[i].quote] + ws[i].text + [ws[i].quote])
  }

  function Words(ws: seq<Quoted>): seq<string> {
    seq(|ws|, i requires 0 <= i < |ws| => ws[i].text)
  }

  lemma {:induction false} InsideQuotes(st: Scan, w: string, rest: string)
    requires st.inside && st.quote !in w
    ensures Scanned(st, w + rest) == Scanned(st.(cur := st.cur + w), rest)
    decreases |w|
  {
    if w == "" {
      assert w + rest == rest && st.cur + w == st.cur;
    } else {
      assert (w + rest)[1..] == w[1..] + rest;
      InsideQuotes(st.(cur := st.cur + [w[0]]), w[1..], rest);
      assert st.cur + [w[0]] + w[1..] == st.cur + w;
    }
  }

  lemma OneQuoted(out: seq<string>, q: char, w: Quoted, rest: string)
    requires Printable(w)
    ensures Scanned(Scan(out, "", false, q, false), [w.quote] + w.text + [w.quote] + rest)
      == Scanned(Scan(out, w.text, false, w.quote, true), rest)
  {
    var s := [w.quote] + w.text + [w.quote] + rest;
    var inner := w.text + ([w.quote] + rest);
    assert s[0] == w.quote && s[1..] == inner;
    InsideQuotes(Scan(out, "", true, w.quote, true), w.text, [w.quote] + rest);
    assert "" + w.text == w.text;
    assert ([w.quote] + rest)[1..] == rest;
  }

  lemma {:induction false} ReadQuoted(out: seq<string>, q: char, ws: seq<Quoted>)
    requires forall w <- ws :: Printable(w)
    ensures Flushed(Scanned(Scan(out, "", false, q, false), Join(PrintQuoted(ws), " "))) == out + Words(ws)
    decreases |ws|
  {
    if ws == [] {
      assert Words(ws) == [];
    } else {
      var w, rest := ws[0], Join(PrintQuoted(ws[1..]), " ");
      var s := Join(PrintQuoted(ws), " ");
      assert Printable(w);
      assert PrintQuoted(ws)[1..] == PrintQuoted(ws[1..]);
      assert Words(ws) == [w.text] + Words(ws[1..]);
      if |ws| == 1 {
        assert s == [w.quote] + w.text + [w.quote] + "";
        OneQuoted(out, q, w, "");
      } else {
        assert s == [w.quote] + w.text + [w.quote] + (" " + rest);
        OneQuoted(out, q, w, " " + rest);
        ReadQuoted(out + [w.text], w.quote, ws[1..]);
        assert (" " + rest)[1..] == rest;
        assert out + [w.text] + Words(ws[1..]) == out + Words(ws);
      }
    }
  }

  // Any words, empty ones too, come back from any quotes they are free of.
  lemma SplitInvertsQuoting(ws: seq<Quoted>)
    requires forall w <- ws :: Printable(w)
    ensures QuotedWords(Join(PrintQuoted(ws), " ")) == Words(ws)
  {
    ReadQuoted([], '\0', ws);
    assert [] + Words(ws) == Words(ws);
  }

  // --- fields -------------------------------------------------------------

  function Flush(out: seq<string>, cur: string, have: bool): seq<string> {
    if have then out + [cur] else out
  }

  // None for a quote that does not end.
  function LineFields(out: seq<string>, cur: string, inQuote: bool, have: bool, s: string): Option<seq<string>>
    decreases |s|
  {
    if s == "" then if inQuote then None else Some(Flush(out, cur, have))
    else if s[0] == '"' then LineFields(out, cur, !inQuote, true, s[1..])
    else if s[0] == '#' && !inQuote then Some(Flush(out, cur, have))
    else if (s[0] == ' ' || s[0] == '\t') && !inQuote then
      LineFields(Flush(out, cur, have), if have then "" else cur, false, false, s[1..])
    else LineFields(out, cur + [s[0]], inQuote, true, s[1..])
  }

  method Fields(line: string) returns (r: Option<seq<string>>)
    ensures r == LineFields([], "", false, false, line)
  {
    var out, cur := [], "";
    var inQuote, have := false, false;
    assert line[0..] == line;
    for i := 0 to |line|
      invariant LineFields([], "", false, false, line) == LineFields(out, cur, inQuote, have, line[i..])
    {
      var c := line[i];
      assert line[i..][0] == c && line[i..][1..] == line[i + 1..];
      if c == '"' {
        inQuote := !inQuote;
        have := true;
      } else if c == '#' && !inQuote {
        if have {
          out := out + [cur];
        }
        return Some(out);
      } else if (c == ' ' || c == '\t') && !inQuote {
        if have {
          out := out + [cur];
          cur := "";
          have := false;
        }
      } else {
        cur := cur + [c];
        have := true;
      }
    }
    if inQuote {
      return None;
    }
    if have {
      out := out + [cur];
    }
    r := Some(out);
  }

  // A word in double quotes, or bare if it may be.
  datatype Field = Field(text: string, quoted: bool)

  predicate Bare(s: string) {
    s != "" && '"' !in s && '#' !in s && ' ' !in s && '\t' !in s
  }

  predicate Writable(f: Field) {
    if f.quoted then '"' !in f.text else Bare(f.text)
  }

  function Write(f: Field): string {
    if f.quoted then "\"" + f.text + "\"" else f.text
  }

  function WriteAll(fs: seq<Field>): seq<string> {
    seq(|fs|, i requires 0 <= i < |fs| => Write(fs[i]))
  }

  function FieldTexts(fs: seq<Field>): seq<string> {
    seq(|fs|, i requires 0 <= i < |fs| => fs[i].text)
  }

  lemma {:induction false} ThroughWord(out: seq<string>, cur: string, inQuote: bool, have: bool, w: string,
      rest: string)
    requires '"' !in w && (inQuote || ('#' !in w && ' ' !in w && '\t' !in w)) && w != ""
    ensures LineFields(out, cur, inQuote, have, w + rest) == LineFields(out, cur + w, inQuote, true, rest)
    decreases |w|
  {
    assert (w + rest)[1..] == w[1..] + rest;
    if |w| == 1 {
      assert w[1..] + rest == rest && w == [w[0]];
    } else {
      ThroughWord(out, cur + [w[0]], inQuote, true, w[1..], rest);
      assert cur + [w[0]] + w[1..] == cur + w;
    }
  }

  lemma OneField(out: seq<string>, f: Field, rest: string)
    requires Writable(f)
    ensures LineFields(out, "", false, false, Write(f) + rest) == LineFields(out, f.text, false, true, rest)
  {
    if f.quoted {
      var inner := f.text + ("\"" + rest);
      assert (Write(f) + rest)[0] == '"' && (Write(f) + rest)[1..] == inner;
      if f.text == "" {
        assert inner == "\"" + rest;
      } else {
        ThroughWord(out, "", true, true, f.text, "\"" + rest);
        assert "" + f.text == f.text;
      }
      assert ("\"" + rest)[1..] == rest;
    } else {
      ThroughWord(out, "", false, false, f.text, rest);
      assert "" + f.text == f.text;
    }
  }

  // Fields come back from any mix of quoted and bare, with or without a
  // comment behind them.
  lemma {:induction false} FieldsInvertWriting(out: seq<string>, fs: seq<Field>, comment: string)
    requires (forall f <- fs :: Writable(f)) && (comment == "" || HasPrefix(comment, " #"))
    ensures LineFields(out, "", false, false, Join(WriteAll(fs), " ") + comment) == Some(out + FieldTexts(fs))
    decreases |fs|
  {
    hide Write;
    if fs == [] {
      assert Join(WriteAll(fs), " ") + comment == comment && out + FieldTexts(fs) == out;
      Ended(out, "", false, comment);
    } else {
      var f, rest := fs[0], Join(WriteAll(fs[1..]), " ");
      var s := Join(WriteAll(fs), " ");
      assert Writable(f);
      assert WriteAll(fs)[1..] == WriteAll(fs[1..]);
      assert FieldTexts(fs) == [f.text] + FieldTexts(fs[1..]);
      if |fs| == 1 {
        assert s == Write(f);
        OneField(out, f, comment);
        Ended(out, f.text, true, comment);
        assert out + [f.text] == out + FieldTexts(fs);
      } else {
        assert s + comment == Write(f) + (" " + (rest + comment));
        OneField(out, f, " " + (rest + comment));
        assert (" " + (rest + comment))[1..] == rest + comment;
        FieldsInvertWriting(out + [f.text], fs[1..], comment);
        assert out + [f.text] + FieldTexts(fs[1..]) == out + FieldTexts(fs);
      }
    }
  }

  lemma Ended(out: seq<string>, cur: string, have: bool, comment: string)
    requires comment == "" || HasPrefix(comment, " #")
    ensures LineFields(out, cur, false, have, comment) == Some(Flush(out, cur, have))
  {
    if comment != "" {
      assert comment[0..2][0] == comment[0] && comment[0..2][1] == comment[1];
      assert comment[1..][0] == '#';
    }
  }

  // A line is refused exactly when its quotes outside the comment are odd.
  function OpenQuote(inQuote: bool, s: string): bool
    decreases |s|
  {
    if s == "" then inQuote
    else if s[0] == '"' then OpenQuote(!inQuote, s[1..])
    else if s[0] == '#' && !inQuote then false
    else OpenQuote(inQuote, s[1..])
  }

  lemma {:induction false} RefusedExactly(out: seq<string>, cur: string, inQuote: bool, have: bool, s: string)
    ensures LineFields(out, cur, inQuote, have, s) == None <==> OpenQuote(inQuote, s)
    decreases |s|
  {
    if s == "" {
    } else if s[0] == '"' {
      RefusedExactly(out, cur, !inQuote, true, s[1..]);
    } else if s[0] == '#' && !inQuote {
    } else if (s[0] == ' ' || s[0] == '\t') && !inQuote {
      RefusedExactly(Flush(out, cur, have), if have then "" else cur, false, false, s[1..]);
    } else {
      RefusedExactly(out, cur + [s[0]], inQuote, true, s[1..]);
    }
  }
}
