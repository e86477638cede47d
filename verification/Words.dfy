// strings.Fields: the words between runs of white space.
module Words {
  import opened Text

  // White space as unicode.IsSpace knows it among the ASCII characters.
  predicate White(c: char) {
    c == ' ' || c == '\t' || c == '\n' || c == '\r' || c == '\U{0B}' || c == '\U{0C}'
  }

  // Where the first white space is, |s| if there is none.
  function WordEnd(s: string): (i: nat)
    ensures i <= |s|
  {
    if s == "" || White(s[0]) then 0 else 1 + WordEnd(s[1..])
  }

  function Fields(s: string): (ws: seq<string>)
    decreases |s|
  {
    if s == "" then []
    else if White(s[0]) then Fields(s[1..])
    else [s[..WordEnd(s)]] + Fields(s[WordEnd(s)..])
  }

  predicate Word(w: string) {
    w != "" && forall c <- w :: !White(c)
  }

  lemma {:induction false} WordEnds(w: string, rest: string)
    requires (forall c <- w :: !White(c)) && (rest == "" || White(rest[0]))
    ensures WordEnd(w + rest) == |w|
  {
    if w == "" {
      assert w + rest == rest;
    } else {
      WordEnds(w[1..], rest);
      assert (w + rest)[1..] == w[1..] + rest;
    }
  }

  lemma FieldsFirst(w: string, rest: string)
    requires Word(w) && (rest == "" || White(rest[0]))
    ensures Fields(w + rest) == [w] + Fields(rest)
  {
    WordEnds(w, rest);
    var s := w + rest;
    assert s[0] == w[0] && w[0] in w;
    assert s[..|w|] == w && s[|w|..] == rest;
  }

  // Words joined by single blanks come back.
  lemma {:induction false} FieldsJoin(ws: seq<string>)
    requires forall w <- ws :: Word(w)
    ensures Fields(Join(ws, " ")) == ws
  {
    hide Fields;
    if ws == [] {
      NoFields();
    } else {
      assert Word(ws[0]);
      var rest := ws[1..];
      if rest == [] {
        FieldsFirst(ws[0], "");
        NoFields();
        assert ws[0] + "" == ws[0] == Join(ws, " ");
      } else {
        FieldsJoin(rest);
        FieldsFirst(ws[0], " " + Join(rest, " "));
        SkipBlank(Join(rest, " "));
        assert Join(ws, " ") == ws[0] + (" " + Join(rest, " "));
      }
      assert ws == [ws[0]] + rest;
    }
  }

  lemma NoFields()
    ensures Fields("") == []
  {
  }

  lemma SkipBlank(s: string)
    ensures Fields(" " + s) == Fields(s)
  {
    assert (" " + s)[1..] == s;
  }

  lemma {:induction false} WordEndStays(a: string, c: char, b: string)
    requires White(c)
    ensures WordEnd(a + ([c] + b)) == WordEnd(a)
  {
    if a == "" {
      assert a + ([c] + b) == [c] + b;
    } else {
      WordEndStays(a[1..], c, b);
      assert (a + ([c] + b))[1..] == a[1..] + ([c] + b);
    }
  }

  lemma FieldsBlank(s: string)
    requires s != "" && White(s[0])
    ensures Fields(s) == Fields(s[1..])
  {
  }

  lemma FieldsWord(s: string)
    requires s != "" && !White(s[0])
    ensures WordEnd(s) > 0 && Fields(s) == [s[..WordEnd(s)]] + Fields(s[WordEnd(s)..])
  {
  }

  // White space separates the words on its two sides.
  lemma {:induction false} FieldsAppend(a: string, c: char, b: string)
    requires White(c)
    ensures Fields(a + ([c] + b)) == Fields(a) + Fields(b)
    decreases |a|
  {
    hide Fields;
    hide White;
    hide WordEnd;
    var s := a + ([c] + b);
    if a == "" {
      NoFields();
      assert s == [c] + b && s[1..] == b && s[0] == c;
      FieldsBlank(s);
    } else if White(a[0]) {
      FieldsAppend(a[1..], c, b);
      assert s[1..] == a[1..] + ([c] + b) && s[0] == a[0];
      FieldsBlank(s);
      FieldsBlank(a);
    } else {
      var n := WordEnd(a);
      WordEndStays(a, c, b);
      FieldsWord(a);
      assert s[0] == a[0];
      FieldsWord(s);
      FieldsAppend(a[n..], c, b);
      assert s[..n] == a[..n] && s[n..] == a[n..] + ([c] + b);
    }
  }
}
