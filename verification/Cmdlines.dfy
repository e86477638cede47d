// One value out of a kernel command line, the way sed's greedy
// 's/.*pvmtest\.key=\(class\).*/\1/p' finds it (params.go:35-53).
module Cmdlines {
  import opened Options
  import opened Text

  function Needle(key: string): string {
    "pvmtest." + key + "="
  }

  // The last place of sub in s, at or before i.
  function LastAt(s: string, sub: string, i: nat): Option<nat>
    requires i <= |s|
  {
    if StartsAt(s, sub, i) then Some(i) else if i == 0 then None else LastAt(s, sub, i - 1)
  }

  function LastPlace(s: string, sub: string): Option<nat> {
    LastAt(s, sub, |s|)
  }

  lemma {:induction false} LastAtIs(s: string, sub: string, i: nat)
    requires i <= |s|
    ensures match LastAt(s, sub, i)
      case None => forall j | 0 <= j <= i :: !StartsAt(s, sub, j)
      case Some(p) => p <= i && StartsAt(s, sub, p) && forall j | p < j <= i :: !StartsAt(s, sub, j)
  {
    hide StartsAt;
    if !StartsAt(s, sub, i) && i > 0 {
      LastAtIs(s, sub, i - 1);
    }
  }

  lemma LastPlaceIs(s: string, sub: string, p: nat)
    requires p <= |s| && StartsAt(s, sub, p) && forall j | p < j <= |s| :: !StartsAt(s, sub, j)
    ensures LastPlace(s, sub) == Some(p)
  {
    hide StartsAt;
    LastAtIs(s, sub, |s|);
  }

  lemma LastPlaceNone(s: string, sub: string)
    ensures LastPlace(s, sub) == None <==> !Contains(s, sub)
  {
    hide StartsAt;
    LastAtIs(s, sub, |s|);
  }

  predicate NotBlank(c: char) { c != ' ' }

  // What the pattern captures on one line.
  function LineValue(l: string, key: string, cls: char -> bool): Option<string> {
    match LastPlace(l, Needle(key))
    case None => None
    case Some(i) =>
      LastPlaceFits(l, Needle(key));
      var rest := l[i + |Needle(key)|..];
      Some(rest[..Run(rest, cls)])
  }

  lemma LastPlaceFits(s: string, sub: string)
    ensures LastPlace(s, sub).Some? ==> LastPlace(s, sub).value + |sub| <= |s|
  {
    LastAtIs(s, sub, |s|);
  }

  // sed prints a line for each that matches; $(...) takes the last newlines.
  function SedOutput(lines: seq<string>, key: string, cls: char -> bool): string {
    if lines == [] then "" else
    (match LineValue(lines[0], key, cls) case None => "" case Some(v) => v + "\n") + SedOutput(lines[1..], key, cls)
  }

  function StripNewlines(s: string): string {
    if s != "" && s[|s| - 1] == '\n' then StripNewlines(s[..|s| - 1]) else s
  }

  function SedLines(cmdline: string): seq<string> {
    var lines := Split(cmdline, '\n');
    if lines[|lines| - 1] == "" then lines[..|lines| - 1] else lines
  }

  function Value(cmdline: string, key: string, cls: char -> bool): string {
    StripNewlines(SedOutput(SedLines(cmdline), key, cls))
  }

  method CmdlineValue(cmdline: string, key: string, cls: char -> bool) returns (v: string)
    ensures v == Value(cmdline, key, cls)
  {
    hide LineValue;
    var lines := Split(cmdline, '\n');
    var n := |lines|;
    if lines[n - 1] == "" {
      lines := lines[..n - 1];
    }
    var out := "";
    assert lines[0..] == lines;
    for i := 0 to |lines|
      invariant SedOutput(lines, key, cls) == out + SedOutput(lines[i..], key, cls)
    {
      assert lines[i..][1..] == lines[i + 1..];
      var m := LineValue(lines[i], key, cls);
      if m.Some? {
        ghost var was := out;
        out := out + m.value;
        out := out + "\n";
        assert out + SedOutput(lines[i + 1..], key, cls)
          == was + ((m.value + "\n") + SedOutput(lines[i + 1..], key, cls));
      }
    }
    assert out + "" == out;
    v := StripNewlines(out);
  }

  // --- a line of words ----------------------------------------------------

  // What stands behind the key's last place in a word.
  function Suffix(w: string, key: string): Option<string> {
    match LastPlace(w, Needle(key))
    case None => None
    case Some(i) =>
      LastPlaceFits(w, Needle(key));
      Some(w[i + |Needle(key)|..])
  }

  // ... and in the last of the words that has it.
  function LastSuffix(ws: seq<string>, key: string): Option<string> {
    if ws == [] then None
    else if LastSuffix(ws[1..], key).Some? then LastSuffix(ws[1..], key)
    else Suffix(ws[0], key)
  }

  lemma {:induction false} LastSuffixAppend(a: seq<string>, b: seq<string>, key: string)
    ensures LastSuffix(a + b, key) == if LastSuffix(b, key).Some? then LastSuffix(b, key) else LastSuffix(a, key)
  {
    hide Suffix;
    if a == [] {
      assert a + b == b;
    } else {
      LastSuffixAppend(a[1..], b, key);
      assert (a + b)[1..] == a[1..] + b;
    }
  }

  // A place of sub in a line is one in the word in front of a separator or one
  // behind it, when sub has no separator in it.
  lemma PlaceSplits(a: string, c: char, b: string, sub: string, i: nat)
    requires c !in sub && i <= |a| + 1 + |b| && sub != ""
    ensures i <= |a| ==> (StartsAt(a + [c] + b, sub, i) <==> StartsAt(a, sub, i))
    ensures i > |a| ==> (StartsAt(a + [c] + b, sub, i) <==> StartsAt(b, sub, i - |a| - 1))
  {
    var s := a + [c] + b;
    assert s[|a|] == c;
    if i > |a| {
      if i + |sub| <= |s| {
        assert s[i..i + |sub|] == b[i - |a| - 1..i - |a| - 1 + |sub|];
      }
    } else if i + |sub| <= |a| {
      assert s[i..i + |sub|] == a[i..i + |sub|];
    } else if i + |sub| <= |s| && s[i..i + |sub|] == sub {
      assert false;
    }
  }

  lemma LastPlaceSplits(a: string, c: char, b: string, sub: string)
    requires c !in sub && sub != ""
    ensures LastPlace(a + [c] + b, sub) == match LastPlace(b, sub)
      case Some(i) => Some(|a| + 1 + i)
      case None => LastPlace(a, sub)
  {
    hide StartsAt;
    var s := a + [c] + b;
    LastAtIs(b, sub, |b|);
    LastAtIs(a, sub, |a|);
    LastAtIs(s, sub, |s|);
    forall i | 0 <= i <= |s|
      ensures i <= |a| ==> (StartsAt(s, sub, i) <==> StartsAt(a, sub, i))
      ensures i > |a| ==> (StartsAt(s, sub, i) <==> StartsAt(b, sub, i - |a| - 1))
    {
      PlaceSplits(a, c, b, sub, i);
    }
    match LastPlace(b, sub)
    case Some(i) =>
      assert StartsAt(s, sub, |a| + 1 + i);
      LastPlaceIs(s, sub, |a| + 1 + i);
    case None =>
      forall i | |a| < i <= |s| ensures !StartsAt(s, sub, i) {
        assert !StartsAt(b, sub, i - |a| - 1);
      }
      match LastPlace(a, sub) {
        case Some(i) => LastPlaceIs(s, sub, i);
        case None =>
      }
  }

  // A key is in joined words exactly when it is in one of them.
  lemma {:induction false} ContainsJoin(ws: seq<string>, c: char, sub: string)
    requires c !in sub && sub != ""
    ensures Contains(Join(ws, [c]), sub) <==> exists w <- ws :: Contains(w, sub)
  {
    hide Contains;
    if ws == [] {
      Nowhere(sub);
    } else if |ws| > 1 {
      var rest := Join(ws[1..], [c]);
      ContainsJoin(ws[1..], c, sub);
      LastPlaceSplits(ws[0], c, rest, sub);
      LastPlaceNone(ws[0] + [c] + rest, sub);
      LastPlaceNone(ws[0], sub);
      LastPlaceNone(rest, sub);
      assert forall w :: w in ws <==> w == ws[0] || w in ws[1..];
    }
  }

  lemma Nowhere(sub: string)
    requires sub != ""
    ensures !Contains("", sub)
  {
  }

  // The value sed finds on a line of words is the one behind the last place
  // of the key in the last word that has the key anywhere.
  lemma {:induction false} WordsValue(ws: seq<string>, key: string, cls: char -> bool)
    requires ' ' !in key && !cls(' ')
    ensures LineValue(Join(ws, " "), key, cls) == match LastSuffix(ws, key)
      case None => None
      case Some(v) => Some(v[..Run(v, cls)])
  {
    hide LineValue;
    hide Suffix;
    hide Run;
    if ws == [] {
      NoValue(key, cls);
    } else {
      OneWordValue(ws[0], key, cls);
      if |ws| == 1 {
        assert LastSuffix(ws[1..], key) == None;
      } else {
        var rest := Join(ws[1..], " ");
        WordsValue(ws[1..], key, cls);
        FrontValue(ws[0], rest, key, cls);
        assert Join(ws, " ") == ws[0] + [' '] + rest;
      }
    }
  }

  lemma NoValue(key: string, cls: char -> bool)
    ensures LineValue("", key, cls) == None
  {
    Nowhere(Needle(key));
    LastPlaceNone("", Needle(key));
  }

  lemma OneWordValue(w: string, key: string, cls: char -> bool)
    ensures LineValue(w, key, cls) == match Suffix(w, key) case None => None case Some(v) => Some(v[..Run(v, cls)])
  {
  }

  // Behind a blank comes more to look at; in front of it, only when there is
  // nothing behind.
  lemma FrontValue(w: string, rest: string, key: string, cls: char -> bool)
    requires ' ' !in key && !cls(' ')
    ensures LineValue(w + [' '] + rest, key, cls) == match LineValue(rest, key, cls)
      case Some(v) => Some(v)
      case None => match Suffix(w, key)
        case None => None
        case Some(v) => Some(v[..Run(v, cls)])
  {
    hide LastPlace;
    hide Run;
    var n, s := Needle(key), w + [' '] + rest;
    LastPlaceSplits(w, ' ', rest, n);
    LastPlaceFits(w, n);
    LastPlaceFits(rest, n);
    match LastPlace(rest, n) {
      case Some(i) =>
        assert s[|w| + 1 + i + |n|..] == rest[i + |n|..];
      case None =>
        if LastPlace(w, n).Some? {
          var i := LastPlace(w, n).value + |n|;
          var x := w[i..];
          assert s[i..] == x + ([' '] + rest);
          RunEnds(x, [' '] + rest, cls);
          assert (x + ([' '] + rest))[..Run(x, cls)] == x[..Run(x, cls)];
        }
    }
  }

  // A command line of one line, as /proc/cmdline gives it.
  lemma OneLineValue(l: string, key: string, cls: char -> bool)
    requires '\n' !in l
    ensures Value(l + "\n", key, cls) == match LineValue(l, key, cls) case None => "" case Some(v) => v
  {
    SplitFirst(l, '\n', "");
    SplitNone("", '\n');
    assert l + "\n" + "" == l + "\n";
    assert SedLines(l + "\n") == [l];
    match LineValue(l, key, cls)
    case None =>
      assert SedOutput([l], key, cls) == "" + SedOutput([l][1..], key, cls);
    case Some(v) =>
      assert SedOutput([l], key, cls) == v + "\n" + SedOutput([l][1..], key, cls) == v + "\n";
      ValueIsPiece(l, key, cls);
      StripOne(v);
  }

  lemma StripOne(v: string)
    requires '\n' !in v
    ensures StripNewlines(v + "\n") == v
  {
    assert (v + "\n")[..|v|] == v;
    if v != "" {
      assert v[|v| - 1] in v;
    }
  }

  lemma ValueIsPiece(l: string, key: string, cls: char -> bool)
    ensures match LineValue(l, key, cls) case None => true case Some(v) => forall c <- v :: c in l
  {
    match LineValue(l, key, cls)
    case None =>
    case Some(v) =>
      LastPlaceFits(l, Needle(key));
      var from := LastPlace(l, Needle(key)).value + |Needle(key)|;
      forall k | 0 <= k < |v| ensures v[k] in l {
        assert v[k] == l[from + k];
      }
  }
}
