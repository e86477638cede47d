// Byte strings as the agent and the host tools use them: a string stands for
// a Go []byte or string, one char to the byte.
module Text {
  // The first place of c in s, |s| if there is none.
  function Find(s: string, c: char): (i: nat)
    ensures i <= |s| && (i < |s| ==> s[i] == c) && forall j | 0 <= j < i :: s[j] != c
  {
    if s == [] || s[0] == c then 0 else 1 + Find(s[1..], c)
  }

  lemma FindIs(s: string, c: char, i: nat)
    requires i <= |s| && (i < |s| ==> s[i] == c) && forall j | 0 <= j < i :: s[j] != c
    ensures Find(s, c) == i
  {
  }

  predicate Digit(c: char) { '0' <= c <= '9' }

  // How far a class of characters goes.
  function Run(s: string, cls: char -> bool): (n: nat)
    ensures n <= |s|
  {
    if s == "" || !cls(s[0]) then 0 else 1 + Run(s[1..], cls)
  }

  lemma {:induction false} RunEnds(a: string, rest: string, cls: char -> bool)
    requires rest == "" || !cls(rest[0])
    ensures Run(a + rest, cls) == Run(a, cls)
  {
    if a == "" {
      assert a + rest == rest;
    } else {
      RunEnds(a[1..], rest, cls);
      assert (a + rest)[1..] == a[1..] + rest;
    }
  }

  lemma {:induction false} RunAll(a: string, cls: char -> bool)
    requires forall c <- a :: cls(c)
    ensures Run(a, cls) == |a|
  {
    if a != "" {
      RunAll(a[1..], cls);
    }
  }

  lemma RunStops(a: string, rest: string, cls: char -> bool)
    requires forall c <- a :: cls(c)
    requires rest == "" || !cls(rest[0])
    ensures Run(a + rest, cls) == |a|
  {
    RunEnds(a, rest, cls);
    RunAll(a, cls);
  }

  lemma {:induction false} RunOnly(s: string, cls: char -> bool)
    ensures forall c <- s[..Run(s, cls)] :: cls(c)
  {
    if s != "" && cls(s[0]) {
      RunOnly(s[1..], cls);
      assert s[..Run(s, cls)] == [s[0]] + s[1..][..Run(s[1..], cls)];
    }
  }

  predicate StartsAt(s: string, sub: string, i: nat) {
    i + |sub| <= |s| && s[i..i + |sub|] == sub
  }

  predicate HasPrefix(s: string, p: string) {
    StartsAt(s, p, 0)
  }

  predicate Contains(s: string, sub: string) {
    exists i | 0 <= i <= |s| :: StartsAt(s, sub, i)
  }

  // strings.Join
  function Join(ss: seq<string>, sep: string): string {
    if ss == [] then [] else if |ss| == 1 then ss[0] else ss[0] + sep + Join(ss[1..], sep)
  }

  lemma {:induction false} JoinChars(ws: seq<string>, sep: char, c: char)
    requires c != sep && forall w <- ws :: c !in w
    ensures c !in Join(ws, [sep])
  {
    if |ws| > 0 {
      assert c !in ws[0];
      JoinChars(ws[1..], sep, c);
    }
  }

  // strings.Split on a one-byte separator.
  function Split(s: string, c: char): (parts: seq<string>)
    ensures |parts| > 0
    decreases |s|
  {
    var i := Find(s, c);
    if i == |s| then [s] else [s[..i]] + Split(s[i + 1..], c)
  }

  lemma {:induction false} SplitFirst(a: string, c: char, rest: string)
    requires c !in a
    ensures Split(a + [c] + rest, c) == [a] + Split(rest, c)
  {
    var s := a + [c] + rest;
    FindIs(s, c, |a|);
    assert s[..|a|] == a && s[|a| + 1..] == rest;
  }

  lemma {:induction false} SplitNone(a: string, c: char)
    requires c !in a
    ensures Split(a, c) == [a]
  {
    FindIs(a, c, |a|);
  }

  // Splitting undoes joining of parts free of the separator.
  lemma {:induction false} SplitJoin(ss: seq<string>, c: char)
    requires |ss| > 0 && forall s <- ss :: c !in s
    ensures Split(Join(ss, [c]), c) == ss
  {
    assert c !in ss[0];
    if |ss| == 1 {
      SplitNone(ss[0], c);
    } else {
      SplitJoin(ss[1..], c);
      SplitFirst(ss[0], c, Join(ss[1..], [c]));
    }
  }

  lemma SplitPrefix(p: string, s: string, c: char)
    requires c !in p
    ensures Split(p + s, c) == [p + Split(s, c)[0]] + Split(s, c)[1..]
  {
    hide Split;
    hide Find;
    var i := Find(s, c);
    if i == |s| {
      SplitNone(s, c);
      SplitNone(p + s, c);
    } else {
      var a, rest := s[..i], s[i + 1..];
      assert s == a + [c] + rest && p + s == (p + a) + [c] + rest;
      SplitFirst(a, c, rest);
      SplitFirst(p + a, c, rest);
    }
  }

  lemma {:induction false} SplitHasNone(s: string, c: char)
    ensures forall l <- Split(s, c) :: c !in l
    decreases |s|
  {
    var i := Find(s, c);
    if i < |s| {
      SplitHasNone(s[i + 1..], c);
    }
  }

  lemma {:induction false} SplitAppend(a: string, c: char, b: string)
    ensures Split(a + ([c] + b), c) == Split(a, c) + Split(b, c)
    decreases |a|
  {
    hide Split;
    hide Find;
    var i := Find(a, c);
    if i == |a| {
      SplitNone(a, c);
      SplitFirst(a, c, b);
      assert a + ([c] + b) == a + [c] + b;
    } else {
      var head, tail := a[..i], a[i + 1..];
      assert a == head + [c] + tail;
      SplitFirst(head, c, tail);
      SplitFirst(head, c, tail + ([c] + b));
      assert a + ([c] + b) == head + [c] + (tail + ([c] + b));
      SplitAppend(tail, c, b);
    }
  }
}
