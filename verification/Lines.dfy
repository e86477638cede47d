// The line tools of the L1 agent (text.go:16-150, trace.go:266-285): a chunked line reader, sed 's/^/prefix/', tail
// on bytes and a ring buffer, each against one simple reading of what lines are.
module Lines {
  import opened Text

  // A line without its newline; eol says whether it had one.
  datatype Line = Line(text: string, eol: bool)

  // The lines of a stream: cut after every newline.
  function LinesOf(d: string): (ls: seq<Line>)
    decreases |d|
  {
    var i := Find(d, '\n');
    if d == [] then []
    else if i == |d| then [Line(d, false)]
    else [Line(d[..i], true)] + LinesOf(d[i + 1..])
  }

  function Bytes(l: Line): string {
    l.text + if l.eol then "\n" else ""
  }

  function Whole(ls: seq<Line>): string {
    if ls == [] then [] else Bytes(ls[0]) + Whole(ls[1..])
  }

  // Only the last line may lack its newline, none holds one inside, and a
  // line without newline is not empty.
  ghost predicate WellFormed(ls: seq<Line>) {
    && (forall i | 0 <= i < |ls| :: '\n' !in ls[i].text)
    && (forall i | 0 <= i < |ls| - 1 :: ls[i].eol)
    && (|ls| > 0 && !ls[|ls| - 1].eol ==> ls[|ls| - 1].text != [])
  }

  // The lines put together are the stream ...
  lemma {:induction false} LinesAreWhole(d: string)
    ensures Whole(LinesOf(d)) == d && WellFormed(LinesOf(d))
    decreases |d|
  {
    hide LinesOf;
    hide Whole;
    hide WellFormed;
    var i := Find(d, '\n');
    NoLines();
    WholeCons(Line(d, false), []);
    if i == |d| {
      if d != [] {
        LastLine(d);
        assert LinesOf(d) == [Line(d, false)] + [];
      }
    } else {
      var a, rest := d[..i], d[i + 1..];
      LinesAreWhole(rest);
      assert d == a + "\n" + rest;
      FirstLine(a, rest);
      WholeCons(Line(a, true), LinesOf(rest));
    }
  }

  lemma WholeCons(l: Line, rest: seq<Line>)
    ensures Whole([]) == "" && WellFormed([])
    ensures Whole([l] + rest) == Bytes(l) + Whole(rest)
    ensures WellFormed(rest) && '\n' !in l.text && (l.eol || (rest == [] && l.text != [])) ==> WellFormed([l] + rest)
  {
    assert ([l] + rest)[1..] == rest;
  }

  // ... and the only well-formed lines that are.
  lemma {:induction false} LinesOfWhole(ls: seq<Line>)
    requires WellFormed(ls)
    ensures LinesOf(Whole(ls)) == ls
  {
    if ls != [] {
      var l, rest := ls[0], ls[1..];
      assert '\n' !in l.text;
      LinesOfWhole(rest);
      if l.eol {
        FirstLine(l.text, Whole(rest));
        assert ls == [Line(l.text, true)] + rest;
      } else {
        assert rest == [] && Whole(ls) == l.text;
        LastLine(l.text);
      }
    }
  }

  lemma FirstLine(a: string, rest: string)
    requires '\n' !in a
    ensures LinesOf(a + "\n" + rest) == [Line(a, true)] + LinesOf(rest)
  {
    var d := a + "\n" + rest;
    FindIs(d, '\n', |a|);
    assert d[..|a|] == a && d[|a| + 1..] == rest;
  }

  lemma LastLine(a: string)
    requires '\n' !in a && a != []
    ensures LinesOf(a) == [Line(a, false)]
  {
    FindIs(a, '\n', |a|);
  }

  // --- the chunked reader -------------------------------------------------

  datatype Status = Found | BufferFull | EndOfFile | Broken

  // Up to the first delimiter, or free of it.
  predicate IsChunk(chunk: string, st: Status, delim: char) {
    if st == Found then chunk != [] && chunk[|chunk| - 1] == delim && delim !in chunk[..|chunk| - 1]
    else delim !in chunk
  }

  // A line, with its newline or at the end of the stream.
  predicate FullLine(line: string, rest: string) {
    line != [] && '\n' !in line[..|line| - 1] && (line[|line| - 1] == '\n' || rest == [])
  }

  // bufio.Reader over a stream: ReadSlice gives the next bytes up to a
  // newline, or a full buffer, or what is left before the end.
  class BufReader {
    const data: string
    const size: nat
    const broken: bool   // the stream ends in an error, not in EOF
    const eager: bool    // the end is reported along with the last bytes
    var pos: nat

    ghost predicate Valid()
      reads this
    {
      pos <= |data| && size > 0
    }

    constructor (data: string, size: nat, broken: bool, eager: bool)
      requires size > 0
      ensures Valid() && pos == 0
      ensures this.data == data && this.broken == broken
    {
      this.data, this.size, this.broken, this.eager, pos := data, size, broken, eager, 0;
    }

    function Rest(): string
      requires Valid()
      reads this
    {
      data[pos..]
    }

    method ReadSlice(delim: char) returns (chunk: string, st: Status)
      requires Valid()
      modifies this
      ensures Valid() && old(Rest()) == chunk + Rest()
      ensures IsChunk(chunk, st, delim)
      ensures st == Found || st == BufferFull ==> chunk != []
      ensures st == EndOfFile || st == Broken ==> Rest() == [] && st == if broken then Broken else EndOfFile
    {
      var rest := data[pos..];
      var i := Find(rest, delim);
      if i < |rest| && i < size {
        chunk, st := rest[..i + 1], Found;
      } else if |rest| > size || (|rest| == size && !eager) {
        chunk, st := rest[..size], BufferFull;
      } else {
        chunk, st := rest, if broken then Broken else EndOfFile;
      }
      pos := pos + |chunk|;
    }
  }

  function Take<T>(s: seq<T>, n: int): seq<T> {
    if 0 <= n < |s| then s[..n] else s
  }

  // eachLine with a callback that stops after stop lines, or never when stop
  // is negative.  What is delivered does not depend on the buffer's size.
  method EachLine(r: BufReader, stop: int) returns (out: seq<Line>, ok: bool)
    requires r.Valid() && r.pos == 0 && stop != 0
    modifies r
    ensures out == Take(LinesOf(r.data), stop)
    ensures ok <==> !r.broken || (0 < stop <= |LinesOf(r.data)|)
  {
    hide LinesOf;
    hide Find;
    hide IsChunk;
    hide FullLine;
    NoLines();
    out := [];
    var acc := "";
    assert acc + r.Rest() == r.data;
    while true
      invariant r.Valid() && '\n' !in acc
      invariant LinesOf(r.data) == out + LinesOf(acc + r.Rest())
      invariant stop < 0 || |out| < stop
      decreases |r.Rest()|
    {
      ghost var before := acc + r.Rest();
      var chunk, st := r.ReadSlice('\n');
      var line := acc + chunk;
      assert before == line + r.Rest();
      JoinChunk(acc, chunk, st, r.Rest());
      if st == BufferFull {
        acc := line;
        continue;
      }
      acc := "";
      if |line| > 0 {
        var eol := line[|line| - 1] == '\n';
        var text := if eol then line[..|line| - 1] else line;
        NextLine(line, r.Rest());
        var l := Line(text, eol);
        assert LinesOf(r.data) == (out + [l]) + LinesOf(r.Rest());
        out := out + [l];
        if |out| == stop {
          return out, true;
        }
      }
      assert acc + r.Rest() == r.Rest();
      if st == EndOfFile {
        return out, true;
      }
      if st == Broken {
        return out, false;
      }
    }
  }

  lemma JoinChunk(acc: string, chunk: string, st: Status, rest: string)
    requires '\n' !in acc && IsChunk(chunk, st, '\n')
    requires st == EndOfFile || st == Broken ==> rest == []
    ensures st == BufferFull ==> '\n' !in acc + chunk
    ensures st != BufferFull && acc + chunk != [] ==> FullLine(acc + chunk, rest)
  {
    if chunk != [] {
      assert (acc + chunk)[..|acc + chunk| - 1] == acc + chunk[..|chunk| - 1];
    }
  }

  lemma NextLine(line: string, rest: string)
    requires FullLine(line, rest)
    ensures var eol := line[|line| - 1] == '\n';
      LinesOf(line + rest) == [Line(if eol then line[..|line| - 1] else line, eol)] + LinesOf(rest)
  {
    if line[|line| - 1] == '\n' {
      assert line == line[..|line| - 1] + "\n";
      FirstLine(line[..|line| - 1], rest);
    } else {
      assert line + rest == line;
      LastLine(line);
    }
  }

  // --- sed 's/^/prefix/' --------------------------------------------------

  function Prefixed(prefix: string, ls: seq<Line>): string {
    if ls == [] then [] else prefix + Bytes(ls[0]) + Prefixed(prefix, ls[1..])
  }

  lemma {:induction false} PrefixedAppend(prefix: string, ls: seq<Line>, l: Line)
    ensures Prefixed(prefix, ls + [l]) == Prefixed(prefix, ls) + prefix + Bytes(l)
  {
    if ls == [] {
      assert Prefixed(prefix, [l]) == prefix + Bytes(l) + Prefixed(prefix, [l][1..]);
    } else {
      PrefixedAppend(prefix, ls[1..], l);
      assert (ls + [l])[1..] == ls[1..] + [l];
    }
  }

  lemma NothingPrefixed(prefix: string, ls: seq<Line>)
    ensures Prefixed(prefix, ls[..0]) == ""
  {
  }

  // prefixStream's output: the lines, cut at max, the prefix before each; a
  // missing last newline stays missing.
  method PrefixStream(prefix: string, r: BufReader, max: int) returns (w: string)
    requires r.Valid() && r.pos == 0
    modifies r
    ensures w == Prefixed(prefix, Take(LinesOf(r.data), max))
  {
    hide LinesOf;
    hide Prefixed;
    if max == 0 {
      NothingPrefixed(prefix, LinesOf(r.data));
      return "";
    }
    var ls, _ := EachLine(r, max);
    w := "";
    NothingPrefixed(prefix, ls);
    for i := 0 to |ls|
      invariant w == Prefixed(prefix, ls[..i])
    {
      var b := prefix + ls[i].text;
      if ls[i].eol {
        b := b + "\n";
      }
      PrefixedAppend(prefix, ls[..i], ls[i]);
      assert ls[..i + 1] == ls[..i] + [ls[i]];
      w := w + b;
    }
    assert ls[..|ls|] == ls;
  }

  // What a prefixed stream reads back as, when the prefix holds no newline:
  // the same lines, each behind the prefix.
  lemma {:induction false} PrefixedLines(prefix: string, ls: seq<Line>)
    requires WellFormed(ls) && '\n' !in prefix
    ensures LinesOf(Prefixed(prefix, ls)) == seq(|ls|, i requires 0 <= i < |ls| => Line(prefix + ls[i].text, ls[i].eol))
  {
    hide LinesOf;
    if ls == [] {
      NoLines();
    } else {
      var l, rest := ls[0], ls[1..];
      assert '\n' !in l.text;
      PrefixedLines(prefix, rest);
      var out := Prefixed(prefix, rest);
      if l.eol {
        assert Prefixed(prefix, ls) == (prefix + l.text) + "\n" + out;
        FirstLine(prefix + l.text, out);
      } else {
        assert rest == [] && Prefixed(prefix, ls) == prefix + l.text;
        LastLine(prefix + l.text);
      }
    }
  }

  lemma NoLines()
    ensures LinesOf("") == []
  {
  }

  // --- tail ---------------------------------------------------------------

  function Texts(ls: seq<Line>): seq<string> {
    seq(|ls|, i requires 0 <= i < |ls| => ls[i].text)
  }

  // splitLines
  function SplitLines(b: string): seq<string> {
    Texts(LinesOf(b))
  }

  function Tail<T>(s: seq<T>, n: nat): seq<T> {
    if |s| > n then s[|s| - n..] else s
  }

  function Newlines(s: string): nat {
    if s == [] then 0 else Newlines(s[..|s| - 1]) + if s[|s| - 1] == '\n' then 1 else 0
  }

  // Cutting a stream after a newline cuts its lines.
  lemma {:induction false} LinesCut(a: string, b: string)
    requires a == [] || a[|a| - 1] == '\n'
    ensures LinesOf(a + b) == LinesOf(a) + LinesOf(b)
    decreases |a|
  {
    hide LinesOf;
    if a == [] {
      NoLines();
      assert a + b == b;
    } else {
      var i := Find(a, '\n');
      var rest := a[i + 1..];
      LinesCut(rest, b);
      assert a == a[..i] + "\n" + rest;
      assert a + b == a[..i] + "\n" + (rest + b);
      FirstLine(a[..i], rest);
      FirstLine(a[..i], rest + b);
    }
  }

  lemma {:induction false} NewlinesAppend(a: string, b: string)
    ensures Newlines(a + b) == Newlines(a) + Newlines(b)
  {
    if b == [] {
      assert a + b == a;
    } else {
      NewlinesAppend(a, b[..|b| - 1]);
      assert (a + b)[..|a + b| - 1] == a + b[..|b| - 1];
    }
  }

  lemma {:induction false} NoNewlines(a: string)
    requires '\n' !in a
    ensures Newlines(a) == 0
  {
    if a != [] {
      NoNewlines(a[..|a| - 1]);
    }
  }

  // A stream has a line for every newline, and one more if it ends without.
  lemma {:induction false} LineCount(s: string)
    ensures |LinesOf(s)| == Newlines(s) + if s != [] && s[|s| - 1] != '\n' then 1 else 0
    decreases |s|
  {
    hide LinesOf;
    hide Newlines;
    var i := Find(s, '\n');
    if i == |s| {
      NoLines();
      NoNewlines(s);
      if s != [] { LastLine(s); }
    } else {
      var a, rest := s[..i], s[i + 1..];
      LineCount(rest);
      NoNewlines(a);
      assert s == a + "\n" + rest;
      FirstLine(a, rest);
      NewlinesAppend(a, "\n");
      NewlinesAppend(a + "\n", rest);
      OneByte('\n');
    }
  }

  // tail -n on bytes, found from the back: a suffix of the stream whose lines
  // are the last n.
  method TailBytes(b: string, n: int) returns (t: string)
    ensures |t| <= |b| && t == b[|b| - |t|..]
    ensures n >= 0 ==> SplitLines(t) == Tail(SplitLines(b), n)
  {
    hide LinesOf;
    hide Newlines;
    NoLines();
    if n <= 0 {
      return "";
    }
    var end := |b|;
    if end > 0 && b[end - 1] == '\n' {
      end := end - 1;
    }
    var cnt := 0;
    NoNewlines(b[end..end]);
    var i := end - 1;
    while i >= 0
      invariant -1 <= i < end <= |b| || (i == -1 && end == 0)
      invariant cnt == Newlines(b[i + 1..end]) && cnt < n
    {
      assert b[i..end] == [b[i]] + b[i + 1..end];
      NewlinesAppend([b[i]], b[i + 1..end]);
      OneByte(b[i]);
      if b[i] == '\n' {
        cnt := cnt + 1;
        if cnt == n {
          TailFound(b, end, i, n);
          return b[i + 1..];
        }
      }
      i := i - 1;
    }
    AllKept(b, end, n);
    return b;
  }

  lemma OneByte(c: char)
    ensures Newlines([c]) == if c == '\n' then 1 else 0
  {
    assert [c][..0] == [];
  }

  // The newline that ends the line before the last n.
  lemma TailFound(b: string, end: nat, i: nat, n: nat)
    requires i < end <= |b| && b[i] == '\n' && Newlines(b[i..end]) == n
    requires end == |b| - if b[|b| - 1] == '\n' then 1 else 0
    ensures SplitLines(b[i + 1..]) == Tail(SplitLines(b), n)
  {
    hide LinesOf;
    hide Newlines;
    hide Texts;
    hide Tail;
    var s := b[i + 1..];
    TailCount(b, end, i, n);
    LineCount(s);
    assert b == b[..i + 1] + s;
    LinesCut(b[..i + 1], s);
    TextsTail(LinesOf(b[..i + 1]), LinesOf(s));
  }

  lemma TextsTail(a: seq<Line>, s: seq<Line>)
    ensures Tail(Texts(a + s), |s|) == Texts(s)
  {
  }

  lemma TailCount(b: string, end: nat, i: nat, n: nat)
    requires i < end <= |b| && b[i] == '\n' && Newlines(b[i..end]) == n
    requires end == |b| - if b[|b| - 1] == '\n' then 1 else 0
    ensures var s := b[i + 1..]; Newlines(s) + (if s != [] && s[|s| - 1] != '\n' then 1 else 0) == n
  {
    hide Newlines;
    var mid, last := b[i + 1..end], b[end..];
    assert b[i..end] == ['\n'] + mid;
    NewlinesAppend(['\n'], mid);
    OneByte('\n');
    assert b[i + 1..] == mid + last;
    NewlinesAppend(mid, last);
    LastByte(b, end);
  }

  lemma LastByte(b: string, end: nat)
    requires b != [] && end == |b| - if b[|b| - 1] == '\n' then 1 else 0
    ensures Newlines(b[end..]) == |b| - end
  {
    if end < |b| {
      OneByte(b[end]);
      assert b[end..] == [b[end]];
    }
  }

  lemma AllKept(b: string, end: nat, n: nat)
    requires end <= |b| && Newlines(b[..end]) < n
    requires b == [] || end == |b| - if b[|b| - 1] == '\n' then 1 else 0
    ensures Tail(SplitLines(b), n) == SplitLines(b)
  {
    hide LinesOf;
    hide Newlines;
    if b == [] {
      NoLines();
    } else {
      assert b == b[..end] + b[end..];
      NewlinesAppend(b[..end], b[end..]);
      LastByte(b, end);
      LineCount(b);
    }
  }

  // --- the ring buffer ----------------------------------------------------

  const TraceNoise: seq<string> := [
    "kvm-nx-lpage", "kvm_unmap_hva_range", "kvm_hv_stimer_cleanup",
    "kvm-pit", "kvm_pic_set_irq", "kvm_ioapic_set_irq", "kvm_set_irq"]

  predicate IsNoise(l: string) {
    exists x <- TraceNoise :: Contains(l, x)
  }

  function Quiet(ls: seq<string>): seq<string> {
    if ls == [] then [] else
    Quiet(ls[..|ls| - 1]) + if IsNoise(ls[|ls| - 1]) then [] else [ls[|ls| - 1]]
  }

  // grep -v of the noise, then tail -n, in one pass with n lines of memory.
  // With n == 0 the original indexes an empty ring.
  method LastTraceLines(r: BufReader, n: nat) returns (last: seq<string>)
    requires r.Valid() && r.pos == 0 && n >= 1
    modifies r
    ensures last == Tail(Quiet(SplitLines(r.data)), n)
  {
    var lines, _ := EachLine(r, -1);
    ghost var texts := Texts(lines);
    var ring: seq<string>, pos := [], 0;
    for i := 0 to |lines|
      invariant |ring| <= n && 0 <= pos < n && (|ring| < n ==> pos == 0 && ring == Quiet(texts[..i]))
      invariant |ring| == n ==> ring[pos..] + ring[..pos] == Tail(Quiet(texts[..i]), n) && |Quiet(texts[..i])| >= n
    {
      ghost var q := Quiet(texts[..i]);
      assert texts[..i + 1][..i] == texts[..i] && texts[i] == lines[i].text;
      if !IsNoise(lines[i].text) {
        if |ring| < n {
          ring := ring + [lines[i].text];
        } else {
          RingStep(ring, pos, n, q, lines[i].text);
          ring := ring[pos := lines[i].text];
          pos := (pos + 1) % n;
        }
      }
    }
    assert texts[..|lines|] == texts;
    last := ring[pos..] + ring[..pos];
  }

  lemma RingStep(ring: seq<string>, pos: nat, n: nat, q: seq<string>, x: string)
    requires |ring| == n && pos < n && |q| >= n && ring[pos..] + ring[..pos] == Tail(q, n)
    ensures var r, p := ring[pos := x], (pos + 1) % n;
      p < n && r[p..] + r[..p] == Tail(q + [x], n)
  {
    var was, r, p := Tail(q, n), ring[pos := x], (pos + 1) % n;
    TailShift(q, n, x);
    if pos + 1 == n {
      assert p == 0;
      assert r[p..] + r[..p] == ring[..pos] + [x];
      assert was[1..] == ring[..pos];
    } else {
      assert p == pos + 1;
      assert r[p..] + r[..p] == (ring[pos + 1..] + ring[..pos]) + [x];
      assert was[1..] == ring[pos + 1..] + ring[..pos];
    }
  }

  lemma TailShift(q: seq<string>, n: nat, x: string)
    requires |q| >= n >= 1
    ensures Tail(q + [x], n) == Tail(q, n)[1..] + [x]
  {
  }
}
