// The key of the exit histogram (trace.go:17-81): what the pattern finds in a line of the trace, and the name a
// hypercall goes by.
module Exits {
  import opened Options
  import opened Text
  import opened Lines
  import opened Histograms
  import M = MacroText

  // --- the pattern --------------------------------------------------------

  // Where the literals of ".*L0.*L1...*Ln" match in s from a place on, as a
  // backtracking matcher finds it: each ".*" first takes all it can, and gives
  // up characters until the rest matches.  (A line has no newline in it.)
  function Match(s: string, from: nat, lits: seq<string>): (r: Option<seq<nat>>)
    requires from <= |s|
    decreases |lits|, |s| + 2
  {
    if lits == [] then Some([]) else GiveUp(s, from, |s|, lits)
  }

  function GiveUp(s: string, from: nat, i: nat, lits: seq<string>): (r: Option<seq<nat>>)
    requires from <= i <= |s| && lits != []
    ensures r.Some? ==> |r.value| > 0
    decreases |lits|, i + 1
  {
    if Fits(s, i, lits) then Some([i] + Match(s, i + |lits[0]|, lits[1..]).value)
    else if i == from then None
    else GiveUp(s, from, i - 1, lits)
  }

  predicate Fits(s: string, i: nat, lits: seq<string>)
    requires i <= |s| && lits != []
    decreases |lits|, 0
  {
    StartsAt(s, lits[0], i) && Match(s, i + |lits[0]|, lits[1..]).Some?
  }

  // The literals stand at these places, in order and apart.
  predicate Placed(s: string, from: nat, lits: seq<string>, ps: seq<nat>)
    decreases |lits|
  {
    |ps| == |lits| &&
    (lits == [] || (from <= ps[0] && StartsAt(s, lits[0], ps[0]) && Placed(s, ps[0] + |lits[0]|, lits[1..], ps[1..])))
  }

  // None of them could stand further right with the next ones where they are.
  predicate Rightmost(s: string, lits: seq<string>, ps: seq<nat>)
    requires |ps| == |lits|
    decreases |lits|
  {
    lits == [] || (NotBetween(s, lits[0], ps[0], if |ps| > 1 then ps[1] else |s|) && Rightmost(s, lits[1..], ps[1..]))
  }

  // lit does not stand anywhere behind at and before end.
  predicate NotBetween(s: string, lit: string, at: nat, end: nat) {
    forall i | at < i && i + |lit| <= end :: !StartsAt(s, lit, i)
  }

  // Giving up from the right, the starting point does not matter.
  lemma {:induction false} SameFromEarlier(s: string, from: nat, from': nat, i: nat, lits: seq<string>)
    requires from' <= from <= i <= |s| && lits != [] && GiveUp(s, from, i, lits).Some?
    ensures GiveUp(s, from', i, lits) == GiveUp(s, from, i, lits)
    ensures GiveUp(s, from, i, lits).value[0] >= from
    decreases i
  {
    if !Fits(s, i, lits) {
      SameFromEarlier(s, from, from', i - 1, lits);
    }
  }

  // No place from hi down to behind p will do.
  lemma {:induction false} GivesUpTo(s: string, from: nat, p: nat, hi: nat, lits: seq<string>)
    requires from <= p <= hi <= |s| && lits != []
    requires forall i | p < i <= hi :: !Fits(s, i, lits)
    ensures GiveUp(s, from, hi, lits) == GiveUp(s, from, p, lits)
    decreases hi
  {
    if p < hi {
      GivesUpTo(s, from, p, hi - 1, lits);
    }
  }

  // The match is the one that scanning for the literals from the line's end,
  // last one first, comes to.
  lemma {:induction false} MatchIs(s: string, from: nat, lits: seq<string>, ps: seq<nat>)
    requires from <= |s| && Placed(s, from, lits, ps) && Rightmost(s, lits, ps)
    ensures Match(s, from, lits) == Some(ps)
    decreases |lits|
  {
    if lits != [] {
      var p, n, rest := ps[0], |lits[0]|, lits[1..];
      MatchIs(s, p + n, rest, ps[1..]);
      forall i | p < i <= |s| ensures !Fits(s, i, lits) {
        if Fits(s, i, lits) && rest != [] {
          assert Match(s, i + n, rest) == GiveUp(s, i + n, |s|, rest);
          SameFromEarlier(s, i + n, p + n, |s|, rest);
        }
      }
      GivesUpTo(s, from, p, |s|, lits);
      assert [p] + ps[1..] == ps;
    }
  }

  lemma {:induction false} GiveUpPlaces(s: string, from: nat, i: nat, lits: seq<string>)
    requires from <= i <= |s| && lits != [] && GiveUp(s, from, i, lits).Some?
    ensures var ps := GiveUp(s, from, i, lits).value;
      |ps| == |lits| && from <= ps[0] <= i && Fits(s, ps[0], lits)
        && ps[1..] == Match(s, ps[0] + |lits[0]|, lits[1..]).value
    decreases |lits|, i
  {
    if Fits(s, i, lits) {
      if lits[1..] != [] {
        GiveUpPlaces(s, i + |lits[0]|, |s|, lits[1..]);
      }
    } else {
      GiveUpPlaces(s, from, i - 1, lits);
    }
  }

  lemma {:induction false} MatchIsPlaced(s: string, from: nat, lits: seq<string>)
    requires from <= |s| && Match(s, from, lits).Some?
    ensures Placed(s, from, lits, Match(s, from, lits).value)
    decreases |lits|
  {
    if lits != [] {
      GiveUpPlaces(s, from, |s|, lits);
      var p := Match(s, from, lits).value[0];
      MatchIsPlaced(s, p + |lits[0]|, lits[1..]);
    }
  }

  // --- the key ------------------------------------------------------------

  const EXIT: seq<string> := ["kvm_exit: ", " reason ", " rip ", "info2 0x"]

  predicate LowerHex(c: char) { Digit(c) || 'a' <= c <= 'f' }

  // The two groups the pattern captures.
  function Captured(l: string): Option<(string, string)> {
    match Match(l, 0, EXIT)
    case None => None
    case Some(ps) =>
      MatchIsPlaced(l, 0, EXIT);
      Groups(l, ps);
      var h := ps[3] + 8;
      Some((l[ps[1] + 8..ps[2]], "0x" + l[h..][..Run(l[h..], LowerHex)]))
  }

  lemma PlacedHead(s: string, from: nat, lits: seq<string>, ps: seq<nat>)
    requires Placed(s, from, lits, ps) && lits != []
    ensures from <= ps[0] && ps[0] + |lits[0]| <= |s| && StartsAt(s, lits[0], ps[0])
    ensures Placed(s, ps[0] + |lits[0]|, lits[1..], ps[1..])
  {
  }

  lemma PlacedFour(s: string, l0: string, l1: string, l2: string, l3: string, ps: seq<nat>)
    requires Placed(s, 0, [l0, l1, l2, l3], ps)
    ensures |ps| == 4
    ensures ps[0] + |l0| <= ps[1] && ps[1] + |l1| <= ps[2] && ps[2] + |l2| <= ps[3] && ps[3] + |l3| <= |s|
    ensures StartsAt(s, l0, ps[0]) && StartsAt(s, l1, ps[1]) && StartsAt(s, l2, ps[2]) && StartsAt(s, l3, ps[3])
  {
    hide StartsAt;
    var lits := [l0, l1, l2, l3];
    assert lits[1..] == [l1, l2, l3] && [l1, l2, l3][1..] == [l2, l3] && [l2, l3][1..] == [l3];
    PlacedHead(s, 0, lits, ps);
    PlacedHead(s, ps[0] + |l0|, [l1, l2, l3], ps[1..]);
    PlacedHead(s, ps[1] + |l1|, [l2, l3], ps[1..][1..]);
    PlacedHead(s, ps[2] + |l2|, [l3], ps[1..][1..][1..]);
  }

  lemma Groups(l: string, ps: seq<nat>)
    requires Placed(l, 0, EXIT, ps)
    ensures |ps| == |EXIT| == 4 && ps[0] + 10 <= ps[1] && ps[1] + 8 <= ps[2] && ps[2] + 5 <= ps[3] && ps[3] + 8 <= |l|
    ensures forall j | 0 <= j < 4 :: StartsAt(l, EXIT[j], ps[j])
  {
    hide Placed;
    hide StartsAt;
    PlacedFour(l, EXIT[0], EXIT[1], EXIT[2], EXIT[3], ps);
  }

  function HcName(v: string): Option<string> {
    if v == "20001" then Some("HC_IRQ_WIN")
    else if v == "20002" then Some("HC_IRQ_HALT")
    else if v == "20003" then Some("HC_LOAD_PGTBL")
    else if v == "20004" then Some("HC_TLB_FLUSH")
    else if v == "20005" then Some("HC_TLB_FLUSH_CURRENT")
    else if v == "20006" then Some("HC_TLB_INVLPG")
    else if v == "20007" then Some("HC_LOAD_GS")
    else if v == "20008" then Some("HC_RDMSR")
    else if v == "20009" then Some("HC_WRMSR")
    else if v == "2000a" then Some("HC_LOAD_TLS")
    else None
  }

  const HYPERCALL: string := "HYPERCALL"

  predicate Zero(c: char) { c == '0' }

  // A number less its 0x and its leading zeros.
  function Bare(info2: string): string {
    if HasPrefix(info2, "0x") then info2[2..][Run(info2[2..], Zero)..] else info2
  }

  function HcReason(r: string, info2: string): string {
    if r != HYPERCALL then r
    else match HcName(Bare(info2))
      case Some(n) => n
      case None => HYPERCALL + "(" + Bare(info2) + ")"
  }

  // sed printed the groups with a bar between, and awk split them at bars.
  function ExitKey(l: string): Option<string> {
    match Captured(l)
    case None => None
    case Some((reason, info2)) =>
      var f := Split(reason + "|" + info2, '|');
      Some(HcReason(f[0], if |f| > 1 then f[1] else ""))
  }

  // Looking for the literal first is only a speed-up.
  lemma LiteralIsNeeded(l: string)
    ensures ExitKey(l).Some? ==> Contains(l, "kvm_exit: ")
  {
    if ExitKey(l).Some? {
      MatchIsPlaced(l, 0, EXIT);
      Groups(l, Match(l, 0, EXIT).value);
      assert StartsAt(l, EXIT[0], Match(l, 0, EXIT).value[0]);
    }
  }

  // --- the kernel's lines -------------------------------------------------

  predicate HexDigits(s: string) {
    forall c <- s :: LowerHex(c)
  }

  // What the trace point prints from the exit's rip on.
  function Rest(rip: string, info1: string, info2: string, tail: string): string {
    " rip 0x" + rip + " info1 0x" + info1 + " info2 0x" + info2 + tail
  }

  function ExitLine(pre: string, mid: string, reason: string, rest: string): string {
    pre + "kvm_exit: " + mid + " reason " + reason + rest
  }

  predicate Tail(tail: string) {
    (tail == "" || !LowerHex(tail[0])) && !Contains(tail, "info2 0x")
  }

  lemma Within(s: string, lit: string, lo: nat, hi: nat, i: nat)
    requires lo <= i && i + |lit| <= hi <= |s|
    ensures StartsAt(s, lit, i) <==> StartsAt(s[lo..hi], lit, i - lo)
  {
    var x, y := s[lo..hi][i - lo..i - lo + |lit|], s[i..i + |lit|];
    assert forall k | 0 <= k < |lit| :: x[k] == y[k];
    assert x == y;
  }

  lemma {:induction false} LastBetween(s: string, lit: string, lo: nat, hi: nat) returns (i: nat)
    requires lo + |lit| <= hi <= |s| && StartsAt(s, lit, lo)
    ensures lo <= i && i + |lit| <= hi && StartsAt(s, lit, i) && NotBetween(s, lit, i, hi)
  {
    hide StartsAt;
    i := hi - |lit|;
    while i > lo && !StartsAt(s, lit, i)
      invariant lo <= i <= hi - |lit|
      invariant forall j | i < j && j + |lit| <= hi :: !StartsAt(s, lit, j)
    {
      i := i - 1;
    }
  }

  // Behind the exit's " rip " there is no other before its info2.
  lemma OneRip(rip: string, info1: string, i: nat)
    requires HexDigits(rip) && HexDigits(info1) && i > 0
    ensures !StartsAt(" rip 0x" + rip + " info1 0x" + info1 + " ", " rip ", i)
  {
    var z := " rip 0x" + rip + " info1 0x" + info1 + " ";
    var e := 7 + |rip|;
    if i + 5 <= |z| {
      assert " rip "[0] == ' ' && " rip "[1] == 'r';
      assert z[i..i + 5][0] == z[i] && z[i..i + 5][1] == z[i + 1];
      assert z[..7] == " rip 0x" && z[7..e] == rip && z[e..e + 9] == " info1 0x" && z[e + 9..|z| - 1] == info1;
      if i < 7 {
        assert z[..7][i] == z[i] && z[5] == z[..7][5] == '0';
      } else if i < e {
        assert rip[i - 7] == z[i] && LowerHex(rip[i - 7]);
      } else if i < e + 9 {
        assert z[e..e + 9][i - e] == z[i] && z[e + 1] == z[e..e + 9][1] == 'i';
      } else {
        assert info1[i - e - 9] == z[i] && LowerHex(info1[i - e - 9]);
      }
    }
  }

  lemma OneInfo2(info2: string, tail: string, i: nat)
    requires HexDigits(info2) && Tail(tail) && i > 0
    ensures !StartsAt("info2 0x" + info2 + tail, "info2 0x", i)
  {
    var w := "info2 0x" + info2 + tail;
    var e := 8 + |info2|;
    if i + 8 <= |w| {
      assert "info2 0x"[0] == 'i' && w[i..i + 8][0] == w[i];
      assert w[..8] == "info2 0x" && w[8..e] == info2 && w[e..|w|] == tail;
      if i < 8 {
        assert w[..8][i] == w[i];
      } else if i < e {
        assert info2[i - 8] == w[i] && LowerHex(info2[i - 8]);
      } else {
        Within(w, "info2 0x", e, |w|, i);
      }
    }
  }

  // A later " reason " can only begin with the blank the first one ends in.
  lemma LaterReason(reason: string, i: nat)
    requires i > 0
    ensures StartsAt(" reason " + reason, " reason ", i) <==> i >= 7 && StartsAt(" " + reason, " reason ", i - 7)
  {
    var t := " reason " + reason;
    assert t[7..|t|] == " " + reason;
    if i < 7 {
      if i + 8 <= |t| {
        assert t[i..i + 8][0] == t[i] && t[i] == " reason "[i] && " reason "[0] == ' ';
      }
    } else if i + 8 <= |t| {
      Within(t, " reason ", 7, |t|, i);
    }
  }

  // The four places the scan from the right comes to.
  lemma ExitMatch(l: string, p: nat, r: nat, c: nat, d: nat) returns (a: nat, b: nat)
    requires p + 10 <= r && r + 8 <= c && c + 5 <= d && d + 8 <= |l|
    requires StartsAt(l, EXIT[0], p) && StartsAt(l, EXIT[1], r) && StartsAt(l, EXIT[2], c) && StartsAt(l, EXIT[3], d)
    requires NotBetween(l, EXIT[2], c, d) && NotBetween(l, EXIT[3], d, |l|)
    ensures r <= b && b + 8 <= c && StartsAt(l, EXIT[1], b) && NotBetween(l, EXIT[1], b, c)
    ensures Match(l, 0, EXIT) == Some([a, b, c, d])
  {
    hide StartsAt;
    hide NotBetween;
    hide Match;
    b := LastBetween(l, EXIT[1], r, c);
    a := LastBetween(l, EXIT[0], p, b);
    FourIs(l, EXIT[0], EXIT[1], EXIT[2], EXIT[3], a, b, c, d);
  }

  lemma FourIs(s: string, l0: string, l1: string, l2: string, l3: string, a: nat, b: nat, c: nat, d: nat)
    requires a + |l0| <= b && b + |l1| <= c && c + |l2| <= d && d + |l3| <= |s|
    requires StartsAt(s, l0, a) && StartsAt(s, l1, b) && StartsAt(s, l2, c) && StartsAt(s, l3, d)
    requires NotBetween(s, l0, a, b) && NotBetween(s, l1, b, c) && NotBetween(s, l2, c, d) && NotBetween(s, l3, d, |s|)
    ensures Match(s, 0, [l0, l1, l2, l3]) == Some([a, b, c, d])
  {
    hide StartsAt;
    hide NotBetween;
    hide Match;
    var lits, ps := [l0, l1, l2, l3], [a, b, c, d];
    assert lits[1..] == [l1, l2, l3] && [l1, l2, l3][1..] == [l2, l3] && [l2, l3][1..] == [l3];
    assert ps[1..] == [b, c, d] && [b, c, d][1..] == [c, d] && [c, d][1..] == [d];
    assert Placed(s, c + |l2|, [l3], [d]) && Rightmost(s, [l3], [d]);
    assert Placed(s, b + |l1|, [l2, l3], [c, d]) && Rightmost(s, [l2, l3], [c, d]);
    assert Placed(s, a + |l0|, [l1, l2, l3], [b, c, d]) && Rightmost(s, [l1, l2, l3], [b, c, d]);
    assert Placed(s, 0, lits, ps) && Rightmost(s, lits, ps);
    MatchIs(s, 0, lits, ps);
  }

  // A literal that z has only in front, and that ends within z.
  lemma OnlyInFront(l: string, lit: string, lo: nat, hi: nat)
    requires lo <= hi <= |l| && forall i | i > 0 :: !StartsAt(l[lo..hi], lit, i)
    ensures NotBetween(l, lit, lo, hi)
  {
    forall i | lo < i && i + |lit| <= hi ensures !StartsAt(l, lit, i) {
      Within(l, lit, lo, hi, i);
    }
  }

  lemma Laid(pre: string, mid: string, reason: string, rip: string, info1: string, info2: string, tail: string)
    ensures ExitLine(pre, mid, reason, Rest(rip, info1, info2, tail)) ==
      (pre + "kvm_exit: " + mid) + (" reason " + reason) + (" rip 0x" + rip + " info1 0x" + info1 + " ")
        + ("info2 0x" + info2 + tail)
  {
    var a := pre + "kvm_exit: " + mid;
    var z := " rip 0x" + rip + " info1 0x" + info1;
    assert " info2 0x" == " " + "info2 0x";
    assert Rest(rip, info1, info2, tail) == z + " info2 0x" + info2 + tail;
    assert z + " info2 0x" + info2 + tail == (z + " ") + ("info2 0x" + info2 + tail);
    assert a + " reason " + reason == a + (" reason " + reason);
  }

  lemma Slices(a: string, t: string, z: string, w: string)
    ensures var l := a + t + z + w;
      && l[..|a|] == a && l[|a|..|a| + |t|] == t && l[|a| + |t|..|a| + |t| + |z|] == z
      && l[|a| + |t| + |z|..|l|] == w
  {
  }

  // The pattern takes the reason whole, or what follows the last " reason "
  // within it; the number is the line's info2 always.
  lemma CapturedIs(pre: string, mid: string, reason: string, rip: string, info1: string, info2: string, tail: string)
      returns (j: nat)
    requires HexDigits(rip) && HexDigits(info1) && HexDigits(info2) && Tail(tail)
    ensures j <= |reason| && Captured(ExitLine(pre, mid, reason, Rest(rip, info1, info2, tail)))
      == Some((reason[j..], "0x" + info2))
    ensures j == 0 <==> !Contains(" " + reason, " reason ")
  {
    hide Match;
    hide Contains;
    hide ExitLine;
    hide Rest;
    hide Run;
    hide LowerHex;
    var head, t := pre + "kvm_exit: " + mid, " reason " + reason;
    var z, w := " rip 0x" + rip + " info1 0x" + info1 + " ", "info2 0x" + info2 + tail;
    Laid(pre, mid, reason, rip, info1, info2, tail);
    j := ExitParts(pre, mid, reason, rip, info1, info2, tail, head + t + z + w);
  }

  lemma Heads(pre: string, mid: string, reason: string, z: string, w: string, zr: string, wr: string)
    requires z == " rip " + zr && w == "info2 0x" + wr
    ensures var head, t := pre + "kvm_exit: " + mid, " reason " + reason;
      var l := head + t + z + w;
      && StartsAt(l, EXIT[0], |pre|) && StartsAt(l, EXIT[1], |head|)
      && StartsAt(l, EXIT[2], |head + t|) && StartsAt(l, EXIT[3], |head + t + z|)
  {
    var head, t := pre + "kvm_exit: " + mid, " reason " + reason;
    var l := head + t + z + w;
    Slices(head, t, z, w);
    var b, c, d := |head|, |head + t|, |head + t + z|;
    assert l[|pre|..|pre| + 10] == head[|pre|..|pre| + 10] == EXIT[0];
    assert l[b..b + 8] == t[..8] == EXIT[1];
    assert l[c..c + 5] == z[..5] == EXIT[2];
    assert l[d..d + 8] == w[..8] == EXIT[3];
  }

  lemma ExitParts(pre: string, mid: string, reason: string, rip: string, info1: string, info2: string, tail: string,
      l: string)
      returns (j: nat)
    requires HexDigits(rip) && HexDigits(info1) && HexDigits(info2) && Tail(tail)
    requires l == (pre + "kvm_exit: " + mid) + (" reason " + reason) + (" rip 0x" + rip + " info1 0x" + info1 + " ")
      + ("info2 0x" + info2 + tail)
    ensures j <= |reason| && Captured(l) == Some((reason[j..], "0x" + info2))
    ensures j == 0 <==> !Contains(" " + reason, " reason ")
  {
    hide Match;
    hide StartsAt;
    hide Contains;
    hide Run;
    var head, t := pre + "kvm_exit: " + mid, " reason " + reason;
    var z, w := " rip 0x" + rip + " info1 0x" + info1 + " ", "info2 0x" + info2 + tail;
    assert z == " rip " + ("0x" + rip + " info1 0x" + info1 + " ");
    Heads(pre, mid, reason, z, w, "0x" + rip + " info1 0x" + info1 + " ", info2 + tail);
    Slices(head, t, z, w);
    var b0, c, d := |head|, |head + t|, |head + t + z|;
    forall i | i > 0 ensures !StartsAt(z, EXIT[2], i) && !StartsAt(w, EXIT[3], i) {
      OneRip(rip, info1, i);
      OneInfo2(info2, tail, i);
    }
    OnlyInFront(l, EXIT[2], c, d);
    OnlyInFront(l, EXIT[3], d, |l|);
    var a, b := ExitMatch(l, |pre|, b0, c, d);
    j := b - b0;
    assert l[b + 8..c] == reason[j..];
    assert l[d + 8..] == info2 + tail;
    RunStops(info2, tail, LowerHex);
    LastReason(l, reason, b0, c, b);
  }

  lemma LastReason(l: string, reason: string, b0: nat, c: nat, b: nat)
    requires b0 <= b && b + 8 <= c <= |l| && l[b0..c] == " reason " + reason
    requires StartsAt(l, EXIT[1], b) && NotBetween(l, EXIT[1], b, c)
    ensures b == b0 <==> !Contains(" " + reason, " reason ")
  {
    hide StartsAt;
    var t := " reason " + reason;
    if b > b0 {
      Within(l, " reason ", b0, c, b);
      LaterReason(reason, b - b0);
    } else {
      forall i | 0 <= i <= |reason| + 1 ensures !StartsAt(" " + reason, " reason ", i) {
        LaterReason(reason, i + 7);
        NotStartsBeyond(t, i + 7);
        if i + 15 <= |t| {
          Within(l, " reason ", b0, c, b0 + i + 7);
        }
      }
    }
  }

  lemma NotStartsBeyond(t: string, i: nat)
    ensures i + 8 > |t| ==> !StartsAt(t, " reason ", i)
  {
  }

  // --- the key of a line --------------------------------------------------

  lemma HcNameChars(v: string)
    ensures HcName(v).Some? ==> '|' !in HcName(v).value && ' ' !in HcName(v).value
  {
  }

  lemma HcReasonIs(r: string, info2: string)
    ensures r != HYPERCALL ==> HcReason(r, info2) == r
    ensures r == HYPERCALL && '|' !in info2 ==> '|' !in HcReason(r, info2)
    ensures r == HYPERCALL && ' ' in HcReason(r, info2) ==> HcReason(r, info2)[|HcReason(r, info2)| - 1] == ')'
  {
    hide HcName;
    HcNameChars(Bare(info2));
  }

  // The first two fields of the groups joined with a bar.
  lemma TwoFields(m: string, info2: string)
    requires '|' !in info2
    ensures var f := Split(m + "|" + info2, '|');
      && |f| > 1 && '|' !in f[1]
      && ('|' !in m ==> f[0] == m && f[1] == info2)
      && ('|' in m ==> |f[0]| < |m|)
  {
    var s := m + "|" + info2;
    if '|' !in m {
      SplitFirst(m, '|', info2);
      SplitNone(info2, '|');
    } else {
      var i := Find(m, '|');
      assert i < |m|;
      FindIs(s, '|', i);
      var rest := s[i + 1..];
      assert s == s[..i] + "|" + rest;
      assert rest[..Find(rest, '|')] == Split(rest, '|')[0];
    }
  }

  // Every line of the kernel's form is counted: under its reason, named by its
  // number, if and only if the reason has no bar in it and not the pattern's
  // own " reason ".
  lemma ExitKeyIs(pre: string, mid: string, reason: string, rip: string, info1: string, info2: string, tail: string)
    requires HexDigits(rip) && HexDigits(info1) && HexDigits(info2) && Tail(tail)
    ensures var k := ExitKey(ExitLine(pre, mid, reason, Rest(rip, info1, info2, tail)));
      k.Some? && (k.value == HcReason(reason, "0x" + info2) <==> '|' !in reason && !Contains(" " + reason, " reason "))
  {
    hide Captured;
    hide Contains;
    hide HcReason;
    hide Rest;
    hide ExitLine;
    hide Tail;
    hide Split;
    var j := CapturedIs(pre, mid, reason, rip, info1, info2, tail);
    var m, x := reason[j..], "0x" + info2;
    assert '|' !in x by {
      assert forall c <- info2 :: LowerHex(c);
    }
    TwoFields(m, x);
    var f := Split(m + "|" + x, '|');
    HcReasonIs(f[0], f[1]);
    HcReasonIs(reason, x);
    if j > 0 || '|' in reason {
      LastReasonBlank(reason, j);
      KeyIsAnother(reason, j, m, f[0], f[1], x);
    }
  }

  lemma BarIsCut(pre: string, mid: string, rip: string, info1: string, info2: string, tail: string)
    requires HexDigits(rip) && HexDigits(info1) && HexDigits(info2) && Tail(tail)
    ensures ExitKey(ExitLine(pre, mid, "A|B", Rest(rip, info1, info2, tail))) != Some(HcReason("A|B", "0x" + info2))
  {
    hide ExitKey;
    hide ExitLine;
    hide Rest;
    hide Contains;
    hide HcReason;
    hide Tail;
    ExitKeyIs(pre, mid, "A|B", rip, info1, info2, tail);
    assert "A|B"[1] == '|';
  }

  lemma LastReasonBlank(reason: string, j: nat)
    requires j == 0 <==> !Contains(" " + reason, " reason ")
    ensures j > 0 ==> ' ' in reason
  {
    if j > 0 {
      var s := " " + reason;
      var i :| 0 <= i <= |s| && StartsAt(s, " reason ", i);
      assert s[i..i + 8][7] == s[i + 7] == reason[i + 6];
    }
  }

  // A reason with a bar or a second " reason " is no key of its own.
  lemma KeyIsAnother(reason: string, j: nat, m: string, f0: string, f1: string, x: string)
    requires j <= |reason| && m == reason[j..] && (j > 0 || '|' in reason)
    requires j > 0 ==> ' ' in reason
    requires '|' !in f1 && ('|' !in m ==> f0 == m && f1 == x) && ('|' in m ==> |f0| < |m|)
    ensures reason != HYPERCALL && HcReason(f0, f1) != reason
  {
    hide HcReason;
    HcReasonIs(f0, f1);
    if f0 == HYPERCALL {
      if '|' in m {
        assert '|' in reason;
      } else if j > 0 {
        assert reason[|reason| - 1] == m[|m| - 1] == 'L';
      }
    }
  }

  // --- the numbers of the hypercalls --------------------------------------

  lemma HcNamesDiffer(v: string, w: string)
    requires HcName(v).Some? && HcName(w).Some? && HcName(v) == HcName(w)
    ensures v == w
  {
    HcNameShape(v);
    HcNameShape(w);
  }

  // A name's length and fourth letter say which it is.
  lemma HcNameShape(v: string)
    requires HcName(v).Some?
    ensures var n := HcName(v).value;
      |n| > 3 && n[1] == 'C' && v ==
        if |n| == 10 then (if n[3] == 'I' then "20001" else "20007")
        else if |n| == 11 then (if n[3] == 'I' then "20002" else "2000a")
        else if |n| == 13 then (if n[3] == 'L' then "20003" else "20006")
        else if |n| == 12 then "20004" else if |n| == 20 then "20005"
        else if n[3] == 'R' then "20008" else "20009"
  {
  }

  lemma HexInBase(s: string)
    requires HexDigits(s)
    ensures M.InBase(s, 16)
  {
  }

  // A number does not change with leading zeros, and without them its text is
  // its own.
  lemma {:induction false} BareValue(s: string)
    requires HexDigits(s)
    ensures var b := s[Run(s, Zero)..];
      HexDigits(b) && (b == "" || b[0] != '0') && M.InBase(s, 16) && M.InBase(b, 16)
        && M.BaseValue(b, 16) == M.BaseValue(s, 16)
  {
    HexInBase(s);
    if s != "" && s[0] == '0' {
      BareValue(s[1..]);
      LeadingZero(s[1..]);
      assert s == "0" + s[1..] && s[Run(s, Zero)..] == s[1..][Run(s[1..], Zero)..];
    } else {
      assert s[0..] == s;
    }
  }

  lemma {:induction false} LeadingZero(s: string)
    requires HexDigits(s)
    ensures M.InBase(s, 16) && M.InBase("0" + s, 16) && M.BaseValue("0" + s, 16) == M.BaseValue(s, 16)
  {
    HexInBase(s);
    HexInBase("0" + s);
    var z := "0" + s;
    if s == "" {
      assert z[..0] == "" && z == "0";
    } else {
      LeadingZero(s[..|s| - 1]);
      assert z[..|z| - 1] == "0" + s[..|s| - 1];
    }
  }

  lemma {:induction false} Positive(s: string)
    requires HexDigits(s) && s != "" && s[0] != '0'
    ensures M.InBase(s, 16) && M.BaseValue(s, 16) > 0
  {
    HexInBase(s);
    if |s| > 1 {
      HexInBase(s[..|s| - 1]);
      Positive(s[..|s| - 1]);
    }
  }

  lemma LastDigit(c: char, d: char, m: nat, n: nat)
    requires LowerHex(c) && LowerHex(d)
    ensures 16 * m + M.DigitValue(c) == 16 * n + M.DigitValue(d) <==> m == n && c == d
  {
  }

  lemma {:induction false} SameNumber(s: string, t: string)
    requires HexDigits(s) && HexDigits(t) && (s == "" || s[0] != '0') && (t == "" || t[0] != '0')
    ensures M.InBase(s, 16) && M.InBase(t, 16) && (M.BaseValue(s, 16) == M.BaseValue(t, 16) <==> s == t)
    decreases |s|
  {
    HexInBase(s);
    HexInBase(t);
    if s == "" || t == "" {
      if s != "" { Positive(s); }
      if t != "" { Positive(t); }
    } else {
      var a, b := s[..|s| - 1], t[..|t| - 1];
      SameNumber(a, b);
      LastDigit(s[|s| - 1], t[|t| - 1], M.BaseValue(a, 16), M.BaseValue(b, 16));
      assert s == a + [s[|s| - 1]] && t == b + [t[|t| - 1]];
    }
  }

  lemma SameKey(v: string, w: string)
    ensures HcReason(HYPERCALL, v) == HcReason(HYPERCALL, w) <==> Bare(v) == Bare(w)
  {
    hide HcName;
    hide Bare;
    var x, y := Bare(v), Bare(w);
    if HcName(x).Some? { HcNameShape(x); }
    if HcName(y).Some? { HcNameShape(y); }
    if HcName(x).Some? && HcName(y).Some? && HcName(x) == HcName(y) { HcNamesDiffer(x, y); }
    var p, q := HYPERCALL + "(" + x + ")", HYPERCALL + "(" + y + ")";
    assert p[1] == 'Y' && q[1] == 'Y';
    assert p[10..|p| - 1] == x && q[10..|q| - 1] == y;
  }

  // Two hypercalls are counted together if and only if their numbers are the
  // same, however they are padded.
  lemma HypercallKeys(a: string, b: string)
    requires HexDigits(a) && HexDigits(b)
    ensures M.InBase(a, 16) && M.InBase(b, 16)
    ensures HcReason(HYPERCALL, "0x" + a) == HcReason(HYPERCALL, "0x" + b) <==> M.BaseValue(a, 16) == M.BaseValue(b, 16)
  {
    var x, y := a[Run(a, Zero)..], b[Run(b, Zero)..];
    assert ("0x" + a)[2..] == a && ("0x" + b)[2..] == b;
    assert Bare("0x" + a) == x && Bare("0x" + b) == y;
    BareValue(a);
    BareValue(b);
    SameNumber(x, y);
    SameKey("0x" + a, "0x" + b);
  }

  // --- the report ---------------------------------------------------------

  // The 18 most frequent exits of a trace.
  method ExitsByReason(r: BufReader) returns (rows: seq<string>)
    requires r.Valid() && r.pos == 0
    modifies r
    ensures exists n, full ::
      && Counts(n, SplitLines(r.data), ExitKey)
      && IsHistogram(full, Format(8, "  "), n) && rows == Take(full, 18)
  {
    rows := Report(r, ExitKey, Format(8, "  "), 18);
  }
}
