// The boots of a battery item (run.go:60-112, spec.go:230-281) in their order, the sides of an A/B pair alternating.
module Boots {
  import opened Decimals
  import opened Options
  import opened Text

  // --- items --------------------------------------------------------------

  datatype Item = Item(kind: string, name: string, keys: map<string, string>)

  function Get(it: Item, k: string, def: string): string {
    if k in it.keys && it.keys[k] != "" then it.keys[k] else def
  }

  // No list for a key without a value.
  function List(it: Item, k: string): seq<string> {
    if Get(it, k, "") == "" then [] else Split(Get(it, k, ""), ',')
  }

  function Numbers(l: seq<string>): Option<seq<int>> {
    if l == [] then Some([]) else
    match ParseInt(l[0])
    case None => None
    case Some(n) =>
      match Numbers(l[1..])
      case None => None
      case Some(ns) => Some([n] + ns)
  }

  function Ints(it: Item, k: string, def: seq<int>): (r: Option<seq<int>>)
    requires def != []
    ensures r.Some? ==> r.value != []
  {
    if List(it, k) == [] then Some(def) else
    Numbers(List(it, k))
  }

  predicate SideKey(k: string) {
    HasPrefix(k, "a.") || HasPrefix(k, "b.")
  }

  // Which value a side's variant has for a key, if any: its own key's, or the
  // common one.
  function VariantValue(keys: map<string, string>, side: string, k: string): Option<string> {
    if side + "." + k in keys then Some(keys[side + "." + k])
    else if k in keys && !SideKey(k) then Some(keys[k])
    else None
  }

  ghost predicate IsVariant(v: map<string, string>, keys: map<string, string>, side: string) {
    forall k :: (k in v <==> VariantValue(keys, side, k).Some?)
      && (k in v ==> VariantValue(keys, side, k) == Some(v[k]))
  }

  // An item with one side's keys folded over the rest: the same whatever order
  // the maps are walked in.
  method Variant(it: Item, side: string) returns (v: Item)
    requires side == "a" || side == "b"
    ensures v.kind == "run" && v.name == it.name + "-" + side && IsVariant(v.keys, it.keys, side)
  {
    var keys: map<string, string> := map[];
    var left := it.keys.Keys;
    while left != {}
      invariant left <= it.keys.Keys
      invariant forall k :: k in keys <==> k in it.keys && k !in left && !SideKey(k)
      invariant forall k :: k in keys ==> keys[k] == it.keys[k]
      decreases |left|
    {
      var k :| k in left;
      left := left - {k};
      if !SideKey(k) {
        keys := keys[k := it.keys[k]];
      }
    }
    var common := keys;
    left := it.keys.Keys;
    while left != {}
      invariant left <= it.keys.Keys
      invariant forall k :: k in keys <==> k in common || (side + "." + k in it.keys && side + "." + k !in left)
      invariant forall k :: k in keys ==>
        keys[k] == if side + "." + k in it.keys && side + "." + k !in left then it.keys[side + "." + k] else common[k]
      decreases |left|
    {
      var k :| k in left;
      left := left - {k};
      if HasPrefix(k, side + ".") {
        BehindSide(k, side);
        keys := keys[k[2..] := it.keys[k]];
      } else {
        NotBehind(k, side);
      }
    }
    v := Item("run", it.name + "-" + side, keys);
  }

  lemma BehindSide(k: string, side: string)
    requires |side| == 1 && HasPrefix(k, side + ".")
    ensures |k| >= 2 && k == side + "." + k[2..]
    ensures forall j: string :: side + "." + j == k <==> j == k[2..]
  {
    assert k[0..2] == side + ".";
    assert k == k[0..2] + k[2..];
    forall j: string ensures side + "." + j == k <==> j == k[2..] {
      assert (side + "." + j)[2..] == j;
    }
  }

  lemma NotBehind(k: string, side: string)
    requires !HasPrefix(k, side + ".")
    ensures forall j: string :: side + "." + j != k
  {
    forall j: string ensures side + "." + j != k {
      assert (side + "." + j)[0..|side + "."|] == side + ".";
    }
  }

  // --- the boots ----------------------------------------------------------

  datatype Boot = Boot(name: string, vendor: string, cpus: int, rep: nat, side: string, logName: string)

  function VendorsOf(it: Item): (vs: seq<string>)
    ensures vs != []
  {
    if List(it, "vendor") == [] then ["pvm"] else List(it, "vendor")
  }

  // What an item comes to: one list of vendors, or one for each side.
  datatype Plan =
    | Single(name: string, vendors: seq<string>)
    | Pair(name: string, aVendors: seq<string>, bVendors: seq<string>)

  function Block(name: string, vendors: seq<string>, cpus: int, rep: nat, side: string): seq<Boot> {
    seq(|vendors|, i requires 0 <= i < |vendors| => Boot(name, vendors[i], cpus, rep, side, ""))
  }

  // The boots of one repetition at one vCPU count.
  function Cell(p: Plan, cpus: int, rep: nat): seq<Boot> {
    match p
    case Single(name, vs) => Block(name, vs, cpus, rep, "")
    case Pair(name, va, vb) =>
      var a, b := Block(name + "-a", va, cpus, rep, "a"), Block(name + "-b", vb, cpus, rep, "b");
      if rep % 2 == 0 then b + a else a + b
  }

  function Row(p: Plan, cpus: seq<int>, rep: nat): seq<Boot> {
    if cpus == [] then [] else Row(p, cpus[..|cpus| - 1], rep) + Cell(p, cpus[|cpus| - 1], rep)
  }

  function Runs(p: Plan, cpus: seq<int>, reps: nat): seq<Boot> {
    if reps == 0 then [] else Runs(p, cpus, reps - 1) + Row(p, cpus, reps)
  }

  function LogName(b: Boot, reps: int): string {
    b.name + "-" + b.vendor
    + (if b.cpus > 0 then "-cpu" + Dec(b.cpus) else "")
    + (if reps > 1 then "-r" + Dec(b.rep) else "")
  }

  function Labelled(bs: seq<Boot>, reps: int): seq<Boot> {
    seq(|bs|, i requires 0 <= i < |bs| => bs[i].(logName := LogName(bs[i], reps)))
  }

  function Count(reps: int): nat {
    if reps < 0 then 0 else reps
  }

  ghost predicate IsPlan(p: Plan, it: Item) {
    if it.kind == "ab" then
      p.Pair? && p.name == it.name && exists a, b ::
        IsVariant(a, it.keys, "a") && IsVariant(b, it.keys, "b")
        && p.aVendors == VendorsOf(Item("run", it.name + "-a", a))
        && p.bVendors == VendorsOf(Item("run", it.name + "-b", b))
    else p == Single(it.name, VendorsOf(it))
  }

  // The boots of one side: its own vendors.
  method SideBoots(v: Item, cpus: int, rep: nat, side: string) returns (out: seq<Boot>)
    ensures out == Block(v.name, VendorsOf(v), cpus, rep, side)
  {
    var vendors := VendorsOf(v);
    out := [];
    for i := 0 to |vendors|
      invariant out == Block(v.name, vendors, cpus, rep, side)[..i]
    {
      out := out + [Boot(v.name, vendors[i], cpus, rep, side, "")];
    }
  }

  // The sides of one item: itself, or its two variants.
  method Sides(it: Item) returns (a: Item, b: Item, ghost p: Plan)
    ensures IsPlan(p, it)
    ensures if it.kind == "ab"
      then p == Pair(it.name, VendorsOf(a), VendorsOf(b)) && a.name == it.name + "-a" && b.name == it.name + "-b"
      else a == it && p == Single(it.name, VendorsOf(it))
  {
    hide VendorsOf;
    hide IsVariant;
    a, b := it, it;
    if it.kind == "ab" {
      a := Variant(it, "a");
      b := Variant(it, "b");
      p := Pair(it.name, VendorsOf(a), VendorsOf(b));
      assert a == Item("run", it.name + "-a", a.keys) && b == Item("run", it.name + "-b", b.keys);
    } else {
      p := Single(it.name, VendorsOf(it));
    }
  }

  method RowBoots(ab: bool, a: Item, b: Item, ghost p: Plan, cpus: seq<int>, rep: nat, before: seq<Boot>)
      returns (out: seq<Boot>)
    requires if ab
      then
        && p.Pair? && p == Pair(p.name, VendorsOf(a), VendorsOf(b))
        && a.name == p.name + "-a" && b.name == p.name + "-b"
      else p == Single(a.name, VendorsOf(a))
    ensures out == before + Row(p, cpus, rep)
  {
    hide VendorsOf;
    hide Block;
    hide Cell;
    hide Row;
    out := before;
    RowEmpty(p, rep);
    assert cpus[..0] == [];
    for i := 0 to |cpus|
      invariant out == before + Row(p, cpus[..i], rep)
    {
      var one: seq<Boot>, two: seq<Boot> := [], [];
      // The order alternates every repetition.
      if ab && rep % 2 == 0 {
        one := SideBoots(b, cpus[i], rep, "b");
        two := SideBoots(a, cpus[i], rep, "a");
      } else if ab {
        one := SideBoots(a, cpus[i], rep, "a");
        two := SideBoots(b, cpus[i], rep, "b");
      } else {
        one := SideBoots(a, cpus[i], rep, "");
      }
      CellIs(ab, a, b, p, cpus[i], rep, one, two);
      RowSnoc(p, cpus, i, rep);
      out := out + one + two;
      assert out == before + Row(p, cpus[..i], rep) + (one + two);
    }
    assert cpus[..|cpus|] == cpus;
  }

  lemma RowEmpty(p: Plan, rep: nat)
    ensures Row(p, [], rep) == []
  {
  }

  lemma RowSnoc(p: Plan, cpus: seq<int>, i: nat, rep: nat)
    requires i < |cpus|
    ensures Row(p, cpus[..i + 1], rep) == Row(p, cpus[..i], rep) + Cell(p, cpus[i], rep)
  {
    hide Cell;
    assert cpus[..i + 1][..i] == cpus[..i];
  }

  lemma CellIs(ab: bool, a: Item, b: Item, p: Plan, cpus: int, rep: nat, one: seq<Boot>, two: seq<Boot>)
    requires if ab
      then
        && p.Pair? && p == Pair(p.name, VendorsOf(a), VendorsOf(b))
        && a.name == p.name + "-a" && b.name == p.name + "-b"
      else p == Single(a.name, VendorsOf(a))
    requires ab && rep % 2 == 0 ==>
      && one == Block(b.name, VendorsOf(b), cpus, rep, "b")
      && two == Block(a.name, VendorsOf(a), cpus, rep, "a")
    requires ab && rep % 2 != 0 ==>
      && one == Block(a.name, VendorsOf(a), cpus, rep, "a")
      && two == Block(b.name, VendorsOf(b), cpus, rep, "b")
    requires !ab ==> one == Block(a.name, VendorsOf(a), cpus, rep, "") && two == []
    ensures one + two == Cell(p, cpus, rep)
  {
    hide Block;
    hide VendorsOf;
    assert one + [] == one;
  }

  method Expand(it: Item) returns (r: Option<seq<Boot>>, ghost p: Plan)
    ensures IsPlan(p, it)
    ensures r.Some? <==> Ints(it, "cpus", [0]).Some? && Ints(it, "reps", [1]).Some?
    ensures r.Some? ==>
      var cpus, reps := Ints(it, "cpus", [0]).value, Ints(it, "reps", [1]).value[0];
      r.value == Labelled(Runs(p, cpus, Count(reps)), reps)
  {
    hide VendorsOf;
    hide Ints;
    hide IsPlan;
    hide Row;
    var c, n := Ints(it, "cpus", [0]), Ints(it, "reps", [1]);
    var a, b;
    a, b, p := Sides(it);
    if c == None || n == None {
      return None, p;
    }
    var cpus, reps := c.value, n.value[0];
    var out: seq<Boot> := [];
    for rep := 1 to Count(reps) + 1
      invariant out == Runs(p, cpus, rep - 1)
    {
      out := RowBoots(it.kind == "ab", a, b, p, cpus, rep, out);
    }
    out := Label(out, reps);
    r := Some(out);
  }

  // The names of the logs, written into the boots one by one.
  method Label(bs: seq<Boot>, reps: int) returns (out: seq<Boot>)
    ensures out == Labelled(bs, reps)
  {
    out := bs;
    for i := 0 to |bs|
      invariant |out| == |bs| && out[i..] == bs[i..]
      invariant out[..i] == Labelled(bs, reps)[..i]
    {
      var b := out[i];
      assert b == out[i..][0] == bs[i..][0];
      var name := b.name + "-" + b.vendor;
      if b.cpus > 0 {
        name := name + ("-cpu" + Dec(b.cpus));
      }
      if reps > 1 {
        name := name + ("-r" + Dec(b.rep));
      }
      assert name == LogName(b, reps);
      var was := out;
      out := out[i := b.(logName := name)];
      assert out[i + 1..] == was[i..][1..];
    }
  }

  // --- each boot once -----------------------------------------------------

  function Width(p: Plan): nat {
    match p
    case Single(_, vs) => |vs|
    case Pair(_, va, vb) => |va| + |vb|
  }

  lemma CellWidth(p: Plan, cpus: int, rep: nat)
    ensures |Cell(p, cpus, rep)| == Width(p)
  {
  }

  predicate StandsAt(bs: seq<Boot>, at: nat, b: Boot) {
    at < |bs| && bs[at] == b
  }

  lemma {:induction false} RowAt(p: Plan, cpus: seq<int>, rep: nat, i: nat, k: nat)
    requires i < |cpus| && k < Width(p)
    ensures |Row(p, cpus, rep)| == |cpus| * Width(p)
    ensures |Cell(p, cpus[i], rep)| == Width(p)
    ensures StandsAt(Row(p, cpus, rep), i * Width(p) + k, Cell(p, cpus[i], rep)[k])
  {
    hide Cell;
    var n, w := |cpus|, Width(p);
    CellWidth(p, cpus[i], rep);
    CellWidth(p, cpus[n - 1], rep);
    RowWidth(p, cpus[..n - 1], rep);
    Product(i, n, w, k);
    if i < n - 1 {
      RowAt(p, cpus[..n - 1], rep, i, k);
    }
  }

  // Cell i of n cells of width w ends no later than they all do.
  lemma Product(i: nat, n: nat, w: nat, k: nat)
    requires i < n && k < w
    ensures i * w + k < n * w && (n - 1) * w + w == n * w
    ensures i < n - 1 ==> i * w + k < (n - 1) * w
    ensures i == n - 1 ==> i * w == (n - 1) * w
  {
    assert (i + 1) * w <= n * w;
    if i < n - 1 {
      assert (i + 1) * w <= (n - 1) * w;
    }
  }

  lemma {:induction false} RowWidth(p: Plan, cpus: seq<int>, rep: nat)
    ensures |Row(p, cpus, rep)| == |cpus| * Width(p)
  {
    hide Cell;
    if cpus != [] {
      RowWidth(p, cpus[..|cpus| - 1], rep);
      CellWidth(p, cpus[|cpus| - 1], rep);
      assert (|cpus| - 1) * Width(p) + Width(p) == |cpus| * Width(p);
    }
  }

  lemma {:induction false} RunsWidth(p: Plan, cpus: seq<int>, reps: nat)
    ensures |Runs(p, cpus, reps)| == reps * (|cpus| * Width(p))
  {
    hide Row;
    if reps > 0 {
      RunsWidth(p, cpus, reps - 1);
      RowWidth(p, cpus, reps);
      var n := |cpus| * Width(p);
      assert (reps - 1) * n + n == reps * n;
    }
  }

  function Place(p: Plan, cpus: seq<int>, rep: nat, i: nat, k: nat): nat
    requires rep >= 1
  {
    (rep - 1) * (|cpus| * Width(p)) + (i * Width(p) + k)
  }

  // The place of every boot: repetition by repetition, vCPU count by vCPU
  // count, side by side, vendor by vendor.
  lemma {:induction false} BootAt(p: Plan, cpus: seq<int>, reps: nat, rep: nat, i: nat, k: nat)
    requires 1 <= rep <= reps && i < |cpus| && k < Width(p)
    ensures |Cell(p, cpus[i], rep)| == Width(p)
    ensures StandsAt(Runs(p, cpus, reps), Place(p, cpus, rep, i, k), Cell(p, cpus[i], rep)[k])
    decreases reps
  {
    hide Row;
    hide Cell;
    CellWidth(p, cpus[i], rep);
    RunsWidth(p, cpus, reps - 1);
    Product(i, |cpus|, Width(p), k);
    var n, k' := |cpus| * Width(p), i * Width(p) + k;
    Product(rep - 1, reps, n, k');
    if rep < reps {
      BootAt(p, cpus, reps - 1, rep, i, k);
    } else {
      RowAt(p, cpus, reps, i, k);
      assert |Runs(p, cpus, reps - 1)| == (reps - 1) * n;
    }
  }

  // Every place is the place of one such boot.
  lemma PlaceOf(p: Plan, cpus: seq<int>, reps: nat, at: nat) returns (rep: nat, i: nat, k: nat)
    requires at < |Runs(p, cpus, reps)|
    ensures 1 <= rep <= reps && i < |cpus| && k < Width(p) && at == Place(p, cpus, rep, i, k)
  {
    hide Runs;
    hide Width;
    RunsWidth(p, cpus, reps);
    var w := Width(p);
    var n := |cpus| * w;
    var q, r := Divided(at, n, reps);
    rep := q + 1;
    i, k := Divided(r, w, |cpus|);
  }

  // And of no other: repetition, vCPU entry and place within it are read off
  // the place.
  lemma PlacesDiffer(p: Plan, cpus: seq<int>, rep: nat, i: nat, k: nat, rep': nat, i': nat, k': nat)
    requires rep >= 1 && rep' >= 1 && i < |cpus| && i' < |cpus| && k < Width(p) && k' < Width(p)
    ensures Place(p, cpus, rep, i, k) == Place(p, cpus, rep', i', k') <==> rep == rep' && i == i' && k == k'
  {
    hide Width;
    var w := Width(p);
    Product(i, |cpus|, w, k);
    Product(i', |cpus|, w, k');
    if Place(p, cpus, rep, i, k) == Place(p, cpus, rep', i', k') {
      Digits(|cpus| * w, rep - 1, i * w + k, rep' - 1, i' * w + k');
      Digits(w, i, k, i', k');
    }
  }

  // Quotient and remainder are unique.
  lemma Digits(b: nat, q: nat, r: nat, q': nat, r': nat)
    requires r < b && r' < b && q * b + r == q' * b + r'
    ensures q == q' && r == r'
  {
    if q < q' {
      NextCell(b, q, q');
    } else if q' < q {
      NextCell(b, q', q);
    }
  }

  lemma NextCell(b: nat, q: nat, q': nat)
    requires q < q'
    ensures q * b + b <= q' * b
  {
    Larger(q', q + 1, b);
    assert (q + 1) * b == q * b + b;
  }

  lemma Divided(a: nat, b: nat, c: nat) returns (q: nat, r: nat)
    requires a < c * b
    ensures q < c && r < b && a == q * b + r
  {
    assert b > 0;
    q, r := a / b, a % b;
    if q >= c {
      Larger(q, c, b);
      assert false;
    }
  }

  lemma Larger(q: nat, c: nat, b: nat)
    requires q >= c
    ensures q * b >= c * b
  {
  }

  // --- the balance of an A/B comparison -----------------------------------

  function Sign(side: string): int {
    if side == "b" then 1 else if side == "a" then -1 else 0
  }

  // The places of the b boots at one vCPU count, less those of the a boots;
  // the first boot of the list stands at from.
  function Lean(bs: seq<Boot>, from: int, cpus: int): int {
    if bs == [] then 0 else
    Lean(bs[..|bs| - 1], from, cpus)
    + if bs[|bs| - 1].cpus == cpus then Sign(bs[|bs| - 1].side) * (from + |bs| - 1) else 0
  }

  lemma {:induction false} LeanAppend(a: seq<Boot>, b: seq<Boot>, from: int, cpus: int)
    ensures Lean(a + b, from, cpus) == Lean(a, from, cpus) + Lean(b, from + |a|, cpus)
    decreases |b|
  {
    hide Sign;
    if b == [] {
      assert a + b == a;
    } else {
      LeanAppend(a, b[..|b| - 1], from, cpus);
      assert (a + b)[..|a + b| - 1] == a + b[..|b| - 1];
    }
  }

  // 0 + 1 + ... + (n - 1)
  function Triangle(n: nat): nat {
    if n == 0 then 0 else Triangle(n - 1) + n - 1
  }

  lemma {:induction false} BlockLean(name: string, vs: seq<string>, c: int, rep: nat, side: string, from: int,
      cpus: int)
    ensures Lean(Block(name, vs, c, rep, side), from, cpus) ==
      if c == cpus then Sign(side) * (|vs| * from + Triangle(|vs|)) else 0
  {
    hide Sign;
    if vs == [] {
      assert Block(name, vs, c, rep, side) == [];
      assert |vs| * from == 0;
    } else {
      var n := |vs|;
      var bs := Block(name, vs, c, rep, side);
      BlockLean(name, vs[..n - 1], c, rep, side, from, cpus);
      assert bs[..n - 1] == Block(name, vs[..n - 1], c, rep, side);
      Scaled(Sign(side), n, from, Triangle(n - 1));
    }
  }

  lemma Scaled(s: int, n: nat, from: int, t: nat)
    requires n > 0
    ensures s * ((n - 1) * from + t) + s * (from + n - 1) == s * (n * from + (t + n - 1))
  {
    assert (n - 1) * from + from == n * from;
  }

  lemma CellLean(p: Plan, c: int, rep: nat, from: int, cpus: int)
    requires p.Pair? && |p.aVendors| == |p.bVendors|
    ensures var m := |p.aVendors|;
      Lean(Cell(p, c, rep), from, cpus) == if c != cpus then 0 else if rep % 2 == 0 then -(m * m) else m * m
  {
    hide Block;
    hide Lean;
    var m := |p.aVendors|;
    var a, b := Block(p.name + "-a", p.aVendors, c, rep, "a"), Block(p.name + "-b", p.bVendors, c, rep, "b");
    BlockLength(p.name + "-a", p.aVendors, c, rep, "a");
    BlockLength(p.name + "-b", p.bVendors, c, rep, "b");
    LeanAppend(a, b, from, cpus);
    LeanAppend(b, a, from, cpus);
    BlockLean(p.name + "-a", p.aVendors, c, rep, "a", from, cpus);
    BlockLean(p.name + "-a", p.aVendors, c, rep, "a", from + m, cpus);
    BlockLean(p.name + "-b", p.bVendors, c, rep, "b", from, cpus);
    BlockLean(p.name + "-b", p.bVendors, c, rep, "b", from + m, cpus);
    assert m * (from + m) == m * from + m * m;
  }

  lemma BlockLength(name: string, vs: seq<string>, c: int, rep: nat, side: string)
    ensures |Block(name, vs, c, rep, side)| == |vs|
  {
  }

  // How often a vCPU count is listed.
  function Listed(cpus: seq<int>, c: int): nat {
    if cpus == [] then 0 else Listed(cpus[..|cpus| - 1], c) + if cpus[|cpus| - 1] == c then 1 else 0
  }

  lemma {:induction false} RowLean(p: Plan, cpus: seq<int>, rep: nat, from: int, c: int)
    requires p.Pair? && |p.aVendors| == |p.bVendors|
    ensures var mm := |p.aVendors| * |p.aVendors|;
      Lean(Row(p, cpus, rep), from, c) == Listed(cpus, c) * if rep % 2 == 0 then -mm else mm
  {
    hide Cell;
    hide Lean;
    var mm := |p.aVendors| * |p.aVendors|;
    var x := if rep % 2 == 0 then -mm else mm;
    if cpus == [] {
      NoLean(from, c);
    } else {
      var n := |cpus|;
      RowLean(p, cpus[..n - 1], rep, from, c);
      LeanAppend(Row(p, cpus[..n - 1], rep), Cell(p, cpus[n - 1], rep), from, c);
      CellLean(p, cpus[n - 1], rep, from + |Row(p, cpus[..n - 1], rep)|, c);
      var l := Listed(cpus[..n - 1], c);
      assert (l + 1) * x == l * x + x;
    }
  }

  lemma NoLean(from: int, c: int)
    ensures Lean([], from, c) == 0
  {
  }

  // For every vCPU count, the places of b lean over those of a by m*m for each
  // time it is listed when the repetitions are odd, and not at all when they
  // are even: what drifts linearly over the runs cancels.
  lemma {:induction false} Balance(p: Plan, cpus: seq<int>, reps: nat, c: int)
    requires p.Pair? && |p.aVendors| == |p.bVendors|
    ensures var m := |p.aVendors|;
      Lean(Runs(p, cpus, reps), 0, c) == if reps % 2 == 0 then 0 else Listed(cpus, c) * (m * m)
  {
    hide Row;
    hide Lean;
    if reps == 0 {
      NoLean(0, c);
    } else {
      Balance(p, cpus, reps - 1, c);
      LeanAppend(Runs(p, cpus, reps - 1), Row(p, cpus, reps), 0, c);
      RowLean(p, cpus, reps, |Runs(p, cpus, reps - 1)|, c);
      var mm, l := |p.aVendors| * |p.aVendors|, Listed(cpus, c);
      assert l * -mm == -(l * mm);
    }
  }

  // --- the log names ------------------------------------------------------

  lemma DecInjective(m: nat, n: nat)
    requires Dec(m) == Dec(n)
    ensures m == n
  {
    DecValue(m);
    DecValue(n);
  }

  function CpuPart(cpus: int): string {
    if cpus > 0 then "-cpu" + Dec(cpus) else ""
  }

  function RepPart(rep: nat, reps: int): string {
    if reps > 1 then "-r" + Dec(rep) else ""
  }

  lemma {:induction false} DigitsApart(a: string, x: string, b: string, y: string)
    requires AllDigits(a) && AllDigits(b) && (x == "" || x[0] == '-') && (y == "" || y[0] == '-')
    requires a + x == b + y
    ensures a == b && x == y
  {
    DigitsIs(a + x, |a|);
    DigitsIs(b + y, |b|);
    assert (a + x)[..|a|] == a && (a + x)[|a|..] == x;
    assert (b + y)[..|b|] == b && (b + y)[|b|..] == y;
  }

  // The end of a log name says the vCPU count, where it is positive, and the
  // repetition, where there is more than one.
  lemma EndsApart(c: int, d: int, r: nat, s: nat, reps: int)
    requires CpuPart(c) + RepPart(r, reps) == CpuPart(d) + RepPart(s, reps)
    ensures (c > 0 <==> d > 0) && (c > 0 ==> c == d) && (reps > 1 ==> r == s)
  {
    hide Dec;
    hide CpuPart;
    hide RepPart;
    var x, y := RepPart(r, reps), RepPart(s, reps);
    RepShape(r, reps);
    RepShape(s, reps);
    CpuShape(c);
    CpuShape(d);
    if c > 0 && d > 0 {
      DecValue(c);
      DecValue(d);
      assert (CpuPart(c) + x)[4..] == Dec(c) + x && (CpuPart(d) + y)[4..] == Dec(d) + y;
      DigitsApart(Dec(c), x, Dec(d), y);
      DecInjective(c, d);
    } else if c > 0 {
      NotARep(c, x, y);
    } else if d > 0 {
      NotARep(d, y, x);
    } else {
      assert "" + x == x && "" + y == y;
    }
    if reps > 1 {
      assert x[2..] == Dec(r) && y[2..] == Dec(s);
      DecInjective(r, s);
    }
  }

  lemma RepShape(r: nat, reps: int)
    ensures var x := RepPart(r, reps);
      if reps > 1 then |x| >= 2 && x[0] == '-' && x[1] == 'r' && x[2..] == Dec(r) else x == ""
  {
    hide Dec;
  }

  lemma CpuShape(c: int)
    ensures var x := CpuPart(c); if c > 0 then |x| >= 4 && x[0] == '-' && x[1] == 'c' && x[4..] == Dec(c) else x == ""
  {
    hide Dec;
  }

  lemma NotARep(c: int, x: string, y: string)
    requires c > 0 && (y == "" || (|y| >= 2 && y[1] == 'r'))
    ensures CpuPart(c) + x != y && CpuPart(c) + x != "" + y
  {
    hide CpuPart;
    CpuShape(c);
    assert "" + y == y;
    assert (CpuPart(c) + x)[1] == 'c';
  }

  // A vendor without a dash ends where the rest of the name starts.
  lemma VendorsApart(v: string, x: string, w: string, y: string)
    requires '-' !in v && '-' !in w && (x == "" || x[0] == '-') && (y == "" || y[0] == '-') && v + x == w + y
    ensures v == w && x == y
  {
    FindIs(v + x, '-', |v|);
    FindIs(w + y, '-', |w|);
    assert (v + x)[..|v|] == v && (v + x)[|v|..] == x;
    assert (w + y)[..|w|] == w && (w + y)[|w|..] == y;
  }

  lemma NameParts(item: string, side: string, vendor: string, rest: string)
    ensures var s := item + side + "-" + vendor + rest;
      s[|item|..|item| + |side|] == side && s[|item| + |side| + 1..] == vendor + rest
  {
    var s := item + side + "-" + vendor + rest;
    assert s == item + (side + ("-" + (vendor + rest)));
  }

  // Two boots of one item whose logs have one name agree in everything the
  // name is made of.
  lemma SameLogName(b: Boot, d: Boot, item: string, reps: int)
    requires LogName(b, reps) == LogName(d, reps) && '-' !in b.vendor && '-' !in d.vendor
    requires b.name == item + b.side && d.name == item + d.side
    requires |b.side| == |d.side|
    ensures b.side == d.side && b.vendor == d.vendor && (b.cpus > 0 <==> d.cpus > 0)
      && (b.cpus > 0 ==> b.cpus == d.cpus)
    ensures reps > 1 ==> b.rep == d.rep
  {
    hide Dec;
    hide CpuPart;
    hide RepPart;
    var x, y := CpuPart(b.cpus) + RepPart(b.rep, reps), CpuPart(d.cpus) + RepPart(d.rep, reps);
    NamedWhole(b, item, reps);
    NamedWhole(d, item, reps);
    var s, t := item + b.side + "-" + b.vendor + x, item + d.side + "-" + d.vendor + y;
    NameParts(item, b.side, b.vendor, x);
    NameParts(item, d.side, d.vendor, y);
    PartsStart(b.cpus, b.rep, reps);
    PartsStart(d.cpus, d.rep, reps);
    VendorsApart(b.vendor, x, d.vendor, y);
    EndsApart(b.cpus, d.cpus, b.rep, d.rep, reps);
  }

  lemma NamedWhole(b: Boot, item: string, reps: int)
    requires b.name == item + b.side
    ensures LogName(b, reps) == item + b.side + "-" + b.vendor + (CpuPart(b.cpus) + RepPart(b.rep, reps))
  {
    hide Dec;
    var name, x, y := b.name + "-" + b.vendor, CpuPart(b.cpus), RepPart(b.rep, reps);
    assert LogName(b, reps) == name + x + y == name + (x + y);
  }

  lemma PartsStart(c: int, r: nat, reps: int)
    ensures var x := CpuPart(c) + RepPart(r, reps); x == "" || x[0] == '-'
  {
    hide CpuPart;
    hide RepPart;
    CpuShape(c);
    RepShape(r, reps);
  }

  predicate Unequal<T(==)>(s: seq<T>) {
    forall i, j | 0 <= i < j < |s| :: s[i] != s[j]
  }

  // The vCPU counts differ, and at most one asks for the default.
  predicate Counts(cpus: seq<int>) {
    Unequal(cpus) && forall i, j | 0 <= i < j < |cpus| :: cpus[i] > 0 || cpus[j] > 0
  }

  // Each side lists a vendor once; vendors are words without a dash.
  predicate VendorsOnce(p: Plan) {
    match p
    case Single(_, vs) => Unequal(vs)
    case Pair(_, va, vb) => Unequal(va) && Unequal(vb)
  }

  predicate DashFree(p: Plan) {
    match p
    case Single(_, vs) => forall v <- vs :: '-' !in v
    case Pair(_, va, vb) => (forall v <- va :: '-' !in v) && forall v <- vb :: '-' !in v
  }

  function ItemName(p: Plan): string {
    if p.Pair? then p.name + "-" else p.name
  }

  // A cell's boots carry the item's name and their side's.
  lemma CellBoot(p: Plan, c: int, rep: nat, k: nat)
    requires k < Width(p) && DashFree(p)
    ensures |Cell(p, c, rep)| == Width(p)
    ensures var b := Cell(p, c, rep)[k];
      && b.name == ItemName(p) + b.side && |b.side| == (if p.Pair? then 1 else 0)
      && '-' !in b.vendor && b.cpus == c && b.rep == rep
  {
    match p
    case Single(name, vs) =>
      assert name + "" == name;
    case Pair(name, va, vb) =>
      assert name + "-" + "a" == name + "-a" && name + "-" + "b" == name + "-b";
  }

  lemma CellPlace(p: Plan, c: int, rep: nat, k: nat, j: nat)
    requires k < Width(p) && j < Width(p) && VendorsOnce(p) && |Cell(p, c, rep)| == Width(p)
    requires var b, d := Cell(p, c, rep)[k], Cell(p, c, rep)[j]; b.side == d.side && b.vendor == d.vendor
    ensures k == j
  {
  }

  lemma LogNamesDiffer(p: Plan, cpus: seq<int>, reps: nat, x: nat, y: nat)
    requires DashFree(p) && VendorsOnce(p) && Counts(cpus) && x < |Runs(p, cpus, reps)| && y < |Runs(p, cpus, reps)|
    requires LogName(Runs(p, cpus, reps)[x], reps) == LogName(Runs(p, cpus, reps)[y], reps)
    ensures x == y
  {
    hide Runs;
    hide Cell;
    hide LogName;
    hide Width;
    hide DashFree;
    hide VendorsOnce;
    hide Place;
    var r, i, k := PlaceOf(p, cpus, reps, x);
    var s, j, l := PlaceOf(p, cpus, reps, y);
    BootAt(p, cpus, reps, r, i, k);
    BootAt(p, cpus, reps, s, j, l);
    CellBoot(p, cpus[i], r, k);
    CellBoot(p, cpus[j], s, l);
    SameLogName(Cell(p, cpus[i], r)[k], Cell(p, cpus[j], s)[l], ItemName(p), reps);
    assert r == s;
    assert i == j;
    CellPlace(p, cpus[i], r, k, l);
  }

  // A vendor a side lists twice boots twice over.
  lemma ListedTwice(p: Plan, c: int, rep: nat) returns (k: nat, l: nat)
    requires !VendorsOnce(p)
    ensures k < l < Width(p) == |Cell(p, c, rep)| && Cell(p, c, rep)[k] == Cell(p, c, rep)[l]
  {
    match p
    case Single(name, vs) =>
      k, l := Twice(vs);
    case Pair(name, va, vb) =>
      if !Unequal(va) {
        k, l := Twice(va);
        if rep % 2 == 0 { k, l := |vb| + k, |vb| + l; }
      } else {
        k, l := Twice(vb);
        if rep % 2 != 0 { k, l := |va| + k, |va| + l; }
      }
  }

  lemma Twice<T>(s: seq<T>) returns (i: nat, j: nat)
    requires !Unequal(s)
    ensures i < j < |s| && s[i] == s[j]
  {
    i, j :| 0 <= i < j < |s| && s[i] == s[j];
  }

  // One vCPU count listed twice, or two that stand for the default, write to
  // the same logs.
  lemma SameCounts(p: Plan, c: int, d: int, rep: nat, reps: int)
    requires Width(p) > 0 && (c == d || (c <= 0 && d <= 0))
    ensures |Cell(p, c, rep)| == |Cell(p, d, rep)| == Width(p)
    ensures LogName(Cell(p, c, rep)[0], reps) == LogName(Cell(p, d, rep)[0], reps)
  {
    hide Dec;
    CellWidth(p, c, rep);
    CellWidth(p, d, rep);
  }

  ghost predicate LogsApart(bs: seq<Boot>, reps: int) {
    forall x, y | 0 <= x < y < |bs| :: LogName(bs[x], reps) != LogName(bs[y], reps)
  }

  // Exactly when no two boots of an item write to one log: each side lists a
  // vendor once, and each vCPU count is listed once and one at most is not
  // positive.
  lemma LogNamesDifferExactly(p: Plan, cpus: seq<int>, reps: nat)
    requires DashFree(p) && Width(p) > 0 && cpus != [] && reps >= 1
    ensures LogsApart(Runs(p, cpus, reps), reps) <==> VendorsOnce(p) && Counts(cpus)
  {
    hide Runs;
    hide Cell;
    hide LogName;
    hide Width;
    hide DashFree;
    hide VendorsOnce;
    hide Place;
    hide Unequal;
    var bs := Runs(p, cpus, reps);
    if VendorsOnce(p) && Counts(cpus) {
      forall x, y | 0 <= x < y < |bs| ensures LogName(bs[x], reps) != LogName(bs[y], reps) {
        if LogName(bs[x], reps) == LogName(bs[y], reps) { LogNamesDiffer(p, cpus, reps, x, y); }
      }
    } else if !VendorsOnce(p) {
      var k, l := ListedTwice(p, cpus[0], 1);
      OneLog(p, cpus, reps, 0, k, 0, l);
    } else {
      var i, j := CountedTwice(cpus);
      SameCounts(p, cpus[i], cpus[j], 1, reps);
      OneLog(p, cpus, reps, i, 0, j, 0);
    }
  }

  lemma CountedTwice(cpus: seq<int>) returns (i: nat, j: nat)
    requires !Counts(cpus)
    ensures i < j < |cpus| && (cpus[i] == cpus[j] || (cpus[i] <= 0 && cpus[j] <= 0))
  {
    if !Unequal(cpus) {
      i, j := Twice(cpus);
    } else {
      i, j :| 0 <= i < j < |cpus| && cpus[i] <= 0 && cpus[j] <= 0;
    }
  }

  // Two boots of the first repetition that write to one log.
  lemma OneLog(p: Plan, cpus: seq<int>, reps: nat, i: nat, k: nat, j: nat, l: nat)
    requires reps >= 1 && i < |cpus| && j < |cpus| && k < Width(p) && l < Width(p) && (i != j || k != l)
    requires |Cell(p, cpus[i], 1)| == |Cell(p, cpus[j], 1)| == Width(p)
    requires LogName(Cell(p, cpus[i], 1)[k], reps) == LogName(Cell(p, cpus[j], 1)[l], reps)
    ensures !LogsApart(Runs(p, cpus, reps), reps)
  {
    hide Runs;
    hide Cell;
    hide LogName;
    hide Width;
    hide Place;
    BootAt(p, cpus, reps, 1, i, k);
    BootAt(p, cpus, reps, 1, j, l);
    PlacesDiffer(p, cpus, 1, i, k, 1, j, l);
    var x, y := Place(p, cpus, 1, i, k), Place(p, cpus, 1, j, l);
    var bs := Runs(p, cpus, reps);
    assert LogName(bs[x], reps) == LogName(bs[y], reps);
    assert x < y || y < x;
  }

  // A dash in a vendor's name can do the same: it is taken for a vCPU count.
  lemma DashClashes(b: Boot, d: Boot)
    requires b.name == d.name && b.vendor == "pvm" && b.cpus == 2 && d.vendor == "pvm-cpu2" && d.cpus == 0
    ensures LogName(b, 1) == LogName(d, 1)
  {
    assert Dec(2) == "2";
    assert "pvm" + ("-cpu" + "2") == "pvm-cpu2";
    assert b.name + "-" + "pvm" + ("-cpu" + "2") == b.name + "-" + ("pvm" + ("-cpu" + "2"));
  }
}
