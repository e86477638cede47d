// Expression trees, what they mean, and that the evaluator computes it from
// every way of writing them: + and - bind tighter than <<, and all three
// group to the left.
module MacroTrees {
  import opened Options
  import opened MacroText
  import opened Text
  import opened MacroEval

  datatype Tree =
    | Num(v: Word64, form: Form)
    | Ref(name: string)
    | Add(l: Tree, r: Tree)
    | Sub(l: Tree, r: Tree)
    | Shl(l: Tree, r: Tree)
    | Bit(long: bool, e: Tree)
    | Paren(e: Tree)

  // How tightly a tree's own operator binds: 0 for <<, 1 for + and -, 2 for
  // what needs no parentheses anywhere.
  function Level(t: Tree): (n: nat)
    ensures n <= 2
  {
    match t
    case Shl(_, _) => 0
    case Add(_, _) => 1
    case Sub(_, _) => 1
    case _ => 2
  }

  // A tree in C, with parentheses only where C needs them (and where the tree
  // asks for them).
  function Printed(t: Tree, level: nat): seq<string>
    decreases t, 1
  {
    if Level(t) < level then ["("] + Bare(t) + [")"] else Bare(t)
  }

  function Bare(t: Tree): seq<string>
    decreases t, 0
  {
    match t
    case Num(v, form) => [NumberText(v, form)]
    case Ref(name) => [name]
    case Add(l, r) => Printed(l, 1) + ["+"] + Printed(r, 2)
    case Sub(l, r) => Printed(l, 1) + ["-"] + Printed(r, 2)
    case Shl(l, r) => Printed(l, 0) + ["<<"] + Printed(r, 1)
    case Bit(long, e) => [if long then "_BITULL" else "_BITUL"] + (["("] + Printed(e, 0) + [")"])
    case Paren(e) => ["("] + Printed(e, 0) + [")"]
  }

  // Every name a tree mentions is defined, with a rank below r.
  predicate Below(t: Tree, trees: map<string, Tree>, rank: map<string, nat>, r: nat) {
    match t
    case Num(_, _) => true
    case Ref(n) => Name(n) && MacroName(n) && n in trees && n in rank && rank[n] < r
    case Add(a, b) => Below(a, trees, rank, r) && Below(b, trees, rank, r)
    case Sub(a, b) => Below(a, trees, rank, r) && Below(b, trees, rank, r)
    case Shl(a, b) => Below(a, trees, rank, r) && Below(b, trees, rank, r)
    case Bit(_, e) => Below(e, trees, rank, r)
    case Paren(e) => Below(e, trees, rank, r)
  }

  // Acyclic definitions: ranks fall along every mention.
  predicate Ranked(trees: map<string, Tree>, rank: map<string, nat>) {
    forall n <- trees :: n in rank && Below(trees[n], trees, rank, rank[n])
  }

  // What a tree means, modulo 2^64.
  function Value(t: Tree, trees: map<string, Tree>, rank: map<string, nat>, r: nat): Word64
    requires Ranked(trees, rank) && Below(t, trees, rank, r)
    decreases r, t
  {
    match t
    case Num(v, _) => v
    case Ref(n) => Value(trees[n], trees, rank, rank[n])
    case Add(a, b) => Wrap(Value(a, trees, rank, r) + Value(b, trees, rank, r))
    case Sub(a, b) => Wrap(Value(a, trees, rank, r) - Value(b, trees, rank, r))
    case Shl(a, b) => Wrap(Value(a, trees, rank, r) * Pow2(Value(b, trees, rank, r)))
    case Bit(_, e) => Wrap(Pow2(Value(e, trees, rank, r)))
    case Paren(e) => Value(e, trees, rank, r)
  }

  // Shifting by 64 or more loses every bit: the two-to-the-r of the meaning
  // and the shift of the code agree on every amount.
  lemma ShiftIsProduct(v: Word64, r: Word64)
    ensures ShiftLeft(v, r) == Wrap(v * Pow2(r))
  {
    hide Pow2;
    if r >= 64 {
      Pow2Splits(64, r - 64);
      Pow2Is64();
      var k := Pow2(r - 64);
      assert v * (WORD * k) == (v * k) * WORD;
      MultipleVanishes(v * k);
    }
  }

  lemma Pow2Is64()
    ensures Pow2(64) == WORD
  {
    Pow2Splits(32, 32);
    Pow2Splits(16, 16);
    Pow2Splits(8, 8);
    assert Pow2(8) == 0x100;
  }

  lemma MultipleVanishes(k: nat)
    ensures (k * WORD) % WORD == 0
  {
  }

  lemma {:induction false} Pow2Splits(a: nat, b: nat)
    ensures Pow2(a + b) == Pow2(a) * Pow2(b)
  {
    if a > 0 {
      Pow2Splits(a - 1, b);
    }
  }

  // --- the words of a printed tree ----------------------------------------

  lemma {:induction false} PrintedTokens(t: Tree, level: nat, trees: map<string, Tree>, rank: map<string, nat>, r: nat)
    requires Below(t, trees, rank, r)
    ensures forall w <- Printed(t, level) :: Token(w)
    decreases t
  {
    match t
    case Num(v, form) => NumberReads(v, form);
    case Ref(_) =>
    case Add(a, b) => PrintedTokens(a, 1, trees, rank, r); PrintedTokens(b, 2, trees, rank, r);
    case Sub(a, b) => PrintedTokens(a, 1, trees, rank, r); PrintedTokens(b, 2, trees, rank, r);
    case Shl(a, b) => PrintedTokens(a, 0, trees, rank, r); PrintedTokens(b, 1, trees, rank, r);
    case Bit(_, e) => PrintedTokens(e, 0, trees, rank, r);
    case Paren(e) => PrintedTokens(e, 0, trees, rank, r);
  }

  // --- parsing a printed tree ---------------------------------------------

  predicate At(toks: seq<string>, pos: nat, p: seq<string>) {
    pos + |p| <= |toks| && toks[pos..pos + |p|] == p
  }

  lemma AtSplit(toks: seq<string>, pos: nat, a: seq<string>, b: seq<string>)
    requires At(toks, pos, a + b)
    ensures At(toks, pos, a) && At(toks, pos + |a|, b)
  {
    var s := toks[pos..pos + |a + b|];
    assert toks[pos..pos + |a|] == s[..|a|] == a;
    assert toks[pos + |a|..pos + |a| + |b|] == s[|a|..] == b;
  }

  // One token between two stretches.
  lemma AtThree(toks: seq<string>, pos: nat, a: seq<string>, op: string, b: seq<string>)
    requires At(toks, pos, a + [op] + b)
    ensures At(toks, pos, a) && At(toks, pos + |a| + 1, b) && Peek(toks, pos + |a|) == op
  {
    AtSplit(toks, pos, a + [op], b);
    AtSplit(toks, pos, a, [op]);
    assert toks[pos + |a|] == toks[pos + |a|..pos + |a| + 1][0];
  }

  lemma AtParens(toks: seq<string>, pos: nat, a: seq<string>)
    requires At(toks, pos, ["("] + a + [")"])
    ensures Peek(toks, pos) == "(" && At(toks, pos + 1, a) && Peek(toks, pos + 1 + |a|) == ")"
  {
    AtSplit(toks, pos, ["("] + a, [")"]);
    AtSplit(toks, pos, ["("], a);
    assert toks[pos] == toks[pos..pos + 1][0];
    assert toks[pos + 1 + |a|] == toks[pos + 1 + |a|..pos + 2 + |a|][0];
  }

  // The definitions as text: each body reads as the tokens of its tree.
  predicate Defines(defs: Defs, trees: map<string, Tree>) {
    forall n <- trees :: n in defs && Tokens(defs[n]) == Some(Printed(trees[n], 0))
  }

  // Everything the parsing lemmas share.
  predicate Setting(t: Tree, trees: map<string, Tree>, rank: map<string, nat>, r: nat, defs: Defs, depth: nat) {
    Ranked(trees, rank) && Below(t, trees, rank, r) && Defines(defs, trees) && r + depth <= MAX_DEPTH
  }

  predicate Binary(t: Tree) { t.Add? || t.Sub? || t.Shl? }

  lemma Operands(t: Tree, trees: map<string, Tree>, rank: map<string, nat>, r: nat, defs: Defs, depth: nat)
    requires Setting(t, trees, rank, r, defs, depth) && Binary(t)
    ensures Setting(t.l, trees, rank, r, defs, depth) && Setting(t.r, trees, rank, r, defs, depth)
    ensures var a, b := Value(t.l, trees, rank, r), Value(t.r, trees, rank, r);
      Value(t, trees, rank, r) == if t.Add? then Plus(a, b) else if t.Sub? then Minus(a, b) else ShiftLeft(a, b)
  {
    hide Ranked;
    hide Defines;
    hide ShiftLeft;
    hide Wrap;
    hide Pow2;
    ShiftIsProduct(Value(t.l, trees, rank, r), Value(t.r, trees, rank, r));
  }

  lemma Inside(t: Tree, trees: map<string, Tree>, rank: map<string, nat>, r: nat, defs: Defs, depth: nat)
    requires Setting(t, trees, rank, r, defs, depth) && (t.Bit? || t.Paren?)
    ensures Setting(t.e, trees, rank, r, defs, depth)
    ensures var v := Value(t.e, trees, rank, r); Value(t, trees, rank, r) == if t.Bit? then ShiftLeft(1, v) else v
  {
    hide Ranked;
    hide Defines;
    hide ShiftLeft;
    hide Wrap;
    hide Pow2;
    ShiftIsProduct(1, Value(t.e, trees, rank, r));
  }

  lemma Named(t: Tree, trees: map<string, Tree>, rank: map<string, nat>, r: nat, defs: Defs, depth: nat)
    requires Setting(t, trees, rank, r, defs, depth) && t.Ref?
    ensures MacroName(t.name) && t.name in trees && t.name in rank && rank[t.name] < r
    ensures Below(trees[t.name], trees, rank, rank[t.name])
    ensures Value(t, trees, rank, r) == Value(trees[t.name], trees, rank, rank[t.name])
  {
    hide Defines;
  }

  lemma PrintedParts(t: Tree)
    ensures t.Add? ==> Printed(t, 1) == Printed(t.l, 1) + ["+"] + Printed(t.r, 2)
    ensures t.Sub? ==> Printed(t, 1) == Printed(t.l, 1) + ["-"] + Printed(t.r, 2)
    ensures t.Shl? ==> Printed(t, 0) == Printed(t.l, 0) + ["<<"] + Printed(t.r, 1)
    ensures t.Bit? ==> Printed(t, 2) == [if t.long then "_BITULL" else "_BITUL"] + (["("] + Printed(t.e, 0) + [")"])
    ensures t.Paren? ==> Printed(t, 2) == ["("] + Printed(t.e, 0) + [")"]
    ensures t.Ref? ==> Printed(t, 2) == [t.name]
    ensures Level(t) != 1 ==> Printed(t, 1) == Printed(t, 2)
    ensures !t.Shl? ==> Printed(t, 0) == Printed(t, 1)
    ensures Level(t) < 2 ==> Printed(t, 2) == ["("] + Printed(t, 0) + [")"]
  {
  }

  // One turn of each loop, and its end.
  lemma SumStarts(toks: seq<string>, pos: nat, v: Word64, p: nat, defs: Defs, depth: nat)
    requires pos <= |toks| && depth <= MAX_DEPTH && Primary(toks, pos, defs, depth) == Some((v, p))
    ensures Sum(toks, pos, defs, depth) == SumRest(toks, p, v, defs, depth)
  {
    hide Primary;
  }

  lemma SumTurns(toks: seq<string>, pos: nat, v: Word64, w: Word64, p: nat, defs: Defs, depth: nat)
    requires pos < |toks| && depth <= MAX_DEPTH && (toks[pos] == "+" || toks[pos] == "-")
    requires Primary(toks, pos + 1, defs, depth) == Some((w, p))
    ensures SumRest(toks, pos, v, defs, depth) ==
      SumRest(toks, p, if toks[pos] == "+" then Plus(v, w) else Minus(v, w), defs, depth)
  {
    hide Primary;
    hide Wrap;
  }

  lemma ExprStarts(toks: seq<string>, pos: nat, v: Word64, p: nat, defs: Defs, depth: nat)
    requires pos <= |toks| && p <= |toks| && depth <= MAX_DEPTH
      && Sum(toks, pos, defs, depth) == SumRest(toks, p, v, defs, depth)
    requires Peek(toks, p) != "+" && Peek(toks, p) != "-"
    ensures Sum(toks, pos, defs, depth) == Some((v, p))
      && Expr(toks, pos, defs, depth) == ExprRest(toks, p, v, defs, depth)
  {
    hide Sum;
    hide Primary;
  }

  lemma ExprTurns(toks: seq<string>, pos: nat, v: Word64, w: Word64, p: nat, defs: Defs, depth: nat)
    requires pos < |toks| && depth <= MAX_DEPTH && toks[pos] == "<<"
    requires Sum(toks, pos + 1, defs, depth) == Some((w, p))
    ensures ExprRest(toks, pos, v, defs, depth) == ExprRest(toks, p, ShiftLeft(v, w), defs, depth)
  {
    hide Sum;
    hide ShiftLeft;
  }

  function Order(parser: nat, level: nat): nat
    requires parser <= 2 && level <= 2
  {
    if parser == level then 1 else if parser == (level + 2) % 3 then 2 else 3
  }

  lemma {:induction false} PrimaryOf(toks: seq<string>, pos: nat, t: Tree, trees: map<string, Tree>,
      rank: map<string, nat>, r: nat, defs: Defs, depth: nat)
    requires Setting(t, trees, rank, r, defs, depth) && At(toks, pos, Printed(t, 2))
    ensures Primary(toks, pos, defs, depth) == Some((Value(t, trees, rank, r), pos + |Printed(t, 2)|))
    decreases r, t, Order(2, Level(t)), 1
  {
    hide Primary;
    hide Printed;
    hide Value;
    hide Below;
    hide Ranked;
    hide Defines;
    hide At;
    hide Expr;
    hide Eval;
    hide ShiftLeft;
    PrintedParts(t);
    if Level(t) < 2 {
      InParens(toks, pos, t, trees, rank, r, defs, depth);
    } else if t.Num? {
      NumberIsPrimary(toks, pos, t, trees, rank, r, defs, depth);
    } else if t.Ref? {
      Named(t, trees, rank, r, defs, depth);
      DefineOf(t.name, trees, rank, defs, depth + 1);
      NameIsPrimary(toks, pos, t.name, defs, depth);
    } else if t.Paren? {
      ParenOf(toks, pos, t, trees, rank, r, defs, depth);
    } else {
      BitOf(toks, pos, t, trees, rank, r, defs, depth);
    }
  }

  lemma {:induction false} ParenOf(toks: seq<string>, pos: nat, t: Tree, trees: map<string, Tree>,
      rank: map<string, nat>, r: nat, defs: Defs, depth: nat)
    requires Setting(t, trees, rank, r, defs, depth) && t.Paren? && At(toks, pos, Printed(t, 2))
    ensures Primary(toks, pos, defs, depth) == Some((Value(t, trees, rank, r), pos + |Printed(t, 2)|))
    decreases r, t, 1, 0
  {
    hide Primary;
    hide Expr;
    hide ExprRest;
    hide Printed;
    hide Value;
    hide Below;
    hide Ranked;
    hide Defines;
    hide ShiftLeft;
    hide At;
    PrintedParts(t);
    Inside(t, trees, rank, r, defs, depth);
    AtParens(toks, pos, Printed(t.e, 0));
    ExprOf(toks, pos + 1, t.e, trees, rank, r, defs, depth);
    ParensArePrimary(toks, pos, pos + 1 + |Printed(t.e, 0)|, Value(t.e, trees, rank, r), defs, depth);
  }

  lemma {:induction false} BitOf(toks: seq<string>, pos: nat, t: Tree, trees: map<string, Tree>,
      rank: map<string, nat>, r: nat, defs: Defs, depth: nat)
    requires Setting(t, trees, rank, r, defs, depth) && t.Bit? && At(toks, pos, Printed(t, 2))
    ensures Primary(toks, pos, defs, depth) == Some((Value(t, trees, rank, r), pos + |Printed(t, 2)|))
    decreases r, t, 1, 0
  {
    hide Primary;
    hide Expr;
    hide ExprRest;
    hide Printed;
    hide Value;
    hide Below;
    hide Ranked;
    hide Defines;
    hide ShiftLeft;
    hide At;
    PrintedParts(t);
    Inside(t, trees, rank, r, defs, depth);
    AtKeyword(toks, pos, if t.long then "_BITULL" else "_BITUL", ["("] + Printed(t.e, 0) + [")"]);
    AtParens(toks, pos + 1, Printed(t.e, 0));
    ExprOf(toks, pos + 2, t.e, trees, rank, r, defs, depth);
    BitIsPrimary(toks, pos, pos + 2 + |Printed(t.e, 0)|, Value(t.e, trees, rank, r), defs, depth);
  }

  lemma AtKeyword(toks: seq<string>, pos: nat, kw: string, inner: seq<string>)
    requires At(toks, pos, [kw] + inner)
    ensures Peek(toks, pos) == kw && At(toks, pos + 1, inner)
  {
    AtSplit(toks, pos, [kw], inner);
    assert toks[pos] == toks[pos..pos + 1][0];
  }

  lemma NumberIsPrimary(toks: seq<string>, pos: nat, t: Tree, trees: map<string, Tree>, rank: map<string, nat>, r: nat,
      defs: Defs, depth: nat)
    requires Setting(t, trees, rank, r, defs, depth) && t.Num? && At(toks, pos, Printed(t, 2))
    ensures Primary(toks, pos, defs, depth) == Some((Value(t, trees, rank, r), pos + |Printed(t, 2)|))
  {
    hide Expr;
    hide Eval;
    hide ParseUint;
    hide NumberText;
    hide Ranked;
    hide Defines;
    NumberReads(t.v, t.form);
    assert Printed(t, 2) == [NumberText(t.v, t.form)];
    assert toks[pos] == toks[pos..pos + 1][0];
  }

  lemma NameIsPrimary(toks: seq<string>, pos: nat, n: string, defs: Defs, depth: nat)
    requires MacroName(n) && depth <= MAX_DEPTH && At(toks, pos, [n]) && Eval(n, defs, depth + 1).Some?
    ensures Primary(toks, pos, defs, depth) == Some((Eval(n, defs, depth + 1).value, pos + 1))
  {
    hide Expr;
    hide Eval;
    assert toks[pos] == toks[pos..pos + 1][0];
  }

  lemma ParensArePrimary(toks: seq<string>, pos: nat, p: nat, v: Word64, defs: Defs, depth: nat)
    requires pos < p < |toks| && depth <= MAX_DEPTH && Peek(toks, pos) == "(" && Peek(toks, p) == ")"
    requires Expr(toks, pos + 1, defs, depth) == ExprRest(toks, p, v, defs, depth)
    ensures Primary(toks, pos, defs, depth) == Some((v, p + 1))
  {
    hide Expr;
    hide Eval;
  }

  lemma BitIsPrimary(toks: seq<string>, pos: nat, p: nat, v: Word64, defs: Defs, depth: nat)
    requires pos + 1 < p < |toks| && depth <= MAX_DEPTH
    requires BitMacro(Peek(toks, pos)) && Peek(toks, pos + 1) == "(" && Peek(toks, p) == ")"
    requires Expr(toks, pos + 2, defs, depth) == ExprRest(toks, p, v, defs, depth)
    ensures Primary(toks, pos, defs, depth) == Some((ShiftLeft(1, v), p + 1))
  {
    hide Expr;
    hide Eval;
    hide ShiftLeft;
  }

  lemma {:induction false} InParens(toks: seq<string>, pos: nat, t: Tree, trees: map<string, Tree>,
      rank: map<string, nat>, r: nat, defs: Defs, depth: nat)
    requires Setting(t, trees, rank, r, defs, depth) && Level(t) < 2 && At(toks, pos, Printed(t, 2))
    ensures Primary(toks, pos, defs, depth) == Some((Value(t, trees, rank, r), pos + |Printed(t, 2)|))
    decreases r, t, Order(2, Level(t)), 0
  {
    hide Bare;
    hide Value;
    hide Below;
    hide Ranked;
    hide Defines;
    hide At;
    hide Expr;
    hide Primary;
    PrintedParts(t);
    AtParens(toks, pos, Bare(t));
    ExprOf(toks, pos + 1, t, trees, rank, r, defs, depth);
    ParensArePrimary(toks, pos, pos + 1 + |Bare(t)|, Value(t, trees, rank, r), defs, depth);
  }

  lemma {:induction false} SumOf(toks: seq<string>, pos: nat, t: Tree, trees: map<string, Tree>,
      rank: map<string, nat>, r: nat, defs: Defs, depth: nat)
    requires Setting(t, trees, rank, r, defs, depth) && At(toks, pos, Printed(t, 1))
    ensures Sum(toks, pos, defs, depth) == SumRest(toks, pos + |Printed(t, 1)|, Value(t, trees, rank, r), defs, depth)
    decreases r, t, Order(1, Level(t)), 1
  {
    hide Sum;
    hide SumRest;
    hide Primary;
    hide Printed;
    hide Wrap;
    hide Value;
    hide Below;
    hide Ranked;
    hide Defines;
    hide At;
    PrintedParts(t);
    if Level(t) == 1 {
      var op := if t.Add? then "+" else "-";
      var p := pos + |Printed(t.l, 1)|;
      AtThree(toks, pos, Printed(t.l, 1), op, Printed(t.r, 2));
      Operands(t, trees, rank, r, defs, depth);
      SumOf(toks, pos, t.l, trees, rank, r, defs, depth);
      PrimaryOf(toks, p + 1, t.r, trees, rank, r, defs, depth);
      SumTurns(toks, p, Value(t.l, trees, rank, r), Value(t.r, trees, rank, r), p + 1 + |Printed(t.r, 2)|, defs, depth);
    } else {
      PrimaryOf(toks, pos, t, trees, rank, r, defs, depth);
      SumStarts(toks, pos, Value(t, trees, rank, r), pos + |Printed(t, 1)|, defs, depth);
    }
  }

  lemma {:induction false} ExprOf(toks: seq<string>, pos: nat, t: Tree, trees: map<string, Tree>,
      rank: map<string, nat>, r: nat, defs: Defs, depth: nat)
    requires Setting(t, trees, rank, r, defs, depth) && At(toks, pos, Printed(t, 0))
    requires var next := Peek(toks, pos + |Printed(t, 0)|); next != "+" && next != "-"
    ensures Expr(toks, pos, defs, depth) == ExprRest(toks, pos + |Printed(t, 0)|, Value(t, trees, rank, r), defs, depth)
    decreases r, t, Order(0, Level(t)), 1
  {
    hide Sum;
    hide SumRest;
    hide Expr;
    hide ExprRest;
    hide Printed;
    hide ShiftLeft;
    hide Value;
    hide Below;
    hide Ranked;
    hide Defines;
    PrintedParts(t);
    if t.Shl? {
      var p := pos + |Printed(t.l, 0)|;
      AtThree(toks, pos, Printed(t.l, 0), "<<", Printed(t.r, 1));
      Operands(t, trees, rank, r, defs, depth);
      ExprOf(toks, pos, t.l, trees, rank, r, defs, depth);
      SumOf(toks, p + 1, t.r, trees, rank, r, defs, depth);
      ExprStarts(toks, p + 1, Value(t.r, trees, rank, r), p + 1 + |Printed(t.r, 1)|, defs, depth);
      ExprTurns(toks, p, Value(t.l, trees, rank, r), Value(t.r, trees, rank, r), p + 1 + |Printed(t.r, 1)|, defs,
        depth);
    } else {
      SumOf(toks, pos, t, trees, rank, r, defs, depth);
      ExprStarts(toks, pos, Value(t, trees, rank, r), pos + |Printed(t, 0)|, defs, depth);
    }
  }

  // A macro of rank r evaluates, at every depth that leaves room for r more
  // levels, to what its tree means.
  lemma {:induction false} DefineOf(n: string, trees: map<string, Tree>, rank: map<string, nat>, defs: Defs, depth: nat)
    requires n in trees && Ranked(trees, rank) && Defines(defs, trees) && rank[n] + depth <= MAX_DEPTH
    ensures Eval(n, defs, depth) == Some(Value(trees[n], trees, rank, rank[n]))
    decreases rank[n], trees[n], 4
  {
    hide Expr;
    var toks := Printed(trees[n], 0);
    assert toks[0..|toks|] == toks;
    ExprOf(toks, 0, trees[n], trees, rank, rank[n], defs, depth);
  }

  // Trees written out with any blanks evaluate to what they mean.
  lemma WrittenEvaluates(n: string, trees: map<string, Tree>, rank: map<string, nat>, defs: Defs,
      gaps: map<string, seq<string>>)
    requires n in trees && Ranked(trees, rank) && rank[n] <= MAX_DEPTH
    requires forall m <- trees ::
      && m in defs && m in gaps && Gaps(Printed(trees[m], 0), gaps[m])
      && defs[m] == Spread(Printed(trees[m], 0), gaps[m])
    ensures Eval(n, defs, 0) == Some(Value(trees[n], trees, rank, rank[n]))
  {
    hide Printed;
    hide Eval;
    hide Spread;
    forall m | m in trees ensures Tokens(defs[m]) == Some(Printed(trees[m], 0)) {
      PrintedTokens(trees[m], 0, trees, rank, rank[m]);
      SpreadReads(Printed(trees[m], 0), gaps[m]);
    }
    DefineOf(n, trees, rank, defs, 0);
  }
}
