// The evaluator of #define bodies (para_test.go:199-299): the recursive
// descent over tokens as functions, and the parser object that runs them.
module MacroEval {
  import opened Options
  import opened MacroText
  import opened Text

  type Defs = map<string, string>

  const MAX_DEPTH: nat := 16

  // What is left of the recursion budget.
  function Remaining(depth: nat): nat {
    if depth > MAX_DEPTH then 0 else MAX_DEPTH + 1 - depth
  }

  function Pow2(n: nat): nat {
    if n == 0 then 1 else 2 * Pow2(n - 1)
  }

  // The low 64 bits.
  function Wrap(n: int): Word64 { n % WORD }

  // Go's v << r on uint64.
  function ShiftLeft(v: Word64, r: Word64): Word64 {
    if r >= 64 then 0 else Wrap(v * Pow2(r))
  }

  function Plus(a: Word64, b: Word64): Word64 { Wrap(a + b) }

  function Minus(a: Word64, b: Word64): Word64 { Wrap(a - b) }

  function Peek(toks: seq<string>, pos: nat): string {
    if pos < |toks| then toks[pos] else ""
  }

  predicate BitMacro(t: string) { t == "_BITUL" || t == "_BITULL" }

  // A token that stands for another macro.
  predicate MacroName(t: string) {
    t != "" && !BitMacro(t) && !Digit(t[0]) && (t[0] == '_' || t[0] >= 'A')
  }

  function Eval(name: string, defs: Defs, depth: nat): Option<Word64>
    decreases Remaining(depth), 1, 0, 0
  {
    if depth > MAX_DEPTH || name !in defs then None else
    match Tokens(defs[name])
    case None => None
    case Some(toks) =>
      match Expr(toks, 0, defs, depth)
      case None => None
      case Some((v, pos)) => if pos == |toks| then Some(v) else None
  }

  function Expr(toks: seq<string>, pos: nat, defs: Defs, depth: nat): (r: Option<(Word64, nat)>)
    requires pos <= |toks| && depth <= MAX_DEPTH
    ensures r.Some? ==> pos < r.value.1 <= |toks|
    decreases Remaining(depth), 0, |toks| - pos, 4
  {
    match Sum(toks, pos, defs, depth)
    case None => None
    case Some((v, p)) => ExprRest(toks, p, v, defs, depth)
  }

  function ExprRest(toks: seq<string>, pos: nat, v: Word64, defs: Defs, depth: nat): (r: Option<(Word64, nat)>)
    requires pos <= |toks| && depth <= MAX_DEPTH
    ensures r.Some? ==> pos <= r.value.1 <= |toks|
    decreases Remaining(depth), 0, |toks| - pos, 3
  {
    if Peek(toks, pos) != "<<" then Some((v, pos)) else
    match Sum(toks, pos + 1, defs, depth)
    case None => None
    case Some((r, p)) => ExprRest(toks, p, ShiftLeft(v, r), defs, depth)
  }

  function Sum(toks: seq<string>, pos: nat, defs: Defs, depth: nat): (r: Option<(Word64, nat)>)
    requires pos <= |toks| && depth <= MAX_DEPTH
    ensures r.Some? ==> pos < r.value.1 <= |toks|
    decreases Remaining(depth), 0, |toks| - pos, 2
  {
    match Primary(toks, pos, defs, depth)
    case None => None
    case Some((v, p)) => SumRest(toks, p, v, defs, depth)
  }

  function SumRest(toks: seq<string>, pos: nat, v: Word64, defs: Defs, depth: nat): (r: Option<(Word64, nat)>)
    requires pos <= |toks| && depth <= MAX_DEPTH
    ensures r.Some? ==> pos <= r.value.1 <= |toks|
    decreases Remaining(depth), 0, |toks| - pos, 1
  {
    var op := Peek(toks, pos);
    if op != "+" && op != "-" then Some((v, pos)) else
    match Primary(toks, pos + 1, defs, depth)
    case None => None
    case Some((r, p)) => SumRest(toks, p, if op == "+" then Plus(v, r) else Minus(v, r), defs, depth)
  }

  function Primary(toks: seq<string>, pos: nat, defs: Defs, depth: nat): (r: Option<(Word64, nat)>)
    requires pos <= |toks| && depth <= MAX_DEPTH
    ensures r.Some? ==> pos < r.value.1 <= |toks|
    decreases Remaining(depth), 0, |toks| - pos, 0
  {
    var t := Peek(toks, pos);
    if t == "(" then
      Closed(toks, Expr(toks, pos + 1, defs, depth))
    else if BitMacro(t) then
      if Peek(toks, pos + 1) != "(" then None else
      match Closed(toks, Expr(toks, pos + 2, defs, depth))
      case None => None
      case Some((v, p)) => Some((ShiftLeft(1, v), p))
    else if t != "" && Digit(t[0]) then
      match ParseUint(t)
      case None => None
      case Some(v) => Some((v, pos + 1))
    else if MacroName(t) then
      match Eval(t, defs, depth + 1)
      case None => None
      case Some(v) => Some((v, pos + 1))
    else None
  }

  // The closing parenthesis behind an expression.
  function Closed(toks: seq<string>, inner: Option<(Word64, nat)>): (r: Option<(Word64, nat)>)
    ensures r.Some? ==> inner.Some? && r.value.0 == inner.value.0 && r.value.1 == inner.value.1 + 1 <= |toks|
  {
    match inner
    case None => None
    case Some((v, p)) => if Peek(toks, p) == ")" then Some((v, p + 1)) else None
  }

  // --- the parser object --------------------------------------------------

  class ExprParser {
    const toks: seq<string>
    const defs: Defs
    const depth: nat
    var pos: nat

    constructor (toks: seq<string>, defs: Defs, depth: nat)
      ensures this.toks == toks && this.defs == defs && this.depth == depth && pos == 0
    {
      this.toks, this.defs, this.depth, pos := toks, defs, depth, 0;
    }

    // What a method that parsed from an old position leaves behind.
    predicate Did(r: Option<Word64>, spec: Option<(Word64, nat)>)
      reads this
    {
      match spec
      case None => r == None
      case Some((v, p)) => r == Some(v) && pos == p
    }

    method Next() returns (t: string)
      modifies this
      ensures t == Peek(toks, old(pos)) && pos == old(pos) + 1
    {
      t := Peek(toks, pos);
      pos := pos + 1;
    }

    method ParseExpr() returns (r: Option<Word64>)
      requires pos <= |toks| && depth <= MAX_DEPTH
      modifies this
      ensures Did(r, Expr(toks, old(pos), defs, depth))
      decreases Remaining(depth), 0, |toks| - pos, 4
    {
      hide Wrap;
      hide ShiftLeft;
      hide Eval;
      ghost var spec := Expr(toks, pos, defs, depth);
      r := ParseSum();
      while r.Some? && Peek(toks, pos) == "<<"
        invariant r == None ==> spec == None
        invariant r.Some? ==> old(pos) < pos <= |toks| && spec == ExprRest(toks, pos, r.value, defs, depth)
        decreases if r.Some? then |toks| - pos + 1 else 0
      {
        var _ := Next();
        var right := ParseSum();
        r := if right.Some? then Some(ShiftLeft(r.value, right.value)) else None;
      }
    }

    method ParseSum() returns (r: Option<Word64>)
      requires pos <= |toks| && depth <= MAX_DEPTH
      modifies this
      ensures Did(r, Sum(toks, old(pos), defs, depth))
      decreases Remaining(depth), 0, |toks| - pos, 2
    {
      hide Wrap;
      hide ShiftLeft;
      hide Eval;
      ghost var spec := Sum(toks, pos, defs, depth);
      r := ParsePrimary();
      while r.Some? && (Peek(toks, pos) == "+" || Peek(toks, pos) == "-")
        invariant r == None ==> spec == None
        invariant r.Some? ==> old(pos) < pos <= |toks| && spec == SumRest(toks, pos, r.value, defs, depth)
        decreases if r.Some? then |toks| - pos + 1 else 0
      {
        var op := Next();
        var right := ParsePrimary();
        if right == None {
          r := None;
        } else if op == "+" {
          r := Some(Plus(r.value, right.value));
        } else {
          r := Some(Minus(r.value, right.value));
        }
      }
    }

    method ParsePrimary() returns (r: Option<Word64>)
      requires pos <= |toks| && depth <= MAX_DEPTH
      modifies this
      ensures Did(r, Primary(toks, old(pos), defs, depth))
      decreases Remaining(depth), 0, |toks| - pos, 0
    {
      hide Wrap;
      hide ShiftLeft;
      hide Eval;
      var t := Next();
      if t == "(" {
        r := ParseExpr();
        if r.Some? {
          var close := Next();
          if close != ")" {
            r := None;
          }
        }
      } else if BitMacro(t) {
        var open := Next();
        if open != "(" {
          return None;
        }
        r := ParseExpr();
        if r.Some? {
          var close := Next();
          r := if close != ")" then None else Some(ShiftLeft(1, r.value));
        }
      } else if t != "" && Digit(t[0]) {
        r := ParseUint(t);
      } else if MacroName(t) {
        r := EvalDefine(t, defs, depth + 1);
      } else {
        r := None;
      }
    }
  }

  method EvalDefine(name: string, defs: Defs, depth: nat) returns (r: Option<Word64>)
    ensures r == Eval(name, defs, depth)
    decreases Remaining(depth), 1, 0, 0
  {
    hide Expr;
    hide TokenLength;
    if depth > MAX_DEPTH || name !in defs {
      return None;
    }
    var body := defs[name];
    var toks: seq<string>, rest := [], body;
    assert Tokens(body).Some? ==> toks + Tokens(body).value == Tokens(body).value;
    while !Blank(rest)
      invariant Tokens(body) == match Tokens(rest) case None => None case Some(ts) => Some(toks + ts)
      decreases |rest|
    {
      var t := rest[Run(rest, Space)..];
      var n := TokenLength(t);
      if n == 0 {
        return None;
      }
      Behind(toks, t[..n], t[n..]);
      toks := toks + [t[..n]];
      rest := t[n..];
    }
    assert toks + [] == toks;
    var p := new ExprParser(toks, defs, depth);
    r := p.ParseExpr();
    if r.Some? && p.pos != |p.toks| {
      r := None;
    }
  }

  lemma Behind(toks: seq<string>, t: string, rest: string)
    ensures Tokens(rest).Some? ==> toks + ([t] + Tokens(rest).value) == (toks + [t]) + Tokens(rest).value
  {
  }

  // --- what success says about the macros mentioned -----------------------

  // Every macro named in a stretch of tokens evaluates one level down.
  predicate AllEvaluate(toks: seq<string>, lo: nat, hi: nat, defs: Defs, depth: nat) {
    hi <= |toks| && forall i | lo <= i < hi :: MacroName(toks[i]) ==> Eval(toks[i], defs, depth + 1).Some?
  }

  lemma {:induction false} ExprUses(toks: seq<string>, pos: nat, defs: Defs, depth: nat)
    requires pos <= |toks| && depth <= MAX_DEPTH && Expr(toks, pos, defs, depth).Some?
    ensures AllEvaluate(toks, pos, Expr(toks, pos, defs, depth).value.1, defs, depth)
    decreases |toks| - pos, 4
  {
    hide Eval;
    SumUses(toks, pos, defs, depth);
    var (v, p) := Sum(toks, pos, defs, depth).value;
    ExprRestUses(toks, p, v, defs, depth);
  }

  lemma {:induction false} ExprRestUses(toks: seq<string>, pos: nat, v: Word64, defs: Defs, depth: nat)
    requires pos <= |toks| && depth <= MAX_DEPTH && ExprRest(toks, pos, v, defs, depth).Some?
    ensures AllEvaluate(toks, pos, ExprRest(toks, pos, v, defs, depth).value.1, defs, depth)
    decreases |toks| - pos, 3
  {
    hide Eval;
    if Peek(toks, pos) == "<<" {
      SumUses(toks, pos + 1, defs, depth);
      var (r, p) := Sum(toks, pos + 1, defs, depth).value;
      ExprRestUses(toks, p, ShiftLeft(v, r), defs, depth);
    }
  }

  lemma {:induction false} SumUses(toks: seq<string>, pos: nat, defs: Defs, depth: nat)
    requires pos <= |toks| && depth <= MAX_DEPTH && Sum(toks, pos, defs, depth).Some?
    ensures AllEvaluate(toks, pos, Sum(toks, pos, defs, depth).value.1, defs, depth)
    decreases |toks| - pos, 2
  {
    hide Eval;
    PrimaryUses(toks, pos, defs, depth);
    var (v, p) := Primary(toks, pos, defs, depth).value;
    SumRestUses(toks, p, v, defs, depth);
  }

  lemma {:induction false} SumRestUses(toks: seq<string>, pos: nat, v: Word64, defs: Defs, depth: nat)
    requires pos <= |toks| && depth <= MAX_DEPTH && SumRest(toks, pos, v, defs, depth).Some?
    ensures AllEvaluate(toks, pos, SumRest(toks, pos, v, defs, depth).value.1, defs, depth)
    decreases |toks| - pos, 1
  {
    hide Eval;
    var op := Peek(toks, pos);
    if op == "+" || op == "-" {
      PrimaryUses(toks, pos + 1, defs, depth);
      var (r, p) := Primary(toks, pos + 1, defs, depth).value;
      SumRestUses(toks, p, if op == "+" then Plus(v, r) else Minus(v, r), defs, depth);
    }
  }

  lemma {:induction false} PrimaryUses(toks: seq<string>, pos: nat, defs: Defs, depth: nat)
    requires pos <= |toks| && depth <= MAX_DEPTH && Primary(toks, pos, defs, depth).Some?
    ensures AllEvaluate(toks, pos, Primary(toks, pos, defs, depth).value.1, defs, depth)
    decreases |toks| - pos, 0
  {
    hide Eval;
    hide Expr;
    var t := Peek(toks, pos);
    if t == "(" {
      ExprUses(toks, pos + 1, defs, depth);
    } else if BitMacro(t) {
      ExprUses(toks, pos + 2, defs, depth);
    }
  }

  predicate Mentions(defs: Defs, a: string, b: string) {
    a in defs && Tokens(defs[a]).Some? && b in Tokens(defs[a]).value && MacroName(b)
  }

  lemma MentionedEvaluates(a: string, b: string, defs: Defs, depth: nat)
    requires Eval(a, defs, depth).Some? && Mentions(defs, a, b)
    ensures Eval(b, defs, depth + 1).Some?
  {
    hide Expr;
    ExprUses(Tokens(defs[a]).value, 0, defs, depth);
  }

  predicate Chain(defs: Defs, c: seq<string>) {
    forall i | 0 <= i < |c| - 1 :: Mentions(defs, c[i], c[i + 1])
  }

  // A macro that evaluates heads no chain of mentions longer than the depth
  // limit: a deeper one is refused, and every name on the way is defined.
  lemma {:induction false} ChainsAreShort(c: seq<string>, defs: Defs, depth: nat)
    requires c != [] && Chain(defs, c) && Eval(c[0], defs, depth).Some?
    ensures |c| + depth <= MAX_DEPTH + 1 && c[|c| - 1] in defs
    decreases |c|
  {
    hide Expr;
    if |c| > 1 {
      assert Mentions(defs, c[0], c[1]);
      MentionedEvaluates(c[0], c[1], defs, depth);
      assert Chain(defs, c[1..]) by {
        forall i | 0 <= i < |c[1..]| - 1 ensures Mentions(defs, c[1..][i], c[1..][i + 1]) {
          assert Mentions(defs, c[i + 1], c[i + 2]);
        }
      }
      ChainsAreShort(c[1..], defs, depth + 1);
    }
  }

  // Where n steps along a chain that returns to position j lead.
  function Around(c: seq<string>, j: nat, n: nat): (i: nat)
    requires j < |c| - 1
    ensures i < |c| - 1
  {
    if n == 0 then 0 else
    var i := Around(c, j, n - 1) + 1;
    if i == |c| - 1 then j else i
  }

  lemma {:induction false} AroundEvaluates(c: seq<string>, j: nat, n: nat, defs: Defs)
    requires j < |c| - 1 && Chain(defs, c) && c[|c| - 1] == c[j] && Eval(c[0], defs, 0).Some?
    ensures Eval(c[Around(c, j, n)], defs, n).Some?
  {
    hide Eval;
    if n > 0 {
      AroundEvaluates(c, j, n - 1, defs);
      var i := Around(c, j, n - 1);
      assert Mentions(defs, c[i], c[i + 1]);
      MentionedEvaluates(c[i], c[i + 1], defs, n - 1);
    }
  }

  // A macro whose mentions lead into a cycle is an error.
  lemma CyclesFail(c: seq<string>, j: nat, defs: Defs)
    requires j < |c| - 1 && Chain(defs, c) && c[|c| - 1] == c[j]
    ensures Eval(c[0], defs, 0) == None
  {
    if Eval(c[0], defs, 0).Some? {
      AroundEvaluates(c, j, MAX_DEPTH + 1, defs);
    }
  }
}
