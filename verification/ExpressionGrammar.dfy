/**
 The grammar of expressions as trees of tokens: what a tree is written as, what it means,
 and that the parser reads every tree of the grammar back from its tokens.
 */
module ExpressionGrammar {
  import opened Expressions

  datatype Tree =
    | Atom(t: Token)
    | Suffixed(l: Literal, n: string)   // a number and the name of its suffix
    | Paren(inner: Tree)
    | CallOf(f: Tree, args: seq<Tree>)
    | IndexOf(base: Tree, at: Tree)
    | MultiOf(base: Tree, indices: seq<Tree>)
    | SliceOf(base: Tree, from: Tree, to: Tree)
    | Prefix(op: Op, x: Tree)
    | Infix(op: Op, left: Tree, right: Tree)
    | Compared(first: Tree, ops: seq<Op>, operands: seq<Tree>)

  /** How tight a tree binds: 0 `или` up to 9 atoms and parentheses. */
  function LevelOf(t: Tree): nat {
    match t
    case Prefix(op, _) => if op.Not? then 2 else 6
    case Infix(op, _, _) => if op.Or? then 0 else if op.And? then 1 else if IsSign(op) then 4 else if op.Pow? then 7 else 5
    case Compared(_, _, _) => 3
    case Atom(_) => 9
    case Suffixed(_, _) => 9
    case Paren(_) => 9
    case _ => 8
  }

  /** Powers associate to the right and bind tighter than a sign before them. */
  function LeftLevel(op: Op): nat {
    if op.Or? then 0 else if op.And? then 1 else if IsSign(op) then 4 else if op.Pow? then 8 else 5
  }

  function RightLevel(op: Op): nat {
    if op.Or? then 1 else if op.And? then 2 else if IsSign(op) then 5 else 6
  }

  predicate IsInfix(op: Op) { op.Or? || op.And? || IsSign(op) || op.Mul? || op.FDiv? || op.Pow? }

  predicate IsAtom(t: Token) { t.Lit? || t.Name? || t.NewLine? || t.Return? }

  /** A name, in any number of parentheses; nothing else can be called. */
  predicate IsName(t: Tree) {
    match t
    case Atom(a) => a.Name? || a.Return?
    case Paren(x) => IsName(x)
    case _ => false
  }

  predicate AllComparisons(ops: seq<Op>) { forall i :: 0 <= i < |ops| ==> IsComparison(ops[i]) }

  /** The trees of the grammar. */
  predicate Good(s: Suffixes, t: Tree)
    decreases t, 0
  {
    match t
    case Atom(a) => IsAtom(a)
    case Suffixed(l, n) => IsNumber(l) && n in s
    case Paren(x) => Good(s, x)
    case CallOf(f, args) => IsName(f) && Good(s, f) && LevelOf(f) >= 8 && AllGood(s, 0, args)
    case IndexOf(b, i) => Good(s, b) && LevelOf(b) >= 8 && Good(s, i)
    case MultiOf(b, xs) => Good(s, b) && LevelOf(b) >= 8 && xs != [] && AllGood(s, 0, xs)
    case SliceOf(b, i, j) => Good(s, b) && LevelOf(b) >= 8 && Good(s, i) && Good(s, j)
    case Prefix(op, x) => (op.Not? || IsSign(op)) && Good(s, x) && LevelOf(x) >= LevelOf(t)
    case Infix(op, l, r) => IsInfix(op) && Good(s, l) && LevelOf(l) >= LeftLevel(op) && Good(s, r) && LevelOf(r) >= RightLevel(op)
    case Compared(x, ops, xs) => Good(s, x) && LevelOf(x) >= 4 && |ops| == |xs| >= 1 && AllComparisons(ops) && AllGood(s, 4, xs)
  }

  predicate AllGood(s: Suffixes, level: nat, ts: seq<Tree>)
    decreases ts
  {
    ts == [] || (Good(s, ts[0]) && LevelOf(ts[0]) >= level && AllGood(s, level, ts[1..]))
  }

  // ---------- what a tree is written as ----------

  function Yield(t: Tree): seq<Token>
    decreases t, 0
  {
    match t
    case Atom(a) => [a]
    case Suffixed(l, n) => [Lit(l), Name(n)]
    case Paren(x) => [Oper(LParen)] + Yield(x) + [Oper(RParen)]
    case CallOf(f, args) => Yield(f) + ([Oper(LParen)] + YieldList(args) + [Oper(RParen)])
    case IndexOf(b, i) => Yield(b) + ([Oper(LSqBr)] + Yield(i) + [Oper(RSqBr)])
    case MultiOf(b, xs) =>
      if xs == [] then [] else
      Yield(b) + ([Oper(LSqBr)] + Yield(xs[0]) + [Oper(Comma)] + YieldList(xs[1..]) + [Oper(RSqBr)])
    case SliceOf(b, i, j) => Yield(b) + ([Oper(LSqBr)] + Yield(i) + [Oper(Colon)] + Yield(j) + [Oper(RSqBr)])
    case Prefix(op, x) => [Oper(op)] + Yield(x)
    case Infix(op, l, r) => Yield(l) + [Oper(op)] + Yield(r)
    case Compared(x, ops, xs) => Yield(x) + YieldChain(ops, xs)
  }

  /** Each preceded by a comma. */
  function YieldMore(ts: seq<Tree>): seq<Token>
    decreases ts, 1
  {
    if ts == [] then [] else [Oper(Comma)] + Yield(ts[0]) + YieldMore(ts[1..])
  }

  function YieldList(ts: seq<Tree>): seq<Token>
    decreases ts, 2
  {
    if ts == [] then [] else Yield(ts[0]) + YieldMore(ts[1..])
  }

  /** Each preceded by its comparison. */
  function YieldChain(ops: seq<Op>, ts: seq<Tree>): seq<Token>
    decreases ts, 1
  {
    if ts == [] || ops == [] then [] else [Oper(ops[0])] + Yield(ts[0]) + YieldChain(ops[1..], ts[1..])
  }

  // ---------- what a tree means ----------

  function Meaning(s: Suffixes, t: Tree): Expr
    requires Good(s, t)
    decreases t, 0
  {
    match t
    case Atom(Lit(l)) => Const(l)
    case Atom(Name(n)) => Ident(n)
    case Atom(NewLine) => Const(StrLit("\n"))
    case Atom(_) => Ident(RESULT_NAME)
    case Suffixed(l, n) => Call(Ident(s[n]), [Const(l)])
    case Paren(x) => Meaning(s, x)
    case CallOf(f, args) => Call(Meaning(s, f), Meanings(s, 0, args))
    case IndexOf(b, i) => Index(Meaning(s, b), Meaning(s, i))
    case MultiOf(b, xs) => MultiIndex(Meaning(s, b), Meanings(s, 0, xs))
    case SliceOf(b, i, j) => Slice(Meaning(s, b), Meaning(s, i), Meaning(s, j))
    case Prefix(op, x) => Unary(op, Meaning(s, x))
    case Infix(op, l, r) => Binary(op, Meaning(s, l), Meaning(s, r))
    case Compared(x, ops, xs) => Conjunction([Meaning(s, x)] + Meanings(s, 4, xs), ops)
  }

  function Meanings(s: Suffixes, level: nat, ts: seq<Tree>): (es: seq<Expr>)
    requires AllGood(s, level, ts)
    ensures |es| == |ts|
    decreases ts
  {
    if ts == [] then [] else [Meaning(s, ts[0])] + Meanings(s, level, ts[1..])
  }

  /** The `n` parts of a conjunction that is nested to the left. */
  function Conjuncts(e: Expr, n: nat): seq<Expr> {
    if n <= 1 then [e] else match e case Binary(And, l, r) => Conjuncts(l, n - 1) + [r] case _ => []
  }

  /** A chain of comparisons means one comparison for every two neighbours, in order. */
  lemma {:induction false} ChainConjuncts(operands: seq<Expr>, ops: seq<Op>)
    requires |operands| == |ops| + 1 && ops != []
    ensures var parts := Conjuncts(Conjunction(operands, ops), |ops|);
            |parts| == |ops| && forall k :: 0 <= k < |ops| ==> parts[k] == Binary(ops[k], operands[k], operands[k + 1])
    decreases |ops|
  {
    var n := |ops|;
    if n > 1 { ChainConjuncts(operands[..n], ops[..n - 1]); }
  }

  lemma {:induction false} NamesAreIdents(s: Suffixes, t: Tree)
    requires Good(s, t)
    ensures IsName(t) <==> Meaning(s, t).Ident?
    decreases t
  {
    if t.Paren? { NamesAreIdents(s, t.inner); }
  }

  // ---------- what may follow ----------

  /** The level at which a token would continue an expression, -1 for none. */
  function Continues(t: Token): int {
    match t
    case Oper(op) =>
      if op.Or? then 0 else if op.And? then 1 else if IsComparison(op) then 3 else if IsSign(op) then 4
      else if op.Mul? || op.FDiv? then 5 else if op.Pow? then 7 else if op.LParen? || op.LSqBr? then 8 else -1
    case _ => -1
  }

  /** `rest` does not go on with an expression of this level. */
  predicate Stops(level: int, rest: seq<Token>) { rest != [] ==> Continues(rest[0]) < level }

  /** `rest` is not the suffix of a number at the end of `before`. */
  predicate NoSuffix(s: Suffixes, before: seq<Token>, rest: seq<Token>) {
    rest != [] && rest[0].Name? && rest[0].n in s && before != [] ==>
      var last := before[|before| - 1]; !(last.Lit? && IsNumber(last.l))
  }

  predicate CanFollow(s: Suffixes, level: int, before: seq<Token>, rest: seq<Token>) {
    Stops(level, rest) && NoSuffix(s, before, rest)
  }

  lemma LevelStops(s: Suffixes, level: nat, e: Expr, rest: seq<Token>)
    requires level <= 8 && Stops(level, rest)
    ensures LevelRest(s, level, e, rest) == Ok(e, rest)
  {
  }

  /** How what is written at a level may begin. */
  predicate StartsPlain(ts: seq<Token>, level: nat) {
    && ts != []
    && (level > 2 ==> !At(ts, Not))
    && (level > 6 ==> !(ts[0].Oper? && IsSign(ts[0].op)))
    && (ts[0].Oper? ==> ts[0].op.LParen? || ts[0].op.Not? || IsSign(ts[0].op))
  }

  lemma {:induction false} YieldStarts(s: Suffixes, t: Tree)
    requires Good(s, t)
    ensures StartsPlain(Yield(t), LevelOf(t))
    decreases t
  {
    match t
    case Infix(op, l, r) => YieldStarts(s, l);
    case Compared(x, _, _) => YieldStarts(s, x);
    case CallOf(f, _) => YieldStarts(s, f);
    case IndexOf(b, _) => YieldStarts(s, b);
    case MultiOf(b, _) => YieldStarts(s, b);
    case SliceOf(b, _, _) => YieldStarts(s, b);
    case _ =>
  }

  /** A reading of a tight level is a reading of a looser one if nothing there goes on. */
  lemma {:induction false} Lift(s: Suffixes, level: nat, tight: nat, ts: seq<Token>, e: Expr, rest: seq<Token>)
    requires level <= tight <= 9 && Parse(s, tight, ts) == Ok(e, rest)
    requires Stops(level, rest) && StartsPlain(ts, tight)
    ensures Parse(s, level, ts) == Ok(e, rest)
    decreases tight - level
  {
    if level < tight {
      Lift(s, level + 1, tight, ts, e, rest);
      LevelStops(s, level, e, rest);
      hide LevelRest;
    }
  }
}
