/**
 Parsing is the inverse of rendering: for every expression tree, the tokens written with
 parentheses where a level needs them parse back to that tree and stop before whatever
 follows. And what the particular rules of the syntax make of their operands.
 */
module ExpressionRoundTrip {
  import opened Expressions
  import opened ExpressionGrammar
  import opened GrammarComplete

  /** Expressions that the syntax can express: only names are called, and operators are operators. */
  predicate WellFormed(e: Expr)
    decreases e, 0
  {
    match e
    case Const(_) => true
    case Ident(_) => true
    case Call(f, args) => f.Ident? && AllWellFormed(args)
    case Index(b, i) => WellFormed(b) && WellFormed(i)
    case MultiIndex(b, xs) => WellFormed(b) && xs != [] && AllWellFormed(xs)
    case Slice(b, i, j) => WellFormed(b) && WellFormed(i) && WellFormed(j)
    case Unary(op, x) => (op.Not? || IsSign(op)) && WellFormed(x)
    case Binary(op, l, r) => (IsInfix(op) || IsComparison(op)) && WellFormed(l) && WellFormed(r)
  }

  predicate AllWellFormed(es: seq<Expr>)
    decreases es
  {
    es == [] || (WellFormed(es[0]) && AllWellFormed(es[1..]))
  }

  /** The expression as a tree of the grammar. */
  function Plain(e: Expr): Tree
    requires WellFormed(e)
    decreases e, 0
  {
    match e
    case Const(l) => Atom(Lit(l))
    case Ident(n) => Atom(Name(n))
    case Call(f, args) => CallOf(Plain(f), AllPlain(args))
    case Index(b, i) => IndexOf(Written(b, 8), Plain(i))
    case MultiIndex(b, xs) => MultiOf(Written(b, 8), AllPlain(xs))
    case Slice(b, i, j) => SliceOf(Written(b, 8), Plain(i), Plain(j))
    case Unary(op, x) => Prefix(op, Written(x, if op.Not? then 2 else 6))
    case Binary(op, l, r) =>
      if IsComparison(op) then Compared(Written(l, 4), [op], [Written(r, 4)])
      else Infix(op, Written(l, LeftLevel(op)), Written(r, RightLevel(op)))
  }

  /** With parentheses where the level needs them. */
  function Written(e: Expr, level: nat): Tree
    requires WellFormed(e)
    decreases e, 1
  {
    var t := Plain(e);
    if LevelOf(t) < level then Paren(t) else t
  }

  function AllPlain(es: seq<Expr>): (ts: seq<Tree>)
    requires AllWellFormed(es)
    ensures |ts| == |es|
    decreases es
  {
    if es == [] then [] else [Plain(es[0])] + AllPlain(es[1..])
  }

  function Render(e: Expr, level: nat): seq<Token>
    requires WellFormed(e)
  {
    Yield(Written(e, level))
  }

  lemma {:induction false} PlainMeans(s: Suffixes, e: Expr)
    requires WellFormed(e)
    ensures Good(s, Plain(e)) && Meaning(s, Plain(e)) == e
    decreases e, 0
  {
    match e
    case Const(_) =>
    case Ident(_) =>
    case Call(f, args) => AllPlainMean(s, args);
    case Index(b, i) => WrittenMeans(s, b, 8); PlainMeans(s, i);
    case MultiIndex(b, xs) => WrittenMeans(s, b, 8); AllPlainMean(s, xs);
    case Slice(b, i, j) => WrittenMeans(s, b, 8); PlainMeans(s, i); PlainMeans(s, j);
    case Unary(op, x) => WrittenMeans(s, x, if op.Not? then 2 else 6);
    case Binary(op, l, r) =>
      if IsComparison(op) {
        ComparisonMeans(s, e);
      } else {
        WrittenMeans(s, l, LeftLevel(op));
        WrittenMeans(s, r, RightLevel(op));
      }
  }

  lemma OneComparison(s: Suffixes, op: Op, l: Tree, r: Tree)
    requires IsComparison(op) && Good(s, l) && Good(s, r) && LevelOf(l) >= 4 && LevelOf(r) >= 4
    ensures var t := Compared(l, [op], [r]); Good(s, t) && Meaning(s, t) == Binary(op, Meaning(s, l), Meaning(s, r))
  {
    assert [r][1..] == [] && Meanings(s, 4, [r]) == [Meaning(s, r)];
    assert [Meaning(s, l)] + [Meaning(s, r)] == [Meaning(s, l), Meaning(s, r)];
  }

  lemma {:induction false} ComparisonMeans(s: Suffixes, e: Expr)
    requires WellFormed(e) && e.Binary? && IsComparison(e.op)
    ensures Good(s, Plain(e)) && Meaning(s, Plain(e)) == e
    decreases e, 0, 0
  {
    hide Written, Good, Meaning;
    WrittenMeans(s, e.left, 4);
    WrittenMeans(s, e.right, 4);
    OneComparison(s, e.op, Written(e.left, 4), Written(e.right, 4));
  }

  lemma {:induction false} WrittenMeans(s: Suffixes, e: Expr, level: nat)
    requires WellFormed(e) && level <= 9
    ensures var t := Written(e, level); Good(s, t) && LevelOf(t) >= level && Meaning(s, t) == e
    decreases e, 1
  {
    PlainMeans(s, e);
  }

  lemma {:induction false} AllPlainMean(s: Suffixes, es: seq<Expr>)
    requires AllWellFormed(es)
    ensures AllGood(s, 0, AllPlain(es)) && Meanings(s, 0, AllPlain(es)) == es
    decreases es
  {
    if es != [] {
      PlainMeans(s, es[0]);
      AllPlainMean(s, es[1..]);
      assert AllPlain(es)[0] == Plain(es[0]) && AllPlain(es)[1..] == AllPlain(es[1..]);
    }
  }

  /**
   The round trip at every level: what is rendered for a level is read at that level as the
   same expression, up to the token that follows.
   */
  lemma RoundTrip(s: Suffixes, e: Expr, level: nat, rest: seq<Token>)
    requires WellFormed(e) && level <= 9 && CanFollow(s, level, Render(e, level), rest)
    ensures Parse(s, level, Render(e, level) + rest) == Ok(e, rest)
  {
    hide Parse, Written, Good, Meaning, Yield;
    WrittenMeans(s, e, level);
    Complete(s, Written(e, level), level, rest);
  }

  // ---------- particular rules ----------

  /**
   A chain of comparisons, of whatever kinds, is read as one comparison of every two
   neighbours, joined by `и` in order.
   */
  lemma ComparisonChain(s: Suffixes, first: Tree, ops: seq<Op>, operands: seq<Tree>, rest: seq<Token>)
    requires Good(s, Compared(first, ops, operands)) && CanFollow(s, 3, Yield(first) + YieldChain(ops, operands), rest)
    ensures var p := Parse(s, 3, Yield(first) + YieldChain(ops, operands) + rest);
            var xs := [Meaning(s, first)] + Meanings(s, 4, operands);
            p.Ok? && p.rest == rest && |Conjuncts(p.e, |ops|)| == |ops| &&
            forall k :: 0 <= k < |ops| ==> Conjuncts(p.e, |ops|)[k] == Binary(ops[k], xs[k], xs[k + 1])
  {
    var t := Compared(first, ops, operands);
    var xs := [Meaning(s, first)] + Meanings(s, 4, operands);
    assert Yield(t) == Yield(first) + YieldChain(ops, operands) && Meaning(s, t) == Conjunction(xs, ops);
    hide Parse, Good, Meaning, Yield, YieldChain, Conjuncts;
    Complete(s, t, 3, rest);
    ChainConjuncts(xs, ops);
  }

  /** An operation as a tree: what it means, how it is written and where it ends. */
  lemma Operation(s: Suffixes, op: Op, a: Tree, b: Tree)
    requires IsInfix(op) && Good(s, a) && LevelOf(a) >= LeftLevel(op) && Good(s, b) && LevelOf(b) >= RightLevel(op)
    ensures var t := Infix(op, a, b);
            Good(s, t) && Meaning(s, t) == Binary(op, Meaning(s, a), Meaning(s, b)) && Yield(t) == Yield(a) + [Oper(op)] + Yield(b)
    ensures forall rest :: CanFollow(s, 0, Yield(b), rest) ==> CanFollow(s, 0, Yield(Infix(op, a, b)), rest)
  {
    YieldStarts(s, b);
    assert Yield(Infix(op, a, b)) == Yield(a) + [Oper(op)] + Yield(b);
    hide Yield;
    Last(Yield(a) + [Oper(op)], Yield(b));
  }

  lemma Last(a: seq<Token>, b: seq<Token>)
    requires b != []
    ensures (a + b)[|a + b| - 1] == b[|b| - 1]
  {
  }

  lemma Signed(s: Suffixes, x: Tree)
    requires Good(s, x) && LevelOf(x) >= 6
    ensures var t := Prefix(Minus, x); Good(s, t) && Meaning(s, t) == Unary(Minus, Meaning(s, x)) && Yield(t) == [Oper(Minus)] + Yield(x)
    ensures forall rest :: CanFollow(s, 0, Yield(x), rest) ==> CanFollow(s, 0, Yield(Prefix(Minus, x)), rest)
  {
    YieldStarts(s, x);
    assert Yield(Prefix(Minus, x)) == [Oper(Minus)] + Yield(x);
    hide Yield;
    Last([Oper(Minus)], Yield(x));
  }

  /** Operators of one left-associative level group to the left. */
  lemma OperatorsAssociateLeft(s: Suffixes, level: nat, a: Tree, op: Op, b: Tree, op': Op, c: Tree, rest: seq<Token>)
    requires Good(s, a) && Good(s, b) && Good(s, c) && LevelOf(a) >= 8 && LevelOf(b) >= 8 && LevelOf(c) >= 8
    requires OpOfLevel(level, op) && OpOfLevel(level, op') && CanFollow(s, 0, Yield(c), rest)
    ensures Parse(s, 0, Yield(a) + [Oper(op)] + Yield(b) + [Oper(op')] + Yield(c) + rest) ==
            Ok(Binary(op', Binary(op, Meaning(s, a), Meaning(s, b)), Meaning(s, c)), rest)
  {
    hide Parse, Good, Meaning, Yield, CanFollow;
    var u := Infix(op, a, b);
    Operation(s, op, a, b);
    Operation(s, op', u, c);
    Complete(s, Infix(op', u, c), 0, rest);
  }

  /** Powers associate to the right. */
  lemma PowerAssociatesRight(s: Suffixes, a: Tree, b: Tree, c: Tree, rest: seq<Token>)
    requires Good(s, a) && Good(s, b) && Good(s, c) && LevelOf(a) >= 8 && LevelOf(b) >= 8 && LevelOf(c) >= 8
    requires CanFollow(s, 0, Yield(c), rest)
    ensures Parse(s, 0, Yield(a) + [Oper(Pow)] + (Yield(b) + [Oper(Pow)] + Yield(c)) + rest) ==
            Ok(Binary(Pow, Meaning(s, a), Binary(Pow, Meaning(s, b), Meaning(s, c))), rest)
  {
    hide Parse, Good, Meaning, Yield, CanFollow;
    var u := Infix(Pow, b, c);
    Operation(s, Pow, b, c);
    Operation(s, Pow, a, u);
    Complete(s, Infix(Pow, a, u), 0, rest);
  }

  /** A sign before a power applies to the power. */
  lemma SignBeforePower(s: Suffixes, a: Tree, b: Tree, rest: seq<Token>)
    requires Good(s, a) && Good(s, b) && LevelOf(a) >= 8 && LevelOf(b) >= 8 && CanFollow(s, 0, Yield(b), rest)
    ensures Parse(s, 0, [Oper(Minus)] + (Yield(a) + [Oper(Pow)] + Yield(b)) + rest) ==
            Ok(Unary(Minus, Binary(Pow, Meaning(s, a), Meaning(s, b))), rest)
  {
    hide Parse, Good, Meaning, Yield, CanFollow;
    var u := Infix(Pow, a, b);
    Operation(s, Pow, a, b);
    Signed(s, u);
    Complete(s, Prefix(Minus, u), 0, rest);
  }

  /** A number before the name of a suffix is the call that the suffix stands for, at every level. */
  lemma NumberSuffix(s: Suffixes, l: Literal, n: string, level: nat, rest: seq<Token>)
    requires IsNumber(l) && n in s && level <= 9 && Stops(level, rest)
    ensures Parse(s, level, [Lit(l), Name(n)] + rest) == Ok(Call(Ident(s[n]), [Const(l)]), rest)
  {
    hide Parse;
    Complete(s, Suffixed(l, n), level, rest);
  }
}
