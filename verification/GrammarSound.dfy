/**
 The parser accepts nothing but the grammar: what it reads is a tree of the grammar, with
 that tree's meaning. Together with completeness, parsing is exactly the grammar.
 */
module GrammarSound {
  import opened Expressions
  import opened ExpressionGrammar
  import opened GrammarComplete

  /** The tokens begin with tree `t` of the level, which means `e`, and `rest` cannot continue it. */
  predicate Reads(s: Suffixes, level: nat, ts: seq<Token>, e: Expr, rest: seq<Token>, t: Tree) {
    && Good(s, t) && level <= LevelOf(t) && Meaning(s, t) == e
    && ts == Yield(t) + rest && CanFollow(s, level, Yield(t), rest)
  }

  /** What follows the last part follows the whole. */
  lemma WholeEnds(s: Suffixes, level: int, a: seq<Token>, b: seq<Token>, rest: seq<Token>)
    requires CanFollow(s, level, b, rest) && b != []
    ensures CanFollow(s, level, a + b, rest)
  {
    assert (a + b)[|a + b| - 1] == b[|b| - 1];
  }

  lemma TokenEnds(s: Suffixes, level: nat, a: seq<Token>, op: Op, rest: seq<Token>)
    requires Stops(level, rest)
    ensures CanFollow(s, level, a + [Oper(op)], rest)
  {
    assert (a + [Oper(op)])[|a|] == Oper(op);
  }

  lemma HeadTail(ts: seq<Token>)
    requires ts != []
    ensures ts == [ts[0]] + ts[1..]
  {
  }

  lemma AnyStops(rest: seq<Token>)
    ensures Stops(9, rest)
  {
  }

  // ---------- literals, names, parentheses ----------

  lemma {:induction false} FactorSound(s: Suffixes, ts: seq<Token>) returns (t: Tree)
    requires Factor(s, ts).Ok?
    ensures var p := Factor(s, ts); Reads(s, 9, ts, p.e, p.rest, t)
    decreases |ts|, 0
  {
    HeadTail(ts);
    var rest := ts[1..];
    AnyStops(Factor(s, ts).rest);
    match ts[0]
    case Lit(l) =>
      if IsNumber(l) && rest != [] && rest[0].Name? && rest[0].n in s {
        t := Suffixed(l, rest[0].n);
        HeadTail(rest);
        assert ts == Yield(t) + rest[1..];
      } else {
        t := Atom(ts[0]);
      }
    case Oper(_) => t := ParenSound(s, ts);
    case _ => t := Atom(ts[0]);
  }

  lemma {:induction false} ParenSound(s: Suffixes, ts: seq<Token>) returns (t: Tree)
    requires ts != [] && ts[0].Oper? && Factor(s, ts).Ok?
    ensures var p := Factor(s, ts); Reads(s, 9, ts, p.e, p.rest, t)
    decreases |ts|, 0, 0
  {
    HeadTail(ts);
    var x := ParseSound(s, 0, ts[1..]);
    var p := Parse(s, 0, ts[1..]);
    HeadTail(p.rest);
    t := Paren(x);
    hide Parse;
    AnyStops(p.rest[1..]);
    TokenEnds(s, 9, [Oper(LParen)] + Yield(x), RParen, p.rest[1..]);
    assert ts == Yield(t) + p.rest[1..];
  }

  // ---------- calls, indices and slices ----------

  lemma ArgTailForm(s: Suffixes, close: Op, args: seq<Expr>, ts: seq<Token>)
    requires !At(ts, close) && ArgTail(s, close, args, ts).OkList?
    ensures At(ts, Comma)
    ensures var p := Parse(s, 0, ts[1..]); p.Ok? && ArgTail(s, close, args, ts) == ArgTail(s, close, args + [p.e], p.rest)
  {
  }

  lemma {:induction false} ArgTailSound(s: Suffixes, close: Op, args: seq<Expr>, ts: seq<Token>) returns (more: seq<Tree>)
    requires ArgTail(s, close, args, ts).OkList?
    ensures AllGood(s, 0, more)
    ensures var p := ArgTail(s, close, args, ts);
            p.es == args + Meanings(s, 0, more) && ts == YieldMore(more) + ([Oper(close)] + p.rest)
    decreases |ts|, 20
  {
    if At(ts, close) {
      hide Parse;
      HeadTail(ts);
      more := [];
    } else {
      more := ArgsSound(s, close, args, ts);
    }
  }

  lemma {:induction false} ArgsSound(s: Suffixes, close: Op, args: seq<Expr>, ts: seq<Token>) returns (more: seq<Tree>)
    requires !At(ts, close) && ArgTail(s, close, args, ts).OkList?
    ensures AllGood(s, 0, more)
    ensures var p := ArgTail(s, close, args, ts);
            p.es == args + Meanings(s, 0, more) && ts == YieldMore(more) + ([Oper(close)] + p.rest)
    decreases |ts|, 19
  {
    hide ArgTail, Parse, Yield, Good, Meaning, YieldMore, CanFollow, YieldList;
    ArgTailForm(s, close, args, ts);
    HeadTail(ts);
    var x := ParseSound(s, 0, ts[1..]);
    var p := Parse(s, 0, ts[1..]);
    var later := ArgTailSound(s, close, args + [p.e], p.rest);
    more := [x] + later;
    ConsMore(s, x, later);
    var tail := [Oper(close)] + ArgTail(s, close, args, ts).rest;
    assert ts == [Oper(Comma)] + (Yield(x) + (YieldMore(later) + tail));
    assert [Oper(Comma)] + Yield(x) + YieldMore(later) + tail == ts;
    assert args + [p.e] + Meanings(s, 0, later) == args + Meanings(s, 0, more);
  }

  lemma ConsMore(s: Suffixes, x: Tree, later: seq<Tree>)
    requires Good(s, x) && AllGood(s, 0, later)
    ensures AllGood(s, 0, [x] + later)
    ensures Meanings(s, 0, [x] + later) == [Meaning(s, x)] + Meanings(s, 0, later)
    ensures YieldMore([x] + later) == [Oper(Comma)] + Yield(x) + YieldMore(later)
    ensures YieldList([x] + later) == Yield(x) + YieldMore(later)
  {
    hide Good, Yield, Meaning;
    assert ([x] + later)[0] == x && ([x] + later)[1..] == later;
  }

  lemma {:induction false} ArgListSound(s: Suffixes, close: Op, ts: seq<Token>) returns (args: seq<Tree>)
    requires ArgList(s, close, ts).OkList?
    ensures AllGood(s, 0, args)
    ensures var p := ArgList(s, close, ts);
            p.es == Meanings(s, 0, args) && ts == YieldList(args) + ([Oper(close)] + p.rest)
    decreases |ts|, 30
  {
    hide Parse, ArgTail, Yield, Good, Meaning, CanFollow;
    if At(ts, close) {
      HeadTail(ts);
      args := [];
    } else {
      var x := ParseSound(s, 0, ts);
      var p := Parse(s, 0, ts);
      var later := ArgTailSound(s, close, [p.e], p.rest);
      args := [x] + later;
      ConsMore(s, x, later);
      Regroup(Yield(x), YieldMore(later), [Oper(close)] + ArgList(s, close, ts).rest);
    }
  }

  lemma Regroup(a: seq<Token>, b: seq<Token>, c: seq<Token>)
    ensures a + (b + c) == a + b + c
  {
  }

  /** A base with something behind it. */
  lemma Posted(s: Suffixes, t: Tree, ts: seq<Token>, last: Op, rest: seq<Token>)
    requires Good(s, t) && LevelOf(t) == 8 && ts == Behind(t) + rest
    requires Behind(t) != [] && Behind(t)[|Behind(t)| - 1] == Oper(last)
    ensures Reads(s, 8, Yield(BaseOf(t)) + ts, Meaning(s, t), rest, t) || !Stops(8, rest)
    ensures NoSuffix(s, Yield(t), rest) && Yield(BaseOf(t)) + ts == Yield(t) + rest
  {
    hide Yield, Behind, Meaning, Good;
    BaseParts(s, t);
    var y, b := Yield(t), Behind(t);
    assert y == Yield(BaseOf(t)) + b && y[|y| - 1] == b[|b| - 1];
    assert Yield(BaseOf(t)) + ts == y + rest;
  }

  lemma {:induction false} PostfixSound(s: Suffixes, base: Tree, ts: seq<Token>) returns (t: Tree)
    requires Good(s, base) && LevelOf(base) >= 8 && (At(ts, LParen) || At(ts, LSqBr))
    requires Postfix(s, Meaning(s, base), ts).Ok?
    ensures LevelOf(t) == 8 && BaseOf(t) == base && Good(s, t)
    ensures var p := Postfix(s, Meaning(s, base), ts);
            Meaning(s, t) == p.e && ts == Behind(t) + p.rest && Behind(t) != [] && Closed(Behind(t))
    decreases |ts|, 20
  {
    HeadTail(ts);
    if At(ts, LParen) {
      NamesAreIdents(s, base);
      var args := ArgListSound(s, RParen, ts[1..]);
      hide Yield, Good, Meaning, ArgList;
      t := CallOf(base, args);
      GoodCall(s, base, args);
    } else {
      var i := ParseSound(s, 0, ts[1..]);
      var p := Parse(s, 0, ts[1..]);
      hide Parse, Yield, Good, Meaning;
      t := IndexTailSound(s, base, i, p.rest);
    }
  }

  /** The sequence ends with a closing bracket. */
  predicate Closed(b: seq<Token>) { b != [] && (b[|b| - 1] == Oper(RParen) || b[|b| - 1] == Oper(RSqBr)) }

  lemma GoodCall(s: Suffixes, base: Tree, args: seq<Tree>)
    requires Good(s, base) && LevelOf(base) >= 8 && IsName(base) && AllGood(s, 0, args)
    ensures Good(s, CallOf(base, args)) && Meaning(s, CallOf(base, args)) == Call(Meaning(s, base), Meanings(s, 0, args))
  {
  }

  lemma {:induction false} IndexTailSound(s: Suffixes, base: Tree, i: Tree, ts: seq<Token>) returns (t: Tree)
    requires Good(s, base) && LevelOf(base) >= 8 && Good(s, i)
    requires IndexTail(s, Meaning(s, base), Meaning(s, i), ts).Ok?
    ensures LevelOf(t) == 8 && BaseOf(t) == base && Good(s, t)
    ensures var p := IndexTail(s, Meaning(s, base), Meaning(s, i), ts);
            Meaning(s, t) == p.e && [Oper(LSqBr)] + (Yield(i) + ts) == Behind(t) + p.rest && Closed(Behind(t))
    decreases |ts|, 20
  {
    HeadTail(ts);
    if At(ts, RSqBr) {
      t := IndexOf(base, i);
      hide Yield;
    } else if At(ts, Colon) {
      t := SliceSound(s, base, i, ts);
    } else {
      t := MultiSound(s, base, i, ts);
    }
  }

  lemma GoodSlice(s: Suffixes, base: Tree, i: Tree, j: Tree)
    requires Good(s, base) && LevelOf(base) >= 8 && Good(s, i) && Good(s, j)
    ensures var t := SliceOf(base, i, j);
            Good(s, t) && Meaning(s, t) == Slice(Meaning(s, base), Meaning(s, i), Meaning(s, j)) &&
            Behind(t) == [Oper(LSqBr)] + Yield(i) + [Oper(Colon)] + Yield(j) + [Oper(RSqBr)]
  {
    hide Yield;
  }

  lemma SliceForm(s: Suffixes, base: Expr, i: Expr, ts: seq<Token>)
    requires At(ts, Colon) && IndexTail(s, base, i, ts).Ok?
    ensures var p, q := IndexTail(s, base, i, ts), Parse(s, 0, ts[1..]);
            q.Ok? && At(q.rest, RSqBr) && p == Ok(Slice(base, i, q.e), q.rest[1..])
  {
    hide Parse;
  }

  lemma {:induction false} SliceSound(s: Suffixes, base: Tree, i: Tree, ts: seq<Token>) returns (t: Tree)
    requires Good(s, base) && LevelOf(base) >= 8 && Good(s, i) && At(ts, Colon)
    requires IndexTail(s, Meaning(s, base), Meaning(s, i), ts).Ok?
    ensures LevelOf(t) == 8 && BaseOf(t) == base && Good(s, t)
    ensures var p := IndexTail(s, Meaning(s, base), Meaning(s, i), ts);
            Meaning(s, t) == p.e && [Oper(LSqBr)] + (Yield(i) + ts) == Behind(t) + p.rest && Closed(Behind(t))
    decreases |ts|, 10
  {
    hide IndexTail, Parse, Yield, Good, Meaning, Behind, CanFollow;
    HeadTail(ts);
    SliceForm(s, Meaning(s, base), Meaning(s, i), ts);
    var j := ParseSound(s, 0, ts[1..]);
    var p := Parse(s, 0, ts[1..]);
    HeadTail(p.rest);
    t := SliceOf(base, i, j);
    GoodSlice(s, base, i, j);
    var after := TwoParts(Oper(LSqBr), Yield(i), Oper(Colon), Yield(j), Oper(RSqBr), p.rest[1..]);
    assert after == ts;
  }

  lemma GoodMulti(s: Suffixes, base: Tree, i: Tree, more: seq<Tree>)
    requires Good(s, base) && LevelOf(base) >= 8 && Good(s, i) && AllGood(s, 0, more)
    ensures var t := MultiOf(base, [i] + more);
            Good(s, t) && Meaning(s, t) == MultiIndex(Meaning(s, base), [Meaning(s, i)] + Meanings(s, 0, more)) &&
            Behind(t) == [Oper(LSqBr)] + Yield(i) + [Oper(Comma)] + YieldList(more) + [Oper(RSqBr)]
  {
    ConsMore(s, i, more);
    hide Yield, YieldList;
    assert ([i] + more)[1..] == more;
  }

  lemma MultiForm(s: Suffixes, base: Expr, i: Expr, ts: seq<Token>)
    requires At(ts, Comma) && IndexTail(s, base, i, ts).Ok?
    ensures var p, q := IndexTail(s, base, i, ts), ArgList(s, RSqBr, ts[1..]);
            q.OkList? && p == Ok(MultiIndex(base, [i] + q.es), q.rest)
  {
  }

  lemma {:induction false} MultiSound(s: Suffixes, base: Tree, i: Tree, ts: seq<Token>) returns (t: Tree)
    requires Good(s, base) && LevelOf(base) >= 8 && Good(s, i) && At(ts, Comma)
    requires IndexTail(s, Meaning(s, base), Meaning(s, i), ts).Ok?
    ensures LevelOf(t) == 8 && BaseOf(t) == base && Good(s, t)
    ensures var p := IndexTail(s, Meaning(s, base), Meaning(s, i), ts);
            Meaning(s, t) == p.e && [Oper(LSqBr)] + (Yield(i) + ts) == Behind(t) + p.rest && Closed(Behind(t))
    decreases |ts|, 10
  {
    hide IndexTail, ArgList, Yield, YieldList, Good, Meaning, Behind;
    HeadTail(ts);
    MultiForm(s, Meaning(s, base), Meaning(s, i), ts);
    var more := ArgListSound(s, RSqBr, ts[1..]);
    var p := ArgList(s, RSqBr, ts[1..]);
    t := MultiOf(base, [i] + more);
    GoodMulti(s, base, i, more);
    var after := TwoParts(Oper(LSqBr), Yield(i), Oper(Comma), YieldList(more), Oper(RSqBr), p.rest);
    assert after == ts;
  }

  lemma {:induction false} CallTailSound(s: Suffixes, base: Tree, ts: seq<Token>) returns (t: Tree)
    requires Good(s, base) && LevelOf(base) >= 8 && NoSuffix(s, Yield(base), ts) && CallTail(s, Meaning(s, base), ts).Ok?
    ensures var p := CallTail(s, Meaning(s, base), ts); Reads(s, 8, Yield(base) + ts, p.e, p.rest, t)
    decreases |ts|, 21
  {
    if !At(ts, LParen) && !At(ts, LSqBr) {
      t := base;
      hide Yield, Good, Meaning;
    } else {
      var x := PostfixSound(s, base, ts);
      var p := Postfix(s, Meaning(s, base), ts);
      hide Postfix, Yield, Good, Meaning, Behind, Yield;
      var b := Behind(x);
      Posted(s, x, ts, b[|b| - 1].op, p.rest);
      t := CallTailSound(s, x, p.rest);
    }
  }

  // ---------- operators ----------

  lemma JoinInfix(s: Suffixes, level: int, op: Op, l: Tree, r: Tree, rest: seq<Token>)
    requires Good(s, Infix(op, l, r)) && CanFollow(s, level, Yield(r), rest)
    ensures CanFollow(s, level, Yield(Infix(op, l, r)), rest)
    ensures Yield(l) + ([Oper(op)] + (Yield(r) + rest)) == Yield(Infix(op, l, r)) + rest
  {
    YieldStarts(s, r);
    WholeEnds(s, level, Yield(l) + [Oper(op)], Yield(r), rest);
  }

  lemma {:induction false} BinaryTailSound(s: Suffixes, level: nat, left: Tree, ts: seq<Token>) returns (t: Tree)
    requires LeftAssociative(level) && Good(s, left) && LevelOf(left) >= level && CanFollow(s, level + 1, Yield(left), ts)
    requires BinaryTail(s, level, Meaning(s, left), ts).Ok?
    ensures var p := BinaryTail(s, level, Meaning(s, left), ts); Reads(s, level, Yield(left) + ts, p.e, p.rest, t)
    decreases |ts|, 20
  {
    if ts != [] && ts[0].Oper? && OpOfLevel(level, ts[0].op) {
      hide Parse, Yield, CanFollow;
      HeadTail(ts);
      var r := ParseSound(s, level + 1, ts[1..]);
      var p := Parse(s, level + 1, ts[1..]);
      var x := Infix(ts[0].op, left, r);
      JoinInfix(s, level + 1, ts[0].op, left, r, p.rest);
      t := BinaryTailSound(s, level, x, p.rest);
    } else {
      t := left;
      hide Yield, Good, Meaning;
    }
  }

  lemma {:induction false} PowerSound(s: Suffixes, base: Tree, ts: seq<Token>) returns (t: Tree)
    requires Good(s, base) && LevelOf(base) >= 8 && CanFollow(s, 8, Yield(base), ts) && PowerRest(s, Meaning(s, base), ts).Ok?
    ensures var p := PowerRest(s, Meaning(s, base), ts); Reads(s, 7, Yield(base) + ts, p.e, p.rest, t)
    decreases |ts|, 20
  {
    if At(ts, Pow) {
      HeadTail(ts);
      var r := ParseSound(s, 6, ts[1..]);
      var p := Parse(s, 6, ts[1..]);
      hide Parse, Yield;
      t := Infix(Pow, base, r);
      JoinInfix(s, 6, Pow, base, r, p.rest);
    } else {
      t := base;
      hide Yield, Good, Meaning;
    }
  }

  lemma ConsChain(s: Suffixes, op: Op, x: Tree, ops: seq<Op>, xs: seq<Tree>)
    requires Good(s, x) && LevelOf(x) >= 4 && AllGood(s, 4, xs) && |ops| == |xs| && IsComparison(op) && AllComparisons(ops)
    ensures AllGood(s, 4, [x] + xs) && AllComparisons([op] + ops)
    ensures Meanings(s, 4, [x] + xs) == [Meaning(s, x)] + Meanings(s, 4, xs)
    ensures YieldChain([op] + ops, [x] + xs) == [Oper(op)] + Yield(x) + YieldChain(ops, xs)
  {
    hide Good, Yield, Meaning;
    assert ([x] + xs)[0] == x && ([x] + xs)[1..] == xs && ([op] + ops)[1..] == ops;
  }

  /** The operators and operands that a chain goes on with make it what it is. */
  predicate ChainReads(s: Suffixes, before: seq<Token>, operands: seq<Expr>, ops: seq<Op>, ts: seq<Token>, p: Parsed, more: seq<Op>, xs: seq<Tree>)
    requires |operands| == |ops| + 1
  {
    && |more| == |xs| && AllGood(s, 4, xs) && AllComparisons(more) && p.Ok?
    && p.e == Chain(operands + Meanings(s, 4, xs), ops + more)
    && ts == YieldChain(more, xs) + p.rest && CanFollow(s, 3, before + YieldChain(more, xs), p.rest)
  }

  lemma ChainEnds(s: Suffixes, before: seq<Token>, operands: seq<Expr>, ops: seq<Op>, ts: seq<Token>)
    requires |operands| == |ops| + 1 && CanFollow(s, 4, before, ts) && !(ts != [] && ts[0].Oper? && IsComparison(ts[0].op))
    ensures ChainReads(s, before, operands, ops, ts, ComparisonTail(s, operands, ops, ts), [], [])
  {
    assert operands + Meanings(s, 4, []) == operands && ops + [] == ops && before + [] == before;
    NoChain([], []);
    assert [] + ts == ts;
  }

  lemma ChainForm(s: Suffixes, operands: seq<Expr>, ops: seq<Op>, ts: seq<Token>)
    requires |operands| == |ops| + 1 && ts != [] && ts[0].Oper? && IsComparison(ts[0].op) && ComparisonTail(s, operands, ops, ts).Ok?
    ensures var p := Parse(s, 4, ts[1..]);
            p.Ok? && ComparisonTail(s, operands, ops, ts) == ComparisonTail(s, operands + [p.e], ops + [ts[0].op], p.rest)
  {
  }

  lemma ChainGrows(s: Suffixes, before: seq<Token>, operands: seq<Expr>, ops: seq<Op>, op: Op, x: Tree, ts: seq<Token>, p: Parsed, ops1: seq<Op>, xs1: seq<Tree>)
    requires |operands| == |ops| + 1 && IsComparison(op) && Good(s, x) && LevelOf(x) >= 4
    requires ChainReads(s, before + [Oper(op)] + Yield(x), operands + [Meaning(s, x)], ops + [op], ts, p, ops1, xs1)
    ensures ChainReads(s, before, operands, ops, [Oper(op)] + (Yield(x) + ts), p, [op] + ops1, [x] + xs1)
  {
    hide Good, Yield, Meaning, Chain, CanFollow, YieldChain;
    ConsChain(s, op, x, ops1, xs1);
    var y := YieldChain(ops1, xs1);
    assert before + [Oper(op)] + Yield(x) + y == before + ([Oper(op)] + Yield(x) + y);
    assert operands + [Meaning(s, x)] + Meanings(s, 4, xs1) == operands + ([Meaning(s, x)] + Meanings(s, 4, xs1));
    assert ops + [op] + ops1 == ops + ([op] + ops1);
  }

  lemma {:induction false} ComparisonSound(s: Suffixes, before: seq<Token>, operands: seq<Expr>, ops: seq<Op>, ts: seq<Token>)
    returns (more: seq<Op>, xs: seq<Tree>)
    requires |operands| == |ops| + 1 && CanFollow(s, 4, before, ts) && ComparisonTail(s, operands, ops, ts).Ok?
    ensures ChainReads(s, before, operands, ops, ts, ComparisonTail(s, operands, ops, ts), more, xs)
    decreases |ts|, 20
  {
    hide ComparisonTail, ChainReads, Parse, Yield, Good, Meaning, CanFollow;
    if ts != [] && ts[0].Oper? && IsComparison(ts[0].op) {
      var op := ts[0].op;
      HeadTail(ts);
      ChainForm(s, operands, ops, ts);
      var x := ParseSound(s, 4, ts[1..]);
      var p := Parse(s, 4, ts[1..]);
      YieldStarts(s, x);
      WholeEnds(s, 4, before + [Oper(op)], Yield(x), p.rest);
      var ops1, xs1 := ComparisonSound(s, before + [Oper(op)] + Yield(x), operands + [p.e], ops + [op], p.rest);
      more, xs := [op] + ops1, [x] + xs1;
      ChainGrows(s, before, operands, ops, op, x, p.rest, ComparisonTail(s, operands, ops, ts), ops1, xs1);
    } else {
      more, xs := [], [];
      ChainEnds(s, before, operands, ops, ts);
    }
  }

  lemma GoodCompared(s: Suffixes, first: Tree, ops: seq<Op>, xs: seq<Tree>)
    requires Good(s, first) && LevelOf(first) >= 4 && |ops| == |xs| >= 1 && AllComparisons(ops) && AllGood(s, 4, xs)
    ensures var t := Compared(first, ops, xs);
            Good(s, t) && Meaning(s, t) == Chain([Meaning(s, first)] + Meanings(s, 4, xs), ops) &&
            Yield(t) == Yield(first) + YieldChain(ops, xs)
  {
    hide YieldChain, Conjunction;
  }

  lemma ComparedReads(s: Suffixes, first: Tree, ts: seq<Token>, p: Parsed, more: seq<Op>, xs: seq<Tree>)
    requires Good(s, first) && LevelOf(first) >= 4 && more != []
    requires ChainReads(s, Yield(first), [Meaning(s, first)], [], ts, p, more, xs)
    ensures Reads(s, 3, Yield(first) + ts, p.e, p.rest, Compared(first, more, xs))
  {
    hide YieldChain, Yield, Good, Meaning, Chain, CanFollow;
    assert [] + more == more;
    GoodCompared(s, first, more, xs);
    Regroup(Yield(first), YieldChain(more, xs), p.rest);
  }

  lemma SingleReads(s: Suffixes, first: Tree, ts: seq<Token>, p: Parsed, xs: seq<Tree>)
    requires Good(s, first) && LevelOf(first) >= 4
    requires ChainReads(s, Yield(first), [Meaning(s, first)], [], ts, p, [], xs)
    ensures Reads(s, 3, Yield(first) + ts, p.e, p.rest, first)
  {
    hide Yield, Good, Meaning;
    NoChain([], xs);
    assert [Meaning(s, first)] + Meanings(s, 4, xs) == [Meaning(s, first)] && Yield(first) + [] == Yield(first);
  }

  lemma {:induction false} ComparedSound(s: Suffixes, first: Tree, ts: seq<Token>) returns (t: Tree)
    requires Good(s, first) && LevelOf(first) >= 4 && CanFollow(s, 4, Yield(first), ts)
    requires ComparisonTail(s, [Meaning(s, first)], [], ts).Ok?
    ensures var p := ComparisonTail(s, [Meaning(s, first)], [], ts); Reads(s, 3, Yield(first) + ts, p.e, p.rest, t)
    decreases |ts|, 21
  {
    hide ComparisonTail, ChainReads, Reads, Yield, Good, Meaning, CanFollow;
    var more, xs := ComparisonSound(s, Yield(first), [Meaning(s, first)], [], ts);
    var p := ComparisonTail(s, [Meaning(s, first)], [], ts);
    if more == [] {
      t := first;
      SingleReads(s, first, ts, p, xs);
    } else {
      t := Compared(first, more, xs);
      ComparedReads(s, first, ts, p, more, xs);
    }
  }

  lemma Prefixed(s: Suffixes, level: nat, op: Op, x: Tree, rest: seq<Token>)
    requires Good(s, x) && CanFollow(s, level, Yield(x), rest)
    ensures CanFollow(s, level, [Oper(op)] + Yield(x), rest)
    ensures [Oper(op)] + (Yield(x) + rest) == [Oper(op)] + Yield(x) + rest
  {
    YieldStarts(s, x);
    WholeEnds(s, level, [Oper(op)], Yield(x), rest);
  }

  lemma {:induction false} PrefixSound(s: Suffixes, level: nat, ts: seq<Token>) returns (t: Tree)
    requires ts != [] && ts[0].Oper? && ((level == 2 && ts[0].op.Not?) || (level == 6 && IsSign(ts[0].op)))
    requires Parse(s, level, ts).Ok?
    ensures var p := Parse(s, level, ts); Reads(s, level, ts, p.e, p.rest, t)
    decreases |ts|, 4
  {
    HeadTail(ts);
    var x := ParseSound(s, level, ts[1..]);
    Prefixed(s, level, ts[0].op, x, Parse(s, level, ts[1..]).rest);
    t := Prefix(ts[0].op, x);
  }

  lemma {:induction false} RestSound(s: Suffixes, level: nat, x: Tree, ts: seq<Token>) returns (t: Tree)
    requires level <= 8 && Good(s, x) && LevelOf(x) >= level + 1 && CanFollow(s, level + 1, Yield(x), ts)
    requires LevelRest(s, level, Meaning(s, x), ts).Ok?
    ensures var p := LevelRest(s, level, Meaning(s, x), ts); Reads(s, level, Yield(x) + ts, p.e, p.rest, t)
    decreases |ts|, 22
  {
    hide Yield, Good, Meaning, BinaryTail, ComparisonTail, PowerRest, CallTail;
    if level == 3 { t := ComparedSound(s, x, ts); }
    else if level == 7 { t := PowerSound(s, x, ts); }
    else if level == 8 { t := CallTailSound(s, x, ts); }
    else if level == 2 || level == 6 { t := x; }
    else { t := BinaryTailSound(s, level, x, ts); }
  }

  lemma {:induction false} ParseSound(s: Suffixes, level: nat, ts: seq<Token>) returns (t: Tree)
    requires level <= 9 && Parse(s, level, ts).Ok?
    ensures var p := Parse(s, level, ts); Reads(s, level, ts, p.e, p.rest, t)
    decreases |ts|, 14 - level
  {
    hide LevelRest, Yield, Good, Meaning, Factor;
    if level == 9 {
      t := FactorSound(s, ts);
    } else if ts != [] && ts[0].Oper? && ((level == 2 && ts[0].op.Not?) || (level == 6 && IsSign(ts[0].op))) {
      t := PrefixSound(s, level, ts);
    } else {
      var x := ParseSound(s, level + 1, ts);
      t := RestSound(s, level, x, Parse(s, level + 1, ts).rest);
    }
  }

  // ---------- the parser is the grammar ----------

  /**
   The parser reads `e` at a level and stops before `rest` if and only if the tokens before
   `rest` are a tree of that level with that meaning and `rest` cannot continue it.
   */
  lemma ParsesExactly(s: Suffixes, level: nat, ts: seq<Token>, e: Expr, rest: seq<Token>)
    requires level <= 9
    ensures Parse(s, level, ts) == Ok(e, rest) <==> exists t :: Reads(s, level, ts, e, rest, t)
  {
    hide Parse, Good, Yield, Meaning;
    if Parse(s, level, ts) == Ok(e, rest) {
      var t := ParseSound(s, level, ts);
    }
    forall t | Reads(s, level, ts, e, rest, t) ensures Parse(s, level, ts) == Ok(e, rest) {
      Complete(s, t, level, rest);
    }
  }

  /** Parsing fails exactly where no tree of the level begins the tokens. */
  lemma FailsExactly(s: Suffixes, level: nat, ts: seq<Token>)
    requires level <= 9
    ensures Parse(s, level, ts).Fail? <==> forall e, rest, t :: !Reads(s, level, ts, e, rest, t)
  {
    hide Parse, Reads;
    var p := Parse(s, level, ts);
    if p.Ok? { ParsesExactly(s, level, ts, p.e, p.rest); }
    forall e, rest, t | Reads(s, level, ts, e, rest, t) ensures p.Ok? { ParsesExactly(s, level, ts, e, rest); }
  }

  /** The grammar is unambiguous: what is written the same means the same. */
  lemma Unambiguous(s: Suffixes, t: Tree, u: Tree)
    requires Good(s, t) && Good(s, u) && Yield(t) == Yield(u)
    ensures Meaning(s, t) == Meaning(s, u)
  {
    hide Parse, Good, Yield, Meaning;
    Complete(s, t, 0, []);
    Complete(s, u, 0, []);
  }
}
