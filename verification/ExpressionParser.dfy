/**
 The recursive-descent parser on a token stream that it consumes and pushes back to; every
 method reads what the corresponding function on token lists reads.
 */
module ExpressionParser {
  import opened Expressions

  datatype Result = Got(e: Expr) | Failed

  /** How a level reads when it does not start with one of its prefix operators. */
  lemma LevelForm(s: Suffixes, level: nat, ts: seq<Token>)
    requires level < 9 && !(level == 2 && At(ts, Not)) && !(level == 6 && ts != [] && ts[0].Oper? && IsSign(ts[0].op))
    ensures var p := Parse(s, level + 1, ts);
            Parse(s, level, ts) == if p.Ok? then LevelRest(s, level, p.e, p.rest) else Fail
  {
  }

  lemma PrefixForm(s: Suffixes, level: nat, ts: seq<Token>)
    requires (level == 2 && At(ts, Not)) || (level == 6 && ts != [] && ts[0].Oper? && IsSign(ts[0].op))
    ensures var p := Parse(s, level, ts[1..]);
            Parse(s, level, ts) == if p.Ok? then Ok(Unary(ts[0].op, p.e), p.rest) else Fail
  {
  }

  lemma ArgListForm(s: Suffixes, close: Op, ts: seq<Token>)
    requires !At(ts, close)
    ensures var p := Parse(s, 0, ts);
            ArgList(s, close, ts) == if p.Ok? then ArgTail(s, close, [p.e], p.rest) else FailList
  {
  }

  class ExpressionParser {
    const suffixes: Suffixes
    var tokens: seq<Token>

    constructor (suffixes: Suffixes, tokens: seq<Token>)
      ensures this.suffixes == suffixes && this.tokens == tokens
    {
      this.suffixes, this.tokens := suffixes, tokens;
    }

    /** The outcome says what `p` says, and on success the stream is at its rest. */
    ghost predicate Reads(r: Result, p: Parsed)
      reads this
    {
      match p case Fail => r.Failed? case Ok(e, rest) => r == Got(e) && tokens == rest
    }

    method Next() returns (t: Token)
      requires tokens != []
      modifies this
      ensures t == old(tokens)[0] && tokens == old(tokens)[1..]
    {
      t := tokens[0];
      tokens := tokens[1..];
    }

    method Unget(t: Token)
      modifies this
      ensures tokens == [t] + old(tokens)
    {
      tokens := [t] + tokens;
    }

    method FactorExpr() returns (r: Result)
      modifies this
      ensures Reads(r, Factor(suffixes, old(tokens)))
      decreases |tokens|, 0
    {
      if tokens == [] { return Failed; }
      var token := Next();
      match token {
        case Lit(l) =>
          if IsNumber(l) && tokens != [] {
            var peek := Next();
            if peek.Name? && peek.n in suffixes { return Got(Call(Ident(suffixes[peek.n]), [Const(l)])); }
            Unget(peek);
          }
          return Got(Const(l));
        case Name(n) => return Got(Ident(n));
        case NewLine => return Got(Const(StrLit("\n")));
        case Return => return Got(Ident(RESULT_NAME));
        case Oper(op) =>
          if !op.LParen? { return Failed; }
          r := ParseExpr(0);
          if r.Failed? || tokens == [] { return Failed; }
          var close := Next();
          if close != Oper(RParen) { return Failed; }
        case OtherToken(_) => return Failed;
      }
    }

    method ParseArgListOpt(close: Op) returns (ok: bool, args: seq<Expr>)
      modifies this
      ensures match ArgList(suffixes, close, old(tokens))
              case FailList => !ok
              case OkList(es, rest) => ok && args == es && tokens == rest
      decreases |tokens|, 30
    {
      args := [];
      if tokens != [] {
        var tok := Next();
        if tok == Oper(close) { return true, []; }
        Unget(tok);
        assert tokens == old(tokens);
      }
      ArgListForm(suffixes, close, tokens);
      var first := ParseExpr(0);
      if first.Failed? { return false, []; }
      args := [first.e];
      ghost var spec := ArgTail(suffixes, close, args, tokens);
      while true
        invariant |tokens| < |old(tokens)|
        invariant ArgTail(suffixes, close, args, tokens) == spec
        decreases |tokens|
      {
        if tokens == [] { return false, []; }
        var t := Next();
        if t == Oper(close) { return true, args; }
        if t != Oper(Comma) { return false, []; }
        var e := ParseExpr(0);
        if e.Failed? { return false, []; }
        args := args + [e.e];
      }
    }

    /** Behind `base[index`. */
    method ParseIndexRest(base: Expr, index: Expr) returns (r: Result)
      modifies this
      ensures Reads(r, IndexTail(suffixes, base, index, old(tokens)))
      decreases |tokens|, 20
    {
      if tokens == [] { return Failed; }
      var tok := Next();
      if tok == Oper(RSqBr) { return Got(Index(base, index)); }
      if tok == Oper(Colon) {
        var to := ParseExpr(0);
        if to.Failed? || tokens == [] { return Failed; }
        var close := Next();
        if close != Oper(RSqBr) { return Failed; }
        return Got(Slice(base, index, to.e));
      }
      if tok == Oper(Comma) {
        var ok, more := ParseArgListOpt(RSqBr);
        if !ok { return Failed; }
        return Got(MultiIndex(base, [index] + more));
      }
      return Failed;
    }

    method CallExpr() returns (r: Result)
      modifies this
      ensures Reads(r, Parse(suffixes, 8, old(tokens)))
      decreases |tokens|, 4
    {
      r := FactorExpr();
      if r.Failed? { return; }
      ghost var spec := CallTail(suffixes, r.e, tokens);
      while tokens != []
        invariant r.Got? && |tokens| < |old(tokens)| && CallTail(suffixes, r.e, tokens) == spec
        decreases |tokens|
      {
        var tok := Next();
        if tok == Oper(LParen) {
          if !r.e.Ident? { return Failed; }
          var ok, args := ParseArgListOpt(RParen);
          if !ok { return Failed; }
          r := Got(Call(r.e, args));
        } else if tok == Oper(LSqBr) {
          var index := ParseExpr(0);
          if index.Failed? { return Failed; }
          r := ParseIndexRest(r.e, index.e);
          if r.Failed? { return; }
        } else {
          Unget(tok);
          return;
        }
      }
    }

    method PowerExpr() returns (r: Result)
      modifies this
      ensures Reads(r, Parse(suffixes, 7, old(tokens)))
      decreases |tokens|, 6
    {
      LevelForm(suffixes, 7, tokens);
      r := CallExpr();
      if r.Failed? || tokens == [] { return; }
      var tok := Next();
      if tok == Oper(Pow) {
        var rhs := UnaryExpr();
        if rhs.Failed? { return Failed; }
        return Got(Binary(Pow, r.e, rhs.e));
      }
      Unget(tok);
    }

    method UnaryExpr() returns (r: Result)
      modifies this
      ensures Reads(r, Parse(suffixes, 6, old(tokens)))
      decreases |tokens|, 8
    {
      if tokens != [] {
        var tok := Next();
        if tok.Oper? && IsSign(tok.op) {
          PrefixForm(suffixes, 6, old(tokens));
          r := UnaryExpr();
          if r.Got? { r := Got(Unary(tok.op, r.e)); }
          return;
        }
        Unget(tok);
        assert tokens == old(tokens);
      }
      LevelForm(suffixes, 6, tokens);
      r := PowerExpr();
    }

    /** The left-associative levels; `level` stands for the next parser and the operators. */
    method BinaryOpHelper(level: nat) returns (r: Result)
      requires level == 0 || level == 1 || level == 4 || level == 5
      modifies this
      ensures Reads(r, Parse(suffixes, level, old(tokens)))
      decreases |tokens|, 20 - 2 * level
    {
      LevelForm(suffixes, level, tokens);
      r := ParseExpr(level + 1);
      if r.Failed? { return; }
      ghost var spec := BinaryTail(suffixes, level, r.e, tokens);
      while tokens != []
        invariant r.Got? && |tokens| < |old(tokens)| && BinaryTail(suffixes, level, r.e, tokens) == spec
        decreases |tokens|
      {
        var token := Next();
        if token.Oper? && OpOfLevel(level, token.op) {
          var next := ParseExpr(level + 1);
          if next.Failed? { return Failed; }
          r := Got(Binary(token.op, r.e, next.e));
        } else {
          Unget(token);
          return;
        }
      }
    }

    /** Collects operands and operators first; two or more comparisons become a conjunction of pairs. */
    method CompChainExpr() returns (r: Result)
      modifies this
      ensures Reads(r, Parse(suffixes, 3, old(tokens)))
      decreases |tokens|, 14
    {
      r := BinaryOpHelper(4);
      if r.Failed? { return; }
      var ops: seq<Op>, operands := [], [r.e];
      ghost var spec := ComparisonTail(suffixes, operands, ops, tokens);
      while tokens != []
        invariant |operands| == |ops| + 1 && |tokens| < |old(tokens)|
        invariant ComparisonTail(suffixes, operands, ops, tokens) == spec
        decreases |tokens|
      {
        var tok := Next();
        if !tok.Oper? || !IsComparison(tok.op) {
          Unget(tok);
          break;
        }
        var next := BinaryOpHelper(4);
        if next.Failed? { return Failed; }
        ops := ops + [tok.op];
        operands := operands + [next.e];
      }
      assert spec == Ok(Chain(operands, ops), tokens);
      var chain := PairUp(operands, ops);
      return Got(chain);
    }

    method NotExpr() returns (r: Result)
      modifies this
      ensures Reads(r, Parse(suffixes, 2, old(tokens)))
      decreases |tokens|, 16
    {
      if tokens != [] {
        var tok := Next();
        if tok == Oper(Not) {
          PrefixForm(suffixes, 2, old(tokens));
          r := NotExpr();
          if r.Got? { r := Got(Unary(Not, r.e)); }
          return;
        }
        Unget(tok);
        assert tokens == old(tokens);
      }
      LevelForm(suffixes, 2, tokens);
      r := CompChainExpr();
    }

    /** The parser of a level. */
    method ParseExpr(level: nat) returns (r: Result)
      requires level <= 6
      modifies this
      ensures Reads(r, Parse(suffixes, level, old(tokens)))
      decreases |tokens|, 21 - 2 * level
    {
      if level == 2 { r := NotExpr(); }
      else if level == 3 { r := CompChainExpr(); }
      else if level == 6 { r := UnaryExpr(); }
      else { r := BinaryOpHelper(level); }
    }
  }

  method PairUp(operands: seq<Expr>, ops: seq<Op>) returns (r: Expr)
    requires |operands| == |ops| + 1
    ensures r == Chain(operands, ops)
  {
    if ops == [] { return operands[0]; }
    r := Binary(ops[0], operands[0], operands[1]);
    for i := 1 to |ops|
      invariant r == Conjunction(operands[..i + 1], ops[..i])
    {
      assert operands[..i + 2][..i + 1] == operands[..i + 1] && ops[..i + 1][..i] == ops[..i];
      r := Binary(And, r, Binary(ops[i], operands[i], operands[i + 1]));
    }
    assert operands[..|ops| + 1] == operands && ops[..|ops|] == ops;
  }
}
