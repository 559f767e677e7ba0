/** Every tree of the grammar is read back from its tokens, up to the token that follows. */
module GrammarComplete {
  import opened Expressions
  import opened ExpressionGrammar

  /** What stands behind the base of a call, an index or a slice. */
  function Behind(t: Tree): seq<Token> {
    match t
    case CallOf(_, args) => [Oper(LParen)] + YieldList(args) + [Oper(RParen)]
    case IndexOf(_, i) => [Oper(LSqBr)] + Yield(i) + [Oper(RSqBr)]
    case SliceOf(_, i, j) => [Oper(LSqBr)] + Yield(i) + [Oper(Colon)] + Yield(j) + [Oper(RSqBr)]
    case MultiOf(_, xs) =>
      if xs == [] then [] else [Oper(LSqBr)] + Yield(xs[0]) + [Oper(Comma)] + YieldList(xs[1..]) + [Oper(RSqBr)]
    case _ => []
  }

  function BaseOf(t: Tree): Tree
    requires LevelOf(t) == 8
  {
    match t
    case CallOf(f, _) => f
    case IndexOf(b, _) => b
    case SliceOf(b, _, _) => b
    case MultiOf(b, _) => b
  }

  lemma BaseParts(s: Suffixes, t: Tree)
    requires Good(s, t) && LevelOf(t) == 8
    ensures Good(s, BaseOf(t)) && LevelOf(BaseOf(t)) >= 8
    ensures Yield(t) == Yield(BaseOf(t)) + Behind(t)
    ensures At(Behind(t), LParen) || At(Behind(t), LSqBr)
  {
    hide YieldList;
  }

  lemma Loosen(s: Suffixes, level: int, looser: int, before: seq<Token>, rest: seq<Token>)
    requires looser <= level && CanFollow(s, looser, before, rest)
    ensures CanFollow(s, level, before, rest)
  {
  }

  /** What follows a whole follows its last part. */
  lemma LastPart(s: Suffixes, level: int, a: seq<Token>, b: seq<Token>, rest: seq<Token>)
    requires CanFollow(s, level, a + b, rest) && b != []
    ensures CanFollow(s, level, b, rest)
  {
    assert (a + b)[|a + b| - 1] == b[|b| - 1];
  }

  /** An operator follows whatever binds tighter. */
  lemma OperFollows(s: Suffixes, level: int, before: seq<Token>, op: Op, rest: seq<Token>)
    requires Continues(Oper(op)) < level
    ensures CanFollow(s, level, before, [Oper(op)] + rest)
  {
  }

  /**
   The parser reads every tree: from what the tree is written as, at any level that is not
   tighter than the tree, it makes what the tree means and stops before the rest.
   */
  lemma {:induction false} Complete(s: Suffixes, t: Tree, level: nat, rest: seq<Token>)
    requires Good(s, t) && level <= LevelOf(t) && CanFollow(s, level, Yield(t), rest)
    ensures Parse(s, level, Yield(t) + rest) == Ok(Meaning(s, t), rest)
    decreases t, 4
  {
    hide Parse, Good, Yield, Meaning;
    Loosen(s, LevelOf(t), level, Yield(t), rest);
    OwnLevel(s, t, rest);
    YieldStarts(s, t);
    Lift(s, level, LevelOf(t), Yield(t) + rest, Meaning(s, t), rest);
  }

  lemma {:induction false} OwnLevel(s: Suffixes, t: Tree, rest: seq<Token>)
    requires Good(s, t) && CanFollow(s, LevelOf(t), Yield(t), rest)
    ensures Parse(s, LevelOf(t), Yield(t) + rest) == Ok(Meaning(s, t), rest)
    decreases t, 3
  {
    match t
    case Atom(_) => AtomTrip(s, t, rest);
    case Suffixed(_, _) => SuffixedTrip(s, t, rest);
    case Paren(_) => ParenTrip(s, t, rest);
    case Prefix(_, _) => PrefixTrip(s, t, rest);
    case Compared(_, _, _) => ComparedTrip(s, t, rest);
    case Infix(op, _, _) => if op.Pow? { PowerTrip(s, t, rest); } else { LeftTrip(s, t, rest); }
    case _ => PostTrip(s, t, rest);
  }

  lemma AtomTrip(s: Suffixes, t: Tree, rest: seq<Token>)
    requires Good(s, t) && t.Atom? && NoSuffix(s, Yield(t), rest)
    ensures Parse(s, 9, Yield(t) + rest) == Ok(Meaning(s, t), rest)
  {
    assert (Yield(t) + rest)[1..] == rest;
  }

  lemma SuffixedTrip(s: Suffixes, t: Tree, rest: seq<Token>)
    requires Good(s, t) && t.Suffixed?
    ensures Parse(s, 9, Yield(t) + rest) == Ok(Meaning(s, t), rest)
  {
    var ts := Yield(t) + rest;
    assert ts[1..] == [Name(t.n)] + rest && ts[1..][1..] == rest;
  }

  lemma {:induction false} ParenTrip(s: Suffixes, t: Tree, rest: seq<Token>)
    requires Good(s, t) && t.Paren?
    ensures Parse(s, 9, Yield(t) + rest) == Ok(Meaning(s, t), rest)
    decreases t, 2
  {
    var ts, after := Yield(t) + rest, [Oper(RParen)] + rest;
    assert ts[1..] == Yield(t.inner) + after;
    Complete(s, t.inner, 0, after);
  }

  lemma {:induction false} PrefixTrip(s: Suffixes, t: Tree, rest: seq<Token>)
    requires Good(s, t) && t.Prefix? && CanFollow(s, LevelOf(t), Yield(t), rest)
    ensures Parse(s, LevelOf(t), Yield(t) + rest) == Ok(Meaning(s, t), rest)
    decreases t, 2
  {
    var ts := Yield(t) + rest;
    assert ts[1..] == Yield(t.x) + rest;
    YieldStarts(s, t.x);
    LastPart(s, LevelOf(t), [Oper(t.op)], Yield(t.x), rest);
    Complete(s, t.x, LevelOf(t), rest);
  }

  /** The parts of an operation and what follows, from its operator on. */
  lemma InfixParts(s: Suffixes, t: Tree, level: int, rest: seq<Token>) returns (after: seq<Token>)
    requires Good(s, t) && t.Infix? && CanFollow(s, level, Yield(t), rest)
    ensures Yield(t) + rest == Yield(t.left) + after
    ensures At(after, t.op) && after[1..] == Yield(t.right) + rest && CanFollow(s, level, Yield(t.right), rest)
  {
    after := [Oper(t.op)] + (Yield(t.right) + rest);
    YieldStarts(s, t.right);
    LastPart(s, level, Yield(t.left) + [Oper(t.op)], Yield(t.right), rest);
  }

  lemma {:induction false} PowerTrip(s: Suffixes, t: Tree, rest: seq<Token>)
    requires Good(s, t) && t.Infix? && t.op.Pow? && CanFollow(s, 7, Yield(t), rest)
    ensures Parse(s, 7, Yield(t) + rest) == Ok(Meaning(s, t), rest)
    decreases t, 2
  {
    hide Parse, Yield;
    var after := InfixParts(s, t, 7, rest);
    Complete(s, t.left, 8, after);
    Complete(s, t.right, 6, rest);
    OnePower(s, Meaning(s, t.left), Meaning(s, t.right), after, rest);
    LevelStep(s, 7, Yield(t) + rest);
  }

  lemma OnePower(s: Suffixes, l: Expr, r: Expr, after: seq<Token>, rest: seq<Token>)
    requires At(after, Pow) && Parse(s, 6, after[1..]) == Ok(r, rest)
    ensures LevelRest(s, 7, l, after) == Ok(Binary(Pow, l, r), rest)
  {
  }

  lemma LevelStep(s: Suffixes, level: nat, ts: seq<Token>)
    requires level <= 8 && level != 2 && level != 6
    ensures var p := Parse(s, level + 1, ts);
            Parse(s, level, ts) == if p.Ok? then LevelRest(s, level, p.e, p.rest) else Fail
  {
  }

  predicate LeftAssociative(level: nat) { level == 0 || level == 1 || level == 4 || level == 5 }

  /** Reading a left-associative level starts with the whole left operand, whatever its depth. */
  lemma {:induction false} Spine(s: Suffixes, level: nat, t: Tree, rest: seq<Token>)
    requires Good(s, t) && level <= LevelOf(t) && LeftAssociative(level) && CanFollow(s, level + 1, Yield(t), rest)
    ensures Parse(s, level, Yield(t) + rest) == BinaryTail(s, level, Meaning(s, t), rest)
    decreases t, 5
  {
    if LevelOf(t) == level {
      SpineStep(s, level, t, rest);
    } else {
      Complete(s, t, level + 1, rest);
      hide Parse, Yield, BinaryTail;
      LevelStep(s, level, Yield(t) + rest);
    }
  }

  lemma {:induction false} SpineStep(s: Suffixes, level: nat, t: Tree, rest: seq<Token>)
    requires Good(s, t) && LevelOf(t) == level && LeftAssociative(level) && CanFollow(s, level + 1, Yield(t), rest)
    ensures Parse(s, level, Yield(t) + rest) == BinaryTail(s, level, Meaning(s, t), rest)
    decreases t, 1
  {
    hide Parse, Yield;
    var after := InfixParts(s, t, level + 1, rest);
    OperFollows(s, level + 1, Yield(t.left), t.op, after[1..]);
    assert after == [Oper(t.op)] + after[1..];
    Spine(s, level, t.left, after);
    Complete(s, t.right, level + 1, rest);
    OneOperator(s, level, Meaning(s, t.left), after, Meaning(s, t.right), rest);
  }

  lemma OneOperator(s: Suffixes, level: nat, l: Expr, after: seq<Token>, r: Expr, rest: seq<Token>)
    requires after != [] && after[0].Oper? && OpOfLevel(level, after[0].op) && Parse(s, level + 1, after[1..]) == Ok(r, rest)
    ensures BinaryTail(s, level, l, after) == BinaryTail(s, level, Binary(after[0].op, l, r), rest)
  {
  }

  lemma {:induction false} LeftTrip(s: Suffixes, t: Tree, rest: seq<Token>)
    requires Good(s, t) && t.Infix? && !t.op.Pow? && CanFollow(s, LevelOf(t), Yield(t), rest)
    ensures Parse(s, LevelOf(t), Yield(t) + rest) == Ok(Meaning(s, t), rest)
    decreases t, 2
  {
    hide Parse, Yield, Meaning;
    SpineStep(s, LevelOf(t), t, rest);
    assert BinaryTail(s, LevelOf(t), Meaning(s, t), rest) == Ok(Meaning(s, t), rest);
  }

  // ---------- comparisons ----------

  lemma {:induction false} ComparedTrip(s: Suffixes, t: Tree, rest: seq<Token>)
    requires Good(s, t) && t.Compared? && CanFollow(s, 3, Yield(t), rest)
    ensures Parse(s, 3, Yield(t) + rest) == Ok(Meaning(s, t), rest)
    decreases t, 2
  {
    var after := YieldChain(t.ops, t.operands) + rest;
    assert Yield(t) + rest == Yield(t.first) + after;
    ChainStarts(s, t.ops, t.operands, rest);
    hide Parse, Yield, YieldChain, ComparisonTail;
    LastPart(s, 3, Yield(t.first), YieldChain(t.ops, t.operands), rest);
    Complete(s, t.first, 4, after);
    LevelStep(s, 3, Yield(t) + rest);
    ChainTrip(s, [Meaning(s, t.first)], [], t.ops, t.operands, rest);
    assert [] + t.ops == t.ops;
  }

  lemma ChainStarts(s: Suffixes, ops: seq<Op>, xs: seq<Tree>, rest: seq<Token>)
    requires |ops| == |xs| >= 1 && AllComparisons(ops)
    ensures YieldChain(ops, xs) != []
    ensures forall before :: CanFollow(s, 4, before, YieldChain(ops, xs) + rest)
  {
    hide Yield;
    assert (YieldChain(ops, xs) + rest)[0] == Oper(ops[0]);
  }

  lemma ChainParts(ops: seq<Op>, xs: seq<Tree>, rest: seq<Token>)
    requires |ops| == |xs| >= 1
    ensures var ts := YieldChain(ops, xs) + rest;
            At(ts, ops[0]) && ts[1..] == Yield(xs[0]) + (YieldChain(ops[1..], xs[1..]) + rest)
  {
    hide Yield;
    var tail := YieldChain(ops[1..], xs[1..]);
    assert YieldChain(ops, xs) == [Oper(ops[0])] + Yield(xs[0]) + tail;
    HeadAndTail(Oper(ops[0]), Yield(xs[0]), tail, rest, YieldChain(ops, xs) + rest);
  }

  lemma HeadAndTail(t: Token, a: seq<Token>, b: seq<Token>, c: seq<Token>, ts: seq<Token>)
    requires ts == [t] + a + b + c
    ensures ts != [] && ts[0] == t && ts[1..] == a + (b + c)
  {
    assert ts[1..] == a + b + c;
  }

  lemma ComparisonStep(s: Suffixes, seen: seq<Expr>, ops: seq<Op>, ts: seq<Token>, op: Op, x: Expr, later: seq<Token>)
    requires |seen| == |ops| + 1 && At(ts, op) && IsComparison(op) && Parse(s, 4, ts[1..]) == Ok(x, later)
    ensures ComparisonTail(s, seen, ops, ts) == ComparisonTail(s, seen + [x], ops + [op], later)
  {
  }

  lemma ComparisonStops(s: Suffixes, seen: seq<Expr>, ops: seq<Op>, rest: seq<Token>)
    requires |seen| == |ops| + 1 && Stops(3, rest)
    ensures ComparisonTail(s, seen, ops, rest) == Ok(Chain(seen, ops), rest)
  {
  }

  /** The last operand ends the chain, and the next comparison ends every other. */
  lemma OperandEnds(s: Suffixes, ops: seq<Op>, xs: seq<Tree>, rest: seq<Token>)
    requires |ops| == |xs| >= 1 && AllComparisons(ops) && AllGood(s, 4, xs) && CanFollow(s, 3, YieldChain(ops, xs), rest)
    ensures CanFollow(s, 4, Yield(xs[0]), YieldChain(ops[1..], xs[1..]) + rest)
    ensures |xs| > 1 ==> CanFollow(s, 3, YieldChain(ops[1..], xs[1..]), rest)
    ensures Stops(3, rest)
  {
    var tail := YieldChain(ops[1..], xs[1..]);
    assert YieldChain(ops, xs) == [Oper(ops[0])] + Yield(xs[0]) + tail;
    YieldStarts(s, xs[0]);
    hide Yield, YieldChain;
    if |xs| > 1 {
      ChainStarts(s, ops[1..], xs[1..], rest);
      LastPart(s, 3, [Oper(ops[0])] + Yield(xs[0]), tail, rest);
    } else {
      NoChain(ops[1..], xs[1..]);
      assert tail + rest == rest && [Oper(ops[0])] + Yield(xs[0]) + tail == [Oper(ops[0])] + Yield(xs[0]);
      LastPart(s, 3, [Oper(ops[0])], Yield(xs[0]), rest);
    }
  }

  lemma NoChain(ops: seq<Op>, xs: seq<Tree>)
    requires xs == []
    ensures YieldChain(ops, xs) == []
  {
  }

  lemma {:induction false} ChainTrip(s: Suffixes, seen: seq<Expr>, seenOps: seq<Op>, ops: seq<Op>, xs: seq<Tree>, rest: seq<Token>)
    requires |seen| == |seenOps| + 1 && |ops| == |xs| && AllGood(s, 4, xs) && AllComparisons(ops) && Stops(3, rest)
    requires xs != [] ==> CanFollow(s, 3, YieldChain(ops, xs), rest)
    ensures ComparisonTail(s, seen, seenOps, YieldChain(ops, xs) + rest) == Ok(Chain(seen + Meanings(s, 4, xs), seenOps + ops), rest)
    decreases xs, 6
  {
    if xs == [] {
      ComparisonStops(s, seen, seenOps, rest);
      NoChain(ops, xs);
      assert [] + rest == rest && seen + Meanings(s, 4, xs) == seen && seenOps + ops == seenOps;
    } else {
      hide Yield, Chain, Parse, YieldChain, ComparisonTail, CanFollow;
      var later, x := YieldChain(ops[1..], xs[1..]) + rest, Meaning(s, xs[0]);
      ChainParts(ops, xs, rest);
      OperandEnds(s, ops, xs, rest);
      Complete(s, xs[0], 4, later);
      ComparisonStep(s, seen, seenOps, YieldChain(ops, xs) + rest, ops[0], x, later);
      ChainTrip(s, seen + [x], seenOps + [ops[0]], ops[1..], xs[1..], rest);
      assert seen + [x] + Meanings(s, 4, xs[1..]) == seen + Meanings(s, 4, xs) && seenOps + [ops[0]] + ops[1..] == seenOps + ops;
    }
  }

  // ---------- calls, indices, slices ----------

  lemma {:induction false} PostTrip(s: Suffixes, t: Tree, rest: seq<Token>)
    requires Good(s, t) && LevelOf(t) == 8 && CanFollow(s, 8, Yield(t), rest)
    ensures Parse(s, 8, Yield(t) + rest) == Ok(Meaning(s, t), rest)
    decreases t, 2
  {
    hide Parse, Yield;
    PostSpineStep(s, t, rest);
    assert CallTail(s, Meaning(s, t), rest) == Ok(Meaning(s, t), rest);
  }

  lemma {:induction false} PostSpineStep(s: Suffixes, t: Tree, rest: seq<Token>)
    requires Good(s, t) && LevelOf(t) == 8
    ensures Parse(s, 8, Yield(t) + rest) == CallTail(s, Meaning(s, t), rest)
    decreases t, 1
  {
    hide Yield, LevelOf, Parse, Behind, Meaning;
    BaseParts(s, t);
    var b, after := BaseOf(t), Behind(t) + rest;
    assert Yield(t) + rest == Yield(b) + after && after[0] == Behind(t)[0];
    BaseSmaller(t);
    PostSpine(s, b, after);
    PostfixTrip(s, t, rest);
    assert CallTail(s, Meaning(s, b), after) == CallTail(s, Meaning(s, t), rest);
  }

  lemma BaseSmaller(t: Tree)
    requires LevelOf(t) == 8
    ensures BaseOf(t) < t
  {
  }

  /** Reading a call level starts with the whole base. */
  lemma {:induction false} PostSpine(s: Suffixes, t: Tree, rest: seq<Token>)
    requires Good(s, t) && LevelOf(t) >= 8 && NoSuffix(s, Yield(t), rest)
    ensures Parse(s, 8, Yield(t) + rest) == CallTail(s, Meaning(s, t), rest)
    decreases t, 5
  {
    if LevelOf(t) == 8 {
      PostSpineStep(s, t, rest);
    } else {
      OwnLevel(s, t, rest);
      hide Parse, Yield;
      LevelStep(s, 8, Yield(t) + rest);
    }
  }

  lemma CallStep(s: Suffixes, base: Expr, ts: seq<Token>, args: seq<Expr>, rest: seq<Token>)
    requires At(ts, LParen) && base.Ident? && ArgList(s, RParen, ts[1..]) == OkList(args, rest)
    ensures Postfix(s, base, ts) == Ok(Call(base, args), rest)
  {
  }

  lemma IndexStep(s: Suffixes, base: Expr, ts: seq<Token>, at: Expr, after: seq<Token>)
    requires At(ts, LSqBr) && Parse(s, 0, ts[1..]) == Ok(at, after)
    ensures Postfix(s, base, ts) == IndexTail(s, base, at, after)
  {
  }

  lemma SliceStep(s: Suffixes, base: Expr, from: Expr, after: seq<Token>, to: Expr, last: seq<Token>)
    requires At(after, Colon) && Parse(s, 0, after[1..]) == Ok(to, last) && At(last, RSqBr)
    ensures IndexTail(s, base, from, after) == Ok(Slice(base, from, to), last[1..])
  {
  }

  lemma MultiStep(s: Suffixes, base: Expr, at: Expr, after: seq<Token>, more: seq<Expr>, rest: seq<Token>)
    requires At(after, Comma) && ArgList(s, RSqBr, after[1..]) == OkList(more, rest)
    ensures IndexTail(s, base, at, after) == Ok(MultiIndex(base, [at] + more), rest)
  {
  }

  lemma {:induction false} PostfixTrip(s: Suffixes, t: Tree, rest: seq<Token>)
    requires Good(s, t) && LevelOf(t) == 8
    ensures At(Behind(t) + rest, LParen) || At(Behind(t) + rest, LSqBr)
    ensures Postfix(s, Meaning(s, BaseOf(t)), Behind(t) + rest) == Ok(Meaning(s, t), rest)
    decreases t, 0, 1
  {
    hide Postfix, Yield;
    BaseParts(s, t);
    match t
    case CallOf(_, _) => CallTrip(s, t, rest);
    case IndexOf(_, _) => IndexTrip(s, t, rest);
    case SliceOf(_, _, _) => SliceTrip(s, t, rest);
    case MultiOf(_, _) => MultiTrip(s, t, rest);
  }

  lemma {:induction false} CallTrip(s: Suffixes, t: Tree, rest: seq<Token>)
    requires Good(s, t) && t.CallOf?
    ensures At(Behind(t) + rest, LParen) && Postfix(s, Meaning(s, t.f), Behind(t) + rest) == Ok(Meaning(s, t), rest)
    decreases t, 0, 0
  {
    hide Yield, YieldList, ArgList, Postfix;
    var ts := Behind(t) + rest;
    assert ts[1..] == YieldList(t.args) + ([Oper(RParen)] + rest);
    ListTrip(s, RParen, t.args, rest);
    NamesAreIdents(s, t.f);
    CallStep(s, Meaning(s, t.f), ts, Meanings(s, 0, t.args), rest);
  }

  lemma {:induction false} IndexTrip(s: Suffixes, t: Tree, rest: seq<Token>)
    requires Good(s, t) && t.IndexOf?
    ensures At(Behind(t) + rest, LSqBr) && Postfix(s, Meaning(s, t.base), Behind(t) + rest) == Ok(Meaning(s, t), rest)
    decreases t, 0, 0
  {
    hide Yield, Parse, Postfix;
    var ts, last := Behind(t) + rest, [Oper(RSqBr)] + rest;
    assert ts[1..] == Yield(t.at) + last;
    Complete(s, t.at, 0, last);
    IndexStep(s, Meaning(s, t.base), ts, Meaning(s, t.at), last);
  }

  /** The two parts between three tokens. */
  lemma TwoParts(a: Token, x: seq<Token>, b: Token, y: seq<Token>, c: Token, rest: seq<Token>) returns (after: seq<Token>)
    ensures var ts := [a] + x + [b] + y + [c] + rest;
            ts[0] == a && ts[1..] == x + after && after == [b] + (y + ([c] + rest)) && after[1..] == y + ([c] + rest)
  {
    after := [b] + (y + ([c] + rest));
    assert after[1..] == y + ([c] + rest);
    var ts := [a] + x + [b] + y + [c] + rest;
    assert ts[1..] == x + [b] + y + [c] + rest;
    assert x + [b] + y + [c] + rest == x + after;
  }

  lemma {:induction false} SliceTrip(s: Suffixes, t: Tree, rest: seq<Token>)
    requires Good(s, t) && t.SliceOf?
    ensures At(Behind(t) + rest, LSqBr) && Postfix(s, Meaning(s, t.base), Behind(t) + rest) == Ok(Meaning(s, t), rest)
    decreases t, 0, 0
  {
    hide Yield, Parse, Postfix, IndexTail, CanFollow;
    var ts, last := Behind(t) + rest, [Oper(RSqBr)] + rest;
    var b, i, j := Meaning(s, t.base), Meaning(s, t.from), Meaning(s, t.to);
    var after := TwoParts(Oper(LSqBr), Yield(t.from), Oper(Colon), Yield(t.to), Oper(RSqBr), rest);
    OperFollows(s, 0, Yield(t.from), Colon, Yield(t.to) + last);
    OperFollows(s, 0, Yield(t.to), RSqBr, rest);
    Complete(s, t.from, 0, after);
    IndexStep(s, b, ts, i, after);
    Complete(s, t.to, 0, last);
    SliceStep(s, b, i, after, j, last);
    assert last[1..] == rest;
  }

  lemma {:induction false} MultiTrip(s: Suffixes, t: Tree, rest: seq<Token>)
    requires Good(s, t) && t.MultiOf?
    ensures At(Behind(t) + rest, LSqBr) && Postfix(s, Meaning(s, t.base), Behind(t) + rest) == Ok(Meaning(s, t), rest)
    decreases t, 0, 0
  {
    hide Yield, YieldList, Parse, Postfix, IndexTail, ArgList, CanFollow;
    var xs := t.indices;
    var ts, last := Behind(t) + rest, [Oper(RSqBr)] + rest;
    var b, i := Meaning(s, t.base), Meaning(s, xs[0]);
    var after := TwoParts(Oper(LSqBr), Yield(xs[0]), Oper(Comma), YieldList(xs[1..]), Oper(RSqBr), rest);
    OperFollows(s, 0, Yield(xs[0]), Comma, YieldList(xs[1..]) + last);
    Complete(s, xs[0], 0, after);
    IndexStep(s, b, ts, i, after);
    ListTrip(s, RSqBr, xs[1..], rest);
    MultiStep(s, b, i, after, Meanings(s, 0, xs[1..]), rest);
  }

  predicate Closes(op: Op) { op.RParen? || op.RSqBr? }

  lemma {:induction false} ListTrip(s: Suffixes, close: Op, ts: seq<Tree>, rest: seq<Token>)
    requires AllGood(s, 0, ts) && Closes(close)
    ensures ArgList(s, close, YieldList(ts) + ([Oper(close)] + rest)) == OkList(Meanings(s, 0, ts), rest)
    decreases ts, 9
  {
    hide Yield;
    var last := [Oper(close)] + rest;
    if ts == [] {
      assert YieldList(ts) + last == last && last[1..] == rest;
    } else {
      var more, all := YieldMore(ts[1..]) + last, YieldList(ts) + last;
      assert all == Yield(ts[0]) + more;
      YieldStarts(s, ts[0]);
      MoreStarts(s, Yield(ts[0]), ts[1..], close, rest);
      Complete(s, ts[0], 0, more);
      MoreTrip(s, close, [Meaning(s, ts[0])], ts[1..], rest);
    }
  }

  lemma MoreStarts(s: Suffixes, before: seq<Token>, ts: seq<Tree>, close: Op, rest: seq<Token>)
    requires Closes(close)
    ensures CanFollow(s, 0, before, YieldMore(ts) + ([Oper(close)] + rest))
  {
    hide Yield;
  }

  lemma ArgStep(s: Suffixes, close: Op, before: seq<Expr>, ts: seq<Token>, x: Expr, more: seq<Token>)
    requires At(ts, Comma) && Closes(close) && Parse(s, 0, ts[1..]) == Ok(x, more)
    ensures ArgTail(s, close, before, ts) == ArgTail(s, close, before + [x], more)
  {
  }

  lemma MoreParts(ts: seq<Tree>, last: seq<Token>)
    requires ts != []
    ensures var all := YieldMore(ts) + last;
            At(all, Comma) && all[1..] == Yield(ts[0]) + (YieldMore(ts[1..]) + last)
  {
    hide Yield;
    var tail := YieldMore(ts[1..]);
    assert YieldMore(ts) == [Oper(Comma)] + Yield(ts[0]) + tail;
    HeadAndTail(Oper(Comma), Yield(ts[0]), tail, last, YieldMore(ts) + last);
  }

  lemma {:induction false} MoreTrip(s: Suffixes, close: Op, before: seq<Expr>, ts: seq<Tree>, rest: seq<Token>)
    requires AllGood(s, 0, ts) && Closes(close)
    ensures ArgTail(s, close, before, YieldMore(ts) + ([Oper(close)] + rest)) == OkList(before + Meanings(s, 0, ts), rest)
    decreases ts, 8
  {
    var last := [Oper(close)] + rest;
    if ts == [] {
      assert YieldMore(ts) + last == last && last[1..] == rest && before + Meanings(s, 0, ts) == before;
    } else {
      hide Yield, YieldMore, ArgTail, Parse, CanFollow;
      var more, x := YieldMore(ts[1..]) + last, Meaning(s, ts[0]);
      MoreParts(ts, last);
      MoreStarts(s, Yield(ts[0]), ts[1..], close, rest);
      Complete(s, ts[0], 0, more);
      ArgStep(s, close, before, YieldMore(ts) + last, x, more);
      MoreTrip(s, close, before + [x], ts[1..], rest);
      assert before + [x] + Meanings(s, 0, ts[1..]) == before + Meanings(s, 0, ts);
    }
  }
}
