/**
 The expression layer of the parser as functions on token lists: ten levels from `или` down
 to literals and names, each handing over to the next tighter one.
 */
module Expressions {
  datatype Literal = IntLit(i: int) | FloatLit(bits: int) | CharLit(c: int) | StrLit(s: string) | BoolLit(b: bool)

  datatype Op =
    | LParen | RParen | LSqBr | RSqBr | Comma | Colon
    | Plus | Minus | Mul | FDiv | Pow
    | Eq | Neq | Lt | Gt | Leq | Geq
    | Not | And | Or
    | OtherOp(code: int)

  datatype Token =
    | Lit(l: Literal)
    | Name(n: string)
    | NewLine                    // the keyword that stands for a line break
    | Return                     // the keyword that names the result variable
    | Oper(op: Op)
    | OtherToken(code: int)

  datatype Expr =
    | Const(lit: Literal)
    | Ident(n: string)
    | Call(callee: Expr, args: seq<Expr>)
    | Index(base: Expr, at: Expr)
    | MultiIndex(base: Expr, indices: seq<Expr>)
    | Slice(base: Expr, from: Expr, to: Expr)
    | Unary(op: Op, e: Expr)
    | Binary(op: Op, left: Expr, right: Expr)

  /** The name under which the keyword for the result is known. */
  const RESULT_NAME: string := "знач"

  /** Names that may follow a number, with the function they call. */
  type Suffixes = map<string, string>

  datatype Parsed = Ok(e: Expr, rest: seq<Token>) | Fail

  datatype ParsedList = OkList(es: seq<Expr>, rest: seq<Token>) | FailList

  predicate IsNumber(l: Literal) { l.IntLit? || l.FloatLit? }

  predicate At(ts: seq<Token>, op: Op) { ts != [] && ts[0] == Oper(op) }

  /** Operators of the left-associative levels. */
  predicate OpOfLevel(level: nat, op: Op) {
    || (level == 0 && op.Or?)
    || (level == 1 && op.And?)
    || (level == 4 && (op.Plus? || op.Minus?))
    || (level == 5 && (op.Mul? || op.FDiv?))
  }

  predicate IsComparison(op: Op) { op.Eq? || op.Neq? || op.Lt? || op.Gt? || op.Leq? || op.Geq? }

  predicate IsSign(op: Op) { op.Plus? || op.Minus? }

  // ---------- literals, names, parentheses ----------

  function WithSuffix(s: Suffixes, l: Literal, ts: seq<Token>): (r: Parsed)
    ensures r.Ok? && |r.rest| <= |ts|
  {
    if IsNumber(l) && ts != [] && ts[0].Name? && ts[0].n in s
    then Ok(Call(Ident(s[ts[0].n]), [Const(l)]), ts[1..])
    else Ok(Const(l), ts)
  }

  function Factor(s: Suffixes, ts: seq<Token>): (r: Parsed)
    ensures r.Ok? ==> |r.rest| < |ts|
    decreases |ts|, 0
  {
    if ts == [] then Fail else
    match ts[0]
    case Lit(l) => WithSuffix(s, l, ts[1..])
    case Name(n) => Ok(Ident(n), ts[1..])
    case NewLine => Ok(Const(StrLit("\n")), ts[1..])
    case Return => Ok(Ident(RESULT_NAME), ts[1..])
    case Oper(op) =>
      if !op.LParen? then Fail else
      (match Parse(s, 0, ts[1..])
       case Fail => Fail
       case Ok(e, rest) => if At(rest, RParen) then Ok(e, rest[1..]) else Fail)
    case OtherToken(_) => Fail
  }

  // ---------- calls, indices and slices ----------

  /** Expressions separated by commas up to the closing token, which has been seen to differ at the start. */
  function ArgTail(s: Suffixes, close: Op, args: seq<Expr>, ts: seq<Token>): (r: ParsedList)
    ensures r.OkList? ==> |r.rest| < |ts|
    decreases |ts|, 20
  {
    if At(ts, close) then OkList(args, ts[1..])
    else if !At(ts, Comma) then FailList
    else match Parse(s, 0, ts[1..])
         case Fail => FailList
         case Ok(e, rest) => ArgTail(s, close, args + [e], rest)
  }

  function ArgList(s: Suffixes, close: Op, ts: seq<Token>): (r: ParsedList)
    ensures r.OkList? ==> |r.rest| < |ts|
    decreases |ts|, 30
  {
    if At(ts, close) then OkList([], ts[1..])
    else match Parse(s, 0, ts)
         case Fail => FailList
         case Ok(e, rest) => ArgTail(s, close, [e], rest)
  }

  /** What follows `base[index`. */
  function IndexTail(s: Suffixes, base: Expr, index: Expr, ts: seq<Token>): (r: Parsed)
    ensures r.Ok? ==> |r.rest| < |ts|
    decreases |ts|, 20
  {
    if At(ts, RSqBr) then Ok(Index(base, index), ts[1..])
    else if At(ts, Colon) then
      (match Parse(s, 0, ts[1..])
       case Fail => Fail
       case Ok(to, rest) => if At(rest, RSqBr) then Ok(Slice(base, index, to), rest[1..]) else Fail)
    else if At(ts, Comma) then
      (match ArgList(s, RSqBr, ts[1..])
       case FailList => Fail
       case OkList(more, rest) => Ok(MultiIndex(base, [index] + more), rest))
    else Fail
  }

  /** One call or index behind `base`; only a name can be called. */
  function Postfix(s: Suffixes, base: Expr, ts: seq<Token>): (r: Parsed)
    requires At(ts, LParen) || At(ts, LSqBr)
    ensures r.Ok? ==> |r.rest| < |ts|
    decreases |ts|, 20
  {
    if At(ts, LParen) then
      if !base.Ident? then Fail else
      match ArgList(s, RParen, ts[1..])
      case FailList => Fail
      case OkList(args, rest) => Ok(Call(base, args), rest)
    else
      match Parse(s, 0, ts[1..])
      case Fail => Fail
      case Ok(index, rest) => IndexTail(s, base, index, rest)
  }

  function CallTail(s: Suffixes, base: Expr, ts: seq<Token>): (r: Parsed)
    ensures r.Ok? ==> |r.rest| <= |ts|
    decreases |ts|, 21
  {
    if !At(ts, LParen) && !At(ts, LSqBr) then Ok(base, ts) else
    match Postfix(s, base, ts)
    case Fail => Fail
    case Ok(e, rest) => CallTail(s, e, rest)
  }

  // ---------- operators ----------

  function BinaryTail(s: Suffixes, level: nat, left: Expr, ts: seq<Token>): (r: Parsed)
    ensures r.Ok? ==> |r.rest| <= |ts|
    decreases |ts|, 20
  {
    if ts != [] && ts[0].Oper? && OpOfLevel(level, ts[0].op) then
      match Parse(s, level + 1, ts[1..])
      case Fail => Fail
      case Ok(right, rest) => BinaryTail(s, level, Binary(ts[0].op, left, right), rest)
    else Ok(left, ts)
  }

  /** `a < b < c` means `a < b и b < c`. */
  function Conjunction(operands: seq<Expr>, ops: seq<Op>): Expr
    requires |operands| == |ops| + 1 && ops != []
    decreases |ops|
  {
    var n := |ops|;
    var last := Binary(ops[n - 1], operands[n - 1], operands[n]);
    if n == 1 then last else Binary(And, Conjunction(operands[..n], ops[..n - 1]), last)
  }

  function Chain(operands: seq<Expr>, ops: seq<Op>): Expr
    requires |operands| == |ops| + 1
  {
    if ops == [] then operands[0] else Conjunction(operands, ops)
  }

  function ComparisonTail(s: Suffixes, operands: seq<Expr>, ops: seq<Op>, ts: seq<Token>): (r: Parsed)
    requires |operands| == |ops| + 1
    ensures r.Ok? ==> |r.rest| <= |ts|
    decreases |ts|, 20
  {
    if ts != [] && ts[0].Oper? && IsComparison(ts[0].op) then
      match Parse(s, 4, ts[1..])
      case Fail => Fail
      case Ok(e, rest) => ComparisonTail(s, operands + [e], ops + [ts[0].op], rest)
    else Ok(Chain(operands, ops), ts)
  }

  function PowerRest(s: Suffixes, base: Expr, ts: seq<Token>): (r: Parsed)
    ensures r.Ok? ==> |r.rest| <= |ts|
    decreases |ts|, 20
  {
    if !At(ts, Pow) then Ok(base, ts) else
    match Parse(s, 6, ts[1..])
    case Fail => Fail
    case Ok(e, rest) => Ok(Binary(Pow, base, e), rest)
  }

  /**
   Levels: 0 `или`, 1 `и`, 2 `не`, 3 comparisons, 4 sums, 5 products, 6 signs, 7 powers,
   8 calls and indices, 9 literals, names and parentheses.
   */
  function Parse(s: Suffixes, level: nat, ts: seq<Token>): (r: Parsed)
    ensures r.Ok? ==> |r.rest| < |ts|
    decreases |ts|, if level <= 9 then 10 - level else 1
  {
    if level >= 9 then Factor(s, ts)
    else if level == 2 && At(ts, Not) then
      match Parse(s, 2, ts[1..])
      case Fail => Fail
      case Ok(e, rest) => Ok(Unary(Not, e), rest)
    else if level == 6 && ts != [] && ts[0].Oper? && IsSign(ts[0].op) then
      match Parse(s, 6, ts[1..])
      case Fail => Fail
      case Ok(e, rest) => Ok(Unary(ts[0].op, e), rest)
    else
      match Parse(s, level + 1, ts)
      case Fail => Fail
      case Ok(e, rest) => LevelRest(s, level, e, rest)
  }

  /** What a level does once its first operand is read. */
  function LevelRest(s: Suffixes, level: nat, e: Expr, ts: seq<Token>): (r: Parsed)
    ensures r.Ok? ==> |r.rest| <= |ts|
    decreases |ts|, 22
  {
    if level == 3 then ComparisonTail(s, [e], [], ts)
    else if level == 7 then PowerRest(s, e, ts)
    else if level == 8 then CallTail(s, e, ts)
    else if level == 2 || level == 6 then Ok(e, ts)
    else BinaryTail(s, level, e, ts)
  }
}
