/**
 The intermediate representation and its meaning: functions made of labelled blocks,
 temporaries private to each activation, variables that are separate memory objects.
 Nothing here knows about code addresses, frame offsets or a shared register file.
 */
module Ir {
  import opened Words
  import opened Types

  // ---------- programs ----------

  datatype Op =
    | SAlloc | Ste | Lde | Lea | Load | Stre | Copy
    | Add | Sub | Mul | Div | Rem | And | Or | Xor | Shl | Shr
    | Lt | Gt | Le | Ge | Eq | Ne
    | Neg | Not | BitNot | Mov | I2F | F2I | Bitcast
    | Jmp | Cmp | Arg | Call | Ret

  datatype Operand =
    | Tmp(t: int)
    | Slot(s: int)               // global variable
    | Local(l: int)              // variable ordinal
    | Imm(v: Int64, ty: Type)
    | Label(lab: int)

  /** `dest` is -1 when the instruction has no destination. */
  datatype Instr = Instr(op: Op, dest: int, operands: seq<Operand>)

  datatype Block = Block(lab: int, instrs: seq<Instr>)

  datatype Function = Function(
    argLocals: seq<int>,
    blocks: seq<Block>,
    localTypes: seq<Type>,
    tmpTypes: seq<Type>)

  datatype Program = Program(
    functions: seq<Function>,
    globalTypes: seq<Type>,
    symToFunc: map<int, nat>)

  /** Floating point arithmetic stays opaque: any functions on register words. */
  datatype Fpu = Fpu(
    arith: (Op, Word, Word) -> Word,
    compare: (Op, Word, Word) -> bool,
    negate: Word -> Word,
    fromWord: Word -> Word,
    toWord: Word -> Word,
    fromQuad: (bool, Quad) -> Word,
    toQuad: Word -> Quad)

  function TmpType(fn: Function, t: int): Type {
    if 0 <= t < |fn.tmpTypes| then fn.tmpTypes[t] else NoType
  }

  function LocalType(fn: Function, l: int): Type {
    if 0 <= l < |fn.localTypes| then fn.localTypes[l] else NoType
  }

  function OperandType(p: Program, fn: Function, o: Operand): Type {
    match o
    case Tmp(t) => TmpType(fn, t)
    case Slot(s) => if 0 <= s < |p.globalTypes| then p.globalTypes[s] else NoType
    case Local(l) => LocalType(fn, l)
    case Imm(_, ty) => ty
    case Label(_) => NoType
  }

  // ---------- memory objects of an activation ----------

  /** The struct temporaries of a function, from temporary `from` on. */
  function StructTmps(tmpTypes: seq<Type>, from: nat): seq<(int, nat)>
    requires from <= |tmpTypes|
    decreases |tmpTypes| - from
  {
    if from == |tmpTypes| then []
    else (if tmpTypes[from].Struct? then [(from, SizeInBytes(tmpTypes[from]))] else [])
         + StructTmps(tmpTypes, from + 1)
  }

  predicate IsSAlloc(ins: Instr) {
    ins.op.SAlloc? && ins.dest >= 0 && |ins.operands| == 1
  }

  function SAllocSize(ins: Instr): nat
    requires IsSAlloc(ins)
  {
    if ins.operands[0].Imm? && ins.operands[0].v >= 0 then ins.operands[0].v else 0
  }

  function SAllocs(code: seq<Instr>): seq<(int, nat)> {
    if code == [] then []
    else (if IsSAlloc(code[0]) then [(code[0].dest, SAllocSize(code[0]))] else []) + SAllocs(code[1..])
  }

  function Flatten(blocks: seq<Block>): seq<Instr> {
    if blocks == [] then [] else blocks[0].instrs + Flatten(blocks[1..])
  }

  /** Temporaries that own storage, with its size. */
  function Slots(fn: Function): seq<(int, nat)> {
    StructTmps(fn.tmpTypes, 0) + SAllocs(Flatten(fn.blocks))
  }

  function SizesOf(slots: seq<(int, nat)>): (r: seq<nat>)
    ensures |r| == |slots|
  {
    seq(|slots|, i requires 0 <= i < |slots| => slots[i].1)
  }

  function LocalSizes(fn: Function): (r: seq<nat>)
    ensures |r| == |fn.localTypes|
  {
    seq(|fn.localTypes|, i requires 0 <= i < |fn.localTypes| => SizeInBytes(fn.localTypes[i]))
  }

  /** Sizes of the memory objects of one activation: first its variables, then its slots. */
  function Objects(fn: Function): (r: seq<nat>)
    ensures |r| == |fn.localTypes| + |Slots(fn)|
  {
    LocalSizes(fn) + SizesOf(Slots(fn))
  }

  function Position(slots: seq<(int, nat)>, t: int): (r: Option<nat>)
    ensures r.Some? ==> r.value < |slots| && slots[r.value].0 == t
    ensures r.None? ==> forall i :: 0 <= i < |slots| ==> slots[i].0 != t
  {
    if slots == [] then None
    else if slots[0].0 == t then Some(0)
    else match Position(slots[1..], t)
         case None => None
         case Some(i) => Some(i + 1)
  }

  /** A variable occupies whole machine words. */
  function Extent(size: nat): (r: nat)
    ensures r >= size
  {
    AlignUp(size, 8)
  }

  /** Where the objects of an activation live: one address per object. */
  type Placement = seq<nat>

  predicate InObject(size: nat, at: nat, a: nat) {
    at <= a < at + Extent(size)
  }

  ghost predicate Owned(sizes: seq<nat>, place: Placement, a: nat) {
    |place| == |sizes| && exists k :: 0 <= k < |sizes| && InObject(sizes[k], place[k], a)
  }

  ghost predicate Disjoint(sizes: seq<nat>, place: Placement)
    requires |place| == |sizes|
  {
    forall j, k :: 0 <= j < k < |sizes| ==>
      place[j] + Extent(sizes[j]) <= place[k] || place[k] + Extent(sizes[k]) <= place[j]
  }

  // ---------- memory ----------

  type Memory = map<nat, Byte>

  ghost predicate InMem(mem: Memory, a: nat, n: nat) {
    forall i :: a <= i < a + n ==> i in mem
  }

  ghost function ReadMem(mem: Memory, a: nat, n: nat): (r: seq<Byte>)
    requires InMem(mem, a, n)
    ensures |r| == n
  {
    seq(n, i requires 0 <= i < n => mem[a + i])
  }

  ghost function WriteMem(mem: Memory, a: nat, bytes: seq<Byte>): (r: Memory)
    ensures r.Keys == mem.Keys
  {
    map k | k in mem :: if a <= k < a + |bytes| then bytes[k - a] else mem[k]
  }

  function Zeros(n: nat): (r: seq<Byte>)
    ensures |r| == n && forall i :: 0 <= i < n ==> r[i] == 0
  {
    seq(n, _ => 0)
  }

  // ---------- values ----------

  datatype Val = W(w: Word) | Q(q: Quad)

  type Tmps = map<int, Val>

  function Read64(tmps: Tmps, o: Operand): Option<Word> {
    match o
    case Tmp(t) => if t in tmps && tmps[t].W? then Some(tmps[t].w) else None
    case Imm(v, _) => Some(WordOfInt(v))
    case _ => None
  }

  /** A wide immediate carries its low half only; its type says how it widens. */
  function WideImm(v: Int64, unsigned: bool): Quad {
    if unsigned then WordOfInt(v) else QuadOfInt(v)
  }

  function Read128(tmps: Tmps, o: Operand): Option<Quad> {
    match o
    case Tmp(t) => if t in tmps && tmps[t].Q? then Some(tmps[t].q) else None
    case Imm(v, ty) => Some(WideImm(v, ty == Prim(U128)))
    case _ => None
  }

  function ReadVal(tmps: Tmps, o: Operand, wide: bool): Option<Val> {
    if wide then
      match Read128(tmps, o) case None => None case Some(q) => Some(Q(q))
    else
      match Read64(tmps, o) case None => None case Some(w) => Some(W(w))
  }

  /** Integer arithmetic at a width and signedness; undefined division is not a value. */
  function IntArith(w: Width, op: Op, signed: bool, a: nat, b: nat): (r: Option<nat>)
    ensures r.Some? ==> r.value < Modulus(w)
  {
    var x, y := Meaning(w, signed, a), Meaning(w, signed, b);
    match op
    case Add => Some(AddW(w, x, y))
    case Sub => Some(SubW(w, x, y))
    case Mul => Some(MulW(w, x, y))
    case Div => DivW(w, signed, x, y)
    case Rem => RemW(w, signed, x, y)
    case And => Some(BitwiseOp(w, BAnd, a, b))
    case Or => Some(BitwiseOp(w, BOr, a, b))
    case Xor => Some(BitwiseOp(w, BXor, a, b))
    case Shl => Some(ShlW(w, a, b))
    case Shr => Some(ShrW(w, x, b))
    case _ => None
  }

  predicate IsArith(op: Op) {
    op.Add? || op.Sub? || op.Mul? || op.Div? || op.Rem? || op.And? || op.Or? || op.Xor? || op.Shl? || op.Shr?
  }

  predicate IsFloatArith(op: Op) { op.Add? || op.Sub? || op.Mul? || op.Div? }

  predicate IsCompare(op: Op) { op.Lt? || op.Gt? || op.Le? || op.Ge? || op.Eq? || op.Ne? }

  predicate Compare(op: Op, x: int, y: int) {
    match op
    case Lt => x < y
    case Gt => x > y
    case Le => x <= y
    case Ge => x >= y
    case Eq => x == y
    case Ne => x != y
    case _ => false
  }

  function BoolWord(b: bool): Word { if b then 1 else 0 }

  /** `dest = a op b` at the type of the destination. */
  function ArithValue(fpu: Fpu, op: Op, t: Type, tmps: Tmps, a: Operand, b: Operand): Option<Val> {
    if IsFloat(t) then
      match (Read64(tmps, a), Read64(tmps, b))
      case (Some(x), Some(y)) => if IsFloatArith(op) then Some(W(fpu.arith(op, x, y))) else None
      case _ => None
    else if Is128(t) then
      match (Read128(tmps, a), Read128(tmps, b))
      case (Some(x), Some(y)) =>
        (match IntArith(W128, op, !IsUnsigned(t), x, y) case None => None case Some(r) => Some(Q(r)))
      case _ => None
    else
      match (Read64(tmps, a), Read64(tmps, b))
      case (Some(x), Some(y)) =>
        (match IntArith(W64, op, !IsUnsigned(t), x, y) case None => None case Some(r) => Some(W(r)))
      case _ => None
  }

  /** Comparison at the types of the operands; the left one decides the sign. */
  function CompareValue(fpu: Fpu, op: Op, lt: Type, rt: Type, tmps: Tmps, a: Operand, b: Operand): Option<Val> {
    if IsFloat(lt) || IsFloat(rt) then
      match (Read64(tmps, a), Read64(tmps, b))
      case (Some(x), Some(y)) => Some(W(BoolWord(fpu.compare(op, x, y))))
      case _ => None
    else if Is128(lt) || Is128(rt) then
      match (Read128(tmps, a), Read128(tmps, b))
      case (Some(x), Some(y)) =>
        Some(W(BoolWord(Compare(op, Meaning(W128, !IsUnsigned(lt), x), Meaning(W128, !IsUnsigned(lt), y)))))
      case _ => None
    else
      match (Read64(tmps, a), Read64(tmps, b))
      case (Some(x), Some(y)) =>
        Some(W(BoolWord(Compare(op, Meaning(W64, !IsUnsigned(lt), x), Meaning(W64, !IsUnsigned(lt), y)))))
      case _ => None
  }

  /** Whether a one-operand instruction takes a 128-bit operand; `t` is the destination type, `s` the operand's. */
  predicate ReadsWide(op: Op, t: Type, s: Type) {
    match op
    case Neg => Is128(t)
    case BitNot => Is128(t)
    case Not => Is128(s)
    case I2F => Is128(s)
    case Mov => Is128(s)
    case Bitcast => Is128(t) || Is128(s)
    case _ => false
  }

  function UnaryWord(fpu: Fpu, op: Op, t: Type, s: Type, x: Word): Option<Val> {
    match op
    case Neg => Some(W(if IsFloat(t) then fpu.negate(x) else WordOfInt(0 - x)))
    case Not => if IsFloat(t) then None else Some(W(BoolWord(x == 0)))
    case BitNot => if IsFloat(t) then None else Some(W(TWO64 - 1 - x))
    case Mov =>
      if Is128(t) then Some(Q(QuadOfInt(Meaning(W64, !IsUnsigned(s), x)))) else Some(W(x))
    case I2F => Some(W(fpu.fromWord(x)))
    case F2I => if Is128(t) then Some(Q(fpu.toQuad(x))) else Some(W(fpu.toWord(x)))
    case Bitcast => Some(W(x))
    case _ => None
  }

  function UnaryQuad(fpu: Fpu, op: Op, t: Type, s: Type, x: Quad): Option<Val> {
    match op
    case Neg => Some(Q(QuadOfInt(0 - x)))
    case Not => if IsFloat(t) then None else Some(W(BoolWord(x == 0)))
    case BitNot => Some(Q(TWO128 - 1 - x))
    case Mov => Some(if Is128(t) then Q(x) else W(x % TWO64))
    case I2F => Some(W(fpu.fromQuad(!IsUnsigned(s), x)))
    case Bitcast => if Is128(t) && Is128(s) then Some(Q(x)) else None
    case _ => None
  }

  /** One-operand instructions.  Moves widen an immediate by the destination type, a register by its own. */
  function UnaryValue(fpu: Fpu, op: Op, t: Type, s: Type, tmps: Tmps, a: Operand): Option<Val> {
    if op.Mov? && a.Imm? then
      Some(if Is128(t) then Q(WideImm(a.v, IsUnsigned(t))) else W(WordOfInt(a.v)))
    else if ReadsWide(op, t, s) then
      match Read128(tmps, a) case None => None case Some(x) => UnaryQuad(fpu, op, t, s, x)
    else
      match Read64(tmps, a) case None => None case Some(x) => UnaryWord(fpu, op, t, s, x)
  }

  predicate IsUnary(op: Op) {
    op.Neg? || op.Not? || op.BitNot? || op.Mov? || op.I2F? || op.F2I? || op.Bitcast?
  }
}
