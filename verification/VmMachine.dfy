/**
 The bytecode machine.  Code is an array of instructions, variables are byte offsets in a
 frame, and there is one register file for all activations: a call spills it onto the byte
 stack, a return reloads it.  An address is an index into that stack.
 */
module VmMachine {
  import opened Words
  import opened Types
  import Ir
  import opened IrMachine

  /** Opcodes, grouped by the operands they read and the register file they write. */
  datatype VmOp =
    | OBin64(bin: Op64)
    | OBin128(bin128: Op128)
    | OCmp128(cmp128: OpCmp128)
    | OUn64(un: OpUn64)
    | OWiden(widen: OpWiden)
    | OUn128(un128: OpUn128)
    | ONarrow(narrow: OpNarrow)
    | OMem(mem: OpMem)
    | OCtl(ctl: OpCtl)

  datatype Op64 =
    | IAdd | ISub | IMulS | IMulU | IDivS | IDivU | IRemS | IRemU | IAnd | IOr | IXor | IShl | IShrS |
    IShrU | ICmpLTS | ICmpLTU | ICmpGTS | ICmpGTU | ICmpLES | ICmpLEU | ICmpGES | ICmpGEU | ICmpEQ |
    ICmpNE | FAdd | FSub | FMul | FDiv | FCmpLT | FCmpGT | FCmpLE | FCmpGE | FCmpEQ | FCmpNE

  datatype Op128 =
    | IAdd128 | ISub128 | IMul128 | IDivS128 | IDivU128 | IRemS128 | IRemU128 | IAnd128 | IOr128 | IXor128
    | IShl128 | IShrS128 | IShrU128

  datatype OpCmp128 =
    | ICmpLTS128 | ICmpLTU128 | ICmpGTS128 | ICmpGTU128 | ICmpLES128 | ICmpLEU128 | ICmpGES128 |
    ICmpGEU128 | ICmpEQ128 | ICmpNE128

  datatype OpUn64 =
    | INeg | INot | IBitNot | FNeg | VMov | Cmov | VBitcast | VI2F | VF2I

  datatype OpWiden =
    | CmovS128 | SExt128 | CmovU128 | ZExt128 | F2I128

  datatype OpUn128 =
    | INeg128 | IBitNot128 | Mov128

  datatype OpNarrow =
    | INot128 | Trunc128 | I2F128S | I2F128U

  datatype OpMem =
    | VSAlloc | VSte | Ste128 | VLde | Lde128 | VLea | Load64 | Load128 | Store64 | Store128 | StructStore
    | VCopy

  datatype OpCtl =
    | VJmp | VCmp | ArgTmp | ArgConst | ArgTmp128 | VCall | VRet | Ret128 | RetVoid

  datatype VmOperand = VTmp(t: int) | VSlot(s: int) | VLocal(off: int) | VImm(v: int)

  datatype VmInstr = VmInstr(op: VmOp, a: VmOperand, b: VmOperand, c: VmOperand)

  datatype ExecFunc = ExecFunc(
    code: seq<VmInstr>,
    maxTmp: nat,
    maxTmp128: int,              // -1 when there is no wide register
    frameSize: nat,
    argCount: nat,
    argOffsets: seq<nat>,
    argTypes: seq<Type>,
    tmpTypes: seq<Type>,
    tmpOffsets: seq<int>)        // -1 when the temporary owns no storage

  function UsedRegs(x: ExecFunc): nat { x.maxTmp + 1 }

  function Used128Regs(x: ExecFunc): nat { if x.maxTmp128 < 0 then 0 else x.maxTmp128 + 1 }

  datatype VmFrame = VmFrame(fn: nat, base: nat, pc: nat)

  /** `links` holds the destination register of each suspended call. */
  datatype VmState = VmState(
    regs: seq<Word>, regs128: seq<Quad>,
    stack: seq<Byte>, globals: seq<Byte>,
    args: seq<Word>, args128: seq<Quad>,
    top: VmFrame, rest: Stack<VmFrame>, links: Stack<int>)

  datatype VmEnv = VmEnv(execs: seq<ExecFunc>, fpu: Ir.Fpu)

  datatype VmOutcome = VNext(state: VmState) | VDone(result: Option<Word>) | VOverflow | VCrash

  const MAX_STACK_SIZE: nat := 128 * 1024 * 1024

  // ---------- operands ----------

  function ReadOperand(regs: seq<Word>, o: VmOperand): Option<Word> {
    match o
    case VTmp(t) => if 0 <= t < |regs| then Some(regs[t]) else None
    case VImm(v) => Some(WordOfInt(v))
    case _ => None
  }

  function ReadOperand128(regs: seq<Quad>, o: VmOperand): Option<Quad> {
    match o
    case VTmp(t) => if 0 <= t < |regs| then Some(regs[t]) else None
    case VImm(v) => Some(QuadOfInt(v))
    case _ => None
  }

  // ---------- arithmetic opcodes ----------

  /** Binary opcodes on the 64-bit registers. */
  function Bin64(fpu: Ir.Fpu, op: Op64, a: Word, b: Word): Option<Word> {
    var x, y := Signed(W64, a), Signed(W64, b);
    match op
    case IAdd => Some(AddW(W64, x, y))
    case ISub => Some(SubW(W64, x, y))
    case IMulS => Some(MulW(W64, x, y))
    case IMulU => Some(MulW(W64, a, b))
    case IDivS => DivW(W64, true, x, y)
    case IDivU => UDivW(W64, a, b)
    case IRemS => RemW(W64, true, x, y)
    case IRemU => URemW(W64, a, b)
    case IAnd => Some(BitwiseOp(W64, BAnd, a, b))
    case IOr => Some(BitwiseOp(W64, BOr, a, b))
    case IXor => Some(BitwiseOp(W64, BXor, a, b))
    case IShl => Some(ShlW(W64, a, b))
    case IShrS => Some(ShrW(W64, x, b))
    case IShrU => Some(ShrW(W64, a, b))
    case ICmpLTS => Some(Ir.BoolWord(x < y))
    case ICmpLTU => Some(Ir.BoolWord(a < b))
    case ICmpGTS => Some(Ir.BoolWord(x > y))
    case ICmpGTU => Some(Ir.BoolWord(a > b))
    case ICmpLES => Some(Ir.BoolWord(x <= y))
    case ICmpLEU => Some(Ir.BoolWord(a <= b))
    case ICmpGES => Some(Ir.BoolWord(x >= y))
    case ICmpGEU => Some(Ir.BoolWord(a >= b))
    case ICmpEQ => Some(Ir.BoolWord(x == y))
    case ICmpNE => Some(Ir.BoolWord(x != y))
    case FAdd => Some(fpu.arith(Ir.Add, a, b))
    case FSub => Some(fpu.arith(Ir.Sub, a, b))
    case FMul => Some(fpu.arith(Ir.Mul, a, b))
    case FDiv => Some(fpu.arith(Ir.Div, a, b))
    case FCmpLT => Some(Ir.BoolWord(fpu.compare(Ir.Lt, a, b)))
    case FCmpGT => Some(Ir.BoolWord(fpu.compare(Ir.Gt, a, b)))
    case FCmpLE => Some(Ir.BoolWord(fpu.compare(Ir.Le, a, b)))
    case FCmpGE => Some(Ir.BoolWord(fpu.compare(Ir.Ge, a, b)))
    case FCmpEQ => Some(Ir.BoolWord(fpu.compare(Ir.Eq, a, b)))
    case FCmpNE => Some(Ir.BoolWord(fpu.compare(Ir.Ne, a, b)))
  }

  /** Binary opcodes on the 128-bit registers. */
  function Bin128(op: Op128, a: Quad, b: Quad): Option<Quad> {
    var x, y := Signed(W128, a), Signed(W128, b);
    match op
    case IAdd128 => Some(AddW(W128, x, y))
    case ISub128 => Some(SubW(W128, x, y))
    case IMul128 => Some(MulW(W128, x, y))
    case IDivS128 => DivW(W128, true, x, y)
    case IDivU128 => UDivW(W128, a, b)
    case IRemS128 => RemW(W128, true, x, y)
    case IRemU128 => URemW(W128, a, b)
    case IAnd128 => Some(BitwiseOp(W128, BAnd, a, b))
    case IOr128 => Some(BitwiseOp(W128, BOr, a, b))
    case IXor128 => Some(BitwiseOp(W128, BXor, a, b))
    case IShl128 => Some(ShlW(W128, a, b))
    case IShrS128 => Some(ShrW(W128, x, b))
    case IShrU128 => Some(ShrW(W128, a, b))
  }

  function Cmp128(op: OpCmp128, a: Quad, b: Quad): Word {
    var x, y := Signed(W128, a), Signed(W128, b);
    match op
    case ICmpLTS128 => Ir.BoolWord(x < y)
    case ICmpLTU128 => Ir.BoolWord(a < b)
    case ICmpGTS128 => Ir.BoolWord(x > y)
    case ICmpGTU128 => Ir.BoolWord(a > b)
    case ICmpLES128 => Ir.BoolWord(x <= y)
    case ICmpLEU128 => Ir.BoolWord(a <= b)
    case ICmpGES128 => Ir.BoolWord(x >= y)
    case ICmpGEU128 => Ir.BoolWord(a >= b)
    case ICmpEQ128 => Ir.BoolWord(x == y)
    case ICmpNE128 => Ir.BoolWord(x != y)
  }

  function Un64(fpu: Ir.Fpu, op: OpUn64, a: Word): Word {
    match op
    case INeg => WordOfInt(-Signed(W64, a))
    case INot => Ir.BoolWord(a == 0)
    case IBitNot => TWO64 - 1 - a
    case FNeg => fpu.negate(a)
    case VMov => a
    case Cmov => a
    case VBitcast => a
    case VI2F => fpu.fromWord(a)
    case VF2I => fpu.toWord(a)
  }

  function Widen(fpu: Ir.Fpu, op: OpWiden, a: Word): Quad {
    match op
    case CmovS128 => QuadOfInt(Signed(W64, a))
    case SExt128 => QuadOfInt(Signed(W64, a))
    case CmovU128 => a
    case ZExt128 => a
    case F2I128 => fpu.toQuad(a)
  }

  function Un128(op: OpUn128, a: Quad): Quad {
    match op
    case INeg128 => QuadOfInt(-Signed(W128, a))
    case IBitNot128 => TWO128 - 1 - a
    case Mov128 => a
  }

  function Narrow(fpu: Ir.Fpu, op: OpNarrow, a: Quad): Word {
    match op
    case INot128 => Ir.BoolWord(a == 0)
    case Trunc128 => a % TWO64
    case I2F128S => fpu.fromQuad(true, a)
    case I2F128U => fpu.fromQuad(false, a)
  }

  // ---------- memory ----------

  function Peek(stack: seq<Byte>, a: nat, n: nat): (r: Option<seq<Byte>>)
    ensures r.Some? ==> |r.value| == n
  {
    if n == 0 then Some([]) else if a + n <= |stack| then Some(stack[a..a + n]) else None
  }

  function Poke(stack: seq<Byte>, a: nat, bytes: seq<Byte>): (r: Option<seq<Byte>>)
    ensures r.Some? ==> |r.value| == |stack|
    ensures r.Some? ==> forall i :: 0 <= i < |stack| ==>
              r.value[i] == if a <= i < a + |bytes| then bytes[i - a] else stack[i]
  {
    if |bytes| == 0 then Some(stack)
    else if a + |bytes| <= |stack| then Some(stack[..a] + bytes + stack[a + |bytes|..]) else None
  }

  // ---------- effects ----------

  datatype VmEffect =
    | SetReg(t: int, w: Word)
    | SetReg128(t: int, q: Quad)
    | StoreBytes(addr: nat, bytes: seq<Byte>)
    | ZeroAndSet(t: int, addr: nat, size: nat)
    | StoreSlot(slot: nat, w: Word)
    | Jump(pc: int)
    | PushArgs(w: Word, q: Quad)
    | CallFn(callee: int, dst: int)
    | ReturnVal(w: Word)
    | ReturnVal128(q: Quad)
    | ReturnVoid
    | Crash

  function SetRegTo(o: VmOperand, w: Option<Word>): VmEffect {
    if o.VTmp? && w.Some? then SetReg(o.t, w.value) else Crash
  }

  function SetReg128To(o: VmOperand, q: Option<Quad>): VmEffect {
    if o.VTmp? && q.Some? then SetReg128(o.t, q.value) else Crash
  }

  function Bin64Effect(fpu: Ir.Fpu, regs: seq<Word>, op: Op64, ins: VmInstr): VmEffect {
    match (ReadOperand(regs, ins.b), ReadOperand(regs, ins.c))
    case (Some(x), Some(y)) => SetRegTo(ins.a, Bin64(fpu, op, x, y))
    case _ => Crash
  }

  function Bin128Effect(regs128: seq<Quad>, op: Op128, ins: VmInstr): VmEffect {
    match (ReadOperand128(regs128, ins.b), ReadOperand128(regs128, ins.c))
    case (Some(x), Some(y)) => SetReg128To(ins.a, Bin128(op, x, y))
    case _ => Crash
  }

  function Cmp128Effect(regs128: seq<Quad>, op: OpCmp128, ins: VmInstr): VmEffect {
    match (ReadOperand128(regs128, ins.b), ReadOperand128(regs128, ins.c))
    case (Some(x), Some(y)) => SetRegTo(ins.a, Some(Cmp128(op, x, y)))
    case _ => Crash
  }

  predicate IsAlu(op: VmOp) { !op.OMem? && !op.OCtl? }

  function AluEffect(fpu: Ir.Fpu, regs: seq<Word>, regs128: seq<Quad>, ins: VmInstr): VmEffect {
    match ins.op
    case OBin64(op) => Bin64Effect(fpu, regs, op, ins)
    case OBin128(op) => Bin128Effect(regs128, op, ins)
    case OCmp128(op) => Cmp128Effect(regs128, op, ins)
    case OUn64(op) =>
      (match ReadOperand(regs, ins.b) case Some(x) => SetRegTo(ins.a, Some(Un64(fpu, op, x))) case None => Crash)
    case OWiden(op) =>
      (match ReadOperand(regs, ins.b) case Some(x) => SetReg128To(ins.a, Some(Widen(fpu, op, x))) case None => Crash)
    case OUn128(op) =>
      (match ReadOperand128(regs128, ins.b) case Some(x) => SetReg128To(ins.a, Some(Un128(op, x))) case None => Crash)
    case ONarrow(op) =>
      (match ReadOperand128(regs128, ins.b) case Some(x) => SetRegTo(ins.a, Some(Narrow(fpu, op, x))) case None => Crash)
    case _ => Crash
  }

  /** `memcpy` of `n` bytes inside the stack. */
  function CopyBytes(stack: seq<Byte>, dst: Option<Word>, src: Option<Word>, n: int): VmEffect {
    if n < 0 || dst.None? || src.None? then Crash else
    match Peek(stack, src.value, n) case None => Crash case Some(s) => StoreBytes(dst.value, s)
  }

  /** A byte offset of the running frame as a stack address. */
  function FrameAddress(st: VmState, o: VmOperand): Option<nat> {
    if o.VLocal? && o.off >= 0 then Some(st.top.base + o.off) else None
  }

  function AccessSize(n: int): (r: nat)
    ensures 1 <= r <= 8
  {
    if n <= 0 || n > 8 then 8 else n
  }

  function SAllocEffect(st: VmState, ins: VmInstr): VmEffect {
    if ins.a.VTmp? && ins.b.VImm? && ins.b.v >= 0 && ins.c.VImm? && ins.c.v >= 0
       && st.top.base + ins.b.v + ins.c.v <= |st.stack|
    then ZeroAndSet(ins.a.t, st.top.base + ins.b.v, ins.c.v) else Crash
  }

  function SteEffect(st: VmState, ins: VmInstr): VmEffect {
    match (ReadOperand(st.regs, ins.a), ReadOperand(st.regs, ins.b))
    case (Some(p), Some(w)) => if ins.c.VImm? then StoreBytes(p, ToBytes(w, AccessSize(ins.c.v))) else Crash
    case _ => Crash
  }

  function Ste128Effect(st: VmState, ins: VmInstr): VmEffect {
    match (ReadOperand(st.regs, ins.a), ReadOperand128(st.regs128, ins.b))
    case (Some(p), Some(q)) => StoreBytes(p, ToBytes(q, 16))
    case _ => Crash
  }

  function LdeEffect(st: VmState, ins: VmInstr): VmEffect {
    match ReadOperand(st.regs, ins.b)
    case Some(p) => if ins.c.VImm? then LoadReg(st, ins.a, p, AccessSize(ins.c.v)) else Crash
    case None => Crash
  }

  function Lde128Effect(st: VmState, ins: VmInstr): VmEffect {
    match ReadOperand(st.regs, ins.b)
    case Some(p) => LoadReg128(st, ins.a, p)
    case None => Crash
  }

  function LoadReg(st: VmState, dst: VmOperand, at: nat, n: nat): VmEffect
    requires n <= 8
  {
    match Peek(st.stack, at, n) case Some(s) => SetRegTo(dst, Some(WordOf(s))) case None => Crash
  }

  function LoadReg128(st: VmState, dst: VmOperand, at: nat): VmEffect {
    match Peek(st.stack, at, 16) case Some(s) => SetReg128To(dst, Some(QuadOf(s))) case None => Crash
  }

  function LeaEffect(st: VmState, ins: VmInstr): VmEffect {
    match FrameAddress(st, ins.b)
    case Some(at) => if at < |st.stack| then SetRegTo(ins.a, Some(WordOfInt(at))) else Crash
    case None => Crash
  }

  function Load64Effect(st: VmState, ins: VmInstr): VmEffect {
    if ins.b.VSlot? then
      if ins.b.s >= 0 && ins.b.s * 8 + 8 <= |st.globals|
      then SetRegTo(ins.a, Some(WordOf(st.globals[ins.b.s * 8..ins.b.s * 8 + 8]))) else Crash
    else
      match FrameAddress(st, ins.b) case Some(at) => LoadReg(st, ins.a, at, 8) case None => Crash
  }

  function Load128Effect(st: VmState, ins: VmInstr): VmEffect {
    match FrameAddress(st, ins.b) case Some(at) => LoadReg128(st, ins.a, at) case None => Crash
  }

  function Store64Effect(st: VmState, ins: VmInstr): VmEffect {
    match ReadOperand(st.regs, ins.b)
    case None => Crash
    case Some(w) =>
      if ins.a.VSlot? then (if ins.a.s >= 0 then StoreSlot(ins.a.s, w) else Crash)
      else (match FrameAddress(st, ins.a) case Some(at) => StoreBytes(at, ToBytes(w, 8)) case None => Crash)
  }

  function Store128Effect(st: VmState, ins: VmInstr): VmEffect {
    match (ReadOperand128(st.regs128, ins.b), FrameAddress(st, ins.a))
    case (Some(q), Some(at)) => StoreBytes(at, ToBytes(q, 16))
    case _ => Crash
  }

  function StructStoreEffect(st: VmState, ins: VmInstr): VmEffect {
    if !ins.c.VImm? then Crash else
    match FrameAddress(st, ins.a)
    case Some(at) => CopyBytes(st.stack, Some(WordOfInt(at)), ReadOperand(st.regs, ins.b), ins.c.v)
    case None => Crash
  }

  function CopyEffect(st: VmState, ins: VmInstr): VmEffect {
    if !ins.c.VImm? then Crash else
    CopyBytes(st.stack, ReadOperand(st.regs, ins.a), ReadOperand(st.regs, ins.b), ins.c.v)
  }

  function MemoryEffect(st: VmState, op: OpMem, ins: VmInstr): VmEffect {
    match op
    case VSAlloc => SAllocEffect(st, ins)
    case VSte => SteEffect(st, ins)
    case Ste128 => Ste128Effect(st, ins)
    case VLde => LdeEffect(st, ins)
    case Lde128 => Lde128Effect(st, ins)
    case VLea => LeaEffect(st, ins)
    case Load64 => Load64Effect(st, ins)
    case Load128 => Load128Effect(st, ins)
    case Store64 => Store64Effect(st, ins)
    case Store128 => Store128Effect(st, ins)
    case StructStore => StructStoreEffect(st, ins)
    case VCopy => CopyEffect(st, ins)
  }

  function BranchEffect(st: VmState, ins: VmInstr): VmEffect {
    if !ins.b.VImm? || !ins.c.VImm? then Crash else
    match ReadOperand(st.regs, ins.a) case None => Crash case Some(w) => Jump(if w != 0 then ins.b.v else ins.c.v)
  }

  function ArgEffect(st: VmState, ins: VmInstr): VmEffect {
    match ReadOperand(st.regs, ins.a) case None => Crash case Some(w) => PushArgs(w, QuadOfInt(Signed(W64, w)))
  }

  function Arg128Effect(st: VmState, ins: VmInstr): VmEffect {
    match ReadOperand128(st.regs128, ins.a) case None => Crash case Some(q) => PushArgs(0, q)
  }

  function RetEffect(st: VmState, ins: VmInstr): VmEffect {
    match ReadOperand(st.regs, ins.a) case None => Crash case Some(w) => ReturnVal(w)
  }

  function Ret128Effect(st: VmState, ins: VmInstr): VmEffect {
    match ReadOperand128(st.regs128, ins.a) case None => Crash case Some(q) => ReturnVal128(q)
  }

  function ControlEffect(st: VmState, op: OpCtl, ins: VmInstr): VmEffect {
    match op
    case VJmp => if ins.a.VImm? then Jump(ins.a.v) else Crash
    case VCmp => BranchEffect(st, ins)
    case ArgTmp => ArgEffect(st, ins)
    case ArgConst => ArgEffect(st, ins)
    case ArgTmp128 => Arg128Effect(st, ins)
    case VCall => if ins.a.VTmp? && ins.b.VImm? then CallFn(ins.b.v, ins.a.t) else Crash
    case VRet => RetEffect(st, ins)
    case Ret128 => Ret128Effect(st, ins)
    case RetVoid => ReturnVoid
  }

  function EffectOf(fpu: Ir.Fpu, st: VmState, ins: VmInstr): VmEffect {
    match ins.op
    case OMem(op) => MemoryEffect(st, op, ins)
    case OCtl(op) => ControlEffect(st, op, ins)
    case _ => AluEffect(fpu, st.regs, st.regs128, ins)
  }

  // ---------- calls ----------

  function RegBytes(regs: seq<Word>): (r: seq<Byte>)
    ensures |r| == 8 * |regs|
  {
    if regs == [] then [] else ToBytes(regs[0], 8) + RegBytes(regs[1..])
  }

  function Reg128Bytes(regs: seq<Quad>): (r: seq<Byte>)
    ensures |r| == 16 * |regs|
  {
    if regs == [] then [] else ToBytes(regs[0], 16) + Reg128Bytes(regs[1..])
  }

  /** Save area of a caller followed by the zeroed frame of the callee. */
  function CalleeStack(stack: seq<Byte>, regs: seq<Word>, regs128: seq<Quad>, frameSize: nat): (r: seq<Byte>)
    ensures |r| == |stack| + 8 * |regs| + 16 * |regs128| + frameSize
  {
    stack + RegBytes(regs) + Reg128Bytes(regs128) + Ir.Zeros(frameSize)
  }

  /** `vector::resize`: cut off or filled up with zeros. */
  function Resize<T>(s: seq<T>, n: nat, fill: T): (r: seq<T>)
    ensures |r| == n
    ensures forall i :: 0 <= i < n ==> r[i] == if i < |s| then s[i] else fill
  {
    if n <= |s| then s[..n] else s + seq(n - |s|, _ => fill)
  }

  function CopyArg(stack: seq<Byte>, base: nat, x: ExecFunc, i: nat, w: Word, wide: Option<Quad>): Option<seq<Byte>> {
    var off := if i < |x.argOffsets| then x.argOffsets[i] else i * 8;
    var t := if i < |x.argTypes| then x.argTypes[i] else NoType;
    var n := SizeInBytes(t);
    if t.Struct? then
      match Peek(stack, w, n) case None => None case Some(s) => Poke(stack, base + off, s)
    else if t != NoType && n == 16 && wide.Some? then Poke(stack, base + off, ToBytes(wide.value, 16))
    else Poke(stack, base + off, ToBytes(w, 8))
  }

  function CopyArgs(stack: seq<Byte>, base: nat, x: ExecFunc, args: seq<Word>, args128: seq<Quad>, n: nat): Option<seq<Byte>>
    requires n <= |args|
  {
    if n == 0 then Some(stack) else
    match CopyArgs(stack, base, x, args, args128, n - 1)
    case None => None
    case Some(s) =>
      CopyArg(s, base, x, n - 1, args[n - 1], if n - 1 < |args128| then Some(args128[n - 1]) else None)
  }

  function ApplyCall(e: VmEnv, st: VmState, callee: int, dst: int): VmOutcome {
    if !(0 <= callee < |e.execs|) || st.top.fn >= |e.execs| then VCrash else
    var x := e.execs[callee];
    var used := UsedRegs(e.execs[st.top.fn]);
    if |st.args| > x.argCount || used > |st.regs| then VCrash else
    var base := |st.stack| + 8 * used + 16 * |st.regs128|;
    var stack := CalleeStack(st.stack, st.regs[..used], st.regs128, x.frameSize);
    if |stack| > MAX_STACK_SIZE then VOverflow else
    match CopyArgs(stack, base, x, st.args, st.args128, |st.args|)
    case None => VCrash
    case Some(s) =>
      VNext(VmState(
        Resize(st.regs, UsedRegs(x), 0), Resize([], Used128Regs(x), 0), s, st.globals, [], [],
        VmFrame(callee, base, 0), Push(st.top, st.rest), Push(dst, st.links)))
  }

  // ---------- returns ----------

  /** Copy a returned struct into the slot of the caller's destination, if that has struct type. */
  function Materialize(stack: seq<Byte>, base: nat, x: ExecFunc, dst: int, src: Word): Option<(seq<Byte>, Option<Word>)> {
    if dst < 0 || dst >= |x.tmpTypes| || !x.tmpTypes[dst].Struct? then Some((stack, None))
    else if dst >= |x.tmpOffsets| || x.tmpOffsets[dst] < 0 then None
    else
      var n := SizeInBytes(x.tmpTypes[dst]);
      var at := base + x.tmpOffsets[dst];
      if at + n > |stack| then None else
      match Peek(stack, src, n)
      case None => None
      case Some(s) =>
        match Poke(stack, at, s) case None => None case Some(t) => Some((t, Some(WordOfInt(at))))
  }

  function LoadRegs(stack: seq<Byte>, start: nat, n: nat): (r: seq<Word>)
    requires start + 8 * n <= |stack|
    ensures |r| == n
    decreases n
  {
    if n == 0 then [] else [WordOf(stack[start..start + 8])] + LoadRegs(stack, start + 8, n - 1)
  }

  function LoadRegs128(stack: seq<Byte>, start: nat, n: nat): (r: seq<Quad>)
    requires start + 16 * n <= |stack|
    ensures |r| == n
    decreases n
  {
    if n == 0 then [] else [QuadOf(stack[start..start + 16])] + LoadRegs128(stack, start + 16, n - 1)
  }

  /** Back to the caller: cut the callee's frame off, reload the registers, cut the save area off. */
  function Unwind(e: VmEnv, st: VmState): Option<VmState> {
    if st.rest.Empty? || st.links.Empty? || st.rest.top.fn >= |e.execs| then None else
    var x := e.execs[st.rest.top.fn];
    var used, used128 := UsedRegs(x), Used128Regs(x);
    var base := st.top.base;
    if base > |st.stack| || 8 * used + 16 * used128 > base then None else
    var start := base - 8 * used - 16 * used128;
    Some(VmState(
      LoadRegs(st.stack, start, used), LoadRegs128(st.stack, start + 8 * used, used128),
      st.stack[..start], st.globals, st.args, st.args128,
      st.rest.top, st.rest.rest, st.links.rest))
  }

  function SetWord(st: VmState, t: int, w: Word): VmOutcome {
    if 0 <= t < |st.regs| then VNext(st.(regs := st.regs[t := w])) else VCrash
  }

  function SetQuad(st: VmState, t: int, q: Quad): VmOutcome {
    if 0 <= t < |st.regs128| then VNext(st.(regs128 := st.regs128[t := q])) else VCrash
  }

  function ApplyReturn(e: VmEnv, st: VmState, w: Option<Word>, wide: Option<Quad>): VmOutcome {
    if st.rest.Empty? then VDone(w) else
    if st.links.Empty? || st.rest.top.fn >= |e.execs| then VCrash else
    var dst := st.links.top;
    match w
    case None => (match Unwind(e, st) case None => VCrash case Some(t) => VNext(t))
    case Some(v) =>
      match Materialize(st.stack, st.rest.top.base, e.execs[st.rest.top.fn], dst, v)
      case None => VCrash
      case Some((stack, slot)) =>
        match Unwind(e, st.(stack := stack))
        case None => VCrash
        case Some(t) =>
          if wide.Some? && dst >= 0 then SetQuad(t, dst, wide.value)
          else SetWord(t, dst, if slot.Some? then slot.value else v)
  }

  // ---------- steps ----------

  function StoreGlobalBytes(globals: seq<Byte>, slot: nat, w: Word): seq<Byte> {
    var g := if slot * 8 + 8 > |globals| then Resize(globals, slot * 8 + 8, 0) else globals;
    g[..slot * 8] + ToBytes(w, 8) + g[slot * 8 + 8..]
  }

  function Apply(e: VmEnv, st: VmState, eff: VmEffect): VmOutcome {
    match eff
    case SetReg(t, w) => SetWord(st, t, w)
    case SetReg128(t, q) => SetQuad(st, t, q)
    case StoreBytes(a, bytes) =>
      (match Poke(st.stack, a, bytes) case None => VCrash case Some(s) => VNext(st.(stack := s)))
    case ZeroAndSet(t, a, n) =>
      (match Poke(st.stack, a, Ir.Zeros(n)) case None => VCrash case Some(s) => SetWord(st.(stack := s), t, WordOfInt(a)))
    case StoreSlot(slot, w) => VNext(st.(globals := StoreGlobalBytes(st.globals, slot, w)))
    case Jump(pc) => if pc < 0 then VCrash else VNext(st.(top := st.top.(pc := pc)))
    case PushArgs(w, q) => VNext(st.(args := st.args + [w], args128 := st.args128 + [q]))
    case CallFn(callee, dst) => ApplyCall(e, st, callee, dst)
    case ReturnVal(w) => ApplyReturn(e, st, Some(w), None)
    case ReturnVal128(q) => ApplyReturn(e, st, Some(q % TWO64), Some(q))
    case ReturnVoid => ApplyReturn(e, st, None, None)
    case Crash => VCrash
  }

  /** One turn of the interpreter loop: fetch, advance the program counter, execute. */
  function Step(e: VmEnv, st: VmState): VmOutcome {
    if st.top.fn >= |e.execs| || st.top.pc >= |e.execs[st.top.fn].code| then VCrash else
    var ins := e.execs[st.top.fn].code[st.top.pc];
    var next := st.(top := st.top.(pc := st.top.pc + 1));
    Apply(e, next, EffectOf(e.fpu, next, ins))
  }

  /** At most `n` turns. */
  function Run(e: VmEnv, st: VmState, n: nat): VmOutcome
    decreases n
  {
    if n == 0 then VNext(st) else
    match Step(e, st)
    case VNext(t) => Run(e, t, n - 1)
    case other => other
  }
}
