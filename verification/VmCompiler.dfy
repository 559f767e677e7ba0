/**
 Compilation of one IR function to bytecode: labels become code indices, variables and
 storage-owning temporaries become frame offsets, opcodes are chosen by operand types.
 */
module VmCompiler {
  import opened Words
  import opened Types
  import opened Ir
  import opened VmMachine

  // ---------- frame layout ----------

  /** End of the first `n` objects, without the padding behind the last one. */
  function ObjectsEnd(sizes: seq<nat>, n: nat): nat
    requires n <= |sizes|
  {
    if n == 0 then 0 else AlignUp(ObjectsEnd(sizes, n - 1), 8) + sizes[n - 1]
  }

  function ObjectOffset(sizes: seq<nat>, k: nat): nat
    requires k <= |sizes|
  {
    AlignUp(ObjectsEnd(sizes, k), 8)
  }

  function FrameSize(fn: Function): nat {
    ObjectOffset(Objects(fn), |Objects(fn)|)
  }

  function LocalOffsets(fn: Function): (r: seq<nat>)
    ensures |r| == |fn.localTypes|
  {
    seq(|fn.localTypes|, k requires 0 <= k < |fn.localTypes| => ObjectOffset(Objects(fn), k))
  }

  function SetSlot(offsets: seq<int>, t: nat, off: int): (r: seq<int>)
    ensures |r| > t && |r| >= |offsets| && r[t] == off
    ensures forall i :: 0 <= i < |r| && i != t ==> r[i] == if i < |offsets| then offsets[i] else -1
  {
    (if t < |offsets| then offsets else offsets + seq(t + 1 - |offsets|, _ => -1))[t := off]
  }

  /** Offsets by temporary once the first `n` slots are laid out. */
  function SlotOffsets(fn: Function, n: nat): seq<int>
    requires n <= |Slots(fn)|
  {
    if n == 0 then seq(|fn.tmpTypes|, _ => -1)
    else
      var t := Slots(fn)[n - 1].0;
      if t < 0 then SlotOffsets(fn, n - 1)
      else SetSlot(SlotOffsets(fn, n - 1), t, ObjectOffset(Objects(fn), |fn.localTypes| + n - 1))
  }

  // ---------- labels ----------

  function CodeStart(blocks: seq<Block>, n: nat): nat
    requires n <= |blocks|
  {
    if n == 0 then 0 else CodeStart(blocks, n - 1) + |blocks[n - 1].instrs|
  }

  function LabelPcs(blocks: seq<Block>, n: nat): map<int, nat>
    requires n <= |blocks|
  {
    if n == 0 then map[] else LabelPcs(blocks, n - 1)[blocks[n - 1].lab := CodeStart(blocks, n - 1)]
  }

  datatype Layout = Layout(labels: map<int, nat>, localOffsets: seq<nat>, tmpOffsets: seq<int>)

  function LayoutOf(fn: Function): Layout {
    Layout(LabelPcs(fn.blocks, |fn.blocks|), LocalOffsets(fn), SlotOffsets(fn, |Slots(fn)|))
  }

  // ---------- operands ----------

  function TranslateOperand(lay: Layout, o: Operand): Option<VmOperand> {
    match o
    case Tmp(t) => Some(VTmp(t))
    case Slot(s) => Some(VSlot(s))
    case Local(l) => Some(VLocal(if 0 <= l < |lay.localOffsets| then lay.localOffsets[l] else l * 8))
    case Imm(v, _) => Some(VImm(v))
    case Label(lab) => if lab in lay.labels then Some(VImm(lay.labels[lab])) else None
  }

  function TranslateOperands(lay: Layout, ops: seq<Operand>): (r: Option<seq<VmOperand>>)
    ensures r.Some? ==> |r.value| == |ops|
  {
    if ops == [] then Some([])
    else match (TranslateOperand(lay, ops[0]), TranslateOperands(lay, ops[1..]))
         case (Some(o), Some(rest)) => Some([o] + rest)
         case _ => None
  }

  /** The three operand places of an instruction: the destination, if any, comes first. */
  function PlaceOperands(dest: int, ops: seq<VmOperand>): (r: seq<VmOperand>)
    ensures |r| == 3
  {
    var all := (if dest >= 0 then [VTmp(dest)] else []) + ops;
    if |all| >= 3 then all[..3] else all + seq(3 - |all|, _ => VTmp(-1))
  }

  // ---------- opcodes ----------

  function SelectArith(op: Op, t: Type): Option<VmOp> {
    match op
    case Add => Some(if IsFloat(t) then OBin64(FAdd) else if Is128(t) then OBin128(IAdd128) else OBin64(IAdd))
    case Sub => Some(if IsFloat(t) then OBin64(FSub) else if Is128(t) then OBin128(ISub128) else OBin64(ISub))
    case Mul => Some(if IsFloat(t) then OBin64(FMul) else if Is128(t) then OBin128(IMul128) else OBin64(IMulS))
    case Div =>
      if IsFloat(t) then Some(OBin64(FDiv))
      else if Is128(t) then Some(if IsUnsigned(t) then OBin128(IDivU128) else OBin128(IDivS128))
      else if t == NoType then None
      else Some(if IsUnsigned(t) then OBin64(IDivU) else OBin64(IDivS))
    case Rem =>
      if IsFloat(t) then None
      else if Is128(t) then Some(if IsUnsigned(t) then OBin128(IRemU128) else OBin128(IRemS128))
      else if t == NoType then None
      else Some(if IsUnsigned(t) then OBin64(IRemU) else OBin64(IRemS))
    case Shr =>
      if IsFloat(t) then None
      else if Is128(t) then Some(if IsUnsigned(t) then OBin128(IShrU128) else OBin128(IShrS128))
      else if t == NoType then None
      else Some(if IsUnsigned(t) then OBin64(IShrU) else OBin64(IShrS))
    case And => if IsFloat(t) then None else Some(if Is128(t) then OBin128(IAnd128) else OBin64(IAnd))
    case Or => if IsFloat(t) then None else Some(if Is128(t) then OBin128(IOr128) else OBin64(IOr))
    case Xor => if IsFloat(t) then None else Some(if Is128(t) then OBin128(IXor128) else OBin64(IXor))
    case Shl => if IsFloat(t) then None else Some(if Is128(t) then OBin128(IShl128) else OBin64(IShl))
    case _ => None
  }

  function SelectCompare(op: Op, lt: Type, rt: Type): Option<VmOp> {
    var isFloat := IsFloat(lt) || IsFloat(rt);
    var wide := Is128(lt) || Is128(rt);
    var uns := IsUnsigned(lt);
    match op
    case Lt => Some(if isFloat then OBin64(FCmpLT) else if uns then (if wide then OCmp128(ICmpLTU128) else OBin64(ICmpLTU))
                    else if wide then OCmp128(ICmpLTS128) else OBin64(ICmpLTS))
    case Gt => Some(if isFloat then OBin64(FCmpGT) else if uns then (if wide then OCmp128(ICmpGTU128) else OBin64(ICmpGTU))
                    else if wide then OCmp128(ICmpGTS128) else OBin64(ICmpGTS))
    case Le => Some(if isFloat then OBin64(FCmpLE) else if uns then (if wide then OCmp128(ICmpLEU128) else OBin64(ICmpLEU))
                    else if wide then OCmp128(ICmpLES128) else OBin64(ICmpLES))
    case Ge => Some(if isFloat then OBin64(FCmpGE) else if uns then (if wide then OCmp128(ICmpGEU128) else OBin64(ICmpGEU))
                    else if wide then OCmp128(ICmpGES128) else OBin64(ICmpGES))
    case Eq => Some(if isFloat then OBin64(FCmpEQ) else if wide then OCmp128(ICmpEQ128) else OBin64(ICmpEQ))
    case Ne => Some(if isFloat then OBin64(FCmpNE) else if wide then OCmp128(ICmpNE128) else OBin64(ICmpNE))
    case _ => None
  }

  /** `t` is the destination type, `s` the operand's. */
  function SelectUnary(op: Op, t: Type, s: Type, isImm: bool): Option<VmOp> {
    match op
    case Neg => Some(if IsFloat(t) then OUn64(FNeg) else if Is128(t) then OUn128(INeg128) else OUn64(INeg))
    case Not => if IsFloat(t) then None else Some(if Is128(s) then ONarrow(INot128) else OUn64(INot))
    case BitNot => if IsFloat(t) then None else Some(if Is128(t) then OUn128(IBitNot128) else OUn64(IBitNot))
    case Mov =>
      if Is128(t) then
        if Is128(s) && !isImm then Some(OUn128(Mov128))
        else if isImm then Some(if IsUnsigned(t) then OWiden(CmovU128) else OWiden(CmovS128))
        else if s == NoType then None
        else Some(if IsUnsigned(s) then OWiden(ZExt128) else OWiden(SExt128))
      else if Is128(s) && !isImm then Some(ONarrow(Trunc128))
      else Some(if isImm then OUn64(Cmov) else OUn64(VMov))
    case I2F => Some(if Is128(s) then (if IsUnsigned(s) then ONarrow(I2F128U) else ONarrow(I2F128S)) else OUn64(VI2F))
    case F2I => Some(if Is128(t) then OWiden(F2I128) else OUn64(VF2I))
    case Bitcast => Some(if Is128(t) || Is128(s) then OUn128(Mov128) else OUn64(VBitcast))
    case _ => None
  }

  // ---------- instructions ----------

  /** `dest`: 1 required, 0 optional, -1 forbidden. */
  predicate Shape(ins: Instr, dest: int, operands: nat) {
    (dest == 1 ==> ins.dest >= 0) && (dest == -1 ==> ins.dest < 0) && |ins.operands| == operands
  }

  const STRING_TYPE: Type := Ptr(Prim(I8))

  function SAllocInstr(lay: Layout, ins: Instr, o: seq<VmOperand>): Option<VmInstr>
    requires |o| == 3
  {
    if !Shape(ins, 1, 1) || ins.dest >= |lay.tmpOffsets| || lay.tmpOffsets[ins.dest] < 0 || !ins.operands[0].Imm?
    then None
    else Some(VmInstr(OMem(VSAlloc), o[0], VImm(lay.tmpOffsets[ins.dest]), VImm(ins.operands[0].v)))
  }

  function SteInstr(p: Program, fn: Function, ins: Instr, o: seq<VmOperand>): Option<VmInstr>
    requires |o| == 3
  {
    if !Shape(ins, 0, 2) then None else
    var pt := OperandType(p, fn, ins.operands[0]);
    var t := if pt.Ptr? then pt.to else OperandType(p, fn, ins.operands[1]);
    Some(VmInstr(if Is128(t) then OMem(Ste128) else OMem(VSte), o[0], o[1], VImm(SizeInBytes(t))))
  }

  function LdeInstr(fn: Function, ins: Instr, o: seq<VmOperand>): Option<VmInstr>
    requires |o| == 3
  {
    if !Shape(ins, 1, 1) then None else
    var t := TmpType(fn, ins.dest);
    Some(VmInstr(if Is128(t) then OMem(Lde128) else OMem(VLde), o[0], o[1], VImm(SizeInBytes(t))))
  }

  /** A struct value is the address of its storage. */
  function LoadInstr(fn: Function, ins: Instr, o: seq<VmOperand>): Option<VmInstr>
    requires |o| == 3
  {
    if !Shape(ins, 1, 1) then None else
    var t := TmpType(fn, ins.dest);
    Some(VmInstr(if t.Struct? then OMem(VLea) else if Is128(t) then OMem(Load128) else OMem(Load64), o[0], o[1], o[2]))
  }

  function StreInstr(p: Program, fn: Function, ins: Instr, o: seq<VmOperand>): Option<VmInstr>
    requires |o| == 3
  {
    if !Shape(ins, 0, 2) then None
    else if ins.operands[0].Local? && LocalType(fn, ins.operands[0].l).Struct? then
      Some(VmInstr(OMem(StructStore), o[0], o[1], VImm(SizeInBytes(LocalType(fn, ins.operands[0].l)))))
    else Some(VmInstr(if Is128(OperandType(p, fn, ins.operands[1])) then OMem(Store128) else OMem(Store64), o[0], o[1], o[2]))
  }

  function MemoryInstr(p: Program, fn: Function, lay: Layout, ins: Instr, o: seq<VmOperand>): Option<VmInstr>
    requires |o| == 3
  {
    match ins.op
    case SAlloc => SAllocInstr(lay, ins, o)
    case Ste => SteInstr(p, fn, ins, o)
    case Lde => LdeInstr(fn, ins, o)
    case Lea => if !Shape(ins, 1, 1) then None else Some(VmInstr(OMem(VLea), o[0], o[1], o[2]))
    case Load => LoadInstr(fn, ins, o)
    case Stre => StreInstr(p, fn, ins, o)
    case Copy => if !Shape(ins, -1, 3) then None else Some(VmInstr(OMem(VCopy), o[0], o[1], o[2]))
    case _ => None
  }

  function ArgInstr(p: Program, fn: Function, ins: Instr, o: seq<VmOperand>): Option<VmInstr>
    requires |o| == 3
  {
    if !Shape(ins, -1, 1) then None
    else if ins.operands[0].Tmp? then
      Some(VmInstr(if Is128(OperandType(p, fn, ins.operands[0])) then OCtl(ArgTmp128) else OCtl(ArgTmp), o[0], o[1], o[2]))
    else if ins.operands[0].Imm? && ins.operands[0].ty != STRING_TYPE then
      Some(VmInstr(OCtl(ArgConst), o[0], o[1], o[2]))
    else None
  }

  function CallInstr(p: Program, ins: Instr, o: seq<VmOperand>): Option<VmInstr>
    requires |o| == 3
  {
    if !Shape(ins, 0, 1) || !ins.operands[0].Imm? || ins.operands[0].v !in p.symToFunc then None else
    Some(VmInstr(OCtl(VCall), if ins.dest < 0 then VTmp(-1) else o[0], VImm(p.symToFunc[ins.operands[0].v]), o[2]))
  }

  function RetInstr(p: Program, fn: Function, ins: Instr, o: seq<VmOperand>): Option<VmInstr>
    requires |o| == 3
  {
    Some(VmInstr(
      if ins.operands == [] then OCtl(RetVoid)
      else if Is128(OperandType(p, fn, ins.operands[0])) then OCtl(Ret128) else OCtl(VRet), o[0], o[1], o[2]))
  }

  function ControlInstr(p: Program, fn: Function, ins: Instr, o: seq<VmOperand>): Option<VmInstr>
    requires |o| == 3
  {
    match ins.op
    case Jmp => if !Shape(ins, -1, 1) then None else Some(VmInstr(OCtl(VJmp), o[0], o[1], o[2]))
    case Cmp => if !Shape(ins, -1, 3) then None else Some(VmInstr(OCtl(VCmp), o[0], o[1], o[2]))
    case Arg => ArgInstr(p, fn, ins, o)
    case Call => CallInstr(p, ins, o)
    case Ret => RetInstr(p, fn, ins, o)
    case _ => None
  }

  function ValueInstr(p: Program, fn: Function, ins: Instr, o: seq<VmOperand>): Option<VmInstr>
    requires |o| == 3
  {
    if !Shape(ins, 1, if IsUnary(ins.op) then 1 else 2) then None else
    var t, s := TmpType(fn, ins.dest), OperandType(p, fn, ins.operands[0]);
    var op :=
      if IsUnary(ins.op) then SelectUnary(ins.op, t, s, ins.operands[0].Imm?)
      else if IsCompare(ins.op) then SelectCompare(ins.op, s, OperandType(p, fn, ins.operands[1]))
      else SelectArith(ins.op, t);
    match op case None => None case Some(vop) => Some(VmInstr(vop, o[0], o[1], o[2]))
  }

  function InstrToVm(p: Program, fn: Function, lay: Layout, ins: Instr): Option<VmInstr> {
    match TranslateOperands(lay, ins.operands)
    case None => None
    case Some(ops) =>
      var o := PlaceOperands(ins.dest, ops);
      if ins.op.SAlloc? || ins.op.Ste? || ins.op.Lde? || ins.op.Lea? || ins.op.Load? || ins.op.Stre? || ins.op.Copy? then
        MemoryInstr(p, fn, lay, ins, o)
      else if ins.op.Jmp? || ins.op.Cmp? || ins.op.Arg? || ins.op.Call? || ins.op.Ret? then
        ControlInstr(p, fn, ins, o)
      else ValueInstr(p, fn, ins, o)
  }

  function CompileCode(p: Program, fn: Function, lay: Layout, code: seq<Instr>): (r: Option<seq<VmInstr>>)
    ensures r.Some? ==> |r.value| == |code|
    ensures r.Some? ==> forall i :: 0 <= i < |code| ==> InstrToVm(p, fn, lay, code[i]) == Some(r.value[i])
    decreases |code|
  {
    if code == [] then Some([]) else
    var last := |code| - 1;
    match (CompileCode(p, fn, lay, code[..last]), InstrToVm(p, fn, lay, code[last]))
    case (Some(rest), Some(x)) => Some(rest + [x])
    case _ => None
  }

  // ---------- functions ----------

  function MaxDest(code: seq<Instr>): (r: nat)
    ensures forall i :: 0 <= i < |code| ==> code[i].dest <= r
  {
    if code == [] then 0
    else
      var rest := MaxDest(code[..|code| - 1]);
      assert forall i :: 0 <= i < |code| - 1 ==> code[i] == code[..|code| - 1][i];
      if code[|code| - 1].dest > rest then code[|code| - 1].dest else rest
  }

  function MaxWide(types: seq<Type>, n: nat): (r: int)
    requires n <= |types|
    ensures -1 <= r < n
    ensures forall i :: 0 <= i < n && Is128(types[i]) ==> i <= r
  {
    if n == 0 then -1
    else if Is128(types[n - 1]) then n - 1 else MaxWide(types, n - 1)
  }

  predicate ValidArgs(fn: Function) {
    forall i :: 0 <= i < |fn.argLocals| ==> 0 <= fn.argLocals[i] < |fn.localTypes|
  }

  function ArgOffsets(fn: Function): (r: seq<nat>)
    requires ValidArgs(fn)
    ensures |r| == |fn.argLocals|
  {
    seq(|fn.argLocals|, i requires 0 <= i < |fn.argLocals| => LocalOffsets(fn)[fn.argLocals[i]])
  }

  function ArgTypes(fn: Function): (r: seq<Type>)
    requires ValidArgs(fn)
    ensures |r| == |fn.argLocals|
  {
    seq(|fn.argLocals|, i requires 0 <= i < |fn.argLocals| => fn.localTypes[fn.argLocals[i]])
  }

  function CompileFunction(p: Program, fn: Function): Option<ExecFunc>
    requires ValidArgs(fn)
  {
    var lay := LayoutOf(fn);
    var code := Flatten(fn.blocks);
    match CompileCode(p, fn, lay, code)
    case None => None
    case Some(vm) =>
      Some(ExecFunc(vm, MaxDest(code), MaxWide(fn.tmpTypes, |fn.tmpTypes|), FrameSize(fn),
                    |fn.argLocals|, ArgOffsets(fn), ArgTypes(fn), fn.tmpTypes, lay.tmpOffsets))
  }
}
