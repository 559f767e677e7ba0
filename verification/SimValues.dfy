/**
 Value instructions: the register file agrees with the temporaries of the running
 activation, and stays so.
 */
module SimValues {
  import opened Words
  import opened Types
  import opened Ir
  import IM = IrMachine
  import opened VmMachine
  import opened VmCompiler
  import opened OpcodeSelection

  /** Every defined temporary is in the register of its number, in the file of its width. */
  predicate InRegs(t: int, v: Val, regs: seq<Word>, regs128: seq<Quad>) {
    match v
    case W(w) => 0 <= t < |regs| && regs[t] == w
    case Q(q) => 0 <= t < |regs128| && regs128[t] == q
  }

  ghost predicate RegsOk(tmps: Tmps, regs: seq<Word>, regs128: seq<Quad>) {
    forall t :: t in tmps ==> InRegs(t, tmps[t], regs, regs128)
  }

  /** No unsigned 128-bit operand whose low half has its top bit set, except in a move. */
  predicate WideImmsSmall(ins: Instr) {
    ins.op.Mov? || forall o :: o in ins.operands && o.Imm? && o.ty == Prim(U128) ==> o.v >= 0
  }

  lemma TranslatedAt(lay: Layout, ops: seq<Operand>, i: nat)
    requires TranslateOperands(lay, ops).Some? && i < |ops|
    ensures TranslateOperand(lay, ops[i]) == Some(TranslateOperands(lay, ops).value[i])
  {
    if i > 0 { TranslatedAt(lay, ops[1..], i - 1); }
  }

  lemma ReadSim64(lay: Layout, tmps: Tmps, regs: seq<Word>, regs128: seq<Quad>, o: Operand, vo: VmOperand)
    requires RegsOk(tmps, regs, regs128) && TranslateOperand(lay, o) == Some(vo)
    requires Read64(tmps, o).Some?
    ensures ReadOperand(regs, vo) == Read64(tmps, o)
  {
    if o.Tmp? { assert InRegs(o.t, tmps[o.t], regs, regs128); }
  }

  lemma ReadSim128(lay: Layout, tmps: Tmps, regs: seq<Word>, regs128: seq<Quad>, o: Operand, vo: VmOperand)
    requires RegsOk(tmps, regs, regs128) && TranslateOperand(lay, o) == Some(vo)
    requires Read128(tmps, o).Some?
    requires o.Imm? && o.ty == Prim(U128) ==> o.v >= 0
    ensures ReadOperand128(regs128, vo) == Read128(tmps, o)
  {
    if o.Tmp? { assert InRegs(o.t, tmps[o.t], regs, regs128); }
    if o.Imm? { WideOperandExact(o.v); }
  }

  function RegEffect(dst: int, v: Val): VmEffect {
    match v case W(w) => SetReg(dst, w) case Q(q) => SetReg128(dst, q)
  }

  predicate IsValueOp(op: Op) { IsArith(op) || IsCompare(op) || IsUnary(op) }

  /** The translated operand places of a value instruction. */
  lemma PlacedOperands(lay: Layout, ins: Instr)
    requires TranslateOperands(lay, ins.operands).Some? && ins.dest >= 0 && 1 <= |ins.operands| <= 2
    ensures var o := PlaceOperands(ins.dest, TranslateOperands(lay, ins.operands).value);
            o[0] == VTmp(ins.dest) && TranslateOperand(lay, ins.operands[0]) == Some(o[1]) &&
            (|ins.operands| == 2 ==> TranslateOperand(lay, ins.operands[1]) == Some(o[2]))
  {
    TranslatedAt(lay, ins.operands, 0);
    if |ins.operands| == 2 { TranslatedAt(lay, ins.operands, 1); }
  }

  lemma ArithSim(fpu: Fpu, lay: Layout, tmps: Tmps, regs: seq<Word>, regs128: seq<Quad>,
                 op: Op, t: Type, a: Operand, b: Operand, va: VmOperand, vb: VmOperand, dst: int, vop: VmOp)
    requires RegsOk(tmps, regs, regs128) && IsArith(op) && SelectArith(op, t) == Some(vop)
    requires TranslateOperand(lay, a) == Some(va) && TranslateOperand(lay, b) == Some(vb)
    requires a.Imm? && a.ty == Prim(U128) ==> a.v >= 0
    requires b.Imm? && b.ty == Prim(U128) ==> b.v >= 0
    requires ArithValue(fpu, op, t, tmps, a, b).Some?
    ensures IsAlu(vop)
    ensures AluEffect(fpu, regs, regs128, VmInstr(vop, VTmp(dst), va, vb)) ==
            RegEffect(dst, ArithValue(fpu, op, t, tmps, a, b).value)
  {
    if IsFloat(t) || !Is128(t) {
      ReadSim64(lay, tmps, regs, regs128, a, va);
      ReadSim64(lay, tmps, regs, regs128, b, vb);
      var x, y := Read64(tmps, a).value, Read64(tmps, b).value;
      if IsFloat(t) { FloatArith(fpu, op, t, x, y); } else { Arith64(fpu, op, t, x, y, vop); }
    } else {
      ReadSim128(lay, tmps, regs, regs128, a, va);
      ReadSim128(lay, tmps, regs, regs128, b, vb);
      Arith128(op, t, Read128(tmps, a).value, Read128(tmps, b).value, vop);
    }
  }

  lemma CompareSim(fpu: Fpu, lay: Layout, tmps: Tmps, regs: seq<Word>, regs128: seq<Quad>,
                   op: Op, lt: Type, rt: Type, a: Operand, b: Operand, va: VmOperand, vb: VmOperand, dst: int, vop: VmOp)
    requires RegsOk(tmps, regs, regs128) && IsCompare(op) && SelectCompare(op, lt, rt) == Some(vop)
    requires TranslateOperand(lay, a) == Some(va) && TranslateOperand(lay, b) == Some(vb)
    requires a.Imm? && a.ty == Prim(U128) ==> a.v >= 0
    requires b.Imm? && b.ty == Prim(U128) ==> b.v >= 0
    requires CompareValue(fpu, op, lt, rt, tmps, a, b).Some?
    ensures IsAlu(vop)
    ensures AluEffect(fpu, regs, regs128, VmInstr(vop, VTmp(dst), va, vb)) ==
            RegEffect(dst, CompareValue(fpu, op, lt, rt, tmps, a, b).value)
  {
    var isFloat, wide := IsFloat(lt) || IsFloat(rt), Is128(lt) || Is128(rt);
    if isFloat || !wide {
      ReadSim64(lay, tmps, regs, regs128, a, va);
      ReadSim64(lay, tmps, regs, regs128, b, vb);
      var x, y := Read64(tmps, a).value, Read64(tmps, b).value;
      if isFloat { FloatCompare(fpu, op, lt, rt, x, y); } else { Compare64(fpu, op, lt, rt, x, y, vop); }
    } else {
      ReadSim128(lay, tmps, regs, regs128, a, va);
      ReadSim128(lay, tmps, regs, regs128, b, vb);
      Compare128(op, lt, rt, Read128(tmps, a).value, Read128(tmps, b).value, vop);
    }
  }

  lemma UnaryWordEffect(fpu: Fpu, regs: seq<Word>, regs128: seq<Quad>, ins: VmInstr, x: Word)
    requires ReadOperand(regs, ins.b) == Some(x) && ins.a.VTmp? && UnaryWordResult(fpu, ins.op, x).Some?
    ensures IsAlu(ins.op)
    ensures AluEffect(fpu, regs, regs128, ins) == RegEffect(ins.a.t, UnaryWordResult(fpu, ins.op, x).value)
  {
  }

  lemma UnaryQuadEffect(fpu: Fpu, regs: seq<Word>, regs128: seq<Quad>, ins: VmInstr, x: Quad)
    requires ReadOperand128(regs128, ins.b) == Some(x) && ins.a.VTmp? && UnaryQuadResult(fpu, ins.op, x).Some?
    ensures IsAlu(ins.op)
    ensures AluEffect(fpu, regs, regs128, ins) == RegEffect(ins.a.t, UnaryQuadResult(fpu, ins.op, x).value)
  {
  }

  lemma UnarySim(fpu: Fpu, lay: Layout, tmps: Tmps, regs: seq<Word>, regs128: seq<Quad>,
                 op: Op, t: Type, s: Type, a: Operand, va: VmOperand, c: VmOperand, dst: int, vop: VmOp)
    requires RegsOk(tmps, regs, regs128) && IsUnary(op) && SelectUnary(op, t, s, a.Imm?) == Some(vop)
    requires TranslateOperand(lay, a) == Some(va)
    requires a.Imm? && a.ty == Prim(U128) && !op.Mov? ==> a.v >= 0
    requires UnaryValue(fpu, op, t, s, tmps, a).Some?
    ensures IsAlu(vop)
    ensures AluEffect(fpu, regs, regs128, VmInstr(vop, VTmp(dst), va, c)) ==
            RegEffect(dst, UnaryValue(fpu, op, t, s, tmps, a).value)
  {
    var ins := VmInstr(vop, VTmp(dst), va, c);
    if op.Mov? && a.Imm? {
      MovImmediate(fpu, t, s, a.v, vop);
      UnaryWordEffect(fpu, regs, regs128, ins, WordOfInt(a.v));
    } else {
      SelectIgnoresImm(op, t, s, a.Imm?);
      if ReadsWide(op, t, s) {
        ReadSim128(lay, tmps, regs, regs128, a, va);
        var x := Read128(tmps, a).value;
        UnaryOnQuad(fpu, op, t, s, x, vop);
        UnaryQuadEffect(fpu, regs, regs128, ins, x);
      } else {
        ReadSim64(lay, tmps, regs, regs128, a, va);
        var x := Read64(tmps, a).value;
        UnaryOnWord(fpu, op, t, s, x, vop);
        UnaryWordEffect(fpu, regs, regs128, ins, x);
      }
    }
  }

  lemma SelectIgnoresImm(op: Op, t: Type, s: Type, isImm: bool)
    requires !op.Mov? || !isImm
    ensures SelectUnary(op, t, s, isImm) == SelectUnary(op, t, s, false)
  {
  }

  /** Whatever value the IR assigns, the compiled instruction puts it into the same register. */
  lemma ValueSim(e: IM.Env, fn: Function, lay: Layout, tmps: Tmps, regs: seq<Word>, regs128: seq<Quad>, ins: Instr, vins: VmInstr)
    requires RegsOk(tmps, regs, regs128) && WideImmsSmall(ins) && IsValueOp(ins.op)
    requires InstrToVm(e.prog, fn, lay, ins) == Some(vins)
    requires IM.ValueEffect(e, fn, tmps, ins).Assign?
    ensures IsAlu(vins.op)
    ensures var eff := IM.ValueEffect(e, fn, tmps, ins);
            eff.dst == ins.dest && AluEffect(e.fpu, regs, regs128, vins) == RegEffect(ins.dest, eff.val)
  {
    PlacedOperands(lay, ins);
    var o := PlaceOperands(ins.dest, TranslateOperands(lay, ins.operands).value);
    var a, t := ins.operands[0], TmpType(fn, ins.dest);
    var lt := OperandType(e.prog, fn, a);
    assert ValueInstr(e.prog, fn, ins, o) == Some(vins);
    assert a in ins.operands;
    if IsUnary(ins.op) {
      UnarySim(e.fpu, lay, tmps, regs, regs128, ins.op, t, lt, a, o[1], o[2], ins.dest, vins.op);
    } else {
      var b := ins.operands[1];
      assert b in ins.operands;
      if IsCompare(ins.op) {
        CompareSim(e.fpu, lay, tmps, regs, regs128, ins.op, lt, OperandType(e.prog, fn, b), a, b, o[1], o[2], ins.dest, vins.op);
      } else {
        ArithSim(e.fpu, lay, tmps, regs, regs128, ins.op, t, a, b, o[1], o[2], ins.dest, vins.op);
      }
    }
  }
}
