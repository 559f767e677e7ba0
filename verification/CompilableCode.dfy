/**
 When there is anything to be correct about: every instruction that has a meaning is
 compiled, operations have a value unless they divide badly, register files are as large as
 they must be, and a call stops at the stack limit only.
 */
module CompilableCode {
  import opened Words
  import opened Types
  import opened Ir
  import IM = IrMachine
  import opened VmMachine
  import opened VmCompiler
  import FrameLayout
  import OpcodeLaws

  // ---------- which operations have a value ----------

  /** A division that no word can answer: by zero, or of the lowest number by -1. */
  predicate BadDivision(w: Width, signed: bool, x: int, y: int) {
    y == 0 || (signed && 2 * x == 0 - Modulus(w) && y == -1)
  }

  lemma MeaningRange(w: Width, signed: bool, a: nat)
    requires a < Modulus(w)
    ensures Representable(w, signed, Meaning(w, signed, a))
  {
  }

  lemma UnsignedQuotient(w: Width, a: nat, b: nat)
    requires a < Modulus(w) && b > 0
    ensures Representable(w, false, TruncDiv(a, b))
  {
    TruncOfNats(a, b);
    QuotientBound(a, b);
  }

  /** Integer arithmetic has a value for every operation, except for a bad division. */
  lemma IntArithDefined(w: Width, op: Op, signed: bool, a: nat, b: nat)
    requires a < Modulus(w) && b < Modulus(w) && IsArith(op)
    ensures IntArith(w, op, signed, a, b).Some? <==>
            !((op.Div? || op.Rem?) && BadDivision(w, signed, Meaning(w, signed, a), Meaning(w, signed, b)))
  {
    MeaningRange(w, signed, a);
    var x, y := Meaning(w, signed, a), Meaning(w, signed, b);
    if y != 0 {
      if signed { OpcodeLaws.QuotientRange(w, x, y); } else { UnsignedQuotient(w, a, b); }
    }
  }

  /** Both operands can be read at the width of the type. */
  predicate ReadPair(wide: bool, tmps: Tmps, a: Operand, b: Operand) {
    if wide then Read128(tmps, a).Some? && Read128(tmps, b).Some? else Read64(tmps, a).Some? && Read64(tmps, b).Some?
  }

  /** `a op b` at a type has a value if the operands can be read and the operation suits the type and the numbers. */
  lemma ArithDefined(fpu: Fpu, op: Op, t: Type, tmps: Tmps, a: Operand, b: Operand)
    requires IsArith(op)
    ensures IsFloat(t) ==>
              (ArithValue(fpu, op, t, tmps, a, b).Some? <==>
                 op in {Op.Add, Op.Sub, Op.Mul, Op.Div} && ReadPair(false, tmps, a, b))
    ensures !IsFloat(t) ==>
              (ArithValue(fpu, op, t, tmps, a, b).Some? <==>
                 ReadPair(Is128(t), tmps, a, b) && !((op.Div? || op.Rem?) && BadOperands(t, tmps, a, b)))
  {
    if !IsFloat(t) && ReadPair(Is128(t), tmps, a, b) {
      if Is128(t) {
        IntArithDefined(W128, op, !IsUnsigned(t), Read128(tmps, a).value, Read128(tmps, b).value);
      } else {
        IntArithDefined(W64, op, !IsUnsigned(t), Read64(tmps, a).value, Read64(tmps, b).value);
      }
    }
  }

  predicate BadOperands(t: Type, tmps: Tmps, a: Operand, b: Operand)
    requires ReadPair(Is128(t), tmps, a, b)
  {
    if Is128(t) then
      BadDivision(W128, !IsUnsigned(t), Meaning(W128, !IsUnsigned(t), Read128(tmps, a).value),
                  Meaning(W128, !IsUnsigned(t), Read128(tmps, b).value))
    else
      BadDivision(W64, !IsUnsigned(t), Meaning(W64, !IsUnsigned(t), Read64(tmps, a).value),
                  Meaning(W64, !IsUnsigned(t), Read64(tmps, b).value))
  }

  // ---------- every instruction with a meaning is compiled ----------

  /** The labels of the instruction are labels of blocks. */
  predicate LabelsExist(fn: Function, ins: Instr) {
    forall i :: 0 <= i < |ins.operands| && ins.operands[i].Label? ==> ins.operands[i].lab in LayoutOf(fn).labels
  }

  /** The types that choose the opcode are known, and no string constant is passed. */
  predicate TypesKnown(p: Program, fn: Function, ins: Instr) {
    && (IsArith(ins.op) ==> TmpType(fn, ins.dest) != NoType)
    && (ins.op.Mov? ==> forall i :: 0 <= i < |ins.operands| ==> OperandType(p, fn, ins.operands[i]) != NoType)
    && (ins.op.Arg? ==> forall i :: 0 <= i < |ins.operands| && ins.operands[i].Imm? ==> ins.operands[i].ty != STRING_TYPE)
  }

  lemma {:induction false} OperandsTranslate(lay: Layout, ops: seq<Operand>)
    ensures TranslateOperands(lay, ops).Some? <==>
            forall i :: 0 <= i < |ops| && ops[i].Label? ==> ops[i].lab in lay.labels
    decreases |ops|
  {
    if ops != [] {
      OperandsTranslate(lay, ops[1..]);
      assert forall i :: 0 < i < |ops| ==> ops[i] == ops[1..][i - 1];
    }
  }

  lemma MemoryCompiles(e: IM.Env, fn: Function, f: IM.Frame, mem: Memory, globals: seq<Word>, ins: Instr, o: seq<VmOperand>)
    requires |o| == 3 && FrameLayout.DistinctSlots(fn) && IM.IsMemoryOp(ins.op)
    requires !IM.MemoryEffect(e, fn, f, mem, globals, ins).Fault?
    ensures MemoryInstr(e.prog, fn, LayoutOf(fn), ins, o).Some?
  {
    hide IM.StoreEffect, IM.StoreVarEffect, IM.LoadEffect, IM.LoadVarEffect, IM.LeaEffect, IM.CopyOpEffect, IM.SAllocEffect,
      SizeInBytes, LayoutOf;
    if ins.op.SAlloc? { ReservedCompiles(fn, f.place, mem, ins, o); }
  }

  lemma ReservedCompiles(fn: Function, place: Placement, mem: Memory, ins: Instr, o: seq<VmOperand>)
    requires |o| == 3 && FrameLayout.DistinctSlots(fn) && !IM.SAllocEffect(fn, place, mem, ins).Fault?
    ensures SAllocInstr(LayoutOf(fn), ins, o).Some?
  {
    var k := Position(Slots(fn), ins.dest).value;
    FrameLayout.SlotOffsetAt(fn, |Slots(fn)|, k);
    hide LayoutOf, Slots, Objects;
    LayoutSlots(fn);
  }

  lemma LayoutSlots(fn: Function)
    ensures LayoutOf(fn).tmpOffsets == SlotOffsets(fn, |Slots(fn)|)
  {
  }

  lemma ControlCompiles(e: IM.Env, fn: Function, tmps: Tmps, ins: Instr, o: seq<VmOperand>)
    requires |o| == 3 && IM.IsControlOp(ins.op) && TypesKnown(e.prog, fn, ins)
    requires !IM.ControlEffect(e, fn, tmps, ins).Fault?
    ensures ControlInstr(e.prog, fn, ins, o).Some?
  {
    hide IM.GotoEffect, IM.BranchEffect, IM.RetEffect, SizeInBytes;
  }

  lemma ValueCompiles(e: IM.Env, fn: Function, tmps: Tmps, ins: Instr, o: seq<VmOperand>)
    requires |o| == 3 && !IM.IsMemoryOp(ins.op) && !IM.IsControlOp(ins.op) && TypesKnown(e.prog, fn, ins)
    requires !IM.ValueEffect(e, fn, tmps, ins).Fault?
    ensures ValueInstr(e.prog, fn, ins, o).Some?
  {
    hide IntArith, SizeInBytes;
  }

  /**
   Every instruction that has a meaning in some state is compiled, if its labels exist and the
   types that choose its opcode are known.
   */
  lemma MeaningCompiles(e: IM.Env, fn: Function, f: IM.Frame, mem: Memory, globals: seq<Word>, ins: Instr)
    requires FrameLayout.DistinctSlots(fn) && LabelsExist(fn, ins) && TypesKnown(e.prog, fn, ins)
    requires !IM.EffectOf(e, fn, f, mem, globals, ins).Fault?
    ensures InstrToVm(e.prog, fn, LayoutOf(fn), ins).Some?
  {
    hide IM.MemoryEffect, IM.ControlEffect, IM.ValueEffect, MemoryInstr, ControlInstr, ValueInstr, PlaceOperands, LayoutOf, TypesKnown;
    OperandsTranslate(LayoutOf(fn), ins.operands);
    var o := PlaceOperands(ins.dest, TranslateOperands(LayoutOf(fn), ins.operands).value);
    if IM.IsMemoryOp(ins.op) {
      MemoryCompiles(e, fn, f, mem, globals, ins, o);
    } else if IM.IsControlOp(ins.op) {
      ControlCompiles(e, fn, f.tmps, ins, o);
    } else {
      ValueCompiles(e, fn, f.tmps, ins, o);
    }
  }

  predicate AllCompile(p: Program, fn: Function, lay: Layout, code: seq<Instr>) {
    forall i :: 0 <= i < |code| ==> InstrToVm(p, fn, lay, code[i]).Some?
  }

  lemma {:induction false} CodeCompiles(p: Program, fn: Function, lay: Layout, code: seq<Instr>)
    ensures CompileCode(p, fn, lay, code).Some? <==> AllCompile(p, fn, lay, code)
    decreases |code|
  {
    hide InstrToVm;
    if code != [] {
      var last := |code| - 1;
      CodeCompiles(p, fn, lay, code[..last]);
      assert forall i :: 0 <= i < last ==> code[i] == code[..last][i];
      if CompileCode(p, fn, lay, code).Some? {
        assert InstrToVm(p, fn, lay, code[last]).Some?;
      }
    }
  }

  /** A function is compiled if and only if each of its instructions is. */
  lemma FunctionCompiles(p: Program, fn: Function)
    requires ValidArgs(fn)
    ensures CompileFunction(p, fn).Some? <==> AllCompile(p, fn, LayoutOf(fn), Flatten(fn.blocks))
  {
    hide AllCompile, CompileCode, LayoutOf, Flatten, MaxDest, MaxWide, FrameSize, ArgOffsets, ArgTypes;
    CodeCompiles(p, fn, LayoutOf(fn), Flatten(fn.blocks));
  }

  // ---------- register files ----------

  /** The last register is that of the greatest destination, or the one register there always is. */
  lemma {:induction false} LastRegister(code: seq<Instr>)
    ensures MaxDest(code) == 0 || exists i :: 0 <= i < |code| && code[i].dest == MaxDest(code)
    decreases |code|
  {
    if code != [] {
      var last := |code| - 1;
      LastRegister(code[..last]);
      if MaxDest(code) != 0 && code[last].dest != MaxDest(code) {
        var i :| 0 <= i < last && code[..last][i].dest == MaxDest(code);
        assert code[i].dest == MaxDest(code);
      }
    }
  }

  /** The last wide register is that of the last temporary of a 128-bit type; without one there is none. */
  lemma {:induction false} LastWideRegister(types: seq<Type>, n: nat)
    requires n <= |types|
    ensures var r := MaxWide(types, n);
            if r < 0 then r == -1 && forall i :: 0 <= i < n ==> !Is128(types[i])
            else Is128(types[r]) && forall i :: r < i < n ==> !Is128(types[i])
  {
    if n > 0 { LastWideRegister(types, n - 1); }
  }

  // ---------- the stack limit ----------

  /** The caller's registers and the callee's frame have room on the stack of 128 MB. */
  predicate HasRoom(v: VmEnv, st: VmState, callee: nat)
    requires callee < |v.execs| && st.top.fn < |v.execs|
  {
    |st.stack| + 8 * (v.execs[st.top.fn].maxTmp + 1) + 16 * |st.regs128| + v.execs[callee].frameSize <= 134217728
  }

  /** A call overflows exactly when there is no room. */
  lemma OverflowsExactly(v: VmEnv, st: VmState, callee: nat, dst: int)
    requires callee < |v.execs| && st.top.fn < |v.execs|
    requires |st.args| <= v.execs[callee].argCount && v.execs[st.top.fn].maxTmp < |st.regs|
    ensures ApplyCall(v, st, callee, dst) == VOverflow <==> !HasRoom(v, st, callee)
  {
    hide CopyArgs;
  }

  /** Nothing but a call overflows. */
  lemma OnlyCallsOverflow(v: VmEnv, st: VmState)
    ensures Step(v, st) == VOverflow ==>
              st.top.fn < |v.execs| && st.top.pc < |v.execs[st.top.fn].code| && v.execs[st.top.fn].code[st.top.pc].op == OCtl(VCall)
  {
    hide Poke, Materialize, Unwind, ApplyCall, StoreGlobalBytes, MemoryEffect, AluEffect;
    if st.top.fn < |v.execs| && st.top.pc < |v.execs[st.top.fn].code| {
      var next, ins := st.(top := st.top.(pc := st.top.pc + 1)), v.execs[st.top.fn].code[st.top.pc];
      NoCall(v.fpu, next, ins);
    }
  }

  lemma NoCall(fpu: Fpu, st: VmState, ins: VmInstr)
    ensures EffectOf(fpu, st, ins).CallFn? ==> ins.op == OCtl(VCall)
  {
    hide Peek, WordOf, QuadOf, ToBytes, Bin64, Bin128, Cmp128, Un64, Un128, Widen, Narrow;
  }
}
