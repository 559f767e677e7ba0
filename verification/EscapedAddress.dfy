/**
 A program whose callee changes a variable of its caller: the caller passes the address of the variable
 and the callee stores through it.  It shows that the condition on callees in `FrameBytes` is needed.
 */
module EscapedAddress {
  import opened Words
  import opened Types
  import opened Ir
  import IM = IrMachine
  import opened VmMachine
  import opened VmCompiler
  import opened FrameLayout
  import opened Simulation
  import opened CallingConvention
  import opened FrameBytes

  const BYTE_PTR: Type := Ptr(Prim(I8))

  const MAIN_IR: seq<Instr> := [
    Instr(Lea, 0, [Local(0)]), Instr(Arg, -1, [Tmp(0)]), Instr(Call, -1, [Imm(1, NoType)]), Instr(Ret, -1, [])]

  const SETTER_IR: seq<Instr> := [
    Instr(Load, 0, [Local(0)]), Instr(Ste, -1, [Tmp(0), Imm(7, Prim(I8))]), Instr(Ret, -1, [])]

  const MAIN: Function := Function([], [Block(0, MAIN_IR)], [Prim(I64)], [BYTE_PTR])
  const SETTER: Function := Function([0], [Block(0, SETTER_IR)], [BYTE_PTR], [BYTE_PTR])
  const PROGRAM: Program := Program([MAIN, SETTER], [], map[1 := 1])

  const NONE := VTmp(-1)

  const MAIN_VM: seq<VmInstr> := [
    VmInstr(OMem(VLea), VTmp(0), VLocal(0), NONE), VmInstr(OCtl(ArgTmp), VTmp(0), NONE, NONE),
    VmInstr(OCtl(VCall), NONE, VImm(1), NONE), VmInstr(OCtl(RetVoid), NONE, NONE, NONE)]

  const SETTER_VM: seq<VmInstr> := [
    VmInstr(OMem(Load64), VTmp(0), VLocal(0), NONE), VmInstr(OMem(VSte), VTmp(0), VImm(7), VImm(1)),
    VmInstr(OCtl(RetVoid), NONE, NONE, NONE)]

  const MAIN_EXEC: ExecFunc := ExecFunc(MAIN_VM, 0, -1, 8, 0, [], [], [BYTE_PTR], [-1])
  const SETTER_EXEC: ExecFunc := ExecFunc(SETTER_VM, 0, -1, 8, 1, [0], [BYTE_PTR], [BYTE_PTR], [-1])

  // ---------- what the compiler makes of it ----------

  lemma {:induction false} CompileEach(p: Program, fn: Function, lay: Layout, code: seq<Instr>, vm: seq<VmInstr>)
    requires |vm| == |code| && forall i :: 0 <= i < |code| ==> InstrToVm(p, fn, lay, code[i]) == Some(vm[i])
    ensures CompileCode(p, fn, lay, code) == Some(vm)
    decreases |code|
  {
    hide InstrToVm;
    if code != [] {
      var last := |code| - 1;
      CompileEach(p, fn, lay, code[..last], vm[..last]);
      assert vm == vm[..last] + [vm[last]];
    }
  }

  lemma OneLocal(fn: Function, t: Type)
    requires fn.localTypes == [t] && SizeInBytes(t) == 8 && Slots(fn) == []
    ensures Objects(fn) == [8] && FrameSize(fn) == 8 && LocalOffsets(fn) == [0]
  {
    assert LocalSizes(fn) == [8] && SizesOf(Slots(fn)) == [];
    assert AlignUp(0, 8) == 0 && AlignUp(8, 8) == 8;
    assert ObjectsEnd([8], 0) == 0 && ObjectOffset([8], 0) == 0;
    assert ObjectsEnd([8], 1) == 8 && ObjectOffset([8], 1) == 8;
  }

  lemma NoSlots(fn: Function, ins: seq<Instr>)
    requires fn.blocks == [Block(0, ins)] && fn.tmpTypes == [BYTE_PTR] && forall i :: 0 <= i < |ins| ==> !ins[i].op.SAlloc?
    ensures Flatten(fn.blocks) == ins && Slots(fn) == []
  {
    assert Flatten(fn.blocks[1..]) == [];
    NoAllocations(ins);
    assert StructTmps(fn.tmpTypes, 1) == [] && StructTmps(fn.tmpTypes, 0) == [];
  }

  lemma {:induction false} NoAllocations(ins: seq<Instr>)
    requires forall i :: 0 <= i < |ins| ==> !ins[i].op.SAlloc?
    ensures SAllocs(ins) == []
  {
    if ins != [] { NoAllocations(ins[1..]); }
  }

  lemma Dests(code: seq<Instr>)
    requires forall i :: 0 <= i < |code| ==> code[i].dest <= 0
    ensures MaxDest(code) == 0
    decreases |code|
  {
    if code != [] { Dests(code[..|code| - 1]); }
  }

  lemma NoPlaces()
    ensures PlaceOperands(-1, []) == [NONE, NONE, NONE]
    ensures forall o :: PlaceOperands(-1, [o]) == [o, NONE, NONE] && PlaceOperands(0, [o]) == [VTmp(0), o, NONE]
    ensures forall o, q :: PlaceOperands(-1, [o, q]) == [o, q, NONE]
  {
  }

  lemma Operands(lay: Layout)
    requires lay.localOffsets == [0]
    ensures TranslateOperands(lay, []) == Some([])
    ensures TranslateOperands(lay, [Local(0)]) == Some([VLocal(0)])
    ensures TranslateOperands(lay, [Tmp(0)]) == Some([VTmp(0)])
    ensures TranslateOperands(lay, [Imm(1, NoType)]) == Some([VImm(1)])
    ensures TranslateOperands(lay, [Tmp(0), Imm(7, Prim(I8))]) == Some([VTmp(0), VImm(7)])
  {
    OneOperand(lay, Local(0), VLocal(0));
    OneOperand(lay, Tmp(0), VTmp(0));
    OneOperand(lay, Imm(1, NoType), VImm(1));
    OneOperand(lay, Imm(7, Prim(I8)), VImm(7));
    assert [Tmp(0), Imm(7, Prim(I8))][1..] == [Imm(7, Prim(I8))] && [VTmp(0)] + [VImm(7)] == [VTmp(0), VImm(7)];
  }

  lemma OneOperand(lay: Layout, x: Operand, o: VmOperand)
    requires TranslateOperand(lay, x) == Some(o)
    ensures TranslateOperands(lay, [x]) == Some([o])
  {
    assert [x][1..] == [] && [o] + [] == [o];
    assert TranslateOperands(lay, []) == Some([]);
  }

  lemma MainCode(lay: Layout)
    requires lay.localOffsets == [0]
    ensures CompileCode(PROGRAM, MAIN, lay, MAIN_IR) == Some(MAIN_VM)
  {
    hide PlaceOperands, TranslateOperands;
    Operands(lay);
    NoPlaces();
    CompileEach(PROGRAM, MAIN, lay, MAIN_IR, MAIN_VM);
  }

  lemma SetterCode(lay: Layout)
    requires lay.localOffsets == [0]
    ensures CompileCode(PROGRAM, SETTER, lay, SETTER_IR) == Some(SETTER_VM)
  {
    hide PlaceOperands, TranslateOperands;
    Operands(lay);
    NoPlaces();
    CompileEach(PROGRAM, SETTER, lay, SETTER_IR, SETTER_VM);
  }

  lemma MainCompiled()
    ensures CompileFunction(PROGRAM, MAIN) == Some(MAIN_EXEC) && WellFormed(MAIN)
  {
    hide CompileCode, Flatten, Slots, Objects, FrameSize, LocalOffsets;
    NoSlots(MAIN, MAIN_IR);
    OneLocal(MAIN, Prim(I64));
    MainCode(LayoutOf(MAIN));
    Dests(MAIN_IR);
    TypeSizes();
    assert LayoutOf(MAIN).tmpOffsets == [-1];
    assert ArgOffsets(MAIN) == [] && ArgTypes(MAIN) == [];
  }

  lemma SetterCompiled()
    ensures CompileFunction(PROGRAM, SETTER) == Some(SETTER_EXEC) && WellFormed(SETTER)
  {
    hide CompileCode, Flatten, Slots, Objects, FrameSize, LocalOffsets;
    NoSlots(SETTER, SETTER_IR);
    OneLocal(SETTER, BYTE_PTR);
    SetterCode(LayoutOf(SETTER));
    Dests(SETTER_IR);
    TypeSizes();
    assert LayoutOf(SETTER).tmpOffsets == [-1];
    assert ArgOffsets(SETTER) == [0] && ArgTypes(SETTER) == [BYTE_PTR];
  }

  lemma TypeSizes()
    ensures MaxWide([BYTE_PTR], 1) == -1 && SizeInBytes(BYTE_PTR) == 8 && SizeInBytes(Prim(I64)) == 8
  {
  }

  lemma ProgramCompiled(fpu: Fpu)
    ensures Compiled(IM.Env(PROGRAM, fpu), VmEnv([MAIN_EXEC, SETTER_EXEC], fpu))
  {
    hide CompileFunction, WellFormed;
    MainCompiled();
    SetterCompiled();
  }

  // ---------- what it does ----------

  const STACK0: seq<Byte> := Zeros(8)

  /** The caller, its variable zero, with the address of the variable passed and the call to come. */
  const BEFORE: VmState :=
    VmState([0], [], STACK0, [], [0], [0], VmFrame(0, 0, 2), IM.Empty, IM.Empty)

  function Inside(regs: seq<Word>, stack: seq<Byte>, pc: nat): VmState {
    VmState(regs, [], stack, [], [], [], VmFrame(1, 16, pc), IM.Push(VmFrame(0, 0, 3), IM.Empty), IM.Push(-1, IM.Empty))
  }

  lemma StartStep(v: VmEnv)
    requires v.execs == [MAIN_EXEC, SETTER_EXEC]
    ensures Run(v, VmState([0], [], STACK0, [], [], [], VmFrame(0, 0, 0), IM.Empty, IM.Empty), 2) == VNext(BEFORE)
  {
    var s0 := VmState([0], [], STACK0, [], [], [], VmFrame(0, 0, 0), IM.Empty, IM.Empty);
    var s1 := s0.(top := VmFrame(0, 0, 1));
    assert Step(v, s0) == VNext(s1);
    assert Step(v, s1) == VNext(BEFORE);
    hide Step;
    assert Run(v, BEFORE, 0) == VNext(BEFORE);
    assert Run(v, s1, 1) == VNext(BEFORE);
  }

  lemma CallStep(v: VmEnv)
    requires v.execs == [MAIN_EXEC, SETTER_EXEC]
    ensures Step(v, BEFORE) == VNext(Inside([0], Zeros(24), 0))
  {
    assert RegBytes([0]) == ToBytes(0, 8) + RegBytes([]);
    ZeroImage(8);
    assert ToBytes(0, 8) == Zeros(8);
    assert RegBytes([0]) == Zeros(8);
    var stack := CalleeStack(STACK0, [0], [], 8);
    assert stack == Zeros(24);
    assert stack[..16] + Zeros(8) + stack[24..] == stack;
    assert CopyArg(stack, 16, SETTER_EXEC, 0, 0, Some(0)) == Some(stack);
    assert CopyArgs(stack, 16, SETTER_EXEC, [0], [0], 0) == Some(stack);
    assert CopyArgs(stack, 16, SETTER_EXEC, [0], [0], 1) == Some(stack);
  }

  const STACK1: seq<Byte> := [7] + Zeros(23)

  lemma LoadStep(v: VmEnv)
    requires v.execs == [MAIN_EXEC, SETTER_EXEC]
    ensures Step(v, Inside([0], Zeros(24), 0)) == VNext(Inside([0], Zeros(24), 1))
  {
    hide StoreGlobalBytes, ApplyCall, ApplyReturn, Zeros;
    assert Zeros(24)[16..24] == Zeros(8);
    ZeroWord();
  }

  lemma StoreStep(v: VmEnv)
    requires v.execs == [MAIN_EXEC, SETTER_EXEC]
    ensures Step(v, Inside([0], Zeros(24), 1)) == VNext(Inside([0], STACK1, 2))
    ensures StoresAt(v, Inside([0], Zeros(24), 1), 0)
  {
    hide StoreGlobalBytes, ApplyCall, ApplyReturn, Zeros;
    assert ToBytes(7, 1) == [7];
    assert [] + [7] + Zeros(24)[1..] == STACK1;
  }

  lemma LastStep(v: VmEnv)
    requires v.execs == [MAIN_EXEC, SETTER_EXEC]
    ensures Step(v, Inside([0], STACK1, 2)) == VNext(BEFORE.(stack := [7] + Zeros(7), args := [], args128 := [], top := VmFrame(0, 0, 3)))
  {
    hide StoreGlobalBytes, ApplyCall;
    assert STACK1[8..16] == Zeros(8);
    ZeroWord();
    assert LoadRegs(STACK1, 16, 0) == [] && LoadRegs128(STACK1, 16, 0) == [];
    assert LoadRegs(STACK1, 8, 1) == [0];
    assert STACK1[..8] == [7] + Zeros(7);
  }

  /** A run from `start` comes to a call without destination at `st`, and behind the call byte `a` is another. */
  ghost predicate CallChanges(v: VmEnv, start: VmState, st: VmState, a: nat) {
    && Run(v, start, 2) == VNext(st) && Step(v, st).VNext?
    && var callee := Step(v, st).state;
    && callee.rest.Push? && callee.rest.rest == st.rest && callee.links == IM.Push(-1, st.links)
    && ComesBack(v, callee, 2, Depth(st.rest))
    && Run(v, st, 4).VNext?
    && var back := Run(v, st, 4).state;
    && a < |st.stack| && |back.stack| == |st.stack| && back.stack[a] != st.stack[a]
  }

  /** The compiled program, from its start to just behind the call: the variable of the caller changes from 0 to 7. */
  lemma CalleeChangesCaller(fpu: Fpu)
    ensures Compiled(IM.Env(PROGRAM, fpu), VmEnv([MAIN_EXEC, SETTER_EXEC], fpu))
    ensures CallChanges(VmEnv([MAIN_EXEC, SETTER_EXEC], fpu),
                        VmState([0], [], STACK0, [], [], [], VmFrame(0, 0, 0), IM.Empty, IM.Empty), BEFORE, 0)
  {
    hide Step, CompileFunction, Compiled;
    var v := VmEnv([MAIN_EXEC, SETTER_EXEC], fpu);
    ProgramCompiled(fpu);
    StartStep(v);
    CallStep(v);
    LoadStep(v);
    StoreStep(v);
    LastStep(v);
    var s1, s2, s3 := Inside([0], Zeros(24), 0), Inside([0], Zeros(24), 1), Inside([0], STACK1, 2);
    var s4 := BEFORE.(stack := [7] + Zeros(7), args := [], args128 := [], top := VmFrame(0, 0, 3));
    assert ComesBack(v, s3, 0, 0) && ComesBack(v, s2, 1, 0) && ComesBack(v, s1, 2, 0);
    assert Run(v, s4, 0) == VNext(s4) && Run(v, s3, 1) == VNext(s4) && Run(v, s2, 2) == VNext(s4) && Run(v, s1, 3) == VNext(s4);
    assert Run(v, BEFORE, 4) == VNext(s4);
  }
}
