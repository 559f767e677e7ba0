/**
 The abstract machine of the IR.  A step is a pure effect of one instruction followed by
 its application.  A run that faults has no meaning, so nothing is claimed about it.
 */
module IrMachine {
  import opened Words
  import opened Types
  import opened Ir

  datatype Stack<T> = Empty | Push(top: T, rest: Stack<T>)

  /** `dst` is the temporary of the caller that takes the result, or -1. */
  datatype Frame = Frame(fn: nat, block: nat, idx: nat, tmps: Tmps, place: Placement, dst: int)

  datatype State = State(top: Frame, rest: Stack<Frame>, mem: Memory, globals: seq<Word>, args: seq<Val>)

  datatype Env = Env(prog: Program, fpu: Fpu)

  datatype Effect =
    | Assign(dst: int, val: Val)
    | Write(addr: nat, bytes: seq<Byte>)
    | Reserve(dst: int, addr: nat, size: nat)
    | SetGlobal(slot: nat, w: Word)
    | Goto(block: nat)
    | PushArg(val: Val)
    | Invoke(callee: nat, dst: int)
    | Return(result: Option<Val>)
    | Fault

  datatype Outcome = Next(state: State) | Done(result: Option<Val>) | Stuck

  function BlockIndex(blocks: seq<Block>, lab: int): (r: Option<nat>)
    ensures r.Some? ==> r.value < |blocks| && blocks[r.value].lab == lab
    ensures r.None? ==> forall i :: 0 <= i < |blocks| ==> blocks[i].lab != lab
  {
    if blocks == [] then None
    else if blocks[0].lab == lab then Some(0)
    else match BlockIndex(blocks[1..], lab)
         case None => None
         case Some(i) => Some(i + 1)
  }

  // ---------- effects of memory instructions ----------

  /** Store through a pointer: the pointee type of the pointer decides the width. */
  ghost function StoreEffect(e: Env, fn: Function, tmps: Tmps, mem: Memory, p: Operand, v: Operand): Effect {
    var pt := OperandType(e.prog, fn, p);
    var t := if pt.Ptr? then pt.to else OperandType(e.prog, fn, v);
    match Read64(tmps, p)
    case None => Fault
    case Some(addr) =>
      if Is128(t) then
        (match Read128(tmps, v)
         case Some(q) => if InMem(mem, addr, 16) then Write(addr, ToBytes(q, 16)) else Fault
         case None => Fault)
      else
        match Read64(tmps, v)
        case Some(w) =>
          var n := SizeInBytes(t);
          if 1 <= n <= 8 && InMem(mem, addr, n) then Write(addr, ToBytes(w, n)) else Fault
        case None => Fault
  }

  /** Load through a pointer at the destination type. */
  ghost function LoadEffect(t: Type, tmps: Tmps, mem: Memory, p: Operand, dst: int): Effect {
    match Read64(tmps, p)
    case None => Fault
    case Some(addr) =>
      if Is128(t) then
        if InMem(mem, addr, 16) then Assign(dst, Q(QuadOf(ReadMem(mem, addr, 16)))) else Fault
      else
        var n := SizeInBytes(t);
        if 1 <= n <= 8 && InMem(mem, addr, n) then Assign(dst, W(WordOf(ReadMem(mem, addr, n)))) else Fault
  }

  /** Read a variable; a struct value is represented by the address of its storage. */
  ghost function LoadVarEffect(fn: Function, f: Frame, mem: Memory, globals: seq<Word>, v: Operand, dst: int): Effect {
    var t := TmpType(fn, dst);
    match v
    case Local(l) =>
      if !(0 <= l < |fn.localTypes| && l < |f.place|) then Fault else
      var at := f.place[l];
      if t.Struct? then AddressEffect(mem, at, dst)
      else if Is128(t) then
        if InMem(mem, at, 16) then Assign(dst, Q(QuadOf(ReadMem(mem, at, 16)))) else Fault
      else if InMem(mem, at, 8) then Assign(dst, W(WordOf(ReadMem(mem, at, 8)))) else Fault
    case Slot(s) =>
      if t.Struct? || Is128(t) || !(0 <= s < |globals|) then Fault else Assign(dst, W(globals[s]))
    case _ => Fault
  }

  ghost function AddressEffect(mem: Memory, at: nat, dst: int): Effect {
    if at in mem && at < TWO64 then Assign(dst, W(at)) else Fault
  }

  /** Assign to a variable; the write stays inside that variable. */
  ghost function StoreVarEffect(e: Env, fn: Function, f: Frame, mem: Memory, x: Operand, v: Operand): Effect {
    match x
    case Local(l) =>
      if !(0 <= l < |fn.localTypes| && l < |f.place|) then Fault else
      var at, t := f.place[l], fn.localTypes[l];
      if t.Struct? then
        (match Read64(f.tmps, v)
         case None => Fault
         case Some(src) => CopyEffect(mem, at, src, SizeInBytes(t)))
      else if Is128(OperandType(e.prog, fn, v)) then
        (match Read128(f.tmps, v)
         case None => Fault
         case Some(q) =>
           if 16 <= Extent(SizeInBytes(t)) && InMem(mem, at, 16) then Write(at, ToBytes(q, 16)) else Fault)
      else
        (match Read64(f.tmps, v)
         case None => Fault
         case Some(w) =>
           if 8 <= Extent(SizeInBytes(t)) && InMem(mem, at, 8) then Write(at, ToBytes(w, 8)) else Fault)
    case Slot(s) =>
      if s < 0 || Is128(OperandType(e.prog, fn, v)) then Fault else
      (match Read64(f.tmps, v) case None => Fault case Some(w) => SetGlobal(s, w))
    case _ => Fault
  }

  ghost function CopyEffect(mem: Memory, dst: nat, src: nat, n: nat): Effect {
    if InMem(mem, src, n) && InMem(mem, dst, n) then Write(dst, ReadMem(mem, src, n)) else Fault
  }

  function SlotAddress(fn: Function, place: Placement, t: int): Option<nat> {
    match Position(Slots(fn), t)
    case None => None
    case Some(k) => if |fn.localTypes| + k < |place| then Some(place[|fn.localTypes| + k]) else None
  }

  // ---------- effect of one instruction ----------

  ghost function SAllocEffect(fn: Function, place: Placement, mem: Memory, ins: Instr): Effect {
    if !IsSAlloc(ins) || !ins.operands[0].Imm? || ins.operands[0].v < 0 then Fault else
    match SlotAddress(fn, place, ins.dest)
    case None => Fault
    case Some(at) =>
      if at < TWO64 && InMem(mem, at, ins.operands[0].v) then Reserve(ins.dest, at, ins.operands[0].v) else Fault
  }

  ghost function LeaEffect(fn: Function, place: Placement, mem: Memory, o: Operand, dst: int): Effect {
    if o.Local? && 0 <= o.l < |fn.localTypes| && o.l < |place| then AddressEffect(mem, place[o.l], dst) else Fault
  }

  ghost function CopyOpEffect(tmps: Tmps, mem: Memory, d: Operand, s: Operand, n: Operand): Effect {
    if !n.Imm? || n.v < 0 then Fault else
    match (Read64(tmps, d), Read64(tmps, s))
    case (Some(dst), Some(src)) => CopyEffect(mem, dst, src, n.v)
    case _ => Fault
  }

  ghost function MemoryEffect(e: Env, fn: Function, f: Frame, mem: Memory, globals: seq<Word>, ins: Instr): Effect {
    var ops, n := ins.operands, |ins.operands|;
    match ins.op
    case SAlloc => SAllocEffect(fn, f.place, mem, ins)
    case Ste => if ins.dest < 0 && n == 2 then StoreEffect(e, fn, f.tmps, mem, ops[0], ops[1]) else Fault
    case Lde => if ins.dest >= 0 && n == 1 then LoadEffect(TmpType(fn, ins.dest), f.tmps, mem, ops[0], ins.dest) else Fault
    case Lea => if ins.dest >= 0 && n == 1 then LeaEffect(fn, f.place, mem, ops[0], ins.dest) else Fault
    case Load => if ins.dest >= 0 && n == 1 then LoadVarEffect(fn, f, mem, globals, ops[0], ins.dest) else Fault
    case Stre => if ins.dest < 0 && n == 2 then StoreVarEffect(e, fn, f, mem, ops[0], ops[1]) else Fault
    case Copy => if ins.dest < 0 && n == 3 then CopyOpEffect(f.tmps, mem, ops[0], ops[1], ops[2]) else Fault
    case _ => Fault
  }

  ghost function ValueEffect(e: Env, fn: Function, tmps: Tmps, ins: Instr): Effect {
    var ops, n := ins.operands, |ins.operands|;
    var v: Option<Val> :=
      if ins.dest < 0 then None
      else if IsArith(ins.op) && n == 2 then
        ArithValue(e.fpu, ins.op, TmpType(fn, ins.dest), tmps, ops[0], ops[1])
      else if IsCompare(ins.op) && n == 2 then
        CompareValue(e.fpu, ins.op, OperandType(e.prog, fn, ops[0]), OperandType(e.prog, fn, ops[1]), tmps, ops[0], ops[1])
      else if IsUnary(ins.op) && n == 1 then
        UnaryValue(e.fpu, ins.op, TmpType(fn, ins.dest), OperandType(e.prog, fn, ops[0]), tmps, ops[0])
      else None;
    match v case None => Fault case Some(x) => Assign(ins.dest, x)
  }

  ghost function BranchEffect(fn: Function, tmps: Tmps, c: Operand, yes: Operand, no: Operand): Effect {
    if !yes.Label? || !no.Label? then Fault else
    match Read64(tmps, c) case None => Fault case Some(w) => GotoEffect(fn, if w != 0 then yes else no)
  }

  ghost function ArgEffect(e: Env, fn: Function, tmps: Tmps, o: Operand): Effect {
    if !o.Tmp? && !o.Imm? then Fault else
    match ReadVal(tmps, o, Is128(OperandType(e.prog, fn, o))) case None => Fault case Some(v) => PushArg(v)
  }

  ghost function CallEffect(e: Env, ins: Instr): Effect {
    if |ins.operands| == 1 && ins.operands[0].Imm? && ins.operands[0].v in e.prog.symToFunc
       && e.prog.symToFunc[ins.operands[0].v] < |e.prog.functions|
    then Invoke(e.prog.symToFunc[ins.operands[0].v], if ins.dest < 0 then -1 else ins.dest)
    else Fault
  }

  ghost function RetEffect(e: Env, fn: Function, tmps: Tmps, ins: Instr): Effect {
    if ins.dest >= 0 || |ins.operands| > 1 then Fault
    else if |ins.operands| == 0 then Return(None)
    else
      var o := ins.operands[0];
      match ReadVal(tmps, o, Is128(OperandType(e.prog, fn, o))) case None => Fault case Some(v) => Return(Some(v))
  }

  ghost function ControlEffect(e: Env, fn: Function, tmps: Tmps, ins: Instr): Effect {
    var ops, n := ins.operands, |ins.operands|;
    match ins.op
    case Jmp => if ins.dest < 0 && n == 1 then GotoEffect(fn, ops[0]) else Fault
    case Cmp => if ins.dest < 0 && n == 3 then BranchEffect(fn, tmps, ops[0], ops[1], ops[2]) else Fault
    case Arg => if ins.dest < 0 && n == 1 then ArgEffect(e, fn, tmps, ops[0]) else Fault
    case Call => CallEffect(e, ins)
    case Ret => RetEffect(e, fn, tmps, ins)
    case _ => Fault
  }

  ghost function GotoEffect(fn: Function, o: Operand): Effect {
    if !o.Label? then Fault else
    match BlockIndex(fn.blocks, o.lab) case None => Fault case Some(b) => Goto(b)
  }

  predicate IsMemoryOp(op: Op) {
    op.SAlloc? || op.Ste? || op.Lde? || op.Lea? || op.Load? || op.Stre? || op.Copy?
  }

  predicate IsControlOp(op: Op) { op.Jmp? || op.Cmp? || op.Arg? || op.Call? || op.Ret? }

  ghost function EffectOf(e: Env, fn: Function, f: Frame, mem: Memory, globals: seq<Word>, ins: Instr): Effect {
    if IsMemoryOp(ins.op) then MemoryEffect(e, fn, f, mem, globals, ins)
    else if IsControlOp(ins.op) then ControlEffect(e, fn, f.tmps, ins)
    else ValueEffect(e, fn, f.tmps, ins)
  }

  // ---------- calls and returns ----------

  /** A placement of fresh objects: apart from each other and from everything alive. */
  ghost predicate Fits(mem: Memory, fn: Function, place: Placement) {
    var sizes := Objects(fn);
    && |place| == |sizes|
    && Disjoint(sizes, place)
    && (forall k :: 0 <= k < |place| ==> place[k] + Extent(sizes[k]) < TWO64)
    && (forall a :: a in mem ==> !Owned(sizes, place, a))
  }

  ghost function Allocate(mem: Memory, sizes: seq<nat>, place: Placement): Memory {
    mem + map a: nat | a < TWO64 && Owned(sizes, place, a) :: 0
  }

  ghost function Release(mem: Memory, sizes: seq<nat>, place: Placement): Memory {
    map a | a in mem && !Owned(sizes, place, a) :: mem[a]
  }

  /** Copy one argument into its parameter: a struct by content, a word widened to a 128-bit parameter. */
  ghost function BindArg(t: Type, at: nat, v: Val, mem: Memory): Option<Memory> {
    if t.Struct? then
      var n := SizeInBytes(t);
      if v.W? && InMem(mem, v.w, n) && InMem(mem, at, n) then Some(WriteMem(mem, at, ReadMem(mem, v.w, n))) else None
    else if Is128(t) then
      var q := if v.Q? then v.q else QuadOfInt(Signed(W64, v.w));
      if InMem(mem, at, 16) then Some(WriteMem(mem, at, ToBytes(q, 16))) else None
    else
      if v.W? && 8 <= Extent(SizeInBytes(t)) && InMem(mem, at, 8) then Some(WriteMem(mem, at, ToBytes(v.w, 8))) else None
  }

  ghost function BindArgs(fn: Function, place: Placement, args: seq<Val>, n: nat, mem: Memory): Option<Memory>
    requires n <= |args| <= |fn.argLocals|
  {
    if n == 0 then Some(mem) else
    match BindArgs(fn, place, args, n - 1, mem)
    case None => None
    case Some(m) =>
      var l := fn.argLocals[n - 1];
      if 0 <= l < |fn.localTypes| && l < |place| then BindArg(fn.localTypes[l], place[l], args[n - 1], m) else None
  }

  ghost function ApplyInvoke(e: Env, s: State, callee: nat, dst: int, place: Placement): Outcome {
    if callee >= |e.prog.functions| then Stuck else
    var fn := e.prog.functions[callee];
    if |s.args| > |fn.argLocals| || !Fits(s.mem, fn, place) then Stuck else
    match BindArgs(fn, place, s.args, |s.args|, Allocate(s.mem, Objects(fn), place))
    case None => Stuck
    case Some(m) => Next(State(Frame(callee, 0, 0, map[], place, dst), Push(s.top, s.rest), m, s.globals, []))
  }

  /** Deliver a result into the caller's destination: a struct is copied into its own slot there. */
  ghost function Deliver(fn: Function, f: Frame, dst: int, v: Val, mem: Memory): Option<(Memory, Val)> {
    var t := TmpType(fn, dst);
    if t.Struct? then
      (match SlotAddress(fn, f.place, dst)
       case None => None
       case Some(at) =>
         var n := SizeInBytes(t);
         if v.W? && at < TWO64 && InMem(mem, v.w, n) && InMem(mem, at, n)
         then Some((WriteMem(mem, at, ReadMem(mem, v.w, n)), W(at))) else None)
    else if v.Q? == Is128(t) then Some((mem, v)) else None
  }

  ghost function ApplyReturn(e: Env, s: State, result: Option<Val>): Outcome {
    if s.rest.Empty? then Done(result) else
    var caller := s.rest.top;
    if s.top.fn >= |e.prog.functions| || caller.fn >= |e.prog.functions| then Stuck else
    var sizes := Objects(e.prog.functions[s.top.fn]);
    match result
    case None => Next(State(caller, s.rest.rest, Release(s.mem, sizes, s.top.place), s.globals, s.args))
    case Some(v) =>
      if s.top.dst < 0 then Stuck else
      match Deliver(e.prog.functions[caller.fn], caller, s.top.dst, v, s.mem)
      case None => Stuck
      case Some((m, x)) =>
        Next(State(caller.(tmps := caller.tmps[s.top.dst := x]), s.rest.rest,
                   Release(m, sizes, s.top.place), s.globals, s.args))
  }

  function StoreGlobal(globals: seq<Word>, slot: nat, w: Word): seq<Word> {
    if slot < |globals| then globals[slot := w]
    else globals + seq(slot - |globals|, _ => 0 as Word) + [w]
  }

  /** `s` already points past the instruction. */
  ghost function Apply(e: Env, s: State, eff: Effect, place: Placement): Outcome {
    match eff
    case Assign(d, v) => Next(s.(top := s.top.(tmps := s.top.tmps[d := v])))
    case Write(a, bytes) => Next(s.(mem := WriteMem(s.mem, a, bytes)))
    case Reserve(d, a, n) =>
      if a >= TWO64 then Stuck else
      Next(s.(top := s.top.(tmps := s.top.tmps[d := W(a)]), mem := WriteMem(s.mem, a, Zeros(n))))
    case SetGlobal(slot, w) => Next(s.(globals := StoreGlobal(s.globals, slot, w)))
    case Goto(b) => Next(s.(top := s.top.(block := b, idx := 0)))
    case PushArg(v) => Next(s.(args := s.args + [v]))
    case Invoke(callee, dst) => ApplyInvoke(e, s, callee, dst, place)
    case Return(v) => ApplyReturn(e, s, v)
    case Fault => Stuck
  }

  /** The step about to be made, or `Fault` when there is no instruction. */
  ghost function NextEffect(e: Env, s: State): Effect {
    var f := s.top;
    if f.fn >= |e.prog.functions| then Fault else
    var fn := e.prog.functions[f.fn];
    if f.block >= |fn.blocks| || f.idx >= |fn.blocks[f.block].instrs| then Fault else
    EffectOf(e, fn, f, s.mem, s.globals, fn.blocks[f.block].instrs[f.idx])
  }

  ghost function Step(e: Env, s: State, place: Placement): Outcome {
    Apply(e, s.(top := s.top.(idx := s.top.idx + 1)), NextEffect(e, s), place)
  }

  /** At most one step per placement; only calls look at theirs. */
  ghost function Run(e: Env, s: State, places: seq<Placement>): Outcome
    decreases |places|
  {
    if places == [] then Next(s) else
    match Step(e, s, places[0])
    case Next(t) => Run(e, t, places[1..])
    case other => other
  }

  /** A call needs a placement that fits; every other step takes any. */
  ghost predicate Admissible(e: Env, s: State, place: Placement) {
    var eff := NextEffect(e, s);
    eff.Invoke? && eff.callee < |e.prog.functions| && |s.args| <= |e.prog.functions[eff.callee].argLocals| ==>
      Fits(s.mem, e.prog.functions[eff.callee], place)
  }

  /** Wherever its objects are put, the program does `n` steps without a fault, unless it ends before. */
  ghost predicate Safe(e: Env, s: State, n: nat)
    decreases n
  {
    n == 0 || forall place: Placement :: Admissible(e, s, place) ==>
      match Step(e, s, place)
      case Next(t) => Safe(e, t, n - 1)
      case Done(_) => true
      case Stuck => false
  }
}
