/**
 The main results about the compiler: one step simulates one step, a run simulates a run,
 and the final value is the same.
 */
module CompilerCorrectness {
  import opened Words
  import opened Types
  import opened Ir
  import IM = IrMachine
  import opened VmMachine
  import opened VmCompiler
  import opened FrameLayout
  import opened SimValues
  import opened SimEffects
  import opened Simulation
  import opened SimCalls
  import opened SimReturns

  // ---------- what an effect says about its instruction ----------

  ghost predicate EffectFacts(e: IM.Env, fn: Function, mem: Memory, ins: Instr, ie: IM.Effect) {
    match ie
    case Assign(d, val) => d == ins.dest && d >= 0 && (val.Q? ==> Is128(TmpType(fn, d)))
    case Write(a, bytes) => InMem(mem, a, |bytes|)
    case Reserve(d, a, n) => d == ins.dest && d >= 0 && a < TWO64 && InMem(mem, a, n)
    case Goto(b) => b < |fn.blocks|
    case Invoke(c, d) => c < |e.prog.functions| && -1 <= d && (d >= 0 ==> d == ins.dest)
    case _ => true
  }

  lemma ValueFacts(e: IM.Env, fn: Function, tmps: Tmps, mem: Memory, ins: Instr)
    ensures EffectFacts(e, fn, mem, ins, IM.ValueEffect(e, fn, tmps, ins))
  {
  }

  lemma StoreFacts(e: IM.Env, fn: Function, f: IM.Frame, mem: Memory, ins: Instr, a: Operand, b: Operand)
    ensures EffectFacts(e, fn, mem, ins, IM.StoreEffect(e, fn, f.tmps, mem, a, b))
    ensures EffectFacts(e, fn, mem, ins, IM.StoreVarEffect(e, fn, f, mem, a, b))
  {
  }

  lemma LoadFacts(e: IM.Env, fn: Function, f: IM.Frame, mem: Memory, globals: seq<Word>, ins: Instr, a: Operand)
    requires ins.dest >= 0
    ensures EffectFacts(e, fn, mem, ins, IM.LoadEffect(TmpType(fn, ins.dest), f.tmps, mem, a, ins.dest))
    ensures EffectFacts(e, fn, mem, ins, IM.LoadVarEffect(fn, f, mem, globals, a, ins.dest))
    ensures EffectFacts(e, fn, mem, ins, IM.LeaEffect(fn, f.place, mem, a, ins.dest))
  {
  }

  lemma MemoryFacts(e: IM.Env, fn: Function, f: IM.Frame, mem: Memory, globals: seq<Word>, ins: Instr)
    requires IM.IsMemoryOp(ins.op)
    ensures EffectFacts(e, fn, mem, ins, IM.MemoryEffect(e, fn, f, mem, globals, ins))
  {
    hide IM.StoreEffect, IM.StoreVarEffect, IM.LoadEffect, IM.LoadVarEffect, IM.LeaEffect;
    if |ins.operands| == 2 { StoreFacts(e, fn, f, mem, ins, ins.operands[0], ins.operands[1]); }
    if |ins.operands| == 1 && ins.dest >= 0 { LoadFacts(e, fn, f, mem, globals, ins, ins.operands[0]); }
  }

  lemma ControlFacts(e: IM.Env, fn: Function, tmps: Tmps, mem: Memory, ins: Instr)
    ensures EffectFacts(e, fn, mem, ins, IM.ControlEffect(e, fn, tmps, ins))
  {
  }

  lemma FactsOf(e: IM.Env, fn: Function, f: IM.Frame, mem: Memory, globals: seq<Word>, ins: Instr)
    ensures EffectFacts(e, fn, mem, ins, IM.EffectOf(e, fn, f, mem, globals, ins))
  {
    hide IM.MemoryEffect, IM.ControlEffect, IM.ValueEffect, EffectFacts;
    if IM.IsMemoryOp(ins.op) {
      MemoryFacts(e, fn, f, mem, globals, ins);
    } else if IM.IsControlOp(ins.op) {
      ControlFacts(e, fn, f.tmps, mem, ins);
    } else {
      ValueFacts(e, fn, f.tmps, mem, ins);
    }
  }

  // ---------- fetching ----------

  ghost predicate HasInstr(e: IM.Env, s: IM.State) {
    && s.top.fn < |e.prog.functions|
    && var fn := e.prog.functions[s.top.fn];
    && s.top.block < |fn.blocks| && s.top.idx < |fn.blocks[s.top.block].instrs|
  }

  ghost function InstrAt(e: IM.Env, s: IM.State): Instr
    requires HasInstr(e, s)
  {
    e.prog.functions[s.top.fn].blocks[s.top.block].instrs[s.top.idx]
  }

  /** The program counter is at the translation of the IR instruction. */
  lemma Fetch(e: IM.Env, v: VmEnv, f: IM.Frame, vf: VmFrame)
    requires Compiled(e, v) && FrameOk(e, f, vf) && vf.fn < |v.execs|
    requires var fn := e.prog.functions[f.fn]; f.block < |fn.blocks| && f.idx < |fn.blocks[f.block].instrs|
    ensures vf.pc < |v.execs[vf.fn].code|
    ensures var fn := e.prog.functions[f.fn];
            var ins := fn.blocks[f.block].instrs[f.idx];
            InstrToVm(e.prog, fn, LayoutOf(fn), ins) == Some(v.execs[vf.fn].code[vf.pc]) &&
            WideImmsSmall(ins) && ins.dest <= v.execs[vf.fn].maxTmp && WellFormed(fn)
  {
    var fn := e.prog.functions[f.fn];
    assert CompiledAt(e, v, vf.fn);
    FlattenAt(fn.blocks, f.block, f.idx);
    var code := Flatten(fn.blocks);
    var vm := CompileCode(e.prog, fn, LayoutOf(fn), code).value;
    assert v.execs[vf.fn].code == vm;
    assert code[vf.pc] in code;
  }

  // ---------- applying matching effects ----------

  ghost predicate StepSim(e: IM.Env, v: VmEnv, io: IM.Outcome, vo: VmOutcome) {
    match io
    case Next(s) => vo.VNext? && Related(e, v, s, vo.state)
    case Done(r) => vo == VDone(match r case None => None case Some(x) => Some(LowWord(x)))
    case Stuck => true
  }

  lemma AssignStep(e: IM.Env, v: VmEnv, s: IM.State, st: VmState, d: int, val: Val)
    requires Compiled(e, v) && Related(e, v, s, st)
    requires 0 <= d <= v.execs[st.top.fn].maxTmp && (val.Q? ==> Is128(TmpType(e.prog.functions[s.top.fn], d)))
    ensures StepSim(e, v, IM.Next(s.(top := s.top.(tmps := s.top.tmps[d := val]))), Apply(v, st, RegEffect(d, val)))
  {
    hide Compiled, Suspended, MemOk, GlobalsOk, ArgsOk;
    if val.Q? { WideTmp(e, v, st.top.fn, d); }
    SetResult(v, s, st, d, val);
  }

  lemma WriteStep(e: IM.Env, v: VmEnv, s: IM.State, st: VmState, a: nat, bytes: seq<Byte>)
    requires Compiled(e, v) && Related(e, v, s, st) && InMem(s.mem, a, |bytes|)
    ensures StepSim(e, v, IM.Next(s.(mem := WriteMem(s.mem, a, bytes))), Apply(v, st, StoreBytes(a, bytes)))
  {
    hide Compiled, StackOk, Suspended, GlobalsOk, ArgsOk, RegsOk;
    WriteSim(e, v, s, st, a, bytes);
  }

  lemma ReserveStep(e: IM.Env, v: VmEnv, s: IM.State, st: VmState, d: int, a: nat, n: nat)
    requires Compiled(e, v) && Related(e, v, s, st) && InMem(s.mem, a, n) && a < TWO64
    requires 0 <= d <= v.execs[st.top.fn].maxTmp
    ensures StepSim(e, v, IM.Next(s.(top := s.top.(tmps := s.top.tmps[d := W(a)]), mem := WriteMem(s.mem, a, Zeros(n)))),
                    Apply(v, st, ZeroAndSet(d, a, n)))
  {
    hide Compiled, Suspended, MemOk, Attributed, GlobalsOk, ArgsOk, InMem;
    WriteStep(e, v, s, st, a, Zeros(n));
    var s1 := s.(mem := WriteMem(s.mem, a, Zeros(n)));
    var st1 := st.(stack := Poke(st.stack, a, Zeros(n)).value);
    WordOfSmall(a);
    AssignStep(e, v, s1, st1, d, W(a));
  }

  lemma GotoStep(e: IM.Env, v: VmEnv, s: IM.State, st: VmState, b: nat)
    requires Related(e, v, s, st) && b < |e.prog.functions[s.top.fn].blocks|
    ensures StepSim(e, v, IM.Next(s.(top := s.top.(block := b, idx := 0))),
                    Apply(v, st, Jump(CodeStart(e.prog.functions[s.top.fn].blocks, b))))
  {
    hide Suspended, MemOk, RegsOk, GlobalsOk, ArgsOk;
  }

  lemma GlobalStep(e: IM.Env, v: VmEnv, s: IM.State, st: VmState, slot: nat, w: Word)
    requires Related(e, v, s, st)
    ensures StepSim(e, v, IM.Next(s.(globals := IM.StoreGlobal(s.globals, slot, w))), Apply(v, st, StoreSlot(slot, w)))
  {
    hide Suspended, MemOk, RegsOk, Attributed, ArgsOk;
    GlobalSim(s.globals, st.globals, slot, w);
  }

  lemma PushArgStep(e: IM.Env, v: VmEnv, s: IM.State, st: VmState, val: Val, w: Word, q: Quad)
    requires Related(e, v, s, st) && ArgOk(val, w, q)
    ensures StepSim(e, v, IM.Next(s.(args := s.args + [val])), Apply(v, st, PushArgs(w, q)))
  {
    hide Suspended, MemOk, RegsOk, Attributed, GlobalsOk;
  }

  lemma ReturnStep(e: IM.Env, v: VmEnv, s: IM.State, st: VmState, result: Option<Val>)
    requires Compiled(e, v) && Related(e, v, s, st)
    ensures StepSim(e, v, IM.ApplyReturn(e, s, result),
                    match result
                    case None => ApplyReturn(v, st, None, None)
                    case Some(val) => ApplyReturn(v, st, Some(LowWord(val)), WidePart(val)))
  {
    hide Compiled, Related, StackOk, IM.Deliver, Materialize, Unwind;
    assert StackOk(e, v, s, st) by { StackOfRelated(e, v, s, st); }
    RestEmpty(e, v, s, st);
    if s.rest.Push? {
      match result
      case None => ReturnVoidSim(e, v, s, st);
      case Some(val) =>
        if IM.ApplyReturn(e, s, result).Next? { ReturnValueSim(e, v, s, st, val); }
    }
  }

  lemma StackOfRelated(e: IM.Env, v: VmEnv, s: IM.State, st: VmState)
    requires Related(e, v, s, st)
    ensures StackOk(e, v, s, st) && RegFileOk(v, s, st)
    ensures s.top.fn == st.top.fn && s.top.fn < |e.prog.functions| && st.top.fn < |v.execs|
  {
  }

  /** The placement under which the IR makes the same step. */
  ghost function PlaceFor(e: IM.Env, v: VmEnv, s: IM.State, st: VmState): Placement {
    var eff := IM.NextEffect(e, s);
    if eff.Invoke? && eff.callee < |e.prog.functions| && st.top.fn < |v.execs|
    then PlaceAt(e.prog.functions[eff.callee], CallBase(v, st)) else []
  }

  lemma ApplyStep(e: IM.Env, v: VmEnv, s: IM.State, st: VmState, ins: Instr, ie: IM.Effect, ve: VmEffect, place: Placement)
    requires Compiled(e, v) && Related(e, v, s, st)
    requires !ie.Fault? && !ie.Invoke?
    requires s.top.fn < |e.prog.functions| && st.top.fn < |v.execs| && ins.dest <= v.execs[st.top.fn].maxTmp
    requires EffectFacts(e, e.prog.functions[s.top.fn], s.mem, ins, ie)
    requires Matches(e.prog.functions[s.top.fn], ie, ve)
    ensures StepSim(e, v, IM.Apply(e, s, ie, place), Apply(v, st, ve))
  {
    hide Compiled, Related, StepSim, ApplyReturn, IM.ApplyReturn, StoreGlobalBytes, IM.StoreGlobal, SetWord, SetQuad, Poke;
    assert s.top.fn == st.top.fn by { StackOfRelated(e, v, s, st); }
    match ie
    case Assign(d, val) => AssignStep(e, v, s, st, d, val);
    case Write(a, bytes) => WriteStep(e, v, s, st, a, bytes);
    case Reserve(d, a, n) => ReserveStep(e, v, s, st, d, a, n);
    case SetGlobal(slot, w) => GlobalStep(e, v, s, st, slot, w);
    case Goto(b) => GotoStep(e, v, s, st, b);
    case PushArg(val) => PushArgStep(e, v, s, st, val, ve.w, ve.q);
    case Return(result) => ReturnStep(e, v, s, st, result);
  }

  lemma CallStep(e: IM.Env, v: VmEnv, s: IM.State, st: VmState, ins: Instr, c: nat, d: int)
    requires Compiled(e, v) && Related(e, v, s, st) && c < |e.prog.functions|
    requires s.top.fn < |e.prog.functions| && st.top.fn < |v.execs| && d <= v.execs[st.top.fn].maxTmp
    requires |s.args| <= |e.prog.functions[c].argLocals|
    requires Apply(v, st, CallFn(c, d)) != VOverflow
    ensures IM.Fits(s.mem, e.prog.functions[c], PlaceAt(e.prog.functions[c], CallBase(v, st)))
    ensures StepSim(e, v, IM.Apply(e, s, IM.Invoke(c, d), PlaceAt(e.prog.functions[c], CallBase(v, st))), Apply(v, st, CallFn(c, d)))
  {
    hide Compiled, Related, ApplyCall, IM.ApplyInvoke, IM.Fits, PlaceAt;
    assert |v.execs| == |e.prog.functions| by { SameCount(e, v); }
    InvokeSim(e, v, s, st, c, d);
  }

  lemma SameCount(e: IM.Env, v: VmEnv)
    requires Compiled(e, v)
    ensures |v.execs| == |e.prog.functions| && v.fpu == e.fpu
  {
  }

  lemma AgreeOfRelated(e: IM.Env, v: VmEnv, s: IM.State, st: VmState)
    requires Compiled(e, v) && Related(e, v, s, st)
    ensures s.top.fn < |e.prog.functions| && Agree(e.prog.functions[s.top.fn], s.top, s.mem, s.globals, st)
  {
    FrameSizeOf(e, v, st.top.fn);
  }

  /** Both machines past the current instruction. */
  ghost function Past(s: IM.State): IM.State { s.(top := s.top.(idx := s.top.idx + 1)) }

  function PastVm(st: VmState): VmState { st.(top := st.top.(pc := st.top.pc + 1)) }

  lemma PastRelated(e: IM.Env, v: VmEnv, s: IM.State, st: VmState)
    requires Related(e, v, s, st)
    ensures Related(e, v, Past(s), PastVm(st))
  {
    hide Suspended, MemOk, RegsOk, GlobalsOk, ArgsOk;
  }

  /** The fetched bytecode instruction has the effect of the IR instruction. */
  lemma FetchedEffect(e: IM.Env, v: VmEnv, s: IM.State, st: VmState)
    requires Compiled(e, v) && Related(e, v, s, st) && !IM.NextEffect(e, s).Fault?
    ensures HasInstr(e, s) && st.top.fn < |v.execs| && st.top.pc < |v.execs[st.top.fn].code|
    ensures var fn := e.prog.functions[s.top.fn];
            EffectFacts(e, fn, s.mem, InstrAt(e, s), IM.NextEffect(e, s)) &&
            InstrAt(e, s).dest <= v.execs[st.top.fn].maxTmp &&
            Matches(fn, IM.NextEffect(e, s), EffectOf(v.fpu, PastVm(st), v.execs[st.top.fn].code[st.top.pc]))
  {
    hide IM.EffectOf, EffectOf, EffectFacts, Matches, Agree, Compiled, Suspended, MemOk, Attributed, GlobalsOk, ArgsOk, InstrToVm;
    var fn := e.prog.functions[s.top.fn];
    var ins := fn.blocks[s.top.block].instrs[s.top.idx];
    Fetch(e, v, s.top, st.top);
    PastRelated(e, v, s, st);
    AgreeOfRelated(e, v, Past(s), PastVm(st));
    SameCount(e, v);
    EffectSim(e, fn, Past(s).top, s.mem, s.globals, PastVm(st), ins, v.execs[st.top.fn].code[st.top.pc]);
    EffectIgnoresIndex(e, fn, s.top, Past(s).top, s.mem, s.globals, ins);
    FactsOf(e, fn, s.top, s.mem, s.globals, ins);
  }

  lemma EffectIgnoresIndex(e: IM.Env, fn: Function, f: IM.Frame, g: IM.Frame, mem: Memory, globals: seq<Word>, ins: Instr)
    requires f.tmps == g.tmps && f.place == g.place
    ensures IM.EffectOf(e, fn, f, mem, globals, ins) == IM.EffectOf(e, fn, g, mem, globals, ins)
  {
  }

  /**
   One step.  From related states, if the IR makes a step under every admissible placement,
   the bytecode machine does not crash; unless its stack is full it makes the same step,
   the IR's objects being placed where the compiled frame has them.
   */
  lemma StepSimulation(e: IM.Env, v: VmEnv, s: IM.State, st: VmState)
    requires Compiled(e, v) && Related(e, v, s, st) && IM.Safe(e, s, 1)
    ensures Step(v, st) != VCrash
    ensures Step(v, st) != VOverflow ==>
              IM.Admissible(e, s, PlaceFor(e, v, s, st)) &&
              StepSim(e, v, IM.Step(e, s, PlaceFor(e, v, s, st)), Step(v, st))
  {
    StepCases(e, v, s, st);
    assert IM.Admissible(e, s, PlaceFor(e, v, s, st)) ==> !IM.Step(e, s, PlaceFor(e, v, s, st)).Stuck?;
  }

  lemma StepCases(e: IM.Env, v: VmEnv, s: IM.State, st: VmState)
    requires Compiled(e, v) && Related(e, v, s, st) && IM.Safe(e, s, 1)
    ensures Step(v, st) != VOverflow ==>
              IM.Admissible(e, s, PlaceFor(e, v, s, st)) &&
              StepSim(e, v, IM.Step(e, s, PlaceFor(e, v, s, st)), Step(v, st))
  {
    hide Compiled, Related, EffectOf, EffectFacts, Matches, StepSim, IM.NextEffect, IM.Apply, Apply, IM.Fits, PlaceAt,
      IM.Safe, Step, IM.Step;
    NoFault(e, s);
    StepForms(e, v, s, st);
    FetchedEffect(e, v, s, st);
    PastRelated(e, v, s, st);
    StackOfRelated(e, v, s, st);
    var ie := IM.NextEffect(e, s);
    var ve := EffectOf(v.fpu, PastVm(st), v.execs[st.top.fn].code[st.top.pc]);
    var place := PlaceFor(e, v, s, st);
    if ie.Invoke? {
      if Apply(v, PastVm(st), ve) != VOverflow { CallCases(e, v, s, st, ie, ve); }
    } else {
      ApplyStep(e, v, Past(s), PastVm(st), InstrAt(e, s), ie, ve, place);
    }
  }

  lemma StepForms(e: IM.Env, v: VmEnv, s: IM.State, st: VmState)
    ensures st.top.fn < |v.execs| && st.top.pc < |v.execs[st.top.fn].code| ==>
              Step(v, st) == Apply(v, PastVm(st), EffectOf(v.fpu, PastVm(st), v.execs[st.top.fn].code[st.top.pc]))
    ensures forall place :: IM.Step(e, s, place) == IM.Apply(e, Past(s), IM.NextEffect(e, s), place)
  {
    hide EffectOf, Apply, IM.Apply, IM.NextEffect;
  }

  lemma CallCases(e: IM.Env, v: VmEnv, s: IM.State, st: VmState, ie: IM.Effect, ve: VmEffect)
    requires Compiled(e, v) && Related(e, v, s, st) && IM.Safe(e, s, 1)
    requires ie == IM.NextEffect(e, s) && ie.Invoke? && HasInstr(e, s) && st.top.fn < |v.execs|
    requires EffectFacts(e, e.prog.functions[s.top.fn], s.mem, InstrAt(e, s), ie)
    requires InstrAt(e, s).dest <= v.execs[st.top.fn].maxTmp
    requires Matches(e.prog.functions[s.top.fn], ie, ve)
    requires Apply(v, PastVm(st), ve) != VOverflow
    ensures IM.Admissible(e, s, PlaceFor(e, v, s, st))
    ensures StepSim(e, v, IM.Step(e, s, PlaceFor(e, v, s, st)), Apply(v, PastVm(st), ve))
  {
    hide Compiled, Related, IM.NextEffect, IM.ApplyInvoke, ApplyCall, IM.Fits, PlaceAt, StepSim;
    ArgsFit(e, s, ie);
    PastRelated(e, v, s, st);
    CallStep(e, v, Past(s), PastVm(st), InstrAt(e, s), ie.callee, ie.dst);
  }

  lemma NoFault(e: IM.Env, s: IM.State)
    requires IM.Safe(e, s, 1)
    ensures !IM.NextEffect(e, s).Fault?
  {
    if IM.NextEffect(e, s).Fault? {
      assert IM.Admissible(e, s, []);
    }
  }

  /** A safe call does not pass more arguments than there are parameters. */
  lemma ArgsFit(e: IM.Env, s: IM.State, ie: IM.Effect)
    requires IM.Safe(e, s, 1) && ie == IM.NextEffect(e, s) && ie.Invoke? && ie.callee < |e.prog.functions|
    ensures |s.args| <= |e.prog.functions[ie.callee].argLocals|
  {
    if |s.args| > |e.prog.functions[ie.callee].argLocals| {
      assert IM.Admissible(e, s, []);
    }
  }

  // ---------- runs ----------

  lemma SafeStep(e: IM.Env, s: IM.State, n: nat)
    requires IM.Safe(e, s, n) && n > 0
    ensures IM.Safe(e, s, 1)
    ensures forall place: Placement :: IM.Admissible(e, s, place) && IM.Step(e, s, place).Next? ==>
              IM.Safe(e, IM.Step(e, s, place).state, n - 1)
  {
    hide IM.Admissible, IM.Step;
  }

  lemma RunTail(e: IM.Env, s: IM.State, first: Placement, rest: seq<Placement>)
    ensures IM.Run(e, s, [first] + rest) ==
            if IM.Step(e, s, first).Next? then IM.Run(e, IM.Step(e, s, first).state, rest) else IM.Step(e, s, first)
  {
    hide IM.Step;
    assert ([first] + rest)[1..] == rest;
  }

  /**
   Compiler correctness over whole runs.  A program that is safe for `n` steps, started in
   related states, makes the same run on the bytecode machine: same branches, same variables,
   same defined temporaries, same results, across calls of any depth.  The only other
   outcome is the stack limit.
   */
  lemma {:induction false} RunSimulation(e: IM.Env, v: VmEnv, s: IM.State, st: VmState, n: nat)
    returns (places: seq<Placement>)
    requires Compiled(e, v) && Related(e, v, s, st) && IM.Safe(e, s, n)
    ensures |places| == n && Run(v, st, n) != VCrash
    ensures Run(v, st, n) != VOverflow ==>
              !IM.Run(e, s, places).Stuck? && StepSim(e, v, IM.Run(e, s, places), Run(v, st, n))
    decreases n
  {
    hide Compiled, Related, IM.Step, Step, IM.Admissible, PlaceFor;
    places := [];
    if n > 0 {
      SafeStep(e, s, n);
      StepSimulation(e, v, s, st);
      var first := PlaceFor(e, v, s, st);
      var rest: seq<Placement> := seq(n - 1, _ => []);
      if Step(v, st).VNext? && IM.Step(e, s, first).Next? {
        rest := RunSimulation(e, v, IM.Step(e, s, first).state, Step(v, st).state, n - 1);
      }
      places := [first] + rest;
      RunTail(e, s, first, rest);
      NotStuck(e, s, first);
    }
  }

  lemma NotStuck(e: IM.Env, s: IM.State, place: Placement)
    requires IM.Safe(e, s, 1)
    ensures IM.Admissible(e, s, place) ==> !IM.Step(e, s, place).Stuck?
  {
    hide IM.Admissible, IM.Step;
  }
}
