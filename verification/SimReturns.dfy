/**
 Returns: delivering a result into the caller and reloading its registers.
 */
module SimReturns {
  import opened Words
  import opened Types
  import opened Ir
  import IM = IrMachine
  import opened VmMachine
  import opened VmCompiler
  import opened FrameLayout
  import opened SimValues
  import opened SimEffects
  import opened Simulation

  /** The activation below is what the relation says it is. */
  lemma CallerFacts(e: IM.Env, v: VmEnv, s: IM.State, st: VmState)
    requires Compiled(e, v) && StackOk(e, v, s, st) && s.rest.Push?
    ensures st.rest.Push? && st.links.Push? && st.links.top == s.top.dst
    ensures FrameOk(e, s.rest.top, st.rest.top) && st.rest.top.fn < |v.execs|
    ensures var x, vf := v.execs[st.rest.top.fn], st.rest.top;
            var start := vf.base + x.frameSize;
            s.top.dst <= x.maxTmp && st.top.base == start + SaveSize(x) &&
            Saved(s.rest.top.tmps, st.stack, start, x) &&
            Suspended(e, v, s.rest.rest, st.rest.rest, st.links.rest, s.rest.top.dst, st.stack, vf.base)
  {
  }

  lemma RestEmpty(e: IM.Env, v: VmEnv, s: IM.State, st: VmState)
    requires StackOk(e, v, s, st)
    ensures s.rest.Empty? <==> st.rest.Empty?
  {
  }

  ghost function Released(e: IM.Env, s: IM.State): IM.State
    requires s.rest.Push? && s.top.fn < |e.prog.functions|
  {
    IM.State(s.rest.top, s.rest.rest,
             IM.Release(s.mem, Objects(e.prog.functions[s.top.fn]), s.top.place), s.globals, s.args)
  }

  /** After the callee's objects are gone, what is alive lies below the caller's save area. */
  lemma RemainingBelow(e: IM.Env, v: VmEnv, s: IM.State, st: VmState, a: nat)
    requires Compiled(e, v) && StackOk(e, v, s, st) && s.rest.Push?
    requires a in s.mem && !OwnedBy(e, s.top, a)
    ensures st.rest.Push? && st.rest.top.fn < |v.execs|
    ensures a < st.rest.top.base + v.execs[st.rest.top.fn].frameSize
    ensures OwnedBy(e, s.rest.top, a) || OwnedBelow(e, s.rest.rest, a)
  {
    CallerFacts(e, v, s, st);
    var f, vf := s.rest.top, st.rest.top;
    assert OwnedBelow(e, s.rest, a);
    if OwnedBy(e, f, a) {
      OwnedRange(e, v, f, vf, a);
    } else {
      BelowTop(e, v, s.rest.rest, st.rest.rest, st.links.rest, f.dst, st.stack, vf.base, a);
    }
  }

  lemma CutSuspended(e: IM.Env, v: VmEnv, s: IM.State, st: VmState, start: nat)
    requires Compiled(e, v) && StackOk(e, v, s, st) && s.rest.Push?
    requires st.rest.Push? && st.rest.top.fn < |v.execs| && start <= |st.stack|
    requires start == st.rest.top.base + v.execs[st.rest.top.fn].frameSize
    ensures st.links.Push?
    ensures Suspended(e, v, s.rest.rest, st.rest.rest, st.links.rest, s.rest.top.dst, st.stack[..start], st.rest.top.base)
  {
    CallerFacts(e, v, s, st);
    var vf, stack' := st.rest.top, st.stack[..start];
    forall a: nat | InSaveArea(v, st.rest.rest, a)
      ensures a < |stack'| && a < |st.stack| && stack'[a] == st.stack[a]
    {
      BelowTop(e, v, s.rest.rest, st.rest.rest, st.links.rest, s.rest.top.dst, st.stack, vf.base, a);
    }
    assert SameSaves(v, st.rest.rest, st.stack, stack');
    SuspendedFrame(e, v, s.rest.rest, st.rest.rest, st.links.rest, s.rest.top.dst, st.stack, stack', vf.base);
  }

  lemma UnwindForm(v: VmEnv, st: VmState, start: nat)
    requires st.rest.Push? && st.links.Push? && st.rest.top.fn < |v.execs|
    requires st.top.base == start + SaveSize(v.execs[st.rest.top.fn]) && st.top.base <= |st.stack|
    ensures var x := v.execs[st.rest.top.fn];
            Unwind(v, st) == Some(VmState(
              LoadRegs(st.stack, start, UsedRegs(x)), LoadRegs128(st.stack, start + 8 * UsedRegs(x), Used128Regs(x)),
              st.stack[..start], st.globals, st.args, st.args128, st.rest.top, st.rest.rest, st.links.rest))
  {
  }

  lemma ReleasedMemory(e: IM.Env, v: VmEnv, s: IM.State, st: VmState, start: nat)
    requires Compiled(e, v) && StackOk(e, v, s, st) && s.rest.Push?
    requires st.rest.Push? && st.rest.top.fn < |v.execs| && start <= |st.stack|
    requires start == st.rest.top.base + v.execs[st.rest.top.fn].frameSize
    ensures MemOk(Released(e, s).mem, st.stack[..start])
    ensures Attributed(e, s.rest.top, s.rest.rest, Released(e, s).mem)
  {
    forall a | a in Released(e, s).mem
      ensures a in s.mem && a < start && (OwnedBy(e, s.rest.top, a) || OwnedBelow(e, s.rest.rest, a))
    {
      RemainingBelow(e, v, s, st, a);
    }
  }

  /** Unwinding on one side, releasing the callee's objects on the other. */
  lemma UnwindSim(e: IM.Env, v: VmEnv, s: IM.State, st: VmState)
    requires Compiled(e, v) && StackOk(e, v, s, st) && s.rest.Push?
    ensures Unwind(v, st).Some?
    ensures StackOk(e, v, Released(e, s), Unwind(v, st).value)
    ensures RegFileOk(v, Released(e, s), Unwind(v, st).value)
  {
    hide Compiled, Suspended, MemOk, Attributed, RegsOk, Unwind;
    CallerFacts(e, v, s, st);
    var start := st.rest.top.base + v.execs[st.rest.top.fn].frameSize;
    UnwindForm(v, st, start);
    CutSuspended(e, v, s, st, start);
    ReleasedMemory(e, v, s, st, start);
  }

  // ---------- delivering a result ----------

  function LowWord(v: Val): Word {
    match v case W(w) => w case Q(q) => q % TWO64
  }

  /** Of a wide value it is the low half. */
  lemma LowWordIsLow(v: Val)
    ensures v.W? ==> LowWord(v) == v.w
    ensures v.Q? ==> (v.q - LowWord(v)) % TWO64 == 0
  {
  }

  function WidePart(v: Val): Option<Quad> {
    match v case W(_) => None case Q(q) => Some(q)
  }

  lemma DeliverForm(fn: Function, f: IM.Frame, d: int, val: Val, mem: Memory) returns (at: nat, bytes: seq<Byte>)
    requires TmpType(fn, d).Struct? && IM.Deliver(fn, f, d, val, mem).Some?
    ensures val.W? && IM.SlotAddress(fn, f.place, d) == Some(at) && at < TWO64
    ensures |bytes| == SizeInBytes(TmpType(fn, d)) && InMem(mem, at, |bytes|) && InMem(mem, val.w, |bytes|)
    ensures bytes == ReadMem(mem, val.w, |bytes|)
    ensures IM.Deliver(fn, f, d, val, mem) == Some((WriteMem(mem, at, bytes), W(at)))
  {
    at := IM.SlotAddress(fn, f.place, d).value;
    bytes := ReadMem(mem, val.w, SizeInBytes(TmpType(fn, d)));
  }

  lemma MaterializeForm(stack: seq<Byte>, base: nat, x: ExecFunc, d: int, src: Word, at: nat, bytes: seq<Byte>)
    requires 0 <= d < |x.tmpTypes| && x.tmpTypes[d].Struct? && d < |x.tmpOffsets| && x.tmpOffsets[d] >= 0
    requires at == base + x.tmpOffsets[d] && |bytes| == SizeInBytes(x.tmpTypes[d]) && at + |bytes| <= |stack|
    requires Peek(stack, src, |bytes|) == Some(bytes)
    ensures Materialize(stack, base, x, d, src) ==
            match Poke(stack, at, bytes) case None => None case Some(t) => Some((t, Some(WordOfInt(at))))
  {
  }

  /** The slot of a struct destination is where the compiled frame has it, and the bytes fit there. */
  lemma DestinationSlot(e: IM.Env, v: VmEnv, i: nat, base: nat, d: int, at: nat, stack: seq<Byte>, mem: Memory)
    requires Compiled(e, v) && i < |v.execs|
    requires TmpType(e.prog.functions[i], d).Struct?
    requires IM.SlotAddress(e.prog.functions[i], PlaceAt(e.prog.functions[i], base), d) == Some(at)
    requires MemOk(mem, stack) && InMem(mem, at, SizeInBytes(TmpType(e.prog.functions[i], d)))
    requires base + v.execs[i].frameSize <= |stack|
    ensures var x := v.execs[i];
            0 <= d < |x.tmpTypes| && x.tmpTypes[d] == TmpType(e.prog.functions[i], d) &&
            d < |x.tmpOffsets| && x.tmpOffsets[d] >= 0 && at == base + x.tmpOffsets[d] &&
            at + SizeInBytes(x.tmpTypes[d]) <= |stack|
  {
    var fn := e.prog.functions[i];
    FrameSizeOf(e, v, i);
    SlotPlace(fn, base, d, at);
    SlotInside(fn, base, d, at);
    var n := SizeInBytes(TmpType(fn, d));
    if n > 0 { assert at + n - 1 in mem; }
  }

  lemma DeliverStruct(e: IM.Env, v: VmEnv, s: IM.State, st: VmState, val: Val)
    requires Compiled(e, v) && StackOk(e, v, s, st) && s.rest.Push?
    requires TmpType(e.prog.functions[s.rest.top.fn], s.top.dst).Struct?
    requires IM.Deliver(e.prog.functions[s.rest.top.fn], s.rest.top, s.top.dst, val, s.mem).Some?
    ensures st.rest.Push? && st.rest.top.fn < |v.execs| && st.links.Push?
    ensures var (m, x) := IM.Deliver(e.prog.functions[s.rest.top.fn], s.rest.top, s.top.dst, val, s.mem).value;
            var out := Materialize(st.stack, st.rest.top.base, v.execs[st.rest.top.fn], st.links.top, LowWord(val));
            out.Some? && x.W? && out.value.1 == Some(x.w) && val.W? &&
            StackOk(e, v, s.(mem := m), st.(stack := out.value.0)) &&
            SameSaves(v, st.rest, st.stack, out.value.0)
  {
    hide Compiled, Suspended, IM.Deliver, Materialize, Attributed, MemOk, InMem, ReadMem, WriteMem, IM.SlotAddress, SizeInBytes;
    CallerFacts(e, v, s, st);
    var f, vf, d := s.rest.top, st.rest.top, s.top.dst;
    var fn := e.prog.functions[f.fn];
    var at, bytes := DeliverForm(fn, f, d, val, s.mem);
    DestinationSlot(e, v, vf.fn, vf.base, d, at, st.stack, s.mem);
    PeekSim(s.mem, st.stack, val.w, |bytes|);
    MaterializeForm(st.stack, vf.base, v.execs[vf.fn], d, val.w, at, bytes);
    WriteSim(e, v, s, st, at, bytes);
    WordOfSmall(at);
  }

  lemma DeliverScalar(e: IM.Env, v: VmEnv, s: IM.State, st: VmState, w: Word)
    requires Compiled(e, v) && StackOk(e, v, s, st) && s.rest.Push?
    requires !TmpType(e.prog.functions[s.rest.top.fn], s.top.dst).Struct?
    ensures st.rest.Push? && st.rest.top.fn < |v.execs| && st.links.Push?
    ensures Materialize(st.stack, st.rest.top.base, v.execs[st.rest.top.fn], st.links.top, w) == Some((st.stack, None))
  {
    CallerFacts(e, v, s, st);
    FrameSizeOf(e, v, st.rest.top.fn);
  }

  lemma WideTmp(e: IM.Env, v: VmEnv, i: nat, d: int)
    requires Compiled(e, v) && i < |v.execs| && Is128(TmpType(e.prog.functions[i], d))
    ensures 0 <= d < Used128Regs(v.execs[i])
  {
    assert CompiledAt(e, v, i);
  }

  lemma SetResult(v: VmEnv, s: IM.State, st: VmState, d: int, val: Val)
    requires RegFileOk(v, s, st) && 0 <= d <= v.execs[st.top.fn].maxTmp
    requires val.Q? ==> d < Used128Regs(v.execs[st.top.fn])
    ensures var out := match val case W(w) => SetWord(st, d, w) case Q(q) => SetQuad(st, d, q);
            out.VNext? && RegFileOk(v, s.(top := s.top.(tmps := s.top.tmps[d := val])), out.state)
            && out.state == (match val case W(w) => st.(regs := st.regs[d := w]) case Q(q) => st.(regs128 := st.regs128[d := q]))
  {
  }

  // ---------- the return ----------

  lemma ReturnVoidSim(e: IM.Env, v: VmEnv, s: IM.State, st: VmState)
    requires Compiled(e, v) && Related(e, v, s, st) && s.rest.Push?
    ensures var next := IM.ApplyReturn(e, s, None);
            next.Next? && ApplyReturn(v, st, None, None).VNext? &&
            Related(e, v, next.state, ApplyReturn(v, st, None, None).state)
  {
    CallerFacts(e, v, s, st);
    UnwindSim(e, v, s, st);
    UnwindKeeps(v, st);
  }

  lemma UnwindKeeps(v: VmEnv, st: VmState)
    requires Unwind(v, st).Some?
    ensures var t := Unwind(v, st).value;
            t.globals == st.globals && t.args == st.args && t.args128 == st.args128
  {
  }

  ghost function ResultState(e: IM.Env, s: IM.State, m: Memory, x: Val): IM.State
    requires s.rest.Push? && s.top.fn < |e.prog.functions|
  {
    var r := Released(e, s.(mem := m));
    r.(top := r.top.(tmps := r.top.tmps[s.top.dst := x]))
  }

  /** Registers reloaded and the result in its destination, given the stack after delivery. */
  lemma FinishReturn(e: IM.Env, v: VmEnv, s: IM.State, st: VmState, m: Memory, stack: seq<Byte>, x: Val)
    requires Compiled(e, v) && StackOk(e, v, s.(mem := m), st.(stack := stack)) && s.rest.Push? && s.top.dst >= 0
    requires GlobalsOk(s.globals, st.globals) && ArgsOk(s.args, st.args, st.args128)
    requires x.Q? ==> Is128(TmpType(e.prog.functions[s.rest.top.fn], s.top.dst))
    ensures Unwind(v, st.(stack := stack)).Some?
    ensures var t := Unwind(v, st.(stack := stack)).value;
            var out := match x case W(w) => SetWord(t, s.top.dst, w) case Q(q) => SetQuad(t, s.top.dst, q);
            out.VNext? && Related(e, v, ResultState(e, s, m, x), out.state)
  {
    var s1, st1 := s.(mem := m), st.(stack := stack);
    CallerFacts(e, v, s1, st1);
    UnwindSim(e, v, s1, st1);
    UnwindKeeps(v, st1);
    if x.Q? { WideTmp(e, v, st.rest.top.fn, s.top.dst); }
    SetResult(v, Released(e, s1), Unwind(v, st1).value, s.top.dst, x);
  }

  lemma ReturnValueForm(e: IM.Env, s: IM.State, val: Val)
    requires s.rest.Push? && IM.ApplyReturn(e, s, Some(val)).Next?
    ensures s.top.fn < |e.prog.functions| && s.rest.top.fn < |e.prog.functions| && s.top.dst >= 0
    ensures var d := IM.Deliver(e.prog.functions[s.rest.top.fn], s.rest.top, s.top.dst, val, s.mem);
            d.Some? && IM.ApplyReturn(e, s, Some(val)) == IM.Next(ResultState(e, s, d.value.0, d.value.1)) &&
            (!TmpType(e.prog.functions[s.rest.top.fn], s.top.dst).Struct? ==>
               d.value == (s.mem, val) && val.Q? == Is128(TmpType(e.prog.functions[s.rest.top.fn], s.top.dst)))
  {
  }

  lemma ReturnValueSim(e: IM.Env, v: VmEnv, s: IM.State, st: VmState, val: Val)
    requires Compiled(e, v) && Related(e, v, s, st) && s.rest.Push?
    requires IM.ApplyReturn(e, s, Some(val)).Next?
    ensures var out := ApplyReturn(v, st, Some(LowWord(val)), WidePart(val));
            out.VNext? && Related(e, v, IM.ApplyReturn(e, s, Some(val)).state, out.state)
  {
    hide IM.ApplyReturn, IM.Deliver, Compiled, Materialize, Unwind, StackOk, Suspended, ResultState;
    assert StackOk(e, v, s, st);
    ReturnValueForm(e, s, val);
    var fn := e.prog.functions[s.rest.top.fn];
    var (m, x) := IM.Deliver(fn, s.rest.top, s.top.dst, val, s.mem).value;
    CallerFacts(e, v, s, st);
    if TmpType(fn, s.top.dst).Struct? {
      DeliverStruct(e, v, s, st, val);
      var out := Materialize(st.stack, st.rest.top.base, v.execs[st.rest.top.fn], st.links.top, LowWord(val)).value;
      FinishReturn(e, v, s, st, m, out.0, x);
    } else {
      DeliverScalar(e, v, s, st, LowWord(val));
      FinishReturn(e, v, s, st, s.mem, st.stack, val);
    }
  }
}
