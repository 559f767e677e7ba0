/**
 What the instructions of the IR are for: variables hold what was assigned to them, pointers
 read back what was stored through them, parameters hold arguments, results reach the
 caller, and branches go where their condition says.
 */
module IrLaws {
  import opened Words
  import opened Types
  import opened Ir
  import opened IrMachine

  // ---------- bytes ----------

  /** Byte `i` of the image is the digit of weight 256^i. */
  lemma {:induction false} ImageDigit(v: nat, n: nat, i: nat)
    requires i < n
    ensures ToBytes(v, n)[i] == v / Pow256(i) % 256
    decreases n
  {
    if i == 0 {
      assert Pow256(0) == 1 && v / 1 == v;
    } else {
      ImageDigit(v / 256, n - 1, i - 1);
      DivTwice(v, 256, Pow256(i - 1));
    }
  }

  lemma DivTwice(v: nat, a: nat, b: nat)
    requires a > 0 && b > 0
    ensures a * b > 0 && v / (a * b) == v / a / b
  {
    var q, r, s := v / a / b, v / a % b, v % a;
    assert v / a == b * q + r && v == a * (v / a) + s;
    assert v == (a * b) * q + (a * r + s) by {
      assert a * (b * q + r) == a * (b * q) + a * r && a * (b * q) == (a * b) * q;
    }
    assert a * r <= a * (b - 1) && a * (b - 1) == a * b - a;
    assert a * b > 0 by { MulBounds(a, b); }
    ModUnique(v, a * b, q, a * r + s);
    Cancel(a * b, v / (a * b), q);
  }

  lemma Cancel(m: int, x: int, y: int)
    requires m > 0 && m * x == m * y
    ensures x == y
  {
  }

  /** The lowest digit and the rest, cut to `p` values. */
  lemma DigitAndRest(v: nat, p: nat)
    requires p > 0
    ensures v % (256 * p) == v % 256 + 256 * (v / 256 % p)
  {
    var q := v / 256;
    assert q == p * (q / p) + q % p;
    assert 256 * (p * (q / p)) == (256 * p) * (q / p);
    ModUnique(v, 256 * p, q / p, v % 256 + 256 * (q % p));
  }

  /** The low bytes of a value hold it modulo a power of 256. */
  lemma {:induction false} LowBytes(v: nat, n: nat)
    ensures FromBytes(ToBytes(v, n)) == v % Pow256(n)
    decreases n
  {
    if n > 0 {
      LowBytes(v / 256, n - 1);
      DigitAndRest(v, Pow256(n - 1));
      assert ToBytes(v, n)[1..] == ToBytes(v / 256, n - 1);
    }
  }

  // ---------- memory ----------

  lemma ReadBack(mem: Memory, a: nat, bytes: seq<Byte>)
    requires InMem(mem, a, |bytes|)
    ensures InMem(WriteMem(mem, a, bytes), a, |bytes|) && ReadMem(WriteMem(mem, a, bytes), a, |bytes|) == bytes
  {
  }

  lemma ReadElsewhere(mem: Memory, a: nat, bytes: seq<Byte>, b: nat, n: nat)
    requires InMem(mem, b, n) && (b + n <= a || a + |bytes| <= b)
    ensures InMem(WriteMem(mem, a, bytes), b, n) && ReadMem(WriteMem(mem, a, bytes), b, n) == ReadMem(mem, b, n)
  {
  }

  lemma WordRoom(size: nat)
    requires size > 0
    ensures Extent(size) >= 8
  {
    AlignUpEight(size);
  }

  lemma StoredForm(e: Env, fn: Function, f: Frame, mem: Memory, l: int, v: Operand, w: Word)
    requires 0 <= l < |fn.localTypes| && l < |f.place| && !fn.localTypes[l].Struct? && !Is128(OperandType(e.prog, fn, v))
    requires Read64(f.tmps, v) == Some(w) && Extent(SizeInBytes(fn.localTypes[l])) >= 8 && InMem(mem, f.place[l], 8)
    ensures StoreVarEffect(e, fn, f, mem, Local(l), v) == Write(f.place[l], ToBytes(w, 8))
  {
    hide Extent, SizeInBytes, ToBytes;
  }

  lemma LoadedForm(fn: Function, f: Frame, mem: Memory, globals: seq<Word>, l: int, dst: int)
    requires 0 <= l < |fn.localTypes| && l < |f.place| && InMem(mem, f.place[l], 8)
    requires !TmpType(fn, dst).Struct? && !Is128(TmpType(fn, dst))
    ensures LoadVarEffect(fn, f, mem, globals, Local(l), dst) == Assign(dst, W(WordOf(ReadMem(mem, f.place[l], 8))))
  {
  }

  /** A variable of a word type has the value that was assigned to it last. */
  lemma VariableHolds(e: Env, fn: Function, f: Frame, mem: Memory, globals: seq<Word>, l: int, v: Operand, w: Word, dst: int)
    requires 0 <= l < |fn.localTypes| && l < |f.place| && !fn.localTypes[l].Struct? && !Is128(OperandType(e.prog, fn, v))
    requires Read64(f.tmps, v) == Some(w) && !TmpType(fn, dst).Struct? && !Is128(TmpType(fn, dst))
    requires SizeInBytes(fn.localTypes[l]) > 0 && InMem(mem, f.place[l], 8)
    ensures var eff := StoreVarEffect(e, fn, f, mem, Local(l), v);
            eff.Write? && LoadVarEffect(fn, f, WriteMem(mem, eff.addr, eff.bytes), globals, Local(l), dst) == Assign(dst, W(w))
  {
    hide StoreVarEffect, LoadVarEffect, ToBytes, WordOf, Extent, ReadMem, WriteMem, InMem;
    WordRoom(SizeInBytes(fn.localTypes[l]));
    StoredForm(e, fn, f, mem, l, v, w);
    ReadBack(mem, f.place[l], ToBytes(w, 8));
    LoadedForm(fn, f, WriteMem(mem, f.place[l], ToBytes(w, 8)), globals, l, dst);
    WordRoundTrip(w);
  }

  lemma WideStoredForm(e: Env, fn: Function, f: Frame, mem: Memory, l: int, v: Operand, q: Quad)
    requires 0 <= l < |fn.localTypes| && l < |f.place| && Is128(fn.localTypes[l]) && Is128(OperandType(e.prog, fn, v))
    requires Read128(f.tmps, v) == Some(q) && InMem(mem, f.place[l], 16)
    ensures StoreVarEffect(e, fn, f, mem, Local(l), v) == Write(f.place[l], ToBytes(q, 16))
  {
    hide ToBytes;
    WideRoom(fn.localTypes[l]);
  }

  lemma WideRoom(t: Type)
    requires Is128(t)
    ensures Extent(SizeInBytes(t)) >= 16 && !t.Struct?
  {
  }

  lemma WideLoadedForm(fn: Function, f: Frame, mem: Memory, globals: seq<Word>, l: int, dst: int)
    requires 0 <= l < |fn.localTypes| && l < |f.place| && InMem(mem, f.place[l], 16) && Is128(TmpType(fn, dst))
    ensures LoadVarEffect(fn, f, mem, globals, Local(l), dst) == Assign(dst, Q(QuadOf(ReadMem(mem, f.place[l], 16))))
  {
  }

  lemma WideVariableHolds(e: Env, fn: Function, f: Frame, mem: Memory, globals: seq<Word>, l: int, v: Operand, q: Quad, dst: int)
    requires 0 <= l < |fn.localTypes| && l < |f.place| && Is128(fn.localTypes[l]) && Is128(OperandType(e.prog, fn, v))
    requires Read128(f.tmps, v) == Some(q) && Is128(TmpType(fn, dst)) && InMem(mem, f.place[l], 16)
    ensures var eff := StoreVarEffect(e, fn, f, mem, Local(l), v);
            eff.Write? && LoadVarEffect(fn, f, WriteMem(mem, eff.addr, eff.bytes), globals, Local(l), dst) == Assign(dst, Q(q))
  {
    hide StoreVarEffect, LoadVarEffect, ToBytes, QuadOf, ReadMem, WriteMem, InMem;
    WideStoredForm(e, fn, f, mem, l, v, q);
    ReadBack(mem, f.place[l], ToBytes(q, 16));
    WideLoadedForm(fn, f, WriteMem(mem, f.place[l], ToBytes(q, 16)), globals, l, dst);
    QuadRoundTrip(q);
  }

  /** A struct variable has the bytes of the struct assigned to it. */
  lemma StructVariableHolds(e: Env, fn: Function, f: Frame, mem: Memory, l: int, v: Operand, src: Word)
    requires 0 <= l < |fn.localTypes| && l < |f.place| && fn.localTypes[l].Struct? && Read64(f.tmps, v) == Some(src)
    requires var n := SizeInBytes(fn.localTypes[l]); InMem(mem, src, n) && InMem(mem, f.place[l], n)
    ensures var eff, at, n := StoreVarEffect(e, fn, f, mem, Local(l), v), f.place[l], SizeInBytes(fn.localTypes[l]);
            eff.Write? && InMem(WriteMem(mem, eff.addr, eff.bytes), at, n) &&
            ReadMem(WriteMem(mem, eff.addr, eff.bytes), at, n) == ReadMem(mem, src, n)
  {
    var n := SizeInBytes(fn.localTypes[l]);
    ReadBack(mem, f.place[l], ReadMem(mem, src, n));
  }

  /** Whatever is assigned to a variable, the others keep every byte. */
  lemma OtherVariablesKeep(e: Env, fn: Function, f: Frame, mem: Memory, l: int, v: Operand, k: nat)
    requires |f.place| == |Objects(fn)| && Disjoint(Objects(fn), f.place) && k < |Objects(fn)| && k != l
    requires StoreVarEffect(e, fn, f, mem, Local(l), v).Write? && InMem(mem, f.place[k], Objects(fn)[k])
    ensures var eff := StoreVarEffect(e, fn, f, mem, Local(l), v);
            InMem(WriteMem(mem, eff.addr, eff.bytes), f.place[k], Objects(fn)[k]) &&
            ReadMem(WriteMem(mem, eff.addr, eff.bytes), f.place[k], Objects(fn)[k]) == ReadMem(mem, f.place[k], Objects(fn)[k])
  {
    var eff, sizes := StoreVarEffect(e, fn, f, mem, Local(l), v), Objects(fn);
    assert eff.addr == f.place[l] && sizes[l] == SizeInBytes(fn.localTypes[l]) && |eff.bytes| <= Extent(sizes[l]);
    ReadElsewhere(mem, eff.addr, eff.bytes, f.place[k], sizes[k]);
  }

  /** What a store through `p` writes: the type pointed to, or the value's own where the pointer does not say. */
  predicate StoredType(e: Env, fn: Function, p: Operand, v: Operand, t: Type) {
    match OperandType(e.prog, fn, p) case Ptr(to) => t == to case _ => t == OperandType(e.prog, fn, v)
  }

  /** A pointer reads back what was stored through it, cut to the size of its type. */
  lemma PointerReadsBack(e: Env, fn: Function, tmps: Tmps, mem: Memory, p: Operand, v: Operand, t: Type, w: Word, dst: int)
    requires StoredType(e, fn, p, v, t) && Read64(tmps, v) == Some(w) && !Is128(t) && 1 <= SizeInBytes(t) <= 8
    requires Read64(tmps, p).Some? && InMem(mem, Read64(tmps, p).value, SizeInBytes(t))
    ensures var eff := StoreEffect(e, fn, tmps, mem, p, v);
            eff.Write? && w % Pow256(SizeInBytes(t)) < TWO64 &&
            LoadEffect(t, tmps, WriteMem(mem, eff.addr, eff.bytes), p, dst) == Assign(dst, W(w % Pow256(SizeInBytes(t))))
  {
    var n := SizeInBytes(t);
    ReadBack(mem, Read64(tmps, p).value, ToBytes(w, n));
    LowBytes(w, n);
    PowersOf256();
    Pow256Monotone(n, 8);
  }

  lemma WidePointerReadsBack(e: Env, fn: Function, tmps: Tmps, mem: Memory, p: Operand, v: Operand, t: Type, q: Quad, dst: int)
    requires StoredType(e, fn, p, v, t) && Is128(t) && Read128(tmps, v) == Some(q)
    requires Read64(tmps, p).Some? && InMem(mem, Read64(tmps, p).value, 16)
    ensures var eff := StoreEffect(e, fn, tmps, mem, p, v);
            eff.Write? && LoadEffect(t, tmps, WriteMem(mem, eff.addr, eff.bytes), p, dst) == Assign(dst, Q(q))
  {
    ReadBack(mem, Read64(tmps, p).value, ToBytes(q, 16));
    QuadRoundTrip(q);
  }

  /** A global variable has the value stored last, the others keep theirs, and new ones start at 0. */
  lemma GlobalHolds(fn: Function, f: Frame, mem: Memory, globals: seq<Word>, s: nat, w: Word, k: nat, dst: int)
    requires !TmpType(fn, dst).Struct? && !Is128(TmpType(fn, dst))
    ensures var after := StoreGlobal(globals, s, w);
            LoadVarEffect(fn, f, mem, after, Slot(k), dst) ==
            if k == s then Assign(dst, W(w))
            else if k < |globals| then Assign(dst, W(globals[k]))
            else if k < s then Assign(dst, W(0)) else Fault
  {
  }

  /** The copied bytes are at the destination, whatever was there, even when the ranges overlap. */
  lemma CopyArrives(tmps: Tmps, mem: Memory, d: Operand, s: Operand, n: Operand)
    requires n.Imm? && n.v >= 0 && Read64(tmps, d).Some? && Read64(tmps, s).Some?
    requires InMem(mem, Read64(tmps, d).value, n.v) && InMem(mem, Read64(tmps, s).value, n.v)
    ensures var eff, dst := CopyOpEffect(tmps, mem, d, s, n), Read64(tmps, d).value;
            eff.Write? && InMem(WriteMem(mem, eff.addr, eff.bytes), dst, n.v) &&
            ReadMem(WriteMem(mem, eff.addr, eff.bytes), dst, n.v) == ReadMem(mem, Read64(tmps, s).value, n.v)
  {
    ReadBack(mem, Read64(tmps, d).value, ReadMem(mem, Read64(tmps, s).value, n.v));
  }

  /** A pointer to a variable reads the variable. */
  lemma AddressOfVariable(fn: Function, f: Frame, mem: Memory, globals: seq<Word>, l: int, p: int, dst: int)
    requires 0 <= l < |fn.localTypes| && l < |f.place| && f.place[l] < TWO64 && InMem(mem, f.place[l], 8)
    requires SizeInBytes(TmpType(fn, dst)) == 8 && !TmpType(fn, dst).Struct? && !Is128(TmpType(fn, dst))
    ensures var eff := LeaEffect(fn, f.place, mem, Local(l), p);
            eff.Assign? && LoadEffect(TmpType(fn, dst), f.tmps[p := eff.val], mem, Tmp(p), dst) ==
                           LoadVarEffect(fn, f, mem, globals, Local(l), dst)
  {
  }

  // ---------- storage of temporaries ----------

  lemma {:induction false} StructTmpsExactly(types: seq<Type>, from: nat, t: int, n: nat)
    requires from <= |types|
    ensures (t, n) in StructTmps(types, from) <==> from <= t < |types| && types[t].Struct? && n == SizeInBytes(types[t])
    decreases |types| - from
  {
    if from < |types| { StructTmpsExactly(types, from + 1, t, n); }
  }

  /** The instruction reserves `n` bytes for temporary `t`; a size that is no constant counts as 0. */
  predicate Reserves(ins: Instr, t: int, n: nat) { IsSAlloc(ins) && ins.dest == t && SAllocSize(ins) == n }

  predicate AnyReserves(code: seq<Instr>, t: int, n: nat) { exists i :: 0 <= i < |code| && Reserves(code[i], t, n) }

  lemma {:induction false} SAllocsExactly(code: seq<Instr>, t: int, n: nat)
    ensures (t, n) in SAllocs(code) <==> AnyReserves(code, t, n)
    decreases code
  {
    if code != [] {
      var rest := code[1..];
      SAllocsExactly(rest, t, n);
      if i :| 0 <= i < |code| && Reserves(code[i], t, n) {
        assert i > 0 ==> Reserves(rest[i - 1], t, n);
      }
      if i :| 0 <= i < |rest| && Reserves(rest[i], t, n) {
        assert Reserves(code[i + 1], t, n);
      }
    }
  }

  /** Storage of its own have the temporaries of struct types, in their size, and the destinations of reservations. */
  lemma SlotsExactly(fn: Function, t: int, n: nat)
    ensures (t, n) in Slots(fn) <==>
            (0 <= t < |fn.tmpTypes| && fn.tmpTypes[t].Struct? && n == SizeInBytes(fn.tmpTypes[t])) ||
            AnyReserves(Flatten(fn.blocks), t, n)
  {
    hide Flatten, StructTmps, SAllocs, AnyReserves;
    assert Slots(fn) == StructTmps(fn.tmpTypes, 0) + SAllocs(Flatten(fn.blocks));
    StructTmpsExactly(fn.tmpTypes, 0, t, n);
    SAllocsExactly(Flatten(fn.blocks), t, n);
  }

  // ---------- branches ----------

  /** A conditional branch goes to the first block with the label that the condition picks. */
  lemma BranchGoes(fn: Function, tmps: Tmps, c: Operand, yes: int, no: int, w: Word)
    requires Read64(tmps, c) == Some(w)
    ensures var eff, lab := BranchEffect(fn, tmps, c, Label(yes), Label(no)), if w == 0 then no else yes;
            if exists i :: 0 <= i < |fn.blocks| && fn.blocks[i].lab == lab
            then eff.Goto? && eff.block < |fn.blocks| && fn.blocks[eff.block].lab == lab &&
                 forall i :: 0 <= i < eff.block ==> fn.blocks[i].lab != lab
            else eff.Fault?
  {
    FirstBlock(fn.blocks, if w == 0 then no else yes);
  }

  lemma {:induction false} FirstBlock(blocks: seq<Block>, lab: int)
    ensures BlockIndex(blocks, lab).Some? ==> forall i :: 0 <= i < BlockIndex(blocks, lab).value ==> blocks[i].lab != lab
    decreases blocks
  {
    if blocks != [] && blocks[0].lab != lab {
      FirstBlock(blocks[1..], lab);
      assert forall i :: 0 < i < |blocks| ==> blocks[i] == blocks[1..][i - 1];
    }
  }

  // ---------- calls and returns ----------

  ghost predicate DistinctParams(fn: Function) {
    forall i, j :: 0 <= i < j < |fn.argLocals| ==> fn.argLocals[i] != fn.argLocals[j]
  }

  /** What a parameter holds: a struct the bytes of the argument, a wide one the argument widened, any other its word. */
  ghost predicate ParamHolds(t: Type, at: nat, v: Val, before: Memory, mem: Memory) {
    if t.Struct? then
      var n := SizeInBytes(t);
      v.W? && InMem(before, v.w, n) && InMem(mem, at, n) && ReadMem(mem, at, n) == ReadMem(before, v.w, n)
    else if Is128(t) then
      InMem(mem, at, 16) && QuadOf(ReadMem(mem, at, 16)) == if v.Q? then v.q else QuadOfInt(Signed(W64, v.w))
    else v.W? && InMem(mem, at, 8) && WordOf(ReadMem(mem, at, 8)) == v.w
  }

  lemma OneParam(t: Type, at: nat, v: Val, mem: Memory)
    requires BindArg(t, at, v, mem).Some?
    ensures ParamHolds(t, at, v, mem, BindArg(t, at, v, mem).value)
  {
    if t.Struct? {
      ReadBack(mem, at, ReadMem(mem, v.w, SizeInBytes(t)));
    } else if Is128(t) {
      var q := if v.Q? then v.q else QuadOfInt(Signed(W64, v.w));
      ReadBack(mem, at, ToBytes(q, 16));
      QuadRoundTrip(q);
    } else {
      ReadBack(mem, at, ToBytes(v.w, 8));
      WordRoundTrip(v.w);
    }
  }

  /** Binding a parameter changes nothing outside its object. */
  lemma BindsInside(t: Type, at: nat, v: Val, mem: Memory, a: nat)
    requires BindArg(t, at, v, mem).Some? && !InObject(SizeInBytes(t), at, a)
    ensures var m := BindArg(t, at, v, mem).value; m.Keys == mem.Keys && (a in mem ==> m[a] == mem[a])
  {
    AlignUpEight(SizeInBytes(t));
  }

  predicate IsParam(fn: Function, place: Placement, i: nat) {
    i < |fn.argLocals| && 0 <= fn.argLocals[i] < |fn.localTypes| && fn.argLocals[i] < |place|
  }

  predicate InParam(fn: Function, place: Placement, i: nat, a: nat) {
    IsParam(fn, place, i) && InObject(SizeInBytes(fn.localTypes[fn.argLocals[i]]), place[fn.argLocals[i]], a)
  }

  lemma {:induction false} BoundParams(fn: Function, place: Placement, args: seq<Val>, n: nat, mem: Memory, i: nat)
    requires n <= |args| <= |fn.argLocals| && BindArgs(fn, place, args, n, mem).Some? && i < n
    ensures IsParam(fn, place, i) && BindArgs(fn, place, args, i, mem).Some?
    ensures BindArg(fn.localTypes[fn.argLocals[i]], place[fn.argLocals[i]], args[i], BindArgs(fn, place, args, i, mem).value) ==
            BindArgs(fn, place, args, i + 1, mem)
    ensures BindArgs(fn, place, args, i + 1, mem).Some?
    decreases n
  {
    if i < n - 1 { BoundParams(fn, place, args, n - 1, mem, i); }
  }

  /** Outside the parameters nothing changes. */
  lemma {:induction false} BoundOutside(fn: Function, place: Placement, args: seq<Val>, n: nat, mem: Memory, a: nat)
    requires n <= |args| <= |fn.argLocals| && BindArgs(fn, place, args, n, mem).Some?
    requires forall i: nat :: i < n ==> !InParam(fn, place, i, a)
    ensures var m := BindArgs(fn, place, args, n, mem).value; m.Keys == mem.Keys && (a in mem ==> m[a] == mem[a])
    decreases n
  {
    if n > 0 {
      BoundOutside(fn, place, args, n - 1, mem, a);
      BoundParams(fn, place, args, n, mem, n - 1);
      var l := fn.argLocals[n - 1];
      assert !InParam(fn, place, n - 1, a);
      BindsInside(fn.localTypes[l], place[l], args[n - 1], BindArgs(fn, place, args, n - 1, mem).value, a);
    }
  }

  function HeldBytes(t: Type): nat { if t.Struct? then SizeInBytes(t) else if Is128(t) then 16 else 8 }

  lemma HeldInside(t: Type)
    requires 8 <= Extent(SizeInBytes(t)) || t.Struct?
    ensures HeldBytes(t) <= Extent(SizeInBytes(t))
  {
    AlignUpEight(SizeInBytes(t));
  }

  lemma SameRead(m: Memory, m': Memory, a: nat, n: nat)
    requires InMem(m, a, n) && forall k :: a <= k < a + n ==> k in m' && m'[k] == m[k]
    ensures InMem(m', a, n) && ReadMem(m', a, n) == ReadMem(m, a, n)
  {
  }

  /** A parameter keeps what it holds as long as its bytes stay. */
  lemma StillHolds(t: Type, at: nat, v: Val, before: Memory, m: Memory, m': Memory)
    requires ParamHolds(t, at, v, before, m) && (8 <= Extent(SizeInBytes(t)) || t.Struct?)
    requires m'.Keys == m.Keys && forall a :: a in m && InObject(SizeInBytes(t), at, a) ==> m'[a] == m[a]
    ensures ParamHolds(t, at, v, before, m')
  {
    hide Extent, SizeInBytes, WordOf, QuadOf, ReadMem;
    HeldInside(t);
    SameRead(m, m', at, HeldBytes(t));
  }

  lemma BoundBefore(fn: Function, place: Placement, args: seq<Val>, n: nat, mem: Memory)
    requires 0 < n <= |args| <= |fn.argLocals| && BindArgs(fn, place, args, n, mem).Some?
    ensures BindArgs(fn, place, args, n - 1, mem).Some?
  {
    hide BindArg;
  }

  lemma BindArgRoom(t: Type, at: nat, v: Val, mem: Memory)
    requires BindArg(t, at, v, mem).Some?
    ensures 8 <= Extent(SizeInBytes(t)) || t.Struct?
  {
  }

  lemma {:induction false} BoundHolds(fn: Function, place: Placement, args: seq<Val>, n: nat, mem: Memory, i: nat)
    requires n <= |args| <= |fn.argLocals| && BindArgs(fn, place, args, n, mem).Some? && i < n
    requires DistinctParams(fn) && |place| == |Objects(fn)| && Disjoint(Objects(fn), place)
    ensures IsParam(fn, place, i) && BindArgs(fn, place, args, i, mem).Some?
    ensures var l := fn.argLocals[i];
            ParamHolds(fn.localTypes[l], place[l], args[i], BindArgs(fn, place, args, i, mem).value,
                       BindArgs(fn, place, args, n, mem).value)
    decreases n
  {
    hide BindArg, ParamHolds, BindArgs, Objects, Extent, SizeInBytes, Disjoint;
    BoundParams(fn, place, args, n, mem, i);
    BoundBefore(fn, place, args, n, mem);
    var l, m := fn.argLocals[i], BindArgs(fn, place, args, i, mem).value;
    BindArgRoom(fn.localTypes[l], place[l], args[i], m);
    if i == n - 1 {
      OneParam(fn.localTypes[l], place[l], args[i], m);
    } else {
      BoundHolds(fn, place, args, n - 1, mem, i);
      BoundParams(fn, place, args, n, mem, n - 1);
      LaterParam(fn, place, args, n, mem, i, m);
    }
  }

  lemma LaterParam(fn: Function, place: Placement, args: seq<Val>, n: nat, mem: Memory, i: nat, before: Memory)
    requires n <= |args| <= |fn.argLocals| && BindArgs(fn, place, args, n, mem).Some? && i < n - 1
    requires IsParam(fn, place, i) && IsParam(fn, place, n - 1) && BindArgs(fn, place, args, n - 1, mem).Some?
    requires DistinctParams(fn) && |place| == |Objects(fn)| && Disjoint(Objects(fn), place)
    requires var l := fn.argLocals[i];
             (8 <= Extent(SizeInBytes(fn.localTypes[l])) || fn.localTypes[l].Struct?) &&
             ParamHolds(fn.localTypes[l], place[l], args[i], before, BindArgs(fn, place, args, n - 1, mem).value)
    requires var k := fn.argLocals[n - 1];
             BindArg(fn.localTypes[k], place[k], args[n - 1], BindArgs(fn, place, args, n - 1, mem).value) == BindArgs(fn, place, args, n, mem)
    ensures var l := fn.argLocals[i];
            ParamHolds(fn.localTypes[l], place[l], args[i], before, BindArgs(fn, place, args, n, mem).value)
  {
    hide BindArg, ParamHolds;
    var k, l := fn.argLocals[n - 1], fn.argLocals[i];
    var m, m' := BindArgs(fn, place, args, n - 1, mem).value, BindArgs(fn, place, args, n, mem).value;
    var sizes := Objects(fn);
    assert k != l && sizes[k] == SizeInBytes(fn.localTypes[k]) && sizes[l] == SizeInBytes(fn.localTypes[l]);
    BindsInside(fn.localTypes[k], place[k], args[n - 1], m, place[k] + Extent(sizes[k]));
    forall a | a in m && InObject(sizes[l], place[l], a) ensures m'[a] == m[a] {
      BindsInside(fn.localTypes[k], place[k], args[n - 1], m, a);
    }
    StillHolds(fn.localTypes[l], place[l], args[i], before, m, m');
  }

  /**
   A call gives every parameter its argument: the callee starts at its first instruction with a
   memory in which each parameter holds the argument of its position, every other variable is
   zero, and what was alive before is unchanged.
   */
  lemma ParamsHold(e: Env, s: State, callee: nat, dst: int, place: Placement)
    requires ApplyInvoke(e, s, callee, dst, place).Next? && DistinctParams(e.prog.functions[callee])
    ensures var fn, t := e.prog.functions[callee], ApplyInvoke(e, s, callee, dst, place).state;
            t.top == Frame(callee, 0, 0, map[], place, dst) && t.rest == Push(s.top, s.rest) && t.args == [] && t.globals == s.globals
    ensures var fn, t := e.prog.functions[callee], ApplyInvoke(e, s, callee, dst, place).state;
            forall i: nat :: i < |s.args| ==> IsParam(fn, place, i) && ArgArrives(fn, place, i, s.args[i], s.mem, t.mem)
    ensures forall a :: a in s.mem ==> KeptByte(s.mem, ApplyInvoke(e, s, callee, dst, place).state.mem, a)
  {
    hide BindArg, ParamHolds;
    var fn, t := e.prog.functions[callee], ApplyInvoke(e, s, callee, dst, place).state;
    var m0 := Allocate(s.mem, Objects(fn), place);
    forall a | a in s.mem ensures KeptByte(s.mem, t.mem, a) {
      OutsideParams(fn, place, s.args, m0, |s.args|, a);
    }
    forall i: nat | i < |s.args| ensures IsParam(fn, place, i) && ArgArrives(fn, place, i, s.args[i], s.mem, t.mem) {
      BoundHolds(fn, place, s.args, |s.args|, m0, i);
      SourceUnchanged(fn, place, s, i);
    }
  }

  ghost predicate KeptByte(mem: Memory, after: Memory, a: nat)
    requires a in mem
  {
    a in after && after[a] == mem[a]
  }

  /** Struct arguments are read from what was alive before the call. */
  ghost predicate ArgArrives(fn: Function, place: Placement, i: nat, v: Val, mem: Memory, after: Memory)
    requires IsParam(fn, place, i)
  {
    var l := fn.argLocals[i];
    var t := fn.localTypes[l];
    (t.Struct? ==> v.W? && InMem(mem, v.w, SizeInBytes(t))) ==> ParamHolds(t, place[l], v, mem, after)
  }

  /** A parameter is one of the objects of the activation. */
  lemma ParamOwned(fn: Function, place: Placement, i: nat, a: nat)
    requires |place| == |Objects(fn)|
    ensures InParam(fn, place, i, a) ==>
              InObject(Objects(fn)[fn.argLocals[i]], place[fn.argLocals[i]], a) && Owned(Objects(fn), place, a)
  {
  }

  lemma OutsideParams(fn: Function, place: Placement, args: seq<Val>, mem: Memory, n: nat, a: nat)
    requires n <= |args| <= |fn.argLocals| && BindArgs(fn, place, args, n, mem).Some? && |place| == |Objects(fn)|
    requires !Owned(Objects(fn), place, a)
    ensures var m := BindArgs(fn, place, args, n, mem).value; m.Keys == mem.Keys && (a in mem ==> m[a] == mem[a])
  {
    forall i: nat | i < n ensures !InParam(fn, place, i, a) { ParamOwned(fn, place, i, a); }
    BoundOutside(fn, place, args, n, mem, a);
  }

  lemma SourceUnchanged(fn: Function, place: Placement, s: State, i: nat)
    requires i < |s.args| <= |fn.argLocals| && Fits(s.mem, fn, place)
    requires var m0 := Allocate(s.mem, Objects(fn), place);
             BindArgs(fn, place, s.args, i, m0).Some? && BindArgs(fn, place, s.args, |s.args|, m0).Some? && IsParam(fn, place, i) &&
             ParamHolds(fn.localTypes[fn.argLocals[i]], place[fn.argLocals[i]], s.args[i], BindArgs(fn, place, s.args, i, m0).value,
                        BindArgs(fn, place, s.args, |s.args|, m0).value)
    ensures ArgArrives(fn, place, i, s.args[i], s.mem, BindArgs(fn, place, s.args, |s.args|, Allocate(s.mem, Objects(fn), place)).value)
  {
    hide BindArgs, SizeInBytes, WordOf, QuadOf, ReadMem, Objects;
    var m0 := Allocate(s.mem, Objects(fn), place);
    var t, v, m := fn.localTypes[fn.argLocals[i]], s.args[i], BindArgs(fn, place, s.args, i, m0).value;
    if t.Struct? && v.W? && InMem(s.mem, v.w, SizeInBytes(t)) {
      forall a | v.w <= a < v.w + SizeInBytes(t) ensures a in m && m[a] == s.mem[a] {
        OutsideParams(fn, place, s.args, m0, i, a);
      }
      SameRead(s.mem, m, v.w, SizeInBytes(t));
    }
  }

  lemma Apart(fn: Function, place: Placement, i: nat, k: nat, a: nat)
    requires |place| == |Objects(fn)| && Disjoint(Objects(fn), place) && k < |place| && InObject(Objects(fn)[k], place[k], a)
    ensures InParam(fn, place, i, a) ==> fn.argLocals[i] == k
  {
  }

  /** Variables that are no parameters start at zero. */
  lemma OthersStartZero(e: Env, s: State, callee: nat, dst: int, place: Placement, k: nat)
    requires ApplyInvoke(e, s, callee, dst, place).Next?
    requires var fn := e.prog.functions[callee];
             k < |Objects(fn)| && forall i :: 0 <= i < |s.args| ==> fn.argLocals[i] != k
    ensures var fn, t := e.prog.functions[callee], ApplyInvoke(e, s, callee, dst, place).state;
            forall a :: place[k] <= a < place[k] + Extent(Objects(fn)[k]) ==> a in t.mem && t.mem[a] == 0
  {
    hide BindArg, ParamHolds;
    var fn, t := e.prog.functions[callee], ApplyInvoke(e, s, callee, dst, place).state;
    var sizes, m0 := Objects(fn), Allocate(s.mem, Objects(fn), place);
    forall a | place[k] <= a < place[k] + Extent(sizes[k]) ensures a in t.mem && t.mem[a] == 0 {
      assert InObject(sizes[k], place[k], a);
      forall i: nat | i < |s.args| ensures !InParam(fn, place, i, a) {
        ParamOwned(fn, place, i, a);
        Apart(fn, place, i, k, a);
      }
      BoundOutside(fn, place, s.args, |s.args|, m0, a);
    }
  }

  /** The address belongs to the struct temporary's own storage. */
  ghost predicate Slotted(e: Env, f: Frame, t: int, a: nat) {
    && f.fn < |e.prog.functions|
    && var fn := e.prog.functions[f.fn];
    && TmpType(fn, t).Struct? && SlotAddress(fn, f.place, t).Some?
    && var at := SlotAddress(fn, f.place, t).value;
    && at <= a < at + SizeInBytes(TmpType(fn, t))
  }

  /** The byte at `a` of what the caller holds once the result `v` has reached temporary `d`. */
  ghost function ByteAfter(e: Env, caller: Frame, d: int, v: Val, mem: Memory, a: nat): Option<Byte> {
    var from := if Slotted(e, caller, d, a) && v.W? then v.w + (a - SlotAddress(e.prog.functions[caller.fn], caller.place, d).value) else a;
    if from in mem then Some(mem[from]) else None
  }

  lemma ReturnedFrame(e: Env, s: State, v: Val)
    requires s.rest.Push? && ApplyReturn(e, s, Some(v)).Next?
    ensures var t, caller, d := ApplyReturn(e, s, Some(v)).state, s.rest.top, s.top.dst;
            t.rest == s.rest.rest && t.globals == s.globals && t.args == s.args && d >= 0 && d in t.top.tmps &&
            t.top == caller.(tmps := t.top.tmps) && t.top.tmps - {d} == caller.tmps - {d}
    ensures var t, caller, d := ApplyReturn(e, s, Some(v)).state, s.rest.top, s.top.dst;
            caller.fn < |e.prog.functions| &&
            var fn := e.prog.functions[caller.fn];
            if TmpType(fn, d).Struct? then v.W? && Some(t.top.tmps[d]) == SlotValue(fn, caller.place, d)
            else t.top.tmps[d] == v && (v.Q? <==> Is128(TmpType(fn, d)))
  {
    hide Objects, Release, SizeInBytes, Position, ReadMem, WriteMem, InMem;
  }

  lemma WrittenByte(mem: Memory, at: nat, bytes: seq<Byte>, a: nat)
    requires a in mem
    ensures var m := WriteMem(mem, at, bytes); a in m && m[a] == if at <= a < at + |bytes| then bytes[a - at] else mem[a]
  {
  }

  lemma ReadByte(mem: Memory, src: nat, n: nat, i: nat)
    requires InMem(mem, src, n) && i < n
    ensures src + i in mem && ReadMem(mem, src, n)[i] == mem[src + i]
  {
    var a := src + i;
    assert a in mem;
  }

  lemma CopiedByte(mem: Memory, at: nat, src: nat, n: nat, a: nat)
    requires InMem(mem, src, n) && a in mem
    ensures var m := WriteMem(mem, at, ReadMem(mem, src, n));
            a in m && m[a] == if at <= a < at + n then ReadMem(mem, src, n)[a - at] else mem[a]
    ensures at <= a < at + n ==> src + (a - at) in mem && ReadMem(mem, src, n)[a - at] == mem[src + (a - at)]
  {
    hide InMem, ReadMem, WriteMem;
    WrittenByte(mem, at, ReadMem(mem, src, n), a);
    if at <= a < at + n { ReadByte(mem, src, n, a - at); }
  }

  /** Delivering a result writes at most the storage of the destination. */
  lemma DeliveredBytes(e: Env, caller: Frame, d: int, v: Val, mem: Memory)
    requires caller.fn < |e.prog.functions| && Deliver(e.prog.functions[caller.fn], caller, d, v, mem).Some?
    ensures var m := Deliver(e.prog.functions[caller.fn], caller, d, v, mem).value.0;
            m.Keys == mem.Keys && forall a :: a in m ==> Some(m[a]) == ByteAfter(e, caller, d, v, mem, a)
  {
    hide Objects, SizeInBytes, SlotAddress, WriteMem, ReadMem, InMem;
    var fn := e.prog.functions[caller.fn];
    var m := Deliver(fn, caller, d, v, mem).value.0;
    if TmpType(fn, d).Struct? {
      var at, n := SlotAddress(fn, caller.place, d).value, SizeInBytes(TmpType(fn, d));
      forall a | a in m ensures Some(m[a]) == ByteAfter(e, caller, d, v, mem, a) {
        CopiedByte(mem, at, v.w, n, a);
      }
    }
  }

  lemma ReturnedMemory(e: Env, s: State, v: Val)
    requires s.rest.Push? && ApplyReturn(e, s, Some(v)).Next?
    ensures var t := ApplyReturn(e, s, Some(v)).state;
            s.top.fn < |e.prog.functions| && t.mem.Keys == set a | a in s.mem && !OwnedByTop(e, s, a)
    ensures var t := ApplyReturn(e, s, Some(v)).state;
            forall a :: a in t.mem ==> Some(t.mem[a]) == ByteAfter(e, s.rest.top, s.top.dst, v, s.mem, a)
  {
    hide Objects, Owned, Deliver, ByteAfter;
    DeliveredBytes(e, s.rest.top, s.top.dst, v, s.mem);
  }

  /**
   A return gives the caller its result and takes the callee's objects away: the destination has
   the value, or its own storage the bytes of the struct, and nothing else that stays alive changes.
   */
  lemma ReturnDelivers(e: Env, s: State, v: Val)
    requires s.rest.Push? && ApplyReturn(e, s, Some(v)).Next?
    ensures var t, caller, d := ApplyReturn(e, s, Some(v)).state, s.rest.top, s.top.dst;
            t.rest == s.rest.rest && t.globals == s.globals && t.args == s.args && d >= 0 && d in t.top.tmps &&
            t.top == caller.(tmps := t.top.tmps) && t.top.tmps - {d} == caller.tmps - {d}
    ensures var t, caller, d := ApplyReturn(e, s, Some(v)).state, s.rest.top, s.top.dst;
            caller.fn < |e.prog.functions| &&
            var fn := e.prog.functions[caller.fn];
            if TmpType(fn, d).Struct? then v.W? && Some(t.top.tmps[d]) == SlotValue(fn, caller.place, d)
            else t.top.tmps[d] == v && (v.Q? <==> Is128(TmpType(fn, d)))
    ensures var t := ApplyReturn(e, s, Some(v)).state;
            s.top.fn < |e.prog.functions| && t.mem.Keys == set a | a in s.mem && !OwnedByTop(e, s, a)
    ensures var t := ApplyReturn(e, s, Some(v)).state;
            forall a :: a in t.mem ==> Some(t.mem[a]) == ByteAfter(e, s.rest.top, s.top.dst, v, s.mem, a)
  {
    hide ApplyReturn, ByteAfter, OwnedByTop, SlotValue;
    ReturnedFrame(e, s, v);
    ReturnedMemory(e, s, v);
  }

  ghost function SlotValue(fn: Function, place: Placement, d: int): Option<Val> {
    match SlotAddress(fn, place, d) case None => None case Some(at) => if at < TWO64 then Some(W(at)) else None
  }

  ghost predicate OwnedByTop(e: Env, s: State, a: nat) {
    s.top.fn < |e.prog.functions| && Owned(Objects(e.prog.functions[s.top.fn]), s.top.place, a)
  }
}
