/**
 What the IR computes, instruction by instruction, in plain integers: which operand is which,
 at which width and sign, and what the result has to do with them.
 */
module ValueLaws {
  import opened Words
  import opened Types
  import opened Ir
  import opened IrMachine
  import opened OpcodeLaws
  import OpcodeSelection

  // ---------- operands ----------

  /** A temporary reads as its value, a constant as the word that stands for it. */
  lemma OperandReads(tmps: Tmps, t: int, v: Int64, ty: Type)
    ensures t in tmps && tmps[t].W? ==> Read64(tmps, Tmp(t)) == Some(tmps[t].w)
    ensures t in tmps && tmps[t].Q? ==> Read128(tmps, Tmp(t)) == Some(tmps[t].q)
    ensures t !in tmps ==> Read64(tmps, Tmp(t)).None? && Read128(tmps, Tmp(t)).None?
    ensures var w := Read64(tmps, Imm(v, ty)); w.Some? && Congruent(TWO64, w.value, v)
    ensures var q := Read128(tmps, Imm(v, ty));
            q.Some? && (if ty == Prim(U128) then q.value < TWO64 && Congruent(TWO64, q.value, v) else StandsFor(TWO128, q.value, v))
  {
    WrapCongruent(W64, v);
    WrapStands(W128, v);
  }

  // ---------- two operands ----------

  /** Words `p` and `q` of `n` bits, read with or without sign, and the result `r`. */
  ghost predicate Computes(n: nat, op: Op, signed: bool, p: nat, q: nat, r: nat) {
    var m := Pow2(n);
    match op
    case Add => Congruent(m, r, p + q)
    case Sub => Congruent(m, r + q, p)
    case Mul => Congruent(m, r, p * q)
    case Div =>
      if signed then exists x, y, i, j :: StandsFor(m, p, x) && StandsFor(m, q, y) && StandsFor(m, r, i) && Divides(x, y, i, j)
      else exists j :: Divides(p, q, r, j)
    case Rem =>
      if signed then exists x, y, i, j :: StandsFor(m, p, x) && StandsFor(m, q, y) && StandsFor(m, r, j) && Divides(x, y, i, j)
      else exists i :: Divides(p, q, i, r)
    case And => forall i: nat :: i < n ==> (BitAt(r, i) <==> BitAt(p, i) && BitAt(q, i))
    case Or => forall i: nat :: i < n ==> (BitAt(r, i) <==> BitAt(p, i) || BitAt(q, i))
    case Xor => forall i: nat :: i < n ==> (BitAt(r, i) <==> BitAt(p, i) != BitAt(q, i))
    case Shl => n > 0 && Congruent(m, r, p * Pow2(q % n))
    case Shr =>
      n > 0 && if signed then exists x, i :: StandsFor(m, p, x) && StandsFor(m, r, i) && Shifted(x, q % n, i) else Shifted(p, q % n, r)
    case _ => false
  }

  lemma SizeOf(w: Width)
    ensures Pow2(Bits(w)) == Modulus(w) && Bits(w) > 0
  {
    PowersOf2();
  }

  lemma SumComputes(w: Width, op: Op, signed: bool, p: nat, q: nat)
    requires p < Modulus(w) && q < Modulus(w) && (op.Add? || op.Sub? || op.Mul?)
    ensures var r := IntArith(w, op, signed, p, q); r.Some? && Computes(Bits(w), op, signed, p, q, r.value)
  {
    hide AddW, SubW, MulW, Signed, Congruent, Pow2;
    SizeOf(w);
    OpcodeSelection.AgnosticArith(w, signed, p, q);
    SumsOf(w, p, q);
  }

  lemma QuotientComputes(w: Width, op: Op, signed: bool, p: nat, q: nat)
    requires p < Modulus(w) && q < Modulus(w) && (op.Div? || op.Rem?)
    ensures var r := IntArith(w, op, signed, p, q); r.Some? ==> Computes(Bits(w), op, signed, p, q, r.value)
  {
    hide Pow2, Divides, StandsFor, TruncDiv, TruncRem, Signed;
    SizeOf(w);
    if signed {
      var x, y := Signed(w, p), Signed(w, q);
      SignedStands(w, p);
      SignedStands(w, q);
      SignedDivision(w, p, q, x, y);
      assert IntArith(w, op, signed, p, q).Some? ==> Divides(x, y, TruncDiv(x, y), TruncRem(x, y));
    } else {
      UnsignedDivision(w, p, q);
      if q > 0 { NatDivides(p, q); }
    }
  }

  lemma NatDivides(p: nat, q: nat)
    requires q > 0
    ensures Divides(p, q, p / q, p % q)
  {
    QuotientBound(p, q);
  }

  lemma BitsCompute(w: Width, op: Op, signed: bool, p: nat, q: nat)
    requires p < Modulus(w) && q < Modulus(w) && (op.And? || op.Or? || op.Xor?)
    ensures var r := IntArith(w, op, signed, p, q); r.Some? && Computes(Bits(w), op, signed, p, q, r.value)
  {
    hide Pow2, BitAt, Bitwise;
    forall i: nat | i < Bits(w)
      ensures BitAt(Bitwise(BAnd, p, q, Bits(w)), i) == (BitAt(p, i) && BitAt(q, i))
      ensures BitAt(Bitwise(BOr, p, q, Bits(w)), i) == (BitAt(p, i) || BitAt(q, i))
      ensures BitAt(Bitwise(BXor, p, q, Bits(w)), i) == (BitAt(p, i) != BitAt(q, i))
    {
      BitwiseBit(BAnd, p, q, Bits(w), i);
      BitwiseBit(BOr, p, q, Bits(w), i);
      BitwiseBit(BXor, p, q, Bits(w), i);
    }
  }

  lemma ShiftComputes(w: Width, op: Op, signed: bool, p: nat, q: nat)
    requires p < Modulus(w) && q < Modulus(w) && (op.Shl? || op.Shr?)
    ensures var r := IntArith(w, op, signed, p, q); r.Some? && Computes(Bits(w), op, signed, p, q, r.value)
  {
    hide Pow2, Congruent, StandsFor, Signed;
    SizeOf(w);
    SignedStands(w, p);
    ShiftsOf(w, p, Signed(w, p), q);
    FloorShift(Signed(w, p), q % Bits(w));
    FloorShift(p, q % Bits(w));
  }

  lemma IntArithComputes(w: Width, op: Op, signed: bool, p: nat, q: nat)
    requires p < Modulus(w) && q < Modulus(w)
    ensures var r := IntArith(w, op, signed, p, q); r.Some? ==> Computes(Bits(w), op, signed, p, q, r.value)
  {
    hide Computes;
    match op
    case Add => SumComputes(w, op, signed, p, q);
    case Sub => SumComputes(w, op, signed, p, q);
    case Mul => SumComputes(w, op, signed, p, q);
    case Div => QuotientComputes(w, op, signed, p, q);
    case Rem => QuotientComputes(w, op, signed, p, q);
    case And => BitsCompute(w, op, signed, p, q);
    case Or => BitsCompute(w, op, signed, p, q);
    case Xor => BitsCompute(w, op, signed, p, q);
    case Shl => ShiftComputes(w, op, signed, p, q);
    case Shr => ShiftComputes(w, op, signed, p, q);
    case _ =>
  }

  /** `a op b` at a type: the width and the sign are the type's, and the first operand is the one on the left. */
  lemma ArithMeaning(fpu: Fpu, op: Op, t: Type, tmps: Tmps, a: Operand, b: Operand)
    requires ArithValue(fpu, op, t, tmps, a, b).Some?
    ensures var r := ArithValue(fpu, op, t, tmps, a, b).value;
            if t in {Prim(F32), Prim(F64)} then
              Read64(tmps, a).Some? && Read64(tmps, b).Some? && r == W(fpu.arith(op, Read64(tmps, a).value, Read64(tmps, b).value))
            else if t in {Prim(I128), Prim(U128)} then
              Read128(tmps, a).Some? && Read128(tmps, b).Some? && r.Q? &&
              Computes(128, op, !Unsigned(t), Read128(tmps, a).value, Read128(tmps, b).value, r.q)
            else
              Read64(tmps, a).Some? && Read64(tmps, b).Some? && r.W? &&
              Computes(64, op, !Unsigned(t), Read64(tmps, a).value, Read64(tmps, b).value, r.w)
  {
    hide Computes, IntArith;
    if !IsFloat(t) {
      if Is128(t) {
        IntArithComputes(W128, op, !IsUnsigned(t), Read128(tmps, a).value, Read128(tmps, b).value);
      } else {
        IntArithComputes(W64, op, !IsUnsigned(t), Read64(tmps, a).value, Read64(tmps, b).value);
      }
    }
  }

  predicate Relation(op: Op, x: int, y: int) {
    (op.Lt? && x < y) || (op.Gt? && x > y) || (op.Le? && x <= y) || (op.Ge? && x >= y) || (op.Eq? && x == y) || (op.Ne? && x != y)
  }

  /** A word as a number at a type. */
  ghost predicate Means(m: int, unsigned: bool, p: nat, x: int)
    requires m > 0
  {
    if unsigned then x == p else StandsFor(m, p, x)
  }

  lemma ComparedWords(fpu: Fpu, op: Op, lt: Type, rt: Type, tmps: Tmps, a: Operand, b: Operand, x: int, y: int)
    requires IsCompare(op) && !IsFloat(lt) && !IsFloat(rt) && !Is128(lt) && !Is128(rt)
    requires Read64(tmps, a).Some? && Read64(tmps, b).Some?
    requires x == Meaning(W64, !IsUnsigned(lt), Read64(tmps, a).value) && y == Meaning(W64, !IsUnsigned(lt), Read64(tmps, b).value)
    ensures var r := CompareValue(fpu, op, lt, rt, tmps, a, b); r.Some? && r.value.W? && Tells(r.value.w, Relation(op, x, y))
  {
    hide Read64, Read128, Meaning;
  }

  lemma ComparedQuads(fpu: Fpu, op: Op, lt: Type, rt: Type, tmps: Tmps, a: Operand, b: Operand, x: int, y: int)
    requires IsCompare(op) && !IsFloat(lt) && !IsFloat(rt) && (Is128(lt) || Is128(rt))
    requires Read128(tmps, a).Some? && Read128(tmps, b).Some?
    requires x == Meaning(W128, !IsUnsigned(lt), Read128(tmps, a).value) && y == Meaning(W128, !IsUnsigned(lt), Read128(tmps, b).value)
    ensures var r := CompareValue(fpu, op, lt, rt, tmps, a, b); r.Some? && r.value.W? && Tells(r.value.w, Relation(op, x, y))
  {
    hide Read64, Read128, Meaning;
  }

  lemma ComparedFloats(fpu: Fpu, op: Op, lt: Type, rt: Type, tmps: Tmps, a: Operand, b: Operand)
    requires (IsFloat(lt) || IsFloat(rt)) && Read64(tmps, a).Some? && Read64(tmps, b).Some?
    ensures var r := CompareValue(fpu, op, lt, rt, tmps, a, b);
            r.Some? && r.value.W? && Tells(r.value.w, fpu.compare(op, Read64(tmps, a).value, Read64(tmps, b).value))
  {
    hide Read64, Read128, Meaning;
  }

  /** A comparison tells how the numbers relate that the operands are at the type of the left one. */
  lemma CompareMeaning(fpu: Fpu, op: Op, lt: Type, rt: Type, tmps: Tmps, a: Operand, b: Operand, x: int, y: int)
    requires IsCompare(op)
    ensures var r := CompareValue(fpu, op, lt, rt, tmps, a, b);
            if {lt, rt} !! {Prim(F32), Prim(F64)} then
              if {lt, rt} !! {Prim(I128), Prim(U128)} then
                Read64(tmps, a).Some? && Read64(tmps, b).Some? &&
                Means(TWO64, Unsigned(lt), Read64(tmps, a).value, x) && Means(TWO64, Unsigned(lt), Read64(tmps, b).value, y) ==>
                  r.Some? && r.value.W? && Tells(r.value.w, Relation(op, x, y))
              else
                Read128(tmps, a).Some? && Read128(tmps, b).Some? &&
                Means(TWO128, Unsigned(lt), Read128(tmps, a).value, x) && Means(TWO128, Unsigned(lt), Read128(tmps, b).value, y) ==>
                  r.Some? && r.value.W? && Tells(r.value.w, Relation(op, x, y))
            else
              Read64(tmps, a).Some? && Read64(tmps, b).Some? ==>
                r.Some? && r.value.W? && Tells(r.value.w, fpu.compare(op, Read64(tmps, a).value, Read64(tmps, b).value))
  {
    hide CompareValue, Read64, Read128, Means, Meaning, Tells, Relation;
    SetForms(lt, rt);
    if IsFloat(lt) || IsFloat(rt) {
      if Read64(tmps, a).Some? && Read64(tmps, b).Some? { ComparedFloats(fpu, op, lt, rt, tmps, a, b); }
    } else if Is128(lt) || Is128(rt) {
      if Read128(tmps, a).Some? && Read128(tmps, b).Some? {
        MeansSigned(W128, Unsigned(lt), Read128(tmps, a).value, x);
        MeansSigned(W128, Unsigned(lt), Read128(tmps, b).value, y);
        if Means(TWO128, Unsigned(lt), Read128(tmps, a).value, x) && Means(TWO128, Unsigned(lt), Read128(tmps, b).value, y) {
          ComparedQuads(fpu, op, lt, rt, tmps, a, b, x, y);
        }
      }
    } else if Read64(tmps, a).Some? && Read64(tmps, b).Some? {
      MeansSigned(W64, Unsigned(lt), Read64(tmps, a).value, x);
      MeansSigned(W64, Unsigned(lt), Read64(tmps, b).value, y);
      if Means(TWO64, Unsigned(lt), Read64(tmps, a).value, x) && Means(TWO64, Unsigned(lt), Read64(tmps, b).value, y) {
        ComparedWords(fpu, op, lt, rt, tmps, a, b, x, y);
      }
    }
  }

  lemma SetForms(lt: Type, rt: Type)
    ensures {lt, rt} !! {Prim(F32), Prim(F64)} <==> !IsFloat(lt) && !IsFloat(rt)
    ensures {lt, rt} !! {Prim(I128), Prim(U128)} <==> !Is128(lt) && !Is128(rt)
  {
    assert lt in {lt, rt} && rt in {lt, rt};
  }

  lemma MeansSigned(w: Width, unsigned: bool, p: nat, x: int)
    requires p < Modulus(w)
    ensures Means(Modulus(w), unsigned, p, x) <==> x == Meaning(w, !unsigned, p)
  {
    SignedStands(w, p);
    if StandsFor(Modulus(w), p, x) { StandsForSigned(w, p, x); }
  }

  // ---------- one operand ----------

  predicate Narrow64(t: Type) { t !in {Prim(I128), Prim(U128)} }

  predicate Floating(t: Type) { t in {Prim(F32), Prim(F64)} }

  /** What a one-operand instruction makes of a word that stands for `x`. */
  ghost predicate WordResult(fpu: Fpu, op: Op, t: Type, s: Type, p: Word, x: int, r: Option<Val>) {
    match op
    case Neg => Narrow64(t) ==> r.Some? && r.value.W? && (if Floating(t) then r.value.w == fpu.negate(p) else Congruent(TWO64, r.value.w + p, 0))
    case Not => if Floating(t) then r.None? else r.Some? && r.value.W? && Tells(r.value.w, p == 0)
    case BitNot =>
      Narrow64(t) ==> if Floating(t) then r.None? else r.Some? && r.value.W? && forall i: nat :: i < 64 ==> (BitAt(r.value.w, i) <==> !BitAt(p, i))
    case Mov =>
      if Narrow64(t) then r == Some(W(p))
      else r.Some? && r.value.Q? && if Unsigned(s) then r.value.q == p else StandsFor(TWO128, r.value.q, x)
    case I2F => r == Some(W(fpu.fromWord(p)))
    case F2I => r == Some(if Narrow64(t) then W(fpu.toWord(p)) else Q(fpu.toQuad(p)))
    case _ => Narrow64(t) ==> r == Some(W(p))
  }

  lemma Negated(w: Width, p: nat)
    ensures Congruent(Modulus(w), Wrap(w, 0 - p) + p, 0)
  {
    WrapCongruent(w, 0 - p);
    MovedOver(Modulus(w), Wrap(w, 0 - p), 0, p);
  }

  lemma Widened(p: Word, x: int)
    requires StandsFor(TWO64, p, x)
    ensures Meaning(W64, true, p) == x && Meaning(W64, false, p) == p && QuadOfInt(p) == p && StandsFor(TWO128, QuadOfInt(x), x)
  {
    StandsForSigned(W64, p, x);
    WrapStands(W128, x);
    WrapSmall(W128, p);
  }

  /** A one-operand instruction on a narrow register applies its operation to the word. */
  lemma OnWordForm(fpu: Fpu, op: Op, t: Type, s: Type, tmps: Tmps, n: int, p: Word)
    requires Read64(tmps, Tmp(n)) == Some(p) && Narrow64(s) && (op in {Op.Neg, Op.BitNot, Op.Bitcast} ==> Narrow64(t))
    ensures UnaryValue(fpu, op, t, s, tmps, Tmp(n)) == UnaryWord(fpu, op, t, s, p)
  {
    hide UnaryWord, UnaryQuad;
  }

  /** A one-operand instruction on a word that stands for `x`. */
  lemma UnaryOnWord(fpu: Fpu, op: Op, t: Type, s: Type, tmps: Tmps, n: int, p: Word, x: int)
    requires Read64(tmps, Tmp(n)) == Some(p) && StandsFor(TWO64, p, x) && Narrow64(s) && IsUnary(op)
    ensures WordResult(fpu, op, t, s, p, x, UnaryValue(fpu, op, t, s, tmps, Tmp(n)))
  {
    hide UnaryValue, UnaryWord, Congruent, StandsFor, BitAt, Tells;
    if op in {Op.Neg, Op.BitNot, Op.Bitcast} && !Narrow64(t) {
      NoClaim(fpu, op, t, s, p, x, UnaryValue(fpu, op, t, s, tmps, Tmp(n)));
    } else {
      OnWordForm(fpu, op, t, s, tmps, n, p);
      if op.Neg? || op.BitNot? { InvertedWord(fpu, op, t, s, p, x); }
      else if op.Mov? { MovedWord(fpu, t, s, p, x); }
      else { PlainWord(fpu, op, t, s, p, x); }
    }
  }

  lemma NoClaim(fpu: Fpu, op: Op, t: Type, s: Type, p: Word, x: int, r: Option<Val>)
    requires op in {Op.Neg, Op.BitNot, Op.Bitcast} && !Narrow64(t)
    ensures WordResult(fpu, op, t, s, p, x, r)
  {
  }

  lemma InvertedWord(fpu: Fpu, op: Op, t: Type, s: Type, p: Word, x: int)
    requires op.Neg? || op.BitNot?
    ensures WordResult(fpu, op, t, s, p, x, UnaryWord(fpu, op, t, s, p))
  {
    hide Congruent, BitAt, Wrap, WordOfInt;
    Negated(W64, p);
    ComplementBits(W64, p);
    WordOfIntForm(p);
  }

  lemma MovedWord(fpu: Fpu, t: Type, s: Type, p: Word, x: int)
    requires StandsFor(TWO64, p, x)
    ensures WordResult(fpu, Mov, t, s, p, x, UnaryWord(fpu, Mov, t, s, p))
  {
    hide StandsFor, Meaning, QuadOfInt;
    Widened(p, x);
  }

  lemma PlainWord(fpu: Fpu, op: Op, t: Type, s: Type, p: Word, x: int)
    requires op in {Op.Not, Op.I2F, Op.F2I, Op.Bitcast}
    ensures WordResult(fpu, op, t, s, p, x, UnaryWord(fpu, op, t, s, p))
  {
    hide WordOfInt, QuadOfInt, Meaning;
  }

  lemma WordOfIntForm(p: Word)
    ensures WordOfInt(0 - p) == Wrap(W64, 0 - p)
  {
  }

  lemma ComplementBits(w: Width, p: nat)
    requires p < Modulus(w)
    ensures forall i: nat :: i < Bits(w) ==> (BitAt(Modulus(w) - 1 - p, i) <==> !BitAt(p, i))
  {
    SizeOf(w);
    hide Pow2, BitAt;
    forall i: nat | i < Bits(w) ensures BitAt(Modulus(w) - 1 - p, i) <==> !BitAt(p, i) { ComplementBit(p, Bits(w), i); }
  }

  /** A one-operand instruction on a 128-bit word. */
  lemma UnaryOnQuad(fpu: Fpu, op: Op, t: Type, s: Type, tmps: Tmps, n: int, p: Quad)
    requires Read128(tmps, Tmp(n)) == Some(p)
    ensures var r := UnaryValue(fpu, op, t, s, tmps, Tmp(n));
            match op
            case Neg => !Narrow64(t) ==> r.Some? && r.value.Q? && Congruent(TWO128, r.value.q + p, 0)
            case Not => !Narrow64(s) && !Floating(t) ==> r.Some? && r.value.W? && Tells(r.value.w, p == 0)
            case BitNot => !Narrow64(t) ==> r.Some? && r.value.Q? && forall i: nat :: i < 128 ==> (BitAt(r.value.q, i) <==> !BitAt(p, i))
            case Mov =>
              !Narrow64(s) ==> r.Some? && if Narrow64(t) then r.value.W? && Congruent(TWO64, r.value.w, p) else r.value == Q(p)
            case I2F => !Narrow64(s) ==> r == Some(W(fpu.fromQuad(!Unsigned(s), p)))
            case Bitcast => !Narrow64(s) && !Narrow64(t) ==> r == Some(Q(p))
            case _ => true
  {
    match op
    case Neg =>
      WrapCongruent(W128, 0 - p);
      MovedOver(TWO128, Wrap(W128, 0 - p), 0, p);
    case BitNot => ComplementBits(W128, p);
    case Mov => WrapCongruent(W64, p);
    case _ =>
  }

  /** A moved constant has its value at the type of the destination; an unsigned wide one is cut to a word. */
  lemma MovedConstant(fpu: Fpu, t: Type, s: Type, tmps: Tmps, v: Int64, ty: Type)
    ensures var r := UnaryValue(fpu, Mov, t, s, tmps, Imm(v, ty));
            r.Some? &&
            if Narrow64(t) then r.value.W? && Congruent(TWO64, r.value.w, v)
            else r.value.Q? && if Unsigned(t) then r.value.q < TWO64 && Congruent(TWO64, r.value.q, v) else StandsFor(TWO128, r.value.q, v)
  {
    WrapCongruent(W64, v);
    WrapStands(W128, v);
  }

  // ---------- instructions ----------

  /** Which operand is which in instructions on memory: the pointer or variable that is written comes first. */
  lemma MemoryOperands(e: Env, fn: Function, f: Frame, mem: Memory, globals: seq<Word>, d: nat, a: Operand, b: Operand, c: Operand)
    ensures EffectOf(e, fn, f, mem, globals, Instr(Ste, -1, [a, b])) == StoreEffect(e, fn, f.tmps, mem, a, b)
    ensures EffectOf(e, fn, f, mem, globals, Instr(Lde, d, [a])) == LoadEffect(TmpType(fn, d), f.tmps, mem, a, d)
    ensures EffectOf(e, fn, f, mem, globals, Instr(Lea, d, [a])) == LeaEffect(fn, f.place, mem, a, d)
    ensures EffectOf(e, fn, f, mem, globals, Instr(Load, d, [a])) == LoadVarEffect(fn, f, mem, globals, a, d)
    ensures EffectOf(e, fn, f, mem, globals, Instr(Stre, -1, [a, b])) == StoreVarEffect(e, fn, f, mem, a, b)
    ensures EffectOf(e, fn, f, mem, globals, Instr(Copy, -1, [a, b, c])) == CopyOpEffect(f.tmps, mem, a, b, c)
  {
    hide StoreEffect, LoadEffect, LeaEffect, LoadVarEffect, StoreVarEffect, CopyOpEffect, SAllocEffect;
  }

  /** A reservation gives its temporary the address of the temporary's own storage, and clears it. */
  lemma ReservationMeaning(e: Env, fn: Function, f: Frame, mem: Memory, globals: seq<Word>, d: nat, n: Int64, ty: Type)
    requires n >= 0 && SlotAddress(fn, f.place, d).Some?
    requires var at := SlotAddress(fn, f.place, d).value; at < TWO64 && InMem(mem, at, n)
    ensures EffectOf(e, fn, f, mem, globals, Instr(SAlloc, d, [Imm(n, ty)])) == Reserve(d, SlotAddress(fn, f.place, d).value, n)
  {
    hide SlotAddress, InMem;
  }

  /** Operations assign to their destination what the first and the second operand give, at its type. */
  lemma ValueOperands(e: Env, fn: Function, f: Frame, mem: Memory, globals: seq<Word>, op: Op, d: nat, a: Operand, b: Operand)
    ensures IsArith(op) ==>
              EffectOf(e, fn, f, mem, globals, Instr(op, d, [a, b])) ==
              Assigned(d, ArithValue(e.fpu, op, TmpType(fn, d), f.tmps, a, b))
    ensures IsCompare(op) ==>
              EffectOf(e, fn, f, mem, globals, Instr(op, d, [a, b])) ==
              Assigned(d, CompareValue(e.fpu, op, OperandType(e.prog, fn, a), OperandType(e.prog, fn, b), f.tmps, a, b))
    ensures IsUnary(op) ==>
              EffectOf(e, fn, f, mem, globals, Instr(op, d, [a])) ==
              Assigned(d, UnaryValue(e.fpu, op, TmpType(fn, d), OperandType(e.prog, fn, a), f.tmps, a))
  {
    hide ArithValue, CompareValue, UnaryValue;
  }

  function Assigned(d: int, v: Option<Val>): Effect { match v case None => Fault case Some(x) => Assign(d, x) }

  /** Branches by their labels; arguments and results by their operand; calls by the symbol, with the destination for the result. */
  lemma ControlOperands(e: Env, fn: Function, f: Frame, mem: Memory, globals: seq<Word>, d: int, a: Operand, yes: Operand, no: Operand, sym: Int64, ty: Type)
    requires a.Tmp? && d >= -1
    ensures EffectOf(e, fn, f, mem, globals, Instr(Jmp, -1, [yes])) == GotoEffect(fn, yes)
    ensures EffectOf(e, fn, f, mem, globals, Instr(Cmp, -1, [a, yes, no])) == BranchEffect(fn, f.tmps, a, yes, no)
    ensures ReadVal(f.tmps, a, Is128(OperandType(e.prog, fn, a))).Some? ==>
              EffectOf(e, fn, f, mem, globals, Instr(Arg, -1, [a])) == PushArg(f.tmps[a.t]) &&
              EffectOf(e, fn, f, mem, globals, Instr(Ret, -1, [a])) == Return(Some(f.tmps[a.t]))
    ensures EffectOf(e, fn, f, mem, globals, Instr(Ret, -1, [])) == Return(None)
    ensures sym in e.prog.symToFunc && e.prog.symToFunc[sym] < |e.prog.functions| ==>
              EffectOf(e, fn, f, mem, globals, Instr(Call, d, [Imm(sym, ty)])) == Invoke(e.prog.symToFunc[sym], d)
  {
    hide GotoEffect, BranchEffect;
  }

  /** What an effect does to the running activation: its temporary, the position, the argument behind all others. */
  lemma Applied(e: Env, s: State, d: int, v: Val, b: nat, place: Placement)
    ensures Apply(e, s, Assign(d, v), place).Next? &&
            var t := Apply(e, s, Assign(d, v), place).state;
            d in t.top.tmps && t.top.tmps[d] == v && t.top.tmps - {d} == s.top.tmps - {d} && s == t.(top := s.top) && t.top == s.top.(tmps := t.top.tmps)
    ensures Apply(e, s, Goto(b), place) == Next(s.(top := Frame(s.top.fn, b, 0, s.top.tmps, s.top.place, s.top.dst)))
    ensures Apply(e, s, PushArg(v), place).Next? &&
            var t := Apply(e, s, PushArg(v), place).state;
            |t.args| == |s.args| + 1 && t.args[|s.args|] == v && t.args[..|s.args|] == s.args && s == t.(args := s.args)
  {
  }
}
