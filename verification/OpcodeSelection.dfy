/**
 The opcode chosen from operand types computes what the typed IR operation means.
 */
module OpcodeSelection {
  import opened Words
  import opened Types
  import opened Ir
  import opened VmMachine
  import opened VmCompiler

  /** Sign-agnostic opcodes agree with the arithmetic of either signedness. */
  lemma AgnosticArith(w: Width, signed: bool, x: nat, y: nat)
    ensures AddW(w, Meaning(w, signed, x), Meaning(w, signed, y)) == AddW(w, Signed(w, x), Signed(w, y))
    ensures SubW(w, Meaning(w, signed, x), Meaning(w, signed, y)) == SubW(w, Signed(w, x), Signed(w, y))
    ensures MulW(w, Meaning(w, signed, x), Meaning(w, signed, y)) == MulW(w, Signed(w, x), Signed(w, y))
    ensures Wrap(w, 0 - Signed(w, x)) == Wrap(w, 0 - x)
  {
    SignIrrelevant(w, x, y);
  }

  /** One case per operation, so that each looks at its own opcode only. */
  lemma Arith64(fpu: Fpu, op: Op, t: Type, x: Word, y: Word, vop: VmOp)
    requires !IsFloat(t) && !Is128(t) && SelectArith(op, t) == Some(vop)
    requires IntArith(W64, op, !IsUnsigned(t), x, y).Some?
    ensures vop.OBin64? && Bin64(fpu, vop.bin, x, y) == IntArith(W64, op, !IsUnsigned(t), x, y)
  {
    var sx, sy := Signed(W64, x), Signed(W64, y);
    match op
    case Add =>
      AgnosticArith(W64, !IsUnsigned(t), x, y);
      assert Bin64(fpu, vop.bin, x, y) == Some(AddW(W64, sx, sy));
    case Sub =>
      AgnosticArith(W64, !IsUnsigned(t), x, y);
      assert Bin64(fpu, vop.bin, x, y) == Some(SubW(W64, sx, sy));
    case Mul =>
      AgnosticArith(W64, !IsUnsigned(t), x, y);
      assert Bin64(fpu, vop.bin, x, y) == Some(MulW(W64, sx, sy));
    case Div =>
      UnsignedDivision(W64, x, y);
      assert Bin64(fpu, vop.bin, x, y) == if IsUnsigned(t) then UDivW(W64, x, y) else DivW(W64, true, sx, sy);
    case Rem =>
      UnsignedDivision(W64, x, y);
      assert Bin64(fpu, vop.bin, x, y) == if IsUnsigned(t) then URemW(W64, x, y) else RemW(W64, true, sx, sy);
    case Shl => assert Bin64(fpu, vop.bin, x, y) == Some(ShlW(W64, x, y));
    case Shr => assert Bin64(fpu, vop.bin, x, y) == Some(ShrW(W64, if IsUnsigned(t) then x else sx, y));
    case And => assert Bin64(fpu, vop.bin, x, y) == Some(BitwiseOp(W64, BAnd, x, y));
    case Or => assert Bin64(fpu, vop.bin, x, y) == Some(BitwiseOp(W64, BOr, x, y));
    case Xor => assert Bin64(fpu, vop.bin, x, y) == Some(BitwiseOp(W64, BXor, x, y));
  }

  /** One case per operation, so that each looks at its own opcode only. */
  lemma Arith128(op: Op, t: Type, x: Quad, y: Quad, vop: VmOp)
    requires Is128(t) && SelectArith(op, t) == Some(vop)
    requires IntArith(W128, op, !IsUnsigned(t), x, y).Some?
    ensures vop.OBin128? && Bin128(vop.bin128, x, y) == IntArith(W128, op, !IsUnsigned(t), x, y)
  {
    var sx, sy := Signed(W128, x), Signed(W128, y);
    match op
    case Add =>
      AgnosticArith(W128, !IsUnsigned(t), x, y);
      assert Bin128(vop.bin128, x, y) == Some(AddW(W128, sx, sy));
    case Sub =>
      AgnosticArith(W128, !IsUnsigned(t), x, y);
      assert Bin128(vop.bin128, x, y) == Some(SubW(W128, sx, sy));
    case Mul =>
      AgnosticArith(W128, !IsUnsigned(t), x, y);
      assert Bin128(vop.bin128, x, y) == Some(MulW(W128, sx, sy));
    case Div =>
      UnsignedDivision(W128, x, y);
      assert Bin128(vop.bin128, x, y) == if IsUnsigned(t) then UDivW(W128, x, y) else DivW(W128, true, sx, sy);
    case Rem =>
      UnsignedDivision(W128, x, y);
      assert Bin128(vop.bin128, x, y) == if IsUnsigned(t) then URemW(W128, x, y) else RemW(W128, true, sx, sy);
    case Shl => assert Bin128(vop.bin128, x, y) == Some(ShlW(W128, x, y));
    case Shr => assert Bin128(vop.bin128, x, y) == Some(ShrW(W128, if IsUnsigned(t) then x else sx, y));
    case And => assert Bin128(vop.bin128, x, y) == Some(BitwiseOp(W128, BAnd, x, y));
    case Or => assert Bin128(vop.bin128, x, y) == Some(BitwiseOp(W128, BOr, x, y));
    case Xor => assert Bin128(vop.bin128, x, y) == Some(BitwiseOp(W128, BXor, x, y));
  }

  lemma Compare64(fpu: Fpu, op: Op, lt: Type, rt: Type, x: Word, y: Word, vop: VmOp)
    requires !IsFloat(lt) && !IsFloat(rt) && !Is128(lt) && !Is128(rt) && SelectCompare(op, lt, rt) == Some(vop)
    ensures vop.OBin64?
    ensures Bin64(fpu, vop.bin, x, y) ==
            Some(BoolWord(Compare(op, Meaning(W64, !IsUnsigned(lt), x), Meaning(W64, !IsUnsigned(lt), y))))
  {
    SignedInjective(W64, x, y);
  }

  lemma Compare128(op: Op, lt: Type, rt: Type, x: Quad, y: Quad, vop: VmOp)
    requires !IsFloat(lt) && !IsFloat(rt) && (Is128(lt) || Is128(rt)) && SelectCompare(op, lt, rt) == Some(vop)
    ensures vop.OCmp128?
    ensures Cmp128(vop.cmp128, x, y) ==
            BoolWord(Compare(op, Meaning(W128, !IsUnsigned(lt), x), Meaning(W128, !IsUnsigned(lt), y)))
  {
    var uns := IsUnsigned(lt);
    assert vop == WideCompare(op, uns).value;
    WideCompareMeaning(op, uns, x, y);
  }

  function WideCompare(op: Op, uns: bool): Option<VmOp> {
    match op
    case Lt => Some(if uns then OCmp128(ICmpLTU128) else OCmp128(ICmpLTS128))
    case Gt => Some(if uns then OCmp128(ICmpGTU128) else OCmp128(ICmpGTS128))
    case Le => Some(if uns then OCmp128(ICmpLEU128) else OCmp128(ICmpLES128))
    case Ge => Some(if uns then OCmp128(ICmpGEU128) else OCmp128(ICmpGES128))
    case Eq => Some(OCmp128(ICmpEQ128))
    case Ne => Some(OCmp128(ICmpNE128))
    case _ => None
  }

  lemma WideCompareMeaning(op: Op, uns: bool, x: Quad, y: Quad)
    requires IsCompare(op)
    ensures WideCompare(op, uns).value.OCmp128?
    ensures Cmp128(WideCompare(op, uns).value.cmp128, x, y) ==
            BoolWord(Compare(op, Meaning(W128, !uns, x), Meaning(W128, !uns, y)))
  {
    SignedInjective(W128, x, y);
    var a, b := Meaning(W128, !uns, x), Meaning(W128, !uns, y);
    var vop := WideCompare(op, uns).value;
    match op
    case Lt => assert Cmp128(vop.cmp128, x, y) == BoolWord(a < b);
    case Gt => assert Cmp128(vop.cmp128, x, y) == BoolWord(a > b);
    case Le => assert Cmp128(vop.cmp128, x, y) == BoolWord(a <= b);
    case Ge => assert Cmp128(vop.cmp128, x, y) == BoolWord(a >= b);
    case Eq => assert Cmp128(vop.cmp128, x, y) == BoolWord(Signed(W128, x) == Signed(W128, y));
    case Ne => assert Cmp128(vop.cmp128, x, y) == BoolWord(Signed(W128, x) != Signed(W128, y));
  }

  lemma FloatArith(fpu: Fpu, op: Op, t: Type, x: Word, y: Word)
    requires IsFloat(t) && IsFloatArith(op)
    ensures SelectArith(op, t).Some? && SelectArith(op, t).value.OBin64?
    ensures Bin64(fpu, SelectArith(op, t).value.bin, x, y) == Some(fpu.arith(op, x, y))
  {
  }

  lemma FloatCompare(fpu: Fpu, op: Op, lt: Type, rt: Type, x: Word, y: Word)
    requires (IsFloat(lt) || IsFloat(rt)) && IsCompare(op)
    ensures SelectCompare(op, lt, rt).Some? && SelectCompare(op, lt, rt).value.OBin64?
    ensures Bin64(fpu, SelectCompare(op, lt, rt).value.bin, x, y) == Some(BoolWord(fpu.compare(op, x, y)))
  {
  }

  /** A one-operand opcode on a 64-bit operand, at either result width. */
  function UnaryWordResult(fpu: Fpu, vop: VmOp, x: Word): Option<Val> {
    match vop
    case OUn64(op) => Some(W(Un64(fpu, op, x)))
    case OWiden(op) => Some(Q(Widen(fpu, op, x)))
    case _ => None
  }

  function UnaryQuadResult(fpu: Fpu, vop: VmOp, x: Quad): Option<Val> {
    match vop
    case OUn128(op) => Some(Q(Un128(op, x)))
    case ONarrow(op) => Some(W(Narrow(fpu, op, x)))
    case _ => None
  }

  lemma ZeroExtended(x: Word)
    ensures QuadOfInt(x) == x
  {
  }

  lemma UnaryOnWord(fpu: Fpu, op: Op, t: Type, s: Type, x: Word, vop: VmOp)
    requires IsUnary(op) && SelectUnary(op, t, s, false) == Some(vop) && !ReadsWide(op, t, s)
    requires UnaryWord(fpu, op, t, s, x).Some?
    ensures UnaryWordResult(fpu, vop, x) == UnaryWord(fpu, op, t, s, x)
  {
    AgnosticArith(W64, true, x, x);
    ZeroExtended(x);
  }

  lemma UnaryOnQuad(fpu: Fpu, op: Op, t: Type, s: Type, x: Quad, vop: VmOp)
    requires IsUnary(op) && SelectUnary(op, t, s, false) == Some(vop) && ReadsWide(op, t, s)
    requires UnaryQuad(fpu, op, t, s, x).Some?
    ensures UnaryQuadResult(fpu, vop, x) == UnaryQuad(fpu, op, t, s, x)
  {
    AgnosticArith(W128, true, x, x);
  }

  /** An immediate moved into a register widens by the type of the destination. */
  lemma MovImmediate(fpu: Fpu, t: Type, s: Type, v: Int64, vop: VmOp)
    requires SelectUnary(Mov, t, s, true) == Some(vop)
    ensures UnaryWordResult(fpu, vop, WordOfInt(v)) ==
            Some(if Is128(t) then Q(WideImm(v, IsUnsigned(t))) else W(WordOfInt(v)))
  {
    SignedOfWord(v);
  }

  lemma SignedOfWord(v: Int64)
    ensures Signed(W64, WordOfInt(v)) == v
  {
    if v < 0 { ModUnique(v, TWO64, -1, v + TWO64); }
  }

  /**
   As a plain operand a wide immediate is always sign-extended.  That is the value of an
   unsigned 128-bit literal exactly when its low half is below 2^63.
   */
  lemma WideOperandExact(v: Int64)
    ensures QuadOfInt(v) == WideImm(v, true) <==> v >= 0
  {
    if v < 0 {
      ModUnique(v, TWO64, -1, v + TWO64);
      ModUnique(v, TWO128, -1, v + TWO128);
    }
  }
}
