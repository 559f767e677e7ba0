/**
 What the layout pass guarantees: the objects of a frame are aligned, apart from each
 other and inside the frame, and every label leads to the code of its own block.
 */
module FrameLayout {
  import opened Words
  import opened Types
  import opened Ir
  import opened IrMachine
  import opened VmMachine
  import opened VmCompiler

  // ---------- offsets ----------

  lemma AlignUpShift(off: nat, n: nat)
    requires off % 8 == 0
    ensures AlignUp(off + n, 8) == off + AlignUp(n, 8)
  {
    hide AndNat, AlignUp;
    AlignUpEight(off + n);
    AlignUpEight(n);
    OneMultiple(AlignUp(off + n, 8), off + AlignUp(n, 8), off + n);
  }

  /** Only one multiple of 8 is in a range of 8. */
  lemma OneMultiple(x: nat, y: nat, n: nat)
    requires x % 8 == 0 && y % 8 == 0 && n <= x < n + 8 && n <= y < n + 8
    ensures x == y
  {
  }

  lemma ObjectStep(sizes: seq<nat>, k: nat)
    requires k < |sizes|
    ensures ObjectOffset(sizes, k) % 8 == 0
    ensures ObjectOffset(sizes, k + 1) == ObjectOffset(sizes, k) + Extent(sizes[k])
  {
    AlignUpEight(ObjectsEnd(sizes, k));
    AlignUpShift(ObjectOffset(sizes, k), sizes[k]);
  }

  lemma {:induction false} ObjectOrder(sizes: seq<nat>, j: nat, k: nat)
    requires j < k <= |sizes|
    ensures ObjectOffset(sizes, j) + Extent(sizes[j]) <= ObjectOffset(sizes, k)
    decreases k
  {
    ObjectStep(sizes, k - 1);
    if j < k - 1 { ObjectOrder(sizes, j, k - 1); }
  }

  function PlaceObjects(sizes: seq<nat>, base: nat): (r: Placement)
    ensures |r| == |sizes|
  {
    seq(|sizes|, k requires 0 <= k < |sizes| => base + ObjectOffset(sizes, k))
  }

  /** Where the compiled frame at `base` puts the objects of an activation. */
  function PlaceAt(fn: Function, base: nat): (r: Placement)
    ensures |r| == |Objects(fn)|
  {
    PlaceObjects(Objects(fn), base)
  }

  /** An object is inside the frame and starts on a word of its own. */
  lemma ObjectInside(sizes: seq<nat>, base: nat, k: nat)
    requires k < |sizes|
    ensures ObjectOffset(sizes, k) % 8 == 0
    ensures PlaceObjects(sizes, base)[k] == base + ObjectOffset(sizes, k)
    ensures PlaceObjects(sizes, base)[k] + Extent(sizes[k]) <= base + ObjectOffset(sizes, |sizes|)
  {
    ObjectStep(sizes, k);
    ObjectOrder(sizes, k, |sizes|);
  }

  /**
   Frame layout: the objects of a frame are apart and inside the frame, counting for each
   the full words that a register-wide access to it touches.
   */
  lemma FrameLayoutSound(sizes: seq<nat>, base: nat)
    ensures Disjoint(sizes, PlaceObjects(sizes, base))
    ensures forall k :: 0 <= k < |sizes| ==>
              base <= PlaceObjects(sizes, base)[k] &&
              PlaceObjects(sizes, base)[k] + Extent(sizes[k]) <= base + ObjectOffset(sizes, |sizes|)
  {
    var place := PlaceObjects(sizes, base);
    forall j, k | 0 <= j < k < |sizes|
      ensures place[j] + Extent(sizes[j]) <= place[k]
    {
      ObjectOrder(sizes, j, k);
    }
    forall k | 0 <= k < |sizes|
      ensures place[k] + Extent(sizes[k]) <= base + ObjectOffset(sizes, |sizes|)
    {
      ObjectInside(sizes, base, k);
    }
  }

  /** A register-wide access to a scalar of non-zero size stays inside the words of its own variable. */
  lemma ScalarAccessInside(t: Type)
    requires !t.Struct?
    ensures (if Is128(t) then 16 else 8) <= Extent(SizeInBytes(t)) <==> SizeInBytes(t) > 0
  {
    AlignUpEight(SizeInBytes(t));
    AlignUpEight(0);
  }

  /** Assigning to one variable changes no byte of any other object of the activation. */
  lemma StoreStaysInVariable(e: Env, fn: Function, f: Frame, mem: Memory, l: nat, v: Operand, k: nat, a: nat)
    requires |f.place| == |Objects(fn)| && Disjoint(Objects(fn), f.place)
    requires l < |fn.localTypes| && k < |Objects(fn)| && k != l && InObject(Objects(fn)[k], f.place[k], a)
    requires StoreVarEffect(e, fn, f, mem, Local(l), v).Write? && a in mem
    ensures var w := StoreVarEffect(e, fn, f, mem, Local(l), v);
            WriteMem(mem, w.addr, w.bytes)[a] == mem[a]
  {
    hide WriteMem, InMem, ReadMem;
    var w := StoreVarEffect(e, fn, f, mem, Local(l), v);
    assert w.addr == f.place[l] && |w.bytes| <= Extent(Objects(fn)[l]);
    var lo, hi := if k < l then k else l, if k < l then l else k;
    assert f.place[lo] + Extent(Objects(fn)[lo]) <= f.place[hi] || f.place[hi] + Extent(Objects(fn)[hi]) <= f.place[lo];
    OutsideWrite(mem, w.addr, w.bytes, a);
  }

  lemma OutsideWrite(mem: Memory, at: nat, bytes: seq<Byte>, a: nat)
    requires a in mem && !(at <= a < at + |bytes|)
    ensures WriteMem(mem, at, bytes)[a] == mem[a]
  {
  }

  lemma OwnedInFrame(fn: Function, base: nat, a: nat)
    requires Owned(Objects(fn), PlaceAt(fn, base), a)
    ensures base <= a < base + FrameSize(fn)
  {
    FrameLayoutSound(Objects(fn), base);
    var k :| 0 <= k < |Objects(fn)| && InObject(Objects(fn)[k], PlaceAt(fn, base)[k], a);
  }

  // ---------- storage of temporaries ----------

  ghost predicate DistinctSlots(fn: Function) {
    && (forall i :: 0 <= i < |Slots(fn)| ==> Slots(fn)[i].0 >= 0)
    && (forall i, j :: 0 <= i < j < |Slots(fn)| ==> Slots(fn)[i].0 != Slots(fn)[j].0)
  }

  lemma {:induction false} SlotOffsetAt(fn: Function, n: nat, k: nat)
    requires DistinctSlots(fn) && k < n <= |Slots(fn)|
    ensures Slots(fn)[k].0 < |SlotOffsets(fn, n)|
    ensures SlotOffsets(fn, n)[Slots(fn)[k].0] == ObjectOffset(Objects(fn), |fn.localTypes| + k)
    decreases n
  {
    if k < n - 1 {
      SlotOffsetAt(fn, n - 1, k);
      assert Slots(fn)[k].0 != Slots(fn)[n - 1].0;
    }
  }

  /** The compiled offset of a temporary is the place of the object the IR gives it. */
  lemma SlotPlace(fn: Function, base: nat, t: int, at: nat)
    requires DistinctSlots(fn) && SlotAddress(fn, PlaceAt(fn, base), t) == Some(at)
    ensures 0 <= t < |LayoutOf(fn).tmpOffsets| && LayoutOf(fn).tmpOffsets[t] >= 0
    ensures at == base + LayoutOf(fn).tmpOffsets[t]
  {
    var k := Position(Slots(fn), t).value;
    SlotOffsetAt(fn, |Slots(fn)|, k);
  }

  // ---------- code addresses ----------

  lemma {:induction false} FlattenAt(blocks: seq<Block>, b: nat, i: nat)
    requires b < |blocks| && i < |blocks[b].instrs|
    ensures CodeStart(blocks, b) + i < |Flatten(blocks)|
    ensures Flatten(blocks)[CodeStart(blocks, b) + i] == blocks[b].instrs[i]
    decreases |blocks|
  {
    if b > 0 {
      FlattenAt(blocks[1..], b - 1, i);
      CodeStartTail(blocks, b);
    }
  }

  lemma {:induction false} CodeStartTail(blocks: seq<Block>, b: nat)
    requires 0 < b <= |blocks|
    ensures CodeStart(blocks, b) == |blocks[0].instrs| + CodeStart(blocks[1..], b - 1)
    decreases b
  {
    if b > 1 { CodeStartTail(blocks, b - 1); }
  }

  ghost predicate DistinctLabels(blocks: seq<Block>) {
    forall i, j :: 0 <= i < j < |blocks| ==> blocks[i].lab != blocks[j].lab
  }

  lemma {:induction false} LabelPc(blocks: seq<Block>, n: nat, b: nat)
    requires DistinctLabels(blocks) && b < n <= |blocks|
    ensures blocks[b].lab in LabelPcs(blocks, n)
    ensures LabelPcs(blocks, n)[blocks[b].lab] == CodeStart(blocks, b)
    decreases n
  {
    if b < n - 1 { LabelPc(blocks, n - 1, b); }
  }
}
