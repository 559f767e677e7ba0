/**
 Managed strings: reference-counted cells with a lazily built symbol index.  Operations work
 on bytes; each is proved to be an operation on the text, and the counts to be the number of
 owning handles after any sequence of calls.
 */
module ManagedStrings {
  import opened Words
  import opened Utf8
  import opened Utf8Search

  // ---------- operations on texts, positions counted from 1 ----------

  function SliceText(t: Text, start: int, end: int): Option<Text> {
    var lo, hi := if start < 1 then 1 else start, if end >= |t| then |t| else end;
    if lo > hi then None else Some(t[lo - 1..hi])
  }

  /** Position `k` is in the slice exactly when it is in the range; the slice is in order and holds nothing else. */
  lemma SliceHolds(t: Text, start: int, end: int, k: int)
    requires 1 <= k <= |t|
    ensures var r, first := SliceText(t, start, end), if start < 1 then 1 else start;
            (start <= k <= end <==> r.Some? && 0 <= k - first < |r.value|) &&
            (start <= k <= end ==> r.value[k - first] == t[k - 1]) &&
            (r.Some? ==> 1 <= |r.value| && first + |r.value| - 1 <= |t|)
  {
  }

  /** The part that a deletion removes, or nothing: from symbol `from` to `to`, counted from 0. */
  function DeletedRange(t: Text, start: Int64, count: Int64): Option<(nat, nat)> {
    var lo := if start < 1 then 1 else start;
    if count < 1 then None else
    var end := Wrapped(lo + count - 1);
    var hi := if end > |t| then |t| else end;
    if lo > hi then None else Some((lo - 1, hi))
  }

  /** The same with numbers that do not wrap. */
  function IdealRange(t: Text, start: int, count: int): Option<(nat, nat)> {
    var lo := if start < 1 then 1 else start;
    var hi := if lo + count - 1 > |t| then |t| else lo + count - 1;
    if count < 1 || lo > hi then None else Some((lo - 1, hi))
  }

  /** Position `k` is in that range exactly when it is one of `count` positions from `start` on, or from the first. */
  lemma IdealRangeHolds(t: Text, start: int, count: int, k: int)
    requires 1 <= k <= |t|
    ensures var r, first := IdealRange(t, start, count), if start < 1 then 1 else start;
            (r.Some? && r.value.0 < k <= r.value.1) <==> first <= k < first + count
    ensures IdealRange(t, start, count).Some? ==> var (from, to) := IdealRange(t, start, count).value; from < to <= |t|
  {
  }

  /**
   The right symbols are deleted exactly when the last position fits into 64 bits, unless nothing is to be
   deleted anyway.
   */
  lemma DeletedRangeExact(t: Text, start: Int64, count: Int64)
    ensures var lo := if start < 1 then 1 else start;
            DeletedRange(t, start, count) == IdealRange(t, start, count) <==> count < 1 || lo > |t| || lo + count - 1 < TWO63
  {
    var lo := if start < 1 then 1 else start;
    if count >= 1 && lo + count - 1 >= TWO63 { assert Wrapped(lo + count - 1) < 0; }
  }

  /** For instance, of three symbols the rest from the second on stays if the count is as large as it can be. */
  lemma HugeCountDeletesNothing(t: Text)
    requires |t| == 3
    ensures DeletedRange(t, 2, TWO63 - 1) == None && IdealRange(t, 2, TWO63 - 1) == Some((1, 3))
  {
    assert Wrapped(TWO63) == -TWO63;
  }

  function DeleteText(t: Text, start: Int64, count: Int64): Text {
    match DeletedRange(t, start, count)
    case None => t
    case Some((from, to)) => if from <= to <= |t| then t[..from] + t[to..] else t
  }

  function InsertText(t: Text, u: Text, pos: int): Text {
    t[..Clamp(pos - 1, |t|)] + u + t[Clamp(pos - 1, |t|)..]
  }

  function ReplaceText(t: Text, c: CodePoint, i: int): Text {
    if 1 <= i <= |t| then t[i - 1 := c] else t
  }

  /**
   An insertion at position `pos` keeps the symbols before it where they are, moves those from it on
   behind the new ones, and takes positions outside the text to its ends.
   */
  lemma InsertHolds(t: Text, u: Text, pos: int)
    ensures var r := InsertText(t, u, pos);
            |r| == |t| + |u| &&
            (forall k :: 0 <= k < |t| && k + 1 < pos ==> r[k] == t[k]) &&
            (forall k :: 0 <= k < |t| && k + 1 >= pos ==> r[k + |u|] == t[k])
    ensures var r := InsertText(t, u, pos);
            (1 <= pos <= |t| ==> r[pos - 1..pos - 1 + |u|] == u) && (pos < 1 ==> r[..|u|] == u) && (pos > |t| ==> r[|t|..] == u)
  {
  }

  /** Deleting what was inserted restores the text. */
  lemma DeleteUndoesInsert(t: Text, u: Text, pos: int)
    requires u != [] && |t| + |u| < TWO63
    ensures DeleteText(InsertText(t, u, pos), Clamp(pos - 1, |t|) + 1, |u|) == t
  {
    var at := Clamp(pos - 1, |t|);
    var all := InsertText(t, u, pos);
    assert DeletedRange(all, at + 1, |u|) == Some((at, at + |u|));
    assert all[..at] == t[..at] && all[at + |u|..] == t[at..];
  }

  /** Putting a deleted slice back restores the text. */
  lemma InsertUndoesDelete(t: Text, start: Int64, count: Int64)
    requires DeletedRange(t, start, count).Some?
    ensures var (from, to) := DeletedRange(t, start, count).value;
            SliceText(t, from + 1, to) == Some(t[from..to]) &&
            InsertText(DeleteText(t, start, count), t[from..to], from + 1) == t
  {
    var (from, to) := DeletedRange(t, start, count).value;
    var rest := DeleteText(t, start, count);
    assert rest == t[..from] + t[to..];
    assert rest[..from] == t[..from] && rest[from..] == t[to..];
  }

  /** At a position outside the string nothing is replaced. */
  lemma ReplaceIsDeleteInsert(t: Text, c: CodePoint, i: Int64)
    ensures ReplaceText(t, c, i) == if 1 <= i <= |t| then InsertText(DeleteText(t, i, 1), [c], i) else t
  {
    if 1 <= i <= |t| { assert DeletedRange(t, i, 1) == Some((i - 1, i)); }
  }

  // ---------- cutting bytes at symbol offsets ----------

  lemma CutAt(t: Text, i: nat)
    requires i <= |t|
    ensures Offset(t, i) <= |Encode(t)|
    ensures Encode(t)[..Offset(t, i)] == Encode(t[..i]) && Encode(t)[Offset(t, i)..] == Encode(t[i..])
  {
    EncodedSlice(t, i, i);
  }

  lemma DeletedBytes(t: Text, from: nat, to: nat)
    requires from <= to <= |t|
    ensures Offset(t, from) <= Offset(t, to) <= |Encode(t)|
    ensures Encode(t)[..Offset(t, from)] + Encode(t)[Offset(t, to)..] == Encode(t[..from] + t[to..])
  {
    EncodedSlice(t, from, to);
    EncodeConcat(t[..from], t[to..]);
  }

  lemma InsertedBytes(t: Text, u: Text, at: nat)
    requires at <= |t|
    ensures Offset(t, at) <= |Encode(t)|
    ensures Encode(t)[..Offset(t, at)] + Encode(u) + Encode(t)[Offset(t, at)..] == Encode(t[..at] + u + t[at..])
  {
    CutAt(t, at);
    EncodeConcat(t[..at], u);
    EncodeConcat(t[..at] + u, t[at..]);
  }

  lemma ReplacedBytes(t: Text, c: CodePoint, i: nat)
    requires i < |t|
    ensures Offset(t, i) + |Symbol(t[i])| == Offset(t, i + 1) <= |Encode(t)|
    ensures Encode(t)[..Offset(t, i)] + Symbol(c) + Encode(t)[Offset(t, i + 1)..] == Encode(t[i := c])
  {
    hide Encode, Symbol, Offset;
    OffsetStep(t, i);
    CutAt(t, i);
    CutAt(t, i + 1);
    EncodedReplacement(t[..i], c, t[i + 1..]);
    UpdateSplit(t, c, i);
  }

  lemma UpdateSplit(t: Text, c: CodePoint, i: nat)
    requires i < |t|
    ensures t[i := c] == t[..i] + [c] + t[i + 1..]
  {
  }

  lemma EncodedReplacement(a: Text, c: CodePoint, b: Text)
    ensures Encode(a + [c] + b) == Encode(a) + Symbol(c) + Encode(b)
  {
    hide Encode, Symbol;
    EncodeSingle(c);
    EncodeConcat(a, [c]);
    EncodeConcat(a + [c], b);
  }

  /** A replacement of the same length leaves the offsets alone. */
  lemma SameOffsets(t: Text, c: CodePoint, i: nat)
    requires i < |t| && |Symbol(c)| == |Symbol(t[i])|
    ensures Offsets(t[i := c]) == Offsets(t)
  {
    hide Symbol, Offset;
    forall k: nat | k <= |t|
      ensures Offset(t[i := c], k) == Offset(t, k)
    {
      SameOffset(t, c, i, k);
    }
  }

  lemma {:induction false} SameOffset(t: Text, c: CodePoint, i: nat, k: nat)
    requires i < |t| && |Symbol(c)| == |Symbol(t[i])| && k <= |t|
    ensures Offset(t[i := c], k) == Offset(t, k)
    decreases k
  {
    hide Symbol, Encode;
    if k == 0 {
      OffsetEnd(t);
      OffsetEnd(t[i := c]);
    } else {
      SameOffset(t, c, i, k - 1);
      OffsetStep(t, k - 1);
      OffsetStep(t[i := c], k - 1);
    }
  }

  // ---------- the heap ----------

  datatype Cell = Cell(rc: int, data: seq<Byte>, indices: Option<seq<nat>>, symbols: nat)

  /** Null, or the address of a cell. */
  type Handle = Option<nat>

  ghost predicate CellOk(c: Cell, t: Text) {
    c.data == Encode(t) && (c.indices.Some? ==> c.indices.value == Offsets(t) && c.symbols == |t|)
  }

  /** Live strings are the owned ones, each with its count, its bytes and a correct index or none. */
  ghost predicate HeapOk(cells: map<nat, Cell>, next: nat, texts: map<nat, Text>, owners: multiset<nat>) {
    && texts.Keys == cells.Keys
    && (forall a :: a in cells ==> a < next && CellOk(cells[a], texts[a]) && cells[a].rc == owners[a] && owners[a] > 0)
    && (forall a :: a in owners ==> a in cells)
  }

  lemma AllocateKeeps(cells: map<nat, Cell>, next: nat, texts: map<nat, Text>, owners: multiset<nat>, data: seq<Byte>, t: Text)
    requires HeapOk(cells, next, texts, owners) && data == Encode(t)
    ensures next !in texts
    ensures HeapOk(cells[next := Cell(1, data, None, 0)], next + 1, texts[next := t], owners + multiset{next})
  {
    hide Encode;
    assert next !in owners;
  }

  lemma RetainKeeps(cells: map<nat, Cell>, next: nat, texts: map<nat, Text>, owners: multiset<nat>, a: nat)
    requires HeapOk(cells, next, texts, owners) && a in cells
    ensures HeapOk(cells[a := cells[a].(rc := cells[a].rc + 1)], next, texts, owners + multiset{a})
  {
    hide Encode;
  }

  lemma ReleaseKeeps(cells: map<nat, Cell>, next: nat, texts: map<nat, Text>, owners: multiset<nat>, a: nat)
    requires HeapOk(cells, next, texts, owners) && owners[a] > 0
    ensures a in cells && cells[a].rc == owners[a]
    ensures owners[a] == 1 ==> HeapOk(cells - {a}, next, texts - {a}, owners - multiset{a})
    ensures owners[a] > 1 ==> HeapOk(cells[a := cells[a].(rc := cells[a].rc - 1)], next, texts, owners - multiset{a})
  {
    hide CellOk;
    assert a in owners;
    assert forall b :: b in owners - multiset{a} ==> b in owners && (b == a ==> owners[a] > 1);
    if owners[a] > 1 { CellCount(cells[a], texts[a], cells[a].rc - 1); }
  }

  lemma CellCount(c: Cell, t: Text, rc: int)
    requires CellOk(c, t)
    ensures CellOk(c.(rc := rc), t)
  {
  }

  /** Another representation of the same string, or new bytes with a new meaning. */
  lemma UpdateKeeps(cells: map<nat, Cell>, next: nat, texts: map<nat, Text>, owners: multiset<nat>, a: nat, c: Cell, t: Text)
    requires HeapOk(cells, next, texts, owners) && a in cells && CellOk(c, t) && c.rc == cells[a].rc
    ensures HeapOk(cells[a := c], next, texts[a := t], owners)
  {
    hide CellOk;
  }

  lemma LiveCell(cells: map<nat, Cell>, next: nat, texts: map<nat, Text>, owners: multiset<nat>, a: nat)
    requires HeapOk(cells, next, texts, owners)
    ensures a in cells <==> a in texts
    ensures a in cells <==> owners[a] > 0
    ensures a in cells ==> CellOk(cells[a], texts[a]) && cells[a].rc == owners[a] && a < next
  {
    hide CellOk;
    assert a in owners <==> owners[a] > 0;
  }

  lemma AllLive(cells: map<nat, Cell>, next: nat, texts: map<nat, Text>, owners: multiset<nat>)
    requires HeapOk(cells, next, texts, owners)
    ensures forall a :: a in cells <==> a in texts
  {
  }

  /** What building the index gives is a correct cell. */
  lemma IndexedCell(c: Cell, t: Text)
    requires CellOk(c, t)
    ensures c.data == Encode(t) && CellOk(c.(indices := Some(Offsets(t)), symbols := |t|), t)
  {
  }

  class StringRuntime {
    var cells: map<nat, Cell>
    var next: nat
    ghost var texts: map<nat, Text>        // what each live string means
    ghost var owners: multiset<nat>        // one entry per owning handle

    ghost predicate Valid()
      reads this
    {
      HeapOk(cells, next, texts, owners)
    }

    /** Strings live exactly as long as somebody owns them. */
    ghost predicate Alive(h: Handle)
      reads this
    {
      h.Some? ==> h.value in texts
    }

    ghost predicate Owns(h: Handle)
      reads this
    {
      h.Some? ==> owners[h.value] > 0
    }

    constructor ()
      ensures Valid() && texts == map[] && owners == multiset{}
    {
      cells, next, texts, owners := map[], 0, map[], multiset{};
    }

    method Allocate(data: seq<Byte>, ghost t: Text) returns (h: Handle)
      requires Valid() && data == Encode(t)
      modifies this
      ensures Valid() && h == Some(old(next)) && old(next) !in old(texts)
      ensures texts == old(texts)[old(next) := t] && owners == old(owners) + multiset{old(next)}
    {
      hide HeapOk, Encode;
      AllocateKeeps(cells, next, texts, owners, data, t);
      cells := cells[next := Cell(1, data, None, 0)];
      texts := texts[next := t];
      owners := owners + multiset{next};
      h := Some(next);
      next := next + 1;
    }

    method Retain(h: Handle)
      requires Valid() && Alive(h)
      modifies this`cells, this`owners
      ensures Valid() && owners == old(owners) + Held(h)
    {
      hide HeapOk, CellOk;
      if h.None? { return; }
      LiveCell(cells, next, texts, owners, h.value);
      RetainKeeps(cells, next, texts, owners, h.value);
      cells := cells[h.value := cells[h.value].(rc := cells[h.value].rc + 1)];
      owners := owners + multiset{h.value};
    }

    static ghost function Held(h: Handle): multiset<nat> {
      if h.Some? then multiset{h.value} else multiset{}
    }

    /** What is left when an owner of `h` lets go. */
    static ghost function Dropped(texts: map<nat, Text>, owners: multiset<nat>, h: Handle): map<nat, Text> {
      if h.Some? && owners[h.value] == 1 then texts - {h.value} else texts
    }

    /** An owning handle goes away; the string is freed with its last owner and not before. */
    method Release(h: Handle)
      requires Valid() && Owns(h)
      modifies this`cells, this`owners, this`texts
      ensures Valid() && owners == old(owners) - Held(h)
      ensures texts == Dropped(old(texts), old(owners), h)
    {
      hide HeapOk, CellOk;
      if h.Some? { DropOwner(h.value); }
    }

    /** The same for a string that is there. */
    method DropOwner(a: nat)
      requires Valid() && owners[a] > 0
      modifies this`cells, this`owners, this`texts
      ensures Valid() && owners == old(owners) - multiset{a}
      ensures texts == if old(owners)[a] == 1 then old(texts) - {a} else old(texts)
    {
      hide HeapOk, CellOk;
      ReleaseKeeps(cells, next, texts, owners, a);
      var rc := cells[a].rc - 1;
      if rc == 0 {
        cells := cells - {a};
        texts := texts - {a};
      } else {
        cells := cells[a := cells[a].(rc := rc)];
      }
      owners := owners - multiset{a};
    }

    /** Build the index on first use; nothing visible changes. */
    method EnsureIndex(a: nat)
      requires Valid() && a in texts
      modifies this`cells
      ensures Valid() && a in cells && CellOk(cells[a], texts[a])
      ensures cells[a].indices.Some? && cells[a].rc == owners[a]
      ensures forall b :: b in texts ==> b in cells && (b in old(cells) ==> cells[b].data == old(cells)[b].data)
    {
      hide HeapOk, CellOk, Encode, Offset;
      AllLive(cells, next, texts, owners);
      LiveCell(cells, next, texts, owners, a);
      if cells[a].indices.None? {
        IndexedCell(cells[a], texts[a]);
        var indices, symbols := BuildUtf8Indices(cells[a].data, texts[a]);
        var cell := cells[a].(indices := Some(indices), symbols := symbols);
        UpdateKeeps(cells, next, texts, owners, a, cell, texts[a]);
        assert texts[a := texts[a]] == texts;
        cells := cells[a := cell];
      }
    }

    method Len(h: Handle) returns (n: nat)
      requires Valid() && Alive(h)
      modifies this`cells
      ensures Valid() && n == if h.Some? then |texts[h.value]| else 0
    {
      hide HeapOk;
      if h.None? { return 0; }
      EnsureIndex(h.value);
      return cells[h.value].symbols;
    }

    method SymbolAt(h: Handle, pos: Int32) returns (c: int)
      requires Valid() && Alive(h)
      modifies this`cells
      ensures Valid()
      ensures c == if h.Some? && 1 <= pos <= |texts[h.value]| then texts[h.value][pos - 1] else -1
    {
      hide HeapOk;
      hide Encode, DecodeFirst, Offset;
      if h.None? { return -1; }
      EnsureIndex(h.value);
      var cell := cells[h.value];
      if pos < 1 || pos > cell.symbols { return -1; }
      DecodeAt(texts[h.value], pos - 1);
      var decoded := DecodeFirst(cell.data[cell.indices.value[pos - 1]..]);
      return if decoded.Some? then decoded.value else -1;
    }

    method Slice(h: Handle, startSymbol: Int32, endSymbol: Int32) returns (r: Handle)
      requires Valid() && Alive(h)
      modifies this
      ensures Valid()
      ensures var s := if h.Some? then SliceText(old(texts)[h.value], startSymbol, endSymbol) else None;
              if s.None? then r == None && texts == old(texts) && owners == old(owners)
              else r == Some(old(next)) && old(next) !in old(texts) &&
                   texts == old(texts)[old(next) := s.value] && owners == old(owners) + multiset{old(next)}
    {
      hide HeapOk;
      hide Encode, Offset;
      if h.None? { return None; }
      EnsureIndex(h.value);
      var cell := cells[h.value];
      ghost var t := texts[h.value];
      var start := if startSymbol < 1 then 1 else startSymbol;
      var end := if endSymbol >= cell.symbols then cell.symbols else endSymbol;
      if start > end { return None; }
      EncodedSlice(t, start - 1, end);
      r := Allocate(cell.data[cell.indices.value[start - 1]..cell.indices.value[end]], t[start - 1..end]);
    }

    method Concat(a: Handle, b: Handle) returns (r: Handle)
      requires Valid() && Alive(a) && Alive(b)
      modifies this
      ensures Valid() && r == Some(old(next)) && old(next) !in old(texts)
      ensures texts == old(texts)[old(next) := TextOf(old(texts), a) + TextOf(old(texts), b)]
      ensures owners == old(owners) + multiset{old(next)}
    {
      hide HeapOk;
      if a.Some? { LiveCell(cells, next, texts, owners, a.value); }
      if b.Some? { LiveCell(cells, next, texts, owners, b.value); }
      var x := if a.Some? then cells[a.value].data else [];
      var y := if b.Some? then cells[b.value].data else [];
      EncodeConcat(TextOf(texts, a), TextOf(texts, b));
      hide Encode;
      r := Allocate(x + y, TextOf(texts, a) + TextOf(texts, b));
    }

    /** Null counts as empty here. */
    static ghost function TextOf(texts: map<nat, Text>, h: Handle): Text {
      if h.Some? && h.value in texts then texts[h.value] else []
    }

    /** Replaces the string of an owned variable by a new one without the symbols; the old one is released. */
    method DeleteSymbols(h: Handle, startSymbol: Int64, count: Int64) returns (r: Handle)
      requires Valid() && Owns(h)
      modifies this
      ensures Valid() && owners == old(owners) - Held(h) + Held(r)
      ensures if h.Some? && DeletedRange(old(texts)[h.value], startSymbol, count).Some?
              then r == Some(old(next)) && old(next) !in old(texts) &&
                   texts == Dropped(old(texts), old(owners), h)[old(next) := DeleteText(old(texts)[h.value], startSymbol, count)]
              else r == h && texts == old(texts)
    {
      hide HeapOk;
      hide Encode, Offset;
      if h.None? { return h; }
      LiveCell(cells, next, texts, owners, h.value);
      EnsureIndex(h.value);
      ghost var t := texts[h.value];
      var cell := cells[h.value];
      var start := if startSymbol < 1 then 1 else startSymbol;
      if count < 1 { return h; }
      var end := Wrapped(start + count - 1);
      if end > cell.symbols { end := cell.symbols; }
      if start > end { return h; }
      var data := DataWithout(cell, t, start - 1, end);
      r := Replaced(h, data, t[..start - 1] + t[end..]);
    }

    /** A new string takes the place of an owned one. */
    method Replaced(h: Handle, data: seq<Byte>, ghost t: Text) returns (r: Handle)
      requires Valid() && Owns(h) && data == Encode(t)
      modifies this
      ensures Valid() && r == Some(old(next)) && old(next) !in old(texts)
      ensures texts == Dropped(old(texts), old(owners), h)[old(next) := t]
      ensures owners == old(owners) - Held(h) + Held(r)
    {
      hide HeapOk;
      hide Encode;
      r := Allocate(data, t);
      Release(h);
    }

    /** `*s` must not be null: the runtime does not check it here. */
    method InsertSymbols(ins: Handle, h: Handle, insertSymbolPos: Int64) returns (r: Handle)
      requires Valid() && Alive(ins) && h.Some? && Owns(h)
      modifies this
      ensures Valid() && owners == old(owners) - Held(h) + Held(r)
      ensures if ins.Some?
              then r == Some(old(next)) && old(next) !in old(texts) &&
                   texts == Dropped(old(texts), old(owners), h)[old(next) :=
                     InsertText(old(texts)[h.value], old(texts)[ins.value], insertSymbolPos)]
              else r == h && texts == old(texts)
    {
      hide HeapOk;
      hide Encode, Offset;
      if ins.None? { return h; }
      LiveCell(cells, next, texts, owners, h.value);
      EnsureIndex(h.value);
      ghost var t := texts[h.value];
      var cell := cells[h.value];
      var pos := insertSymbolPos;
      if pos < 1 { pos := 1; }
      if pos > cell.symbols + 1 { pos := cell.symbols + 1; }
      LiveCell(cells, next, texts, owners, ins.value);
      var data := DataWith(cell, t, cells[ins.value].data, texts[ins.value], pos - 1);
      r := Replaced(h, data, t[..pos - 1] + texts[ins.value] + t[pos - 1..]);
    }

    /**
     The string with one symbol replaced, as a handle of its own.  With no other owner and a
     symbol of the same length the bytes are changed in place and the same string is returned;
     otherwise it is a new string.  No string but a singly owned `h` changes.
     */
    method ReplaceSym(h: Handle, c: CodePoint, symIdx: Int64) returns (r: Handle)
      requires Valid() && Alive(h)
      modifies this
      ensures Valid() && owners == old(owners) + Held(r)
      ensures h.None? ==> r.None? && texts == old(texts)
      ensures h.Some? ==> r.Some? && r.value in texts && texts[r.value] == ReplaceText(old(texts)[h.value], c, symIdx)
      ensures h.Some? ==> r == h || r.value !in old(texts)
      ensures texts.Keys == old(texts).Keys + (if r.Some? then {r.value} else {})
      ensures forall a :: a in old(texts) && (Some(a) != h || old(owners)[a] > 1) ==> texts[a] == old(texts)[a]
    {
      hide HeapOk;
      hide Encode, Offset, Symbol, CellOk;
      if h.None? { return None; }
      EnsureIndex(h.value);
      ghost var t := texts[h.value];
      var cell := cells[h.value];
      assert CellOk(cell, t);
      Indexed(cell, t);
      if symIdx < 1 || symIdx > cell.symbols {
        Retain(h);
        return h;
      }
      var startByte, endByte := cell.indices.value[symIdx - 1], cell.indices.value[symIdx];
      var sym := Symbol(c);
      ReplacedBytes(t, c, symIdx - 1);
      var data := cell.data[..startByte] + sym + cell.data[endByte..];
      if endByte - startByte == |sym| && cell.rc == 1 {
        ReplacedCell(cell, t, c, symIdx - 1, data);
        UpdateKeeps(cells, next, texts, owners, h.value, cell.(data := data), t[symIdx - 1 := c]);
        cells := cells[h.value := cell.(data := data)];
        texts := texts[h.value := t[symIdx - 1 := c]];
        Retain(h);
        return h;
      }
      r := Allocate(data, t[symIdx - 1 := c]);
    }

    /** `dest = src`: a borrowed source is retained first, so assigning a string to itself is safe. */
    method AssignFromStr(dest: Handle, src: Handle, borrowed: bool) returns (r: Handle)
      requires Valid() && Owns(dest) && Alive(src)
      requires !borrowed ==> Owns(src) && (dest.Some? && dest == src ==> owners[dest.value] > 1)
      modifies this
      ensures Valid() && r == src && Alive(r) && Owns(r)
      ensures owners == old(owners) + (if borrowed then Held(src) else multiset{}) - Held(dest)
      ensures texts == Dropped(old(texts), old(owners) + (if borrowed then Held(src) else multiset{}), dest)
      ensures src.Some? ==> texts[src.value] == old(texts)[src.value]
    {
      hide HeapOk, CellOk;
      if src.Some? { LiveCell(cells, next, texts, owners, src.value); }
      if borrowed {
        Retain(src);
      } else {
        assert owners + multiset{} == owners;
      }
      SourceStays(texts, owners, dest, src);
      Release(dest);
      return src;
    }

    /** Releasing one owner of `dest` leaves a source that has an owner of its own. */
    static lemma SourceStays(texts: map<nat, Text>, owners: multiset<nat>, dest: Handle, src: Handle)
      requires src.Some? ==> src.value in texts && owners[src.value] > 0
      requires src.Some? && dest == src ==> owners[src.value] > 1
      ensures src.Some? ==> src.value in Dropped(texts, owners, dest) && Dropped(texts, owners, dest)[src.value] == texts[src.value]
      ensures src.Some? ==> (owners - Held(dest))[src.value] > 0
    {
    }
  }

  lemma Indexed(c: Cell, t: Text)
    requires CellOk(c, t) && c.indices.Some?
    ensures c.data == Encode(t) && c.indices.value == Offsets(t) && c.symbols == |t|
  {
  }

  method DataWithout(cell: Cell, ghost t: Text, from: nat, to: nat) returns (data: seq<Byte>)
    requires CellOk(cell, t) && cell.indices.Some? && from <= to <= cell.symbols
    ensures data == Encode(t[..from] + t[to..])
  {
    hide Encode, Offset;
    DeletedBytes(t, from, to);
    data := cell.data[..cell.indices.value[from]] + cell.data[cell.indices.value[to]..];
  }

  method DataWith(cell: Cell, ghost t: Text, ins: seq<Byte>, ghost u: Text, at: nat) returns (data: seq<Byte>)
    requires CellOk(cell, t) && cell.indices.Some? && ins == Encode(u) && at <= cell.symbols
    ensures data == Encode(t[..at] + u + t[at..])
  {
    hide Encode, Offset;
    InsertedBytes(t, u, at);
    var byte := cell.indices.value[at];
    data := cell.data[..byte] + ins + cell.data[byte..];
  }

  /** The old index still fits after an in-place replacement. */
  lemma ReplacedCell(cell: Cell, t: Text, c: CodePoint, i: nat, data: seq<Byte>)
    requires CellOk(cell, t) && i < |t| && |Symbol(c)| == |Symbol(t[i])| && data == Encode(t[i := c])
    ensures CellOk(cell.(data := data), t[i := c])
  {
    hide Encode, Offset, Symbol;
    SameOffsets(t, c, i);
  }
}
