/**
 The symbol object cache as a protocol between processes that share a directory.  Every
 file operation of `Open` and `Register` is a step of its own; steps of different processes
 interleave, operations may fail, and a process may die between any two of its steps.
 An object file is the set of symbols it defines.
 */
module CacheProtocol {
  import opened CacheText

  datatype Disk = Disk(
    meta: string,                          // text of the metadata file
    metaTmp: string,                       // its temporary, whatever is left in it
    objects: map<string, set<string>>,     // installed object files
    temps: map<string, set<string>>)       // temporary object files

  datatype Kind = Opening | Registering(symbols: set<string>)

  datatype Result = Opened | Installed | AlreadyPresent | Failed

  /** Where an operation stands; all phases from `Locked` to `Leaving` hold the directory lock. */
  datatype Phase =
    | Waiting
    | Locked
    | Read(m: SymMap)
    | TmpCreated(m: SymMap, file: string, tmp: string)
    | TmpWritten(m: SymMap, file: string, tmp: string)
    | ObjectInstalled(m: SymMap, file: string)
    | MetaStarted(m: SymMap, file: string)
    | MetaWritten(m: SymMap, file: string)
    | MetaInstalled(m: SymMap, file: string)
    | Undoing(file: string)
    | Leaving(result: Result)
    | Over(result: Result)

  datatype Op = Op(client: nat, kind: Kind, phase: Phase)

  datatype Lock = Free | HeldBy(op: nat)

  /** `snapshots` holds the map that each open cache keeps in memory. */
  datatype State = State(disk: Disk, lock: Lock, ops: map<nat, Op>, snapshots: map<nat, SymMap>)

  predicate Holding(p: Phase) { !p.Waiting? && !p.Over? }

  /** The map on disk. */
  function Mapped(d: Disk): SymMap { ParseMeta(d.meta) }

  function AddAll(m: SymMap, symbols: set<string>, file: string): (r: SymMap)
    ensures forall k :: k in r <==> k in m || k in symbols
    ensures forall k :: k in r ==> r[k] == if k in symbols then file else m[k]
  {
    m + map k | k in symbols :: file
  }

  // ---------- steps ----------

  predicate Advance(s: State, t: State, o: nat, phase: Phase) {
    && o in s.ops
    && t.ops == s.ops[o := s.ops[o].(phase := phase)]
  }

  predicate SameRest(s: State, t: State) { t.lock == s.lock && t.snapshots == s.snapshots }

  /** A process begins an operation.  Symbols are names that the metadata format can hold. */
  predicate Begin(s: State, t: State, o: nat, client: nat, kind: Kind) {
    && o !in s.ops
    && (kind.Opening? ==> client !in s.snapshots)
    && (kind.Registering? ==> client in s.snapshots && forall k :: k in kind.symbols ==> CleanName(k))
    && t == s.(ops := s.ops[o := Op(client, kind, Waiting)])
  }

  predicate TakeLock(s: State, t: State, o: nat) {
    && o in s.ops && s.ops[o].phase.Waiting? && s.lock.Free?
    && t.lock == HeldBy(o) && Advance(s, t, o, Locked)
    && t.disk == s.disk && t.snapshots == s.snapshots
  }

  predicate LockFails(s: State, t: State, o: nat) {
    && o in s.ops && s.ops[o].phase.Waiting?
    && Advance(s, t, o, Over(Failed)) && SameRest(s, t) && t.disk == s.disk
  }

  predicate ReadMap(s: State, t: State, o: nat) {
    && o in s.ops && s.ops[o].phase.Locked?
    && Advance(s, t, o, Read(Mapped(s.disk))) && SameRest(s, t) && t.disk == s.disk
  }

  predicate Publish(s: State, t: State, o: nat, m: SymMap, result: Result) {
    && o in s.ops
    && t.snapshots == s.snapshots[s.ops[o].client := m]
    && Advance(s, t, o, Leaving(result)) && t.lock == s.lock && t.disk == s.disk
  }

  predicate FinishOpen(s: State, t: State, o: nat) {
    && o in s.ops && s.ops[o].phase.Read? && s.ops[o].kind.Opening?
    && Publish(s, t, o, s.ops[o].phase.m, Opened)
  }

  /** Some symbol is already there: take the map over and discard the object. */
  predicate FindPresent(s: State, t: State, o: nat) {
    && o in s.ops && s.ops[o].phase.Read? && s.ops[o].kind.Registering?
    && (exists k :: k in s.ops[o].kind.symbols && k in s.ops[o].phase.m)
    && Publish(s, t, o, s.ops[o].phase.m, AlreadyPresent)
  }

  ghost predicate CreateTmp(s: State, t: State, o: nat, v: nat, tmp: string) {
    && o in s.ops && s.ops[o].phase.Read? && s.ops[o].kind.Registering?
    && var m := s.ops[o].phase.m;
    && (forall k :: k in s.ops[o].kind.symbols ==> k !in m)
    && IsNextVersion(m, v) && tmp !in s.disk.temps
    && t.disk == s.disk.(temps := s.disk.temps[tmp := {}])
    && Advance(s, t, o, TmpCreated(m, FileName(v), tmp)) && SameRest(s, t)
  }

  predicate CreateTmpFails(s: State, t: State, o: nat) {
    && o in s.ops && s.ops[o].phase.Read? && s.ops[o].kind.Registering?
    && Advance(s, t, o, Leaving(Failed)) && SameRest(s, t) && t.disk == s.disk
  }

  predicate WriteTmp(s: State, t: State, o: nat) {
    && o in s.ops && s.ops[o].phase.TmpCreated? && s.ops[o].kind.Registering?
    && var p := s.ops[o].phase;
    && t.disk == s.disk.(temps := s.disk.temps[p.tmp := s.ops[o].kind.symbols])
    && Advance(s, t, o, TmpWritten(p.m, p.file, p.tmp)) && SameRest(s, t)
  }

  /** Writing or renaming the object failed: its temporary is removed. */
  predicate ObjectFails(s: State, t: State, o: nat) {
    && o in s.ops && (s.ops[o].phase.TmpCreated? || s.ops[o].phase.TmpWritten?)
    && t.disk == s.disk.(temps := s.disk.temps - {s.ops[o].phase.tmp})
    && Advance(s, t, o, Leaving(Failed)) && SameRest(s, t)
  }

  /** The rename replaces whatever had that name. */
  predicate RenameObject(s: State, t: State, o: nat) {
    && o in s.ops && s.ops[o].phase.TmpWritten?
    && var p := s.ops[o].phase;
    && p.tmp in s.disk.temps
    && t.disk == s.disk.(objects := s.disk.objects[p.file := s.disk.temps[p.tmp]], temps := s.disk.temps - {p.tmp})
    && Advance(s, t, o, ObjectInstalled(p.m, p.file)) && SameRest(s, t)
  }

  /** The temporary metadata file is truncated and holds some part of the text. */
  predicate StartMeta(s: State, t: State, o: nat) {
    && o in s.ops && s.ops[o].phase.ObjectInstalled? && s.ops[o].kind.Registering?
    && var p := s.ops[o].phase;
    && t.disk == s.disk.(metaTmp := t.disk.metaTmp)
    && Advance(s, t, o, MetaStarted(AddAll(p.m, s.ops[o].kind.symbols, p.file), p.file)) && SameRest(s, t)
  }

  ghost predicate WriteMeta(s: State, t: State, o: nat, order: seq<Entry>) {
    && o in s.ops && s.ops[o].phase.MetaStarted?
    && Enumerates(order, s.ops[o].phase.m)
    && t.disk == s.disk.(metaTmp := MetaText(order))
    && Advance(s, t, o, MetaWritten(s.ops[o].phase.m, s.ops[o].phase.file)) && SameRest(s, t)
  }

  predicate MetaFails(s: State, t: State, o: nat) {
    && o in s.ops
    && (s.ops[o].phase.ObjectInstalled? || s.ops[o].phase.MetaStarted? || s.ops[o].phase.MetaWritten?)
    && t.disk == s.disk.(metaTmp := t.disk.metaTmp)
    && Advance(s, t, o, Undoing(s.ops[o].phase.file)) && SameRest(s, t)
  }

  /** The object of a failed registration is removed, if that works. */
  predicate Undo(s: State, t: State, o: nat) {
    && o in s.ops && s.ops[o].phase.Undoing?
    && (t.disk == s.disk.(objects := s.disk.objects - {s.ops[o].phase.file}) || t.disk == s.disk)
    && Advance(s, t, o, Leaving(Failed)) && SameRest(s, t)
  }

  predicate RenameMeta(s: State, t: State, o: nat) {
    && o in s.ops && s.ops[o].phase.MetaWritten?
    && t.disk == s.disk.(meta := s.disk.metaTmp)
    && Advance(s, t, o, MetaInstalled(s.ops[o].phase.m, s.ops[o].phase.file)) && SameRest(s, t)
  }

  predicate FinishRegister(s: State, t: State, o: nat) {
    && o in s.ops && s.ops[o].phase.MetaInstalled?
    && Publish(s, t, o, s.ops[o].phase.m, Installed)
  }

  predicate Unlock(s: State, t: State, o: nat) {
    && o in s.ops && s.ops[o].phase.Leaving?
    && t.lock == Free && Advance(s, t, o, Over(s.ops[o].phase.result))
    && t.disk == s.disk && t.snapshots == s.snapshots
  }

  /** A process dies: its operations and its memory are gone, the system frees its lock, files stay as they are. */
  predicate Crash(s: State, t: State, client: nat) {
    && t.disk == s.disk
    && t.ops == (map o | o in s.ops && s.ops[o].client != client :: s.ops[o])
    && t.snapshots == s.snapshots - {client}
    && t.lock == if s.lock.HeldBy? && s.lock.op !in t.ops then Free else s.lock
  }

  ghost predicate OpStep(s: State, t: State, o: nat) {
    || TakeLock(s, t, o) || LockFails(s, t, o) || ReadMap(s, t, o)
    || FinishOpen(s, t, o) || FindPresent(s, t, o)
    || (exists v, tmp :: CreateTmp(s, t, o, v, tmp)) || CreateTmpFails(s, t, o)
    || WriteTmp(s, t, o) || ObjectFails(s, t, o) || RenameObject(s, t, o)
    || StartMeta(s, t, o) || (exists order :: WriteMeta(s, t, o, order)) || MetaFails(s, t, o) || Undo(s, t, o)
    || RenameMeta(s, t, o) || FinishRegister(s, t, o) || Unlock(s, t, o)
  }

  ghost predicate Next(s: State, t: State) {
    || (exists o, client, kind :: Begin(s, t, o, client, kind))
    || (exists o :: OpStep(s, t, o))
    || (exists client :: Crash(s, t, client))
  }

  ghost predicate Init(s: State) {
    s.disk.meta == [] && s.lock == Free && s.ops == map[] && s.snapshots == map[]
  }

  // ---------- the invariant ----------

  /** The symbols mapped to a file. */
  function SymbolsOf(m: SymMap, file: string): (r: set<string>)
    ensures forall k :: k in r <==> k in m && m[k] == file
  {
    set k | k in m && m[k] == file
  }

  ghost predicate Submap(a: SymMap, b: SymMap) {
    forall k :: k in a ==> k in b && b[k] == a[k]
  }

  /** Every mapped object exists and defines exactly the symbols mapped to it. */
  ghost predicate ObjectsMatch(m: SymMap, objects: map<string, set<string>>) {
    forall k :: k in m ==> m[k] in objects && objects[m[k]] == SymbolsOf(m, m[k])
  }

  /** Whoever has one symbol of an object has all of them. */
  ghost predicate Closed(part: SymMap, m: SymMap) {
    Submap(part, m) && forall k :: k in part ==> SymbolsOf(m, part[k]) <= part.Keys
  }

  ghost predicate LockInv(s: State) {
    && (forall o :: o in s.ops ==> (Holding(s.ops[o].phase) <==> s.lock == HeldBy(o)))
    && (s.lock.HeldBy? ==> s.lock.op in s.ops)
  }

  ghost predicate DiskInv(d: Disk) {
    CleanMap(Mapped(d)) && ObjectsMatch(Mapped(d), d.objects)
  }

  ghost predicate SnapshotInv(snapshots: map<nat, SymMap>, m: SymMap) {
    forall c :: c in snapshots ==> Closed(snapshots[c], m)
  }

  /** No mapped object has this name, and none of the symbols is mapped. */
  predicate Unused(m: SymMap, symbols: set<string>, file: string) {
    '\n' !in file && (forall k :: k in m ==> m[k] != file) && (forall k :: k in symbols ==> k !in m)
  }

  predicate Stored(objects: map<string, set<string>>, file: string, symbols: set<string>) {
    file in objects && objects[file] == symbols
  }

  /** What the operation that holds the lock knows about the disk. */
  ghost predicate OpInv(d: Disk, kind: Kind, phase: Phase) {
    var m := Mapped(d);
    match phase
    case Read(n) => n == m
    case TmpCreated(n, file, tmp) => n == m && kind.Registering? && Unused(m, kind.symbols, file) && tmp in d.temps
    case TmpWritten(n, file, tmp) => n == m && kind.Registering? && Unused(m, kind.symbols, file) && Stored(d.temps, tmp, kind.symbols)
    case ObjectInstalled(n, file) => n == m && kind.Registering? && Unused(m, kind.symbols, file) && Stored(d.objects, file, kind.symbols)
    case MetaStarted(n, file) =>
      kind.Registering? && n == AddAll(m, kind.symbols, file) && Unused(m, kind.symbols, file) && Stored(d.objects, file, kind.symbols)
    case MetaWritten(n, file) =>
      kind.Registering? && n == AddAll(m, kind.symbols, file) && Unused(m, kind.symbols, file) && Stored(d.objects, file, kind.symbols) &&
      ParseMeta(d.metaTmp) == n
    case MetaInstalled(n, file) => n == m && kind.Registering? && SymbolsOf(m, file) == kind.symbols
    case Undoing(file) => forall k :: k in m ==> m[k] != file
    case _ => true
  }

  ghost predicate OpsInv(s: State) {
    forall o :: o in s.ops && Holding(s.ops[o].phase) ==> OpInv(s.disk, s.ops[o].kind, s.ops[o].phase)
  }

  ghost predicate CleanKind(kind: Kind) {
    kind.Registering? ==> forall k :: k in kind.symbols ==> CleanName(k)
  }

  ghost predicate NamesInv(s: State) {
    forall o :: o in s.ops ==> CleanKind(s.ops[o].kind)
  }

  ghost predicate Inv(s: State) {
    LockInv(s) && DiskInv(s.disk) && SnapshotInv(s.snapshots, Mapped(s.disk)) && OpsInv(s) && NamesInv(s)
  }

  // ---------- every step keeps it ----------

  /** Steps of the operation that holds the lock need only look at that operation. */
  lemma HolderStep(s: State, t: State, o: nat, phase: Phase)
    requires Inv(s) && o in s.ops && Holding(s.ops[o].phase) && Holding(phase)
    requires Advance(s, t, o, phase) && t.lock == s.lock
    requires DiskInv(t.disk) && SnapshotInv(t.snapshots, Mapped(t.disk)) && OpInv(t.disk, s.ops[o].kind, phase)
    ensures Inv(t)
  {
    hide DiskInv, SnapshotInv, OpInv, CleanKind;
  }

  /** Steps that leave the disk alone and do not concern the lock holder. */
  lemma OutsideStep(s: State, t: State, o: nat, op: Op)
    requires Inv(s) && (o in s.ops ==> !Holding(s.ops[o].phase)) && !Holding(op.phase) && CleanKind(op.kind)
    requires t == s.(ops := s.ops[o := op])
    ensures Inv(t)
  {
    hide DiskInv, SnapshotInv, OpInv, CleanKind;
  }

  lemma LockStep(s: State, t: State, o: nat)
    requires Inv(s) && (TakeLock(s, t, o) || Unlock(s, t, o))
    ensures Inv(t)
  {
    hide DiskInv, SnapshotInv, CleanKind;
  }

  lemma CrashStep(s: State, t: State, client: nat)
    requires Inv(s) && Crash(s, t, client)
    ensures Inv(t)
  {
    hide DiskInv, OpInv, CleanKind, Closed;
  }

  /** The whole map is closed in itself, so it may be published. */
  lemma PublishStep(s: State, t: State, o: nat, m: SymMap, result: Result)
    requires Inv(s) && o in s.ops && Holding(s.ops[o].phase) && m == Mapped(s.disk) && Publish(s, t, o, m, result)
    ensures Inv(t)
  {
    hide DiskInv;
    HolderStep(s, t, o, Leaving(result));
  }

  lemma CreateStep(s: State, t: State, o: nat, v: nat, tmp: string)
    requires Inv(s) && CreateTmp(s, t, o, v, tmp)
    ensures Inv(t)
  {
    hide DiskInv, SnapshotInv;
    var m := s.ops[o].phase.m;
    forall k | k in m
      ensures m[k] != FileName(v)
    {
      NextNameIsFresh(m, v, k);
    }
    FileNameClean(v);
    assert OpInv(s.disk, s.ops[o].kind, s.ops[o].phase);
    assert DiskInv(t.disk) by { SameMapped(s.disk, t.disk); }
    HolderStep(s, t, o, TmpCreated(m, FileName(v), tmp));
  }

  lemma SameMapped(d: Disk, e: Disk)
    requires DiskInv(d) && e.meta == d.meta && e.objects == d.objects
    ensures DiskInv(e)
  {
  }

  lemma TempSteps(s: State, t: State, o: nat)
    requires Inv(s) && (WriteTmp(s, t, o) || ObjectFails(s, t, o) || CreateTmpFails(s, t, o) || ReadMap(s, t, o))
    ensures Inv(t)
  {
    hide DiskInv, SnapshotInv, Unused;
    SameMapped(s.disk, t.disk);
    assert OpInv(s.disk, s.ops[o].kind, s.ops[o].phase);
    HolderStep(s, t, o, t.ops[o].phase);
  }

  /** Replacing or removing a file that is not mapped. */
  lemma UnmappedObject(d: Disk, e: Disk, file: string)
    requires DiskInv(d) && e.meta == d.meta
    requires forall k :: k in Mapped(d) ==> Mapped(d)[k] != file
    requires forall f :: f in d.objects && f != file ==> f in e.objects && e.objects[f] == d.objects[f]
    ensures DiskInv(e)
  {
  }

  lemma ObjectStep(s: State, t: State, o: nat)
    requires Inv(s) && (RenameObject(s, t, o) || Undo(s, t, o))
    ensures Inv(t)
  {
    hide DiskInv, SnapshotInv;
    assert OpInv(s.disk, s.ops[o].kind, s.ops[o].phase);
    UnmappedObject(s.disk, t.disk, s.ops[o].phase.file);
    HolderStep(s, t, o, t.ops[o].phase);
  }

  lemma MetaTmpStep(s: State, t: State, o: nat)
    requires Inv(s) && (StartMeta(s, t, o) || MetaFails(s, t, o))
    ensures Inv(t)
  {
    hide DiskInv, SnapshotInv;
    assert OpInv(s.disk, s.ops[o].kind, s.ops[o].phase);
    SameMapped(s.disk, t.disk);
    HolderStep(s, t, o, t.ops[o].phase);
  }

  lemma WriteMetaStep(s: State, t: State, o: nat, order: seq<Entry>)
    requires Inv(s) && WriteMeta(s, t, o, order)
    ensures Inv(t)
  {
    hide SnapshotInv;
    assert OpInv(s.disk, s.ops[o].kind, s.ops[o].phase);
    assert CleanKind(s.ops[o].kind);
    var m := s.ops[o].phase.m;
    assert CleanMap(m);
    MetaRoundTrip(order, m);
    SameMapped(s.disk, t.disk);
    HolderStep(s, t, o, t.ops[o].phase);
  }

  /** The moment the new symbols become visible. */
  lemma GrowMapped(d: Disk, e: Disk, symbols: set<string>, file: string)
    requires DiskInv(d) && Unused(Mapped(d), symbols, file) && Stored(d.objects, file, symbols)
    requires forall k :: k in symbols ==> CleanName(k)
    requires Mapped(e) == AddAll(Mapped(d), symbols, file) && e.objects == d.objects
    ensures DiskInv(e) && Submap(Mapped(d), Mapped(e))
    ensures SymbolsOf(Mapped(e), file) == symbols
    ensures forall k :: k in Mapped(d) ==> SymbolsOf(Mapped(e), Mapped(d)[k]) == SymbolsOf(Mapped(d), Mapped(d)[k])
  {
    var m, n := Mapped(d), Mapped(e);
    forall k | k in n
      ensures n[k] in e.objects && e.objects[n[k]] == SymbolsOf(n, n[k])
    {
      if k in symbols { assert SymbolsOf(n, file) == symbols; } else { assert SymbolsOf(n, n[k]) == SymbolsOf(m, m[k]); }
    }
  }

  lemma RenameMetaStep(s: State, t: State, o: nat)
    requires Inv(s) && RenameMeta(s, t, o)
    ensures Inv(t)
  {
    hide DiskInv;
    assert OpInv(s.disk, s.ops[o].kind, s.ops[o].phase);
    assert CleanKind(s.ops[o].kind);
    var symbols, file := s.ops[o].kind.symbols, s.ops[o].phase.file;
    GrowMapped(s.disk, t.disk, symbols, file);
    forall c | c in t.snapshots
      ensures Closed(t.snapshots[c], Mapped(t.disk))
    {
      assert Closed(s.snapshots[c], Mapped(s.disk));
    }
    HolderStep(s, t, o, t.ops[o].phase);
  }

  lemma FinishStep(s: State, t: State, o: nat)
    requires Inv(s) && (FinishOpen(s, t, o) || FindPresent(s, t, o) || FinishRegister(s, t, o))
    ensures Inv(t)
  {
    hide DiskInv, SnapshotInv, Publish;
    assert OpInv(s.disk, s.ops[o].kind, s.ops[o].phase);
    PublishStep(s, t, o, s.ops[o].phase.m, if FinishOpen(s, t, o) then Opened else if FindPresent(s, t, o) then AlreadyPresent else Installed);
  }

  lemma OpStepKeeps(s: State, t: State, o: nat)
    requires Inv(s) && OpStep(s, t, o)
    ensures Inv(t)
  {
    hide Inv;
    if v, tmp :| CreateTmp(s, t, o, v, tmp) {
      CreateStep(s, t, o, v, tmp);
    } else if order :| WriteMeta(s, t, o, order) {
      WriteMetaStep(s, t, o, order);
    } else {
      SimpleSteps(s, t, o);
    }
  }

  lemma SimpleSteps(s: State, t: State, o: nat)
    requires Inv(s) && OpStep(s, t, o)
    requires forall v, tmp :: !CreateTmp(s, t, o, v, tmp)
    requires forall order :: !WriteMeta(s, t, o, order)
    ensures Inv(t)
  {
    hide Inv, TakeLock, Unlock, FinishOpen, FindPresent, FinishRegister, RenameMeta, StartMeta, MetaFails, RenameObject, Undo,
      WriteTmp, ObjectFails, CreateTmpFails, ReadMap;
    if TakeLock(s, t, o) || Unlock(s, t, o) { LockStep(s, t, o); }
    else if FinishOpen(s, t, o) || FindPresent(s, t, o) || FinishRegister(s, t, o) { FinishStep(s, t, o); }
    else if RenameMeta(s, t, o) { RenameMetaStep(s, t, o); }
    else if StartMeta(s, t, o) || MetaFails(s, t, o) { MetaTmpStep(s, t, o); }
    else if RenameObject(s, t, o) || Undo(s, t, o) { ObjectStep(s, t, o); }
    else if LockFails(s, t, o) { LockFailsStep(s, t, o); }
    else { TempSteps(s, t, o); }
  }

  lemma LockFailsStep(s: State, t: State, o: nat)
    requires Inv(s) && LockFails(s, t, o)
    ensures Inv(t)
  {
    OutsideStep(s, t, o, t.ops[o]);
  }

  /** Every step of every process, including its death, keeps the invariant. */
  lemma StepKeepsInv(s: State, t: State)
    requires Inv(s) && Next(s, t)
    ensures Inv(t)
  {
    hide Inv, OpStep;
    if o :| OpStep(s, t, o) {
      OpStepKeeps(s, t, o);
    } else if client :| Crash(s, t, client) {
      CrashStep(s, t, client);
    } else {
      var o, client, kind :| Begin(s, t, o, client, kind);
      OutsideStep(s, t, o, Op(client, kind, Waiting));
    }
  }
}
