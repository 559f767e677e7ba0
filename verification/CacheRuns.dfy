/**
 What holds over every run of the cache protocol, and what it means for linking: the
 objects a compilation was told to load, together with the ones it compiled itself, define
 each required symbol exactly once, whatever other processes do in the meantime.
 */
module CacheRuns {
  import opened CacheText
  import opened CacheProtocol

  ghost predicate Trace(states: seq<State>) {
    && states != [] && Init(states[0])
    && forall i :: 0 <= i < |states| - 1 ==> Next(states[i], states[i + 1])
  }

  lemma {:induction false} TraceInv(states: seq<State>, i: nat)
    requires Trace(states) && i < |states|
    ensures Inv(states[i])
    decreases i
  {
    hide Next, Inv;
    if i == 0 {
      StartInv(states[0]);
    } else {
      TraceInv(states, i - 1);
      StepKeepsInv(states[i - 1], states[i]);
    }
  }

  lemma StartInv(s: State)
    requires Init(s)
    ensures Inv(s)
  {
  }

  // ---------- nothing mapped is lost or changed ----------

  ghost predicate Kept(d: Disk, e: Disk) {
    && Submap(Mapped(d), Mapped(e))
    && forall k :: k in Mapped(d) ==>
         var f := Mapped(d)[k];
         f in d.objects && f in e.objects && e.objects[f] == d.objects[f]
  }

  ghost predicate SnapshotsGrow(a: map<nat, SymMap>, b: map<nat, SymMap>) {
    forall c :: c in a && c in b ==> Submap(a[c], b[c])
  }

  lemma KeptSame(d: Disk, e: Disk)
    requires DiskInv(d) && e.meta == d.meta && e.objects == d.objects
    ensures Kept(d, e)
  {
  }

  lemma ObjectStepKept(s: State, t: State, o: nat)
    requires Inv(s) && (RenameObject(s, t, o) || Undo(s, t, o))
    ensures Kept(s.disk, t.disk) && t.snapshots == s.snapshots
  {
    hide SnapshotInv;
    assert OpInv(s.disk, s.ops[o].kind, s.ops[o].phase);
  }

  lemma RenameMetaKept(s: State, t: State, o: nat)
    requires Inv(s) && RenameMeta(s, t, o)
    ensures Kept(s.disk, t.disk) && t.snapshots == s.snapshots
  {
    hide SnapshotInv;
    assert OpInv(s.disk, s.ops[o].kind, s.ops[o].phase);
  }

  lemma PublishKept(s: State, t: State, o: nat)
    requires Inv(s) && (FinishOpen(s, t, o) || FindPresent(s, t, o) || FinishRegister(s, t, o))
    ensures Kept(s.disk, t.disk) && SnapshotsGrow(s.snapshots, t.snapshots)
  {
    assert OpInv(s.disk, s.ops[o].kind, s.ops[o].phase);
  }

  lemma OtherKept(s: State, t: State)
    requires Inv(s) && t.disk.meta == s.disk.meta && t.disk.objects == s.disk.objects
    requires forall c :: c in t.snapshots ==> c in s.snapshots && t.snapshots[c] == s.snapshots[c]
    ensures Kept(s.disk, t.disk) && SnapshotsGrow(s.snapshots, t.snapshots)
  {
    KeptSame(s.disk, t.disk);
  }

  /** One step never unmaps or remaps a symbol, never touches a mapped object, and memory never runs backwards. */
  lemma StepKeepsMapped(s: State, t: State)
    requires Inv(s) && Next(s, t)
    ensures Kept(s.disk, t.disk) && SnapshotsGrow(s.snapshots, t.snapshots)
  {
    hide Inv, Kept, SnapshotsGrow, RenameObject, Undo, RenameMeta, FinishOpen, FindPresent, FinishRegister;
    if o :| RenameObject(s, t, o) || Undo(s, t, o) {
      ObjectStepKept(s, t, o);
      assert SnapshotsGrow(s.snapshots, t.snapshots) by { GrowSame(s.snapshots); }
    } else if o :| RenameMeta(s, t, o) {
      RenameMetaKept(s, t, o);
      assert SnapshotsGrow(s.snapshots, t.snapshots) by { GrowSame(s.snapshots); }
    } else if o :| FinishOpen(s, t, o) || FindPresent(s, t, o) || FinishRegister(s, t, o) {
      PublishKept(s, t, o);
    } else {
      OtherKept(s, t);
    }
  }

  lemma GrowSame(a: map<nat, SymMap>)
    ensures SnapshotsGrow(a, a)
  {
  }

  lemma KeptTrans(d: Disk, e: Disk, f: Disk)
    requires Kept(d, e) && Kept(e, f)
    ensures Kept(d, f)
  {
  }

  /**
   Safety over whole runs: from any moment to any later one the map on disk only grows and
   never remaps a symbol, and every mapped object stays, byte for byte.
   */
  lemma {:induction false} MappedForever(states: seq<State>, i: nat, j: nat)
    requires Trace(states) && i <= j < |states|
    ensures Kept(states[i].disk, states[j].disk)
    decreases j
  {
    hide Next, Inv, Kept, Trace;
    TraceInv(states, j);
    if i == j {
      assert Kept(states[i].disk, states[j].disk) by { InvKept(states[i]); }
    } else {
      MappedForever(states, i, j - 1);
      TraceInv(states, j - 1);
      assert Next(states[j - 1], states[j]) by { TraceNext(states, j - 1); }
      StepKeepsMapped(states[j - 1], states[j]);
      KeptTrans(states[i].disk, states[j - 1].disk, states[j].disk);
    }
  }

  lemma TraceNext(states: seq<State>, i: nat)
    requires Trace(states) && i + 1 < |states|
    ensures Next(states[i], states[i + 1])
  {
    hide Next;
  }

  lemma InvKept(s: State)
    requires Inv(s)
    ensures Kept(s.disk, s.disk)
  {
    KeptSame(s.disk, s.disk);
  }

  // ---------- what a result means ----------

  /** The symbols are mapped to one object that defines them and nothing else. */
  ghost predicate OwnObject(d: Disk, symbols: set<string>) {
    forall k :: k in symbols ==>
      k in Mapped(d) && SymbolsOf(Mapped(d), Mapped(d)[k]) == symbols && Stored(d.objects, Mapped(d)[k], symbols)
  }

  ghost predicate ResultOk(d: Disk, op: Op) {
    match op.phase
    case Leaving(r) => MeansOk(d, op.kind, r)
    case Over(r) => MeansOk(d, op.kind, r)
    case _ => true
  }

  ghost predicate MeansOk(d: Disk, kind: Kind, r: Result) {
    && (r.Installed? ==> kind.Registering? && OwnObject(d, kind.symbols))
    && (r.AlreadyPresent? ==> kind.Registering? && exists k :: k in kind.symbols && k in Mapped(d))
  }

  ghost predicate ResultsInv(s: State) {
    forall o :: o in s.ops ==> ResultOk(s.disk, s.ops[o])
  }

  lemma OwnObjectKept(d: Disk, e: Disk, symbols: set<string>)
    requires DiskInv(d) && DiskInv(e) && Kept(d, e) && OwnObject(d, symbols)
    ensures OwnObject(e, symbols)
  {
  }

  lemma ResultKept(d: Disk, e: Disk, op: Op)
    requires DiskInv(d) && DiskInv(e) && Kept(d, e) && ResultOk(d, op)
    ensures ResultOk(e, op)
  {
    hide DiskInv, OwnObject;
    if op.kind.Registering? && OwnObject(d, op.kind.symbols) { OwnObjectKept(d, e, op.kind.symbols); }
    assert forall k :: k in Mapped(d) ==> k in Mapped(e);
  }

  lemma NewResult(s: State, t: State, o: nat)
    requires Inv(s) && Inv(t) && (FinishRegister(s, t, o) || FindPresent(s, t, o))
    ensures ResultOk(t.disk, t.ops[o])
  {
    hide SnapshotInv, LockInv;
    assert OpInv(s.disk, s.ops[o].kind, s.ops[o].phase);
  }

  /**
   A registration that reports success has its symbols mapped to its own object; one that
   reports another's has lost at least one symbol to it.  Both stay true.
   */
  lemma StepKeepsResults(s: State, t: State)
    requires Inv(s) && ResultsInv(s) && Next(s, t)
    ensures ResultsInv(t)
  {
    hide Inv, Kept, FinishRegister, FindPresent, ResultOk, Next;
    StepKeepsInv(s, t);
    StepKeepsMapped(s, t);
    forall o | o in t.ops
      ensures ResultOk(t.disk, t.ops[o])
    {
      if FinishRegister(s, t, o) || FindPresent(s, t, o) {
        NewResult(s, t, o);
      } else {
        OldResult(s, t, o);
      }
    }
  }

  lemma OldResult(s: State, t: State, o: nat)
    requires Inv(s) && Inv(t) && Kept(s.disk, t.disk) && ResultsInv(s) && Next(s, t) && o in t.ops
    requires !FinishRegister(s, t, o) && !FindPresent(s, t, o)
    ensures ResultOk(t.disk, t.ops[o])
  {
    hide Kept, MeansOk, OpInv, SnapshotInv, LockInv, DiskInv, OpsInv, NamesInv;
    if o in s.ops && (t.ops[o] == s.ops[o] || (s.ops[o].phase.Leaving? && Unlock(s, t, o))) {
      ResultKept(s.disk, t.disk, s.ops[o]);
    } else {
      NoResultYet(s, t, o);
    }
  }

  lemma NoResultYet(s: State, t: State, o: nat)
    requires Next(s, t) && o in t.ops && !FinishRegister(s, t, o) && !FindPresent(s, t, o)
    requires o in s.ops ==> t.ops[o] != s.ops[o] && !(s.ops[o].phase.Leaving? && Unlock(s, t, o))
    ensures ResultOk(t.disk, t.ops[o])
  {
    hide MeansOk, ParseMeta, Enumerates, IsNextVersion, AddAll;
    if o2 :| OpStep(s, t, o2) {
      StepResult(s, t, o, o2);
    }
  }

  lemma StepResult(s: State, t: State, o: nat, o2: nat)
    requires OpStep(s, t, o2) && o in t.ops && !FinishRegister(s, t, o) && !FindPresent(s, t, o)
    requires o in s.ops ==> t.ops[o] != s.ops[o] && !(s.ops[o].phase.Leaving? && Unlock(s, t, o))
    ensures ResultOk(t.disk, t.ops[o])
  {
    hide OwnObject, ParseMeta, Enumerates, IsNextVersion, AddAll, CleanKind;
  }

  /** In every state of every run, what finished registrations reported is true. */
  lemma {:induction false} ResultsHold(states: seq<State>, i: nat)
    requires Trace(states) && i < |states|
    ensures ResultsInv(states[i])
    decreases i
  {
    hide Next, Inv, ResultOk, Trace;
    if i == 0 {
      assert states[0].ops == map[] by { TraceInit(states); }
    } else {
      ResultsHold(states, i - 1);
      TraceInv(states, i - 1);
      TraceNext(states, i - 1);
      StepKeepsResults(states[i - 1], states[i]);
    }
  }

  lemma TraceInit(states: seq<State>)
    requires Trace(states)
    ensures Init(states[0])
  {
  }

  // ---------- the link plan ----------

  /** The files to load, in order of first need, each once. */
  function HitFiles(snapshot: SymMap, required: seq<string>): seq<string> {
    if required == [] then [] else
    var files, sym := HitFiles(snapshot, required[..|required| - 1]), required[|required| - 1];
    if sym in snapshot && snapshot[sym] !in files then files + [snapshot[sym]] else files
  }

  /** The required symbols that are not cached, each once. */
  function Misses(snapshot: SymMap, required: seq<string>): seq<string> {
    if required == [] then [] else
    var misses, sym := Misses(snapshot, required[..|required| - 1]), required[|required| - 1];
    if sym !in snapshot && sym !in misses then misses + [sym] else misses
  }

  method Resolve(snapshot: SymMap, required: seq<string>) returns (objectFiles: seq<string>, misses: seq<string>)
    ensures objectFiles == HitFiles(snapshot, required) && misses == Misses(snapshot, required)
  {
    objectFiles, misses := [], [];
    var seenObj, seenMiss: set<string> := {}, {};
    for i := 0 to |required|
      invariant objectFiles == HitFiles(snapshot, required[..i]) && misses == Misses(snapshot, required[..i])
      invariant forall f :: f in seenObj <==> f in objectFiles
      invariant forall k :: k in seenMiss <==> k in misses
    {
      var sym := required[i];
      assert required[..i + 1][..i] == required[..i];
      if sym !in snapshot {
        if sym !in seenMiss {
          seenMiss := seenMiss + {sym};
          misses := misses + [sym];
        }
      } else if snapshot[sym] !in seenObj {
        seenObj := seenObj + {snapshot[sym]};
        objectFiles := objectFiles + [snapshot[sym]];
      }
    }
    assert required[..|required|] == required;
  }

  ghost predicate NoDuplicates(s: seq<string>) {
    forall i, j :: 0 <= i < j < |s| ==> s[i] != s[j]
  }

  lemma {:induction false} ResolvedSets(snapshot: SymMap, required: seq<string>)
    ensures NoDuplicates(HitFiles(snapshot, required)) && NoDuplicates(Misses(snapshot, required))
    ensures forall f :: f in HitFiles(snapshot, required) <==> exists k :: k in required && k in snapshot && snapshot[k] == f
    ensures forall k :: k in Misses(snapshot, required) <==> k in required && k !in snapshot
    decreases |required|
  {
    if required != [] {
      var front, sym := required[..|required| - 1], required[|required| - 1];
      ResolvedSets(snapshot, front);
      assert forall k :: k in required <==> k in front || k == sym;
    }
  }

  /** Position `i` is the first that asks for symbol `k`. */
  ghost predicate AsksFirst(required: seq<string>, i: nat, k: string) {
    i < |required| && required[i] == k && forall j :: 0 <= j < i ==> required[j] != k
  }

  predicate InFile(snapshot: SymMap, k: string, f: string) { k in snapshot && snapshot[k] == f }

  /** Position `i` is the first whose symbol is in file `f`. */
  ghost predicate NeedsFirst(snapshot: SymMap, required: seq<string>, i: nat, f: string) {
    i < |required| && InFile(snapshot, required[i], f) && forall j :: 0 <= j < i ==> !InFile(snapshot, required[j], f)
  }

  /** Misses come in the order in which they are first asked for. */
  lemma {:induction false} MissOrder(snapshot: SymMap, required: seq<string>, a: nat, b: nat, i: nat, j: nat)
    requires a < b < |Misses(snapshot, required)|
    requires AsksFirst(required, i, Misses(snapshot, required)[a]) && AsksFirst(required, j, Misses(snapshot, required)[b])
    ensures i < j
    decreases |required|
  {
    var n := |required| - 1;
    var front := required[..n];
    var before := Misses(snapshot, front);
    ResolvedSets(snapshot, front);
    assert before[a] in before;
    var p :| 0 <= p < n && front[p] == before[a];
    assert i < n;
    if b < |before| {
      assert before[b] in before;
      var q :| 0 <= q < n && front[q] == before[b];
      assert j < n;
      MissOrder(snapshot, front, a, b, i, j);
    }
  }

  /** So do the files. */
  lemma {:induction false} FileOrder(snapshot: SymMap, required: seq<string>, a: nat, b: nat, i: nat, j: nat)
    requires a < b < |HitFiles(snapshot, required)|
    requires NeedsFirst(snapshot, required, i, HitFiles(snapshot, required)[a])
    requires NeedsFirst(snapshot, required, j, HitFiles(snapshot, required)[b])
    ensures i < j
    decreases |required|
  {
    var n := |required| - 1;
    var front := required[..n];
    var before := HitFiles(snapshot, front);
    ResolvedSets(snapshot, front);
    assert before[a] in before;
    var p :| 0 <= p < n && InFile(snapshot, front[p], before[a]);
    assert i < n;
    if b < |before| {
      assert before[b] in before;
      var q :| 0 <= q < n && InFile(snapshot, front[q], before[b]);
      assert j < n;
      FileOrder(snapshot, front, a, b, i, j);
    }
  }

  /** How many of the objects define a symbol. */
  function Definers(objects: seq<set<string>>, sym: string): nat {
    if objects == [] then 0
    else Definers(objects[..|objects| - 1], sym) + if sym in objects[|objects| - 1] then 1 else 0
  }

  /** What is loaded from disk. */
  function LoadedObjects(d: Disk, files: seq<string>): (r: seq<set<string>>)
    ensures |r| == |files|
  {
    seq(|files|, i requires 0 <= i < |files| => if files[i] in d.objects then d.objects[files[i]] else {})
  }

  /** What was compiled for the misses: one object a symbol. */
  function Blobs(misses: seq<string>): (r: seq<set<string>>)
    ensures |r| == |misses|
  {
    seq(|misses|, i requires 0 <= i < |misses| => {misses[i]})
  }

  lemma {:induction false} CountDefiners(objects: seq<set<string>>, names: seq<string>, sym: string, name: string)
    requires |objects| == |names| && NoDuplicates(names)
    requires forall i :: 0 <= i < |names| ==> (sym in objects[i] <==> names[i] == name)
    ensures Definers(objects, sym) == if name in names then 1 else 0
    decreases |names|
  {
    if names != [] {
      var n := |names| - 1;
      CountDefiners(objects[..n], names[..n], sym, name);
      assert forall k :: k in names <==> k in names[..n] || k == names[n];
    }
  }

  lemma {:induction false} NoDefiners(objects: seq<set<string>>, sym: string)
    requires forall i :: 0 <= i < |objects| ==> sym !in objects[i]
    ensures Definers(objects, sym) == 0
    decreases |objects|
  {
    if objects != [] { NoDefiners(objects[..|objects| - 1], sym); }
  }

  /** A loaded file defines what the map mapped to it when the plan was made. */
  lemma LoadedDefines(d0: Disk, d: Disk, snapshot: SymMap, required: seq<string>, i: nat, sym: string)
    requires DiskInv(d0) && Closed(snapshot, Mapped(d0)) && Kept(d0, d) && i < |HitFiles(snapshot, required)|
    ensures var f := HitFiles(snapshot, required)[i];
            f in d.objects && (sym in d.objects[f] <==> sym in snapshot && snapshot[sym] == f)
  {
    ResolvedSets(snapshot, required);
    var f := HitFiles(snapshot, required)[i];
    assert f in HitFiles(snapshot, required);
    var k :| k in required && k in snapshot && snapshot[k] == f;
    assert sym in SymbolsOf(Mapped(d0), f) <==> sym in Mapped(d0) && Mapped(d0)[sym] == f;
  }

  /** The hit files and the compiled misses define nothing twice and everything required. */
  lemma PlanDefinesOnce(d0: Disk, d: Disk, snapshot: SymMap, required: seq<string>, sym: string)
    requires DiskInv(d0) && Closed(snapshot, Mapped(d0)) && Kept(d0, d)
    ensures var hits := Definers(LoadedObjects(d, HitFiles(snapshot, required)), sym);
            var compiled := Definers(Blobs(Misses(snapshot, required)), sym);
            hits + compiled <= 1 && (sym in required ==> hits + compiled == 1)
  {
    ResolvedSets(snapshot, required);
    var files, misses := HitFiles(snapshot, required), Misses(snapshot, required);
    CountDefiners(Blobs(misses), misses, sym, sym);
    forall i | 0 <= i < |files|
      ensures sym in LoadedObjects(d, files)[i] <==> sym in snapshot && snapshot[sym] == files[i]
    {
      LoadedDefines(d0, d, snapshot, required, i, sym);
    }
    if sym in snapshot {
      CountDefiners(LoadedObjects(d, files), files, sym, snapshot[sym]);
    } else {
      NoDefiners(LoadedObjects(d, files), sym);
    }
  }

  /**
   The link plan.  A plan resolved from an open cache's memory at one moment of a run still
   links at any later moment: its files exist, no symbol is defined twice among them and the
   freshly compiled objects, and every required symbol is defined once, even if other
   processes registered the same symbols in between.
   */
  lemma LinkPlanHolds(states: seq<State>, i: nat, j: nat, client: nat, required: seq<string>, sym: string)
    requires Trace(states) && i <= j < |states| && client in states[i].snapshots
    ensures var snapshot := states[i].snapshots[client];
            var files, misses := HitFiles(snapshot, required), Misses(snapshot, required);
            var total := Definers(LoadedObjects(states[j].disk, files), sym) + Definers(Blobs(misses), sym);
            (forall f :: f in files ==> f in states[j].disk.objects) &&
            total <= 1 && (sym in required ==> total == 1)
  {
    hide Next, Definers;
    TraceInv(states, i);
    MappedForever(states, i, j);
    var snapshot := states[i].snapshots[client];
    PlanDefinesOnce(states[i].disk, states[j].disk, snapshot, required, sym);
    forall f | f in HitFiles(snapshot, required)
      ensures f in states[j].disk.objects
    {
      var n :| 0 <= n < |HitFiles(snapshot, required)| && HitFiles(snapshot, required)[n] == f;
      LoadedDefines(states[i].disk, states[j].disk, snapshot, required, n, sym);
    }
  }
}
