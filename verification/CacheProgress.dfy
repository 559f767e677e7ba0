/**
 What the cache protocol can always do: an operation that nothing disturbs comes to the
 result it is for, and whoever holds the directory lock can get rid of it.
 */
module CacheProgress {
  import opened CacheText
  import opened CacheProtocol

  // ---------- names and orders that there always are ----------

  lemma {:induction false} LongerName(names: set<string>) returns (tmp: string)
    ensures forall k :: k in names ==> |k| < |tmp|
    decreases |names|
  {
    if names == {} {
      tmp := "";
    } else {
      var k :| k in names;
      var rest := LongerName(names - {k});
      tmp := seq(|rest| + |k| + 1, _ => 't');
    }
  }

  lemma {:induction false} AnyOrder(m: SymMap) returns (order: seq<Entry>)
    ensures Enumerates(order, m)
    decreases |m|
  {
    if m == map[] {
      order := [];
    } else {
      var k :| k in m;
      var later := m - {k};
      assert m.Keys == later.Keys + {k};
      var rest := AnyOrder(later);
      order := [(k, m[k])] + rest;
      OneMore(m, k, rest);
    }
  }

  lemma OneMore(m: SymMap, k: string, rest: seq<Entry>)
    requires k in m && Enumerates(rest, m - {k})
    ensures Enumerates([(k, m[k])] + rest, m)
  {
    var order := [(k, m[k])] + rest;
    assert forall i :: 0 < i < |order| ==> order[i] == rest[i - 1];
    forall j | j in m ensures (j, m[j]) in order {
      if j == k { assert order[0] == (k, m[k]); } else { assert (j, (m - {k})[j]) in rest; }
    }
  }

  lemma {:induction false} SomeVersion(m: SymMap) returns (v: nat)
    ensures IsNextVersion(m, v)
    decreases |m|
  {
    if m == map[] {
      v := 0;
    } else {
      var k :| k in m;
      var later := m - {k};
      assert m.Keys == later.Keys + {k};
      v := SomeVersion(later);
      hide ScanVersion;
      if ScanVersion(m[k]).0 && ScanVersion(m[k]).1 >= v {
        v := ScanVersion(m[k]).1 + 1;
        assert ScanVersion(m[k]) == (true, v - 1);
      } else if v > 0 {
        var j :| j in later && ScanVersion(later[j]) == (true, v - 1);
        assert j in m && ScanVersion(m[j]) == (true, v - 1);
      }
    }
  }

  // ---------- runs of one operation ----------

  /** From `s` to `t` by steps of operation `o` alone. */
  ghost predicate Moves(run: seq<State>, s: State, t: State, o: nat) {
    && run != [] && run[0] == s && run[|run| - 1] == t
    && forall i :: 0 <= i < |run| - 1 ==> OpStep(run[i], run[i + 1], o)
  }

  ghost predicate CanReach(s: State, t: State, o: nat) { exists run :: Moves(run, s, t, o) }

  lemma OneMove(s: State, t: State, o: nat)
    requires OpStep(s, t, o)
    ensures CanReach(s, t, o)
  {
    hide OpStep;
    assert Moves([s, t], s, t, o);
  }

  lemma Reached(s: State, t: State, u: State, o: nat)
    requires CanReach(s, t, o) && OpStep(t, u, o)
    ensures CanReach(s, u, o)
  {
    hide OpStep;
    var run :| Moves(run, s, t, o);
    var longer := run + [u];
    forall i | 0 <= i < |longer| - 1 ensures OpStep(longer[i], longer[i + 1], o) {
      if i < |run| - 1 { assert OpStep(run[i], run[i + 1], o); }
    }
    assert Moves(longer, s, u, o);
  }

  lemma ReachedFirst(s: State, t: State, u: State, o: nat)
    requires OpStep(s, t, o) && CanReach(t, u, o)
    ensures CanReach(s, u, o)
  {
    hide OpStep;
    var run :| Moves(run, t, u, o);
    var longer := [s] + run;
    forall i | 0 <= i < |longer| - 1 ensures OpStep(longer[i], longer[i + 1], o) {
      if i > 0 { assert OpStep(run[i - 1], run[i - 1 + 1], o); }
    }
    assert Moves(longer, s, u, o);
  }

  function To(s: State, o: nat, phase: Phase): State
    requires o in s.ops
  {
    s.(ops := s.ops[o := s.ops[o].(phase := phase)])
  }

  // ---------- the lock can always be given back ----------

  /** How many steps at most are left on the way out. */
  function Left(p: Phase): nat {
    match p
    case Waiting => 0
    case Locked => 5
    case Read(_) => 3
    case TmpCreated(_, _, _) => 3
    case TmpWritten(_, _, _) => 3
    case ObjectInstalled(_, _) => 4
    case MetaStarted(_, _) => 4
    case MetaWritten(_, _) => 4
    case MetaInstalled(_, _) => 3
    case Undoing(_) => 3
    case Leaving(_) => 1
    case Over(_) => 0
  }

  lemma WayOut(s: State, o: nat) returns (t: State)
    requires o in s.ops && Holding(s.ops[o].phase)
    ensures OpStep(s, t, o) && o in t.ops && Left(t.ops[o].phase) < Left(s.ops[o].phase)
    ensures Mapped(t.disk) == Mapped(s.disk)
    ensures s.ops[o].phase.Leaving? ==> t.lock == Free
    ensures !s.ops[o].phase.Leaving? ==> Holding(t.ops[o].phase)
  {
    var op := s.ops[o];
    match op.phase
    case Locked => t := To(s, o, Read(Mapped(s.disk)));
    case Read(m) =>
      if op.kind.Opening? {
        t := To(s, o, Leaving(Opened)).(snapshots := s.snapshots[op.client := m]);
      } else {
        t := To(s, o, Leaving(Failed));
      }
    case TmpCreated(_, _, tmp) => t := To(s, o, Leaving(Failed)).(disk := s.disk.(temps := s.disk.temps - {tmp}));
    case TmpWritten(_, _, tmp) => t := To(s, o, Leaving(Failed)).(disk := s.disk.(temps := s.disk.temps - {tmp}));
    case ObjectInstalled(_, file) => t := To(s, o, Undoing(file));
    case MetaStarted(_, file) => t := To(s, o, Undoing(file));
    case MetaWritten(_, file) => t := To(s, o, Undoing(file));
    case MetaInstalled(m, _) => t := To(s, o, Leaving(Installed)).(snapshots := s.snapshots[op.client := m]);
    case Undoing(_) => t := To(s, o, Leaving(Failed));
    case Leaving(r) => t := To(s, o, Over(r)).(lock := Free);
  }

  /** Whoever holds the lock can always come to an end by steps of its own, and then the lock is free. */
  lemma {:induction false} LockReturns(s: State, o: nat) returns (t: State)
    requires o in s.ops && Holding(s.ops[o].phase)
    ensures CanReach(s, t, o) && t.lock == Free && o in t.ops && t.ops[o].phase.Over? && Mapped(t.disk) == Mapped(s.disk)
    decreases Left(s.ops[o].phase)
  {
    hide OpStep, CanReach;
    var u := WayOut(s, o);
    if s.ops[o].phase.Leaving? {
      t := u;
      OneMove(s, t, o);
      OverAfterLeaving(s, t, o);
    } else {
      t := LockReturns(u, o);
      ReachedFirst(s, u, t, o);
    }
  }

  lemma OverAfterLeaving(s: State, t: State, o: nat)
    requires OpStep(s, t, o) && o in s.ops && s.ops[o].phase.Leaving?
    ensures o in t.ops && t.ops[o].phase.Over?
  {
    hide ParseMeta, Enumerates, IsNextVersion, AddAll;
  }

  // ---------- undisturbed operations ----------

  /** An undisturbed `Open` gives its process the map on disk and changes nothing else. */
  lemma OpenCompletes(s: State, o: nat) returns (t: State)
    requires o in s.ops && s.ops[o].phase.Waiting? && s.ops[o].kind.Opening? && s.lock.Free?
    ensures CanReach(s, t, o)
    ensures t == To(s, o, Over(Opened)).(snapshots := s.snapshots[s.ops[o].client := Mapped(s.disk)])
  {
    hide CanReach, Mapped;
    var m := Mapped(s.disk);
    var s1 := To(s, o, Locked).(lock := HeldBy(o));
    var s2 := To(s1, o, Read(m));
    var s3 := To(s2, o, Leaving(Opened)).(snapshots := s.snapshots[s.ops[o].client := m]);
    t := To(s3, o, Over(Opened)).(lock := Free);
    assert TakeLock(s, s1, o) && ReadMap(s1, s2, o) && FinishOpen(s2, s3, o) && Unlock(s3, t, o);
    OneMove(s, s1, o);
    Reached(s, s1, s2, o);
    Reached(s, s2, s3, o);
    Reached(s, s3, t, o);
    assert t.ops == s.ops[o := s.ops[o].(phase := Over(Opened))];
  }

  lemma FindsPresent(s: State, o: nat) returns (t: State)
    requires o in s.ops && s.ops[o].phase.Waiting? && s.ops[o].kind.Registering? && s.lock.Free?
    requires exists k :: k in s.ops[o].kind.symbols && k in Mapped(s.disk)
    ensures CanReach(s, t, o)
    ensures t == To(s, o, Over(AlreadyPresent)).(snapshots := s.snapshots[s.ops[o].client := Mapped(s.disk)])
  {
    hide CanReach, Mapped;
    var m := Mapped(s.disk);
    var s1 := To(s, o, Locked).(lock := HeldBy(o));
    var s2 := To(s1, o, Read(m));
    var s3 := To(s2, o, Leaving(AlreadyPresent)).(snapshots := s.snapshots[s.ops[o].client := m]);
    t := To(s3, o, Over(AlreadyPresent)).(lock := Free);
    assert TakeLock(s, s1, o) && ReadMap(s1, s2, o) && FindPresent(s2, s3, o) && Unlock(s3, t, o);
    OneMove(s, s1, o);
    Reached(s, s1, s2, o);
    Reached(s, s2, s3, o);
    Reached(s, s3, t, o);
    assert t.ops == s.ops[o := s.ops[o].(phase := Over(AlreadyPresent))];
  }

  /** The disk once the symbols are installed in `file`. */
  ghost predicate InstalledDisk(d: Disk, e: Disk, symbols: set<string>, file: string) {
    && Mapped(e) == AddAll(Mapped(d), symbols, file)
    && e.objects == d.objects[file := symbols] && e.temps == d.temps
  }

  /** The first half: the object is written under a temporary name and renamed. */
  lemma ObjectGetsIn(s: State, o: nat, v: nat, tmp: string) returns (t: State)
    requires o in s.ops && s.ops[o].phase.Waiting? && s.ops[o].kind.Registering? && s.lock.Free?
    requires (forall k :: k in s.ops[o].kind.symbols ==> k !in Mapped(s.disk)) && IsNextVersion(Mapped(s.disk), v) && tmp !in s.disk.temps
    ensures CanReach(s, t, o)
    ensures var d := s.disk.(objects := s.disk.objects[FileName(v) := s.ops[o].kind.symbols]);
            t == To(s, o, ObjectInstalled(Mapped(s.disk), FileName(v))).(lock := HeldBy(o), disk := d)
  {
    hide CanReach, Mapped, IsNextVersion, FileName;
    var m, file, symbols := Mapped(s.disk), FileName(v), s.ops[o].kind.symbols;
    var s1 := To(s, o, Locked).(lock := HeldBy(o));
    var s2 := To(s1, o, Read(m));
    var s3 := To(s2, o, TmpCreated(m, file, tmp)).(disk := s.disk.(temps := s.disk.temps[tmp := {}]));
    var s4 := To(s3, o, TmpWritten(m, file, tmp)).(disk := s3.disk.(temps := s3.disk.temps[tmp := symbols]));
    t := To(s4, o, ObjectInstalled(m, file)).(disk := s4.disk.(objects := s.disk.objects[file := symbols], temps := s4.disk.temps - {tmp}));
    assert TakeLock(s, s1, o) && ReadMap(s1, s2, o) && CreateTmp(s2, s3, o, v, tmp) && WriteTmp(s3, s4, o) && RenameObject(s4, t, o);
    OneMove(s, s1, o);
    Reached(s, s1, s2, o);
    Reached(s, s2, s3, o);
    Reached(s, s3, s4, o);
    Reached(s, s4, t, o);
    assert s4.disk.temps - {tmp} == s.disk.temps;
    assert t.ops == s.ops[o := s.ops[o].(phase := ObjectInstalled(m, file))];
  }

  /** The second half: the map with the new symbols is written and renamed. */
  lemma MapGetsIn(s: State, o: nat, m: SymMap, file: string, order: seq<Entry>) returns (t: State)
    requires o in s.ops && s.ops[o].phase == ObjectInstalled(m, file) && s.ops[o].kind.Registering? && s.lock == HeldBy(o)
    requires var n := AddAll(m, s.ops[o].kind.symbols, file); Enumerates(order, n) && CleanMap(n)
    ensures CanReach(s, t, o)
    ensures var n := AddAll(m, s.ops[o].kind.symbols, file);
            var d := s.disk.(meta := t.disk.meta, metaTmp := t.disk.metaTmp);
            Mapped(t.disk) == n &&
            t == To(s, o, Over(Installed)).(lock := Free, disk := d, snapshots := s.snapshots[s.ops[o].client := n])
  {
    hide CanReach, Mapped, Enumerates, ParseMeta, MetaText, CleanMap;
    var n := AddAll(m, s.ops[o].kind.symbols, file);
    var s1 := To(s, o, MetaStarted(n, file));
    var s2 := To(s1, o, MetaWritten(n, file)).(disk := s.disk.(metaTmp := MetaText(order)));
    var s3 := To(s2, o, MetaInstalled(n, file)).(disk := s2.disk.(meta := s2.disk.metaTmp));
    var s4 := To(s3, o, Leaving(Installed)).(snapshots := s.snapshots[s.ops[o].client := n]);
    t := To(s4, o, Over(Installed)).(lock := Free);
    assert StartMeta(s, s1, o) && WriteMeta(s1, s2, o, order) && RenameMeta(s2, s3, o) && FinishRegister(s3, s4, o) && Unlock(s4, t, o);
    OneMove(s, s1, o);
    Reached(s, s1, s2, o);
    Reached(s, s2, s3, o);
    Reached(s, s3, s4, o);
    Reached(s, s4, t, o);
    MetaRoundTrip(order, n);
    MappedText(t.disk);
    assert t.ops == s.ops[o := s.ops[o].(phase := Over(Installed))];
  }

  lemma MappedText(d: Disk)
    ensures Mapped(d) == ParseMeta(d.meta)
  {
  }

  lemma {:induction false} Joined(s: State, t: State, u: State, o: nat)
    requires CanReach(s, t, o) && CanReach(t, u, o)
    ensures CanReach(s, u, o)
  {
    hide OpStep;
    var first :| Moves(first, s, t, o);
    var later :| Moves(later, t, u, o);
    var run := first + later[1..];
    forall i | 0 <= i < |run| - 1 ensures OpStep(run[i], run[i + 1], o) {
      if i < |first| - 1 {
        assert OpStep(first[i], first[i + 1], o);
      } else {
        var j := i - (|first| - 1);
        assert run[i] == later[j] && run[i + 1] == later[j + 1] && OpStep(later[j], later[j + 1], o);
      }
    }
    assert Moves(run, s, u, o);
  }

  /**
   An undisturbed registration ends: with the map on disk taken over if one of its symbols is
   there, and otherwise with all of them mapped to a new object of its own.
   */
  lemma RegistrationCompletes(s: State, o: nat) returns (t: State, v: nat)
    requires Inv(s) && o in s.ops && s.ops[o].phase.Waiting? && s.ops[o].kind.Registering? && s.lock.Free?
    ensures CanReach(s, t, o) && t.lock == Free && IsNextVersion(Mapped(s.disk), v)
    ensures var symbols, m := s.ops[o].kind.symbols, Mapped(s.disk);
            var present := exists k :: k in symbols && k in m;
            t.ops == To(s, o, Over(if present then AlreadyPresent else Installed)).ops &&
            (if present then t.disk == s.disk else InstalledDisk(s.disk, t.disk, symbols, FileName(v))) &&
            t.snapshots == s.snapshots[s.ops[o].client := Mapped(t.disk)]
  {
    hide CanReach, Mapped, IsNextVersion, FileName, DiskInv, SnapshotInv, OpsInv, LockInv;
    var symbols, m := s.ops[o].kind.symbols, Mapped(s.disk);
    v := SomeVersion(m);
    if exists k :: k in symbols && k in m {
      t := FindsPresent(s, o);
    } else {
      var tmp := LongerName(s.disk.temps.Keys);
      var u := ObjectGetsIn(s, o, v, tmp);
      var n := AddAll(m, symbols, FileName(v));
      var order := AnyOrder(n);
      AddedIsClean(s, o, v);
      t := MapGetsIn(u, o, m, FileName(v), order);
      Joined(s, u, t, o);
      assert t.ops == s.ops[o := s.ops[o].(phase := Over(Installed))];
    }
  }

  lemma AddedIsClean(s: State, o: nat, v: nat)
    requires Inv(s) && o in s.ops && s.ops[o].kind.Registering?
    ensures CleanMap(AddAll(Mapped(s.disk), s.ops[o].kind.symbols, FileName(v)))
  {
    FileNameClean(v);
    assert CleanKind(s.ops[o].kind);
  }
}
