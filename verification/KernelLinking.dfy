/**
 Preparing a kernel for linking: resolve what it requires, compile and register each miss
 as an object of its own, and hand over hit files and fresh objects.
 */
module KernelLinking {
  import opened CacheText
  import opened CacheProtocol
  import opened CacheRuns
  import opened SymbolObjectCache

  /** What code generation for one missing symbol defines, or nothing when it fails. */
  datatype Generated = NoCode | Code(defined: seq<string>)

  /** The code generated for a miss defines that symbol and nothing else. */
  predicate GeneratesItself(codegen: string -> Generated, miss: string) {
    codegen(miss) == Code([miss])
  }

  /** A miss is compiled, and registering it on disk `d` does not fail. */
  predicate Succeeds(d: Disk, codegen: string -> Generated, miss: string, host: Host) {
    GeneratesItself(codegen, miss) && host.lockOk && (miss in Mapped(host.others(d)) || FilesWork(host))
  }

  /** The misses were tried one after another, each on the disk listed for it; `ok` says that all succeeded, or else the last one did not. */
  ghost predicate Tried(ok: bool, disks: seq<Disk>, codegen: string -> Generated, misses: seq<string>, hosts: seq<Host>) {
    && |disks| <= |misses| <= |hosts|
    && (forall i :: 0 <= i < |disks| - (if ok then 0 else 1) ==> Succeeds(disks[i], codegen, misses[i], hosts[i]))
    && (if ok then |disks| == |misses|
        else disks != [] && !Succeeds(disks[|disks| - 1], codegen, misses[|disks| - 1], hosts[|disks| - 1]))
  }

  /** Compile and register the misses, one object each; fails exactly with the first miss that does not succeed. */
  method RegisterMisses(cache: SymbolObjectCache, misses: seq<string>, codegen: string -> Generated, hosts: seq<Host>)
    returns (ok: bool, blobs: seq<set<string>>, ghost disks: seq<Disk>)
    requires cache.Valid() && |hosts| >= |misses| && forall h :: h in hosts ==> Behaves(h)
    requires forall k :: k in misses ==> CleanName(k)
    modifies cache, cache.dir
    ensures cache.Valid() && Kept(old(cache.dir.disk), cache.dir.disk)
    ensures Tried(ok, disks, codegen, misses, hosts) && (disks != [] ==> disks[0] == old(cache.dir.disk))
    ensures ok ==> blobs == Blobs(misses)
  {
    hide Closed, Kept, CleanMap, ParseMeta, MeansOk, SymbolObjectCache.Valid, DiskInv;
    ValidDisk(cache);
    KeptRefl(cache.dir.disk);
    blobs, disks := [], [];
    for i := 0 to |misses|
      invariant cache.Valid() && Kept(old(cache.dir.disk), cache.dir.disk)
      invariant |disks| == i && (i == 0 ==> cache.dir.disk == old(cache.dir.disk)) && (i > 0 ==> disks[0] == old(cache.dir.disk))
      invariant forall j :: 0 <= j < i ==> Succeeds(disks[j], codegen, misses[j], hosts[j])
      invariant blobs == Blobs(misses)[..i]
    {
      var miss := misses[i];
      disks := disks + [cache.dir.disk];
      var art := codegen(miss);
      if art.NoCode? || |art.defined| != 1 || art.defined[0] != miss { return false, blobs, disks; }
      assert art.defined == [miss];
      ghost var before := cache.dir.disk;
      var reg := cache.Register(SetOf(art.defined), art.defined, hosts[i]);
      KeptTrans(old(cache.dir.disk), before, cache.dir.disk);
      if reg.Failed? { return false, blobs, disks; }
      assert SetOf(art.defined) == {miss};
      blobs := blobs + [SetOf(art.defined)];
    }
    return true, blobs, disks;
  }

  /**
   On success the hit files and the blobs define every required symbol once and nothing
   twice, whatever other processes registered while this one waited for the lock.  It succeeds
   exactly when the cache opens and every miss does.
   */
  method PrepareFusedKernelsCached(dir: Directory, required: seq<string>, codegen: string -> Generated, hosts: seq<Host>)
    returns (ok: bool, objectFiles: seq<string>, blobs: seq<set<string>>, ghost disks: seq<Disk>)
    requires DiskInv(dir.disk) && |hosts| > |required| && forall h :: h in hosts ==> Behaves(h)
    requires forall k :: k in required ==> CleanName(k)
    modifies dir
    ensures DiskInv(dir.disk) && Kept(old(dir.disk), dir.disk)
    ensures var start := hosts[0].others(old(dir.disk));
            var misses := Misses(Mapped(start), required);
            (hosts[0].lockOk ==> Tried(ok, disks, codegen, misses, hosts[1..]) && (disks != [] ==> disks[0] == start)) &&
            (ok ==> hosts[0].lockOk && objectFiles == HitFiles(Mapped(start), required) && blobs == Blobs(misses))
    ensures ok ==> LinksOnce(dir.disk, objectFiles, blobs, required)
  {
    hide Kept, CleanMap, ParseMeta, SymbolObjectCache.Valid, LinksOnce, DiskInv, Closed, Succeeds;
    ghost var first := hosts[0].others(dir.disk);
    MissesBounded(Mapped(first), required);
    var open := SymbolObjectCache.Open(dir, hosts[0]);
    if open == null { return false, [], [], []; }
    var cache: SymbolObjectCache := open;
    ghost var start, snapshot := dir.disk, cache.symToObj;
    var misses;
    objectFiles, misses := Resolve(cache.symToObj, required);
    ResolvedSets(snapshot, required);
    ok, blobs, disks := RegisterMisses(cache, misses, codegen, hosts[1..]);
    ValidDisk(cache);
    KeptTrans(old(dir.disk), start, dir.disk);
    if ok {
      ClosedSelf(snapshot);
      PlanLinks(start, dir.disk, snapshot, required);
    }
  }

  /** The files exist, and files and blobs define no symbol twice and each required one once. */
  ghost predicate LinksOnce(d: Disk, files: seq<string>, blobs: seq<set<string>>, required: seq<string>) {
    && (forall f :: f in files ==> f in d.objects)
    && forall sym :: Definers(LoadedObjects(d, files), sym) + Definers(blobs, sym) <= 1
                     && (sym in required ==> Definers(LoadedObjects(d, files), sym) + Definers(blobs, sym) == 1)
  }

  lemma PlanLinks(d0: Disk, d: Disk, snapshot: SymMap, required: seq<string>)
    requires DiskInv(d0) && Closed(snapshot, Mapped(d0)) && Kept(d0, d)
    ensures LinksOnce(d, HitFiles(snapshot, required), Blobs(Misses(snapshot, required)), required)
  {
    hide DiskInv, Closed, Kept, Definers, HitFiles, Misses;
    var files := HitFiles(snapshot, required);
    forall sym
      ensures Definers(LoadedObjects(d, files), sym) + Definers(Blobs(Misses(snapshot, required)), sym) <= 1
      ensures sym in required ==> Definers(LoadedObjects(d, files), sym) + Definers(Blobs(Misses(snapshot, required)), sym) == 1
    {
      PlanDefinesOnce(d0, d, snapshot, required, sym);
    }
    forall f | f in files
      ensures f in d.objects
    {
      var n :| 0 <= n < |files| && files[n] == f;
      LoadedDefines(d0, d, snapshot, required, n, f);
    }
  }

  lemma ValidDisk(cache: SymbolObjectCache)
    requires cache.Valid()
    ensures DiskInv(cache.dir.disk)
  {
  }

  lemma {:induction false} MissesBounded(snapshot: SymMap, required: seq<string>)
    ensures |Misses(snapshot, required)| <= |required|
    decreases |required|
  {
    if required != [] { MissesBounded(snapshot, required[..|required| - 1]); }
  }
}
