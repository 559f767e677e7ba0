/**
 The cache as the object a process holds.  What the system and other processes do is a
 parameter: which operations fail, what others wrote before the lock was granted, and in
 which order the hash table is iterated.
 */
module SymbolObjectCache {
  import opened CacheText
  import opened CacheProtocol
  import opened CacheRuns

  /** The surroundings of one operation. */
  datatype Host = Host(
    others: Disk -> Disk,                // what other processes do while this one waits for the lock
    order: SymMap -> seq<Entry>,
    tmp: Disk -> string,
    lockOk: bool, tmpOk: bool, objectOk: bool, metaOk: bool, removeOk: bool)

  ghost predicate Behaves(h: Host) {
    && (forall d :: DiskInv(d) ==> DiskInv(h.others(d)) && Kept(d, h.others(d)))
    && (forall m :: Enumerates(h.order(m), m))
    && (forall d :: h.tmp(d) !in d.temps)
  }

  /** The disk an operation finds once it has the lock. */
  function Seen(h: Host, d: Disk): Disk { if h.lockOk then h.others(d) else d }

  /** No file operation of a registration fails. */
  predicate FilesWork(h: Host) { h.tmpOk && h.objectOk && h.metaOk }

  function SetOf(s: seq<string>): (r: set<string>)
    ensures forall k :: k in r <==> k in s
  {
    set k | k in s
  }

  class Directory {
    var disk: Disk

    constructor (disk: Disk)
      ensures this.disk == disk
    {
      this.disk := disk;
    }
  }

  class SymbolObjectCache {
    const dir: Directory
    var symToObj: SymMap

    /** Sound: the memory is a closed part of the map on disk. */
    ghost predicate Valid()
      reads this, dir
    {
      DiskInv(dir.disk) && Closed(symToObj, Mapped(dir.disk))
    }

    constructor (dir: Directory, symToObj: SymMap)
      ensures this.dir == dir && this.symToObj == symToObj
    {
      this.dir, this.symToObj := dir, symToObj;
    }

    /** Reads the map under the lock, after whatever others did until then; no cache without the lock. */
    static method Open(dir: Directory, host: Host) returns (cache: SymbolObjectCache?)
      requires DiskInv(dir.disk) && Behaves(host)
      modifies dir
      ensures DiskInv(dir.disk) && Kept(old(dir.disk), dir.disk) && dir.disk == Seen(host, old(dir.disk))
      ensures cache != null <==> host.lockOk
      ensures cache != null ==> fresh(cache) && cache.dir == dir && cache.Valid() && cache.symToObj == Mapped(dir.disk)
    {
      hide DiskInv, Kept, Closed;
      KeptRefl(dir.disk);
      if !host.lockOk { return null; }
      dir.disk := host.others(dir.disk);
      var m := ReadMeta(dir.disk.meta);
      ClosedSelf(m);
      cache := new SymbolObjectCache(dir, m);
    }

    /** Write the object under a temporary name and rename it. */
    method InstallObject(objectSymbols: set<string>, file: string, host: Host) returns (ok: bool)
      requires host.tmp(dir.disk) !in dir.disk.temps
      modifies dir
      ensures dir.disk.meta == old(dir.disk.meta) && dir.disk.metaTmp == old(dir.disk.metaTmp) && dir.disk.temps == old(dir.disk.temps)
      ensures ok <==> host.tmpOk && host.objectOk
      ensures dir.disk.objects == if ok then old(dir.disk.objects)[file := objectSymbols] else old(dir.disk.objects)
    {
      if !host.tmpOk { return false; }
      var tmp := host.tmp(dir.disk);
      dir.disk := dir.disk.(temps := dir.disk.temps[tmp := {}]);
      dir.disk := dir.disk.(temps := dir.disk.temps[tmp := objectSymbols]);
      if !host.objectOk {
        dir.disk := dir.disk.(temps := dir.disk.temps - {tmp});
        assert dir.disk.temps == old(dir.disk.temps);
        return false;
      }
      dir.disk := dir.disk.(objects := dir.disk.objects[file := dir.disk.temps[tmp]], temps := dir.disk.temps - {tmp});
      assert dir.disk.temps == old(dir.disk.temps);
      return true;
    }

    method InstallMeta(m: SymMap, host: Host) returns (ok: bool)
      requires Enumerates(host.order(m), m) && CleanMap(m)
      modifies dir
      ensures dir.disk.objects == old(dir.disk.objects) && dir.disk.temps == old(dir.disk.temps)
      ensures ok <==> host.metaOk
      ensures Mapped(dir.disk) == if ok then m else Mapped(old(dir.disk))
      ensures !ok ==> dir.disk.meta == old(dir.disk.meta)
    {
      dir.disk := dir.disk.(metaTmp := MetaText(host.order(m)));
      if !host.metaOk { return false; }
      MetaRoundTrip(host.order(m), m);
      dir.disk := dir.disk.(meta := dir.disk.metaTmp, metaTmp := []);
      return true;
    }

    /** The new object and then the new map; a failure leaves the map as it was. */
    method Install(m: SymMap, objectSymbols: set<string>, host: Host) returns (ok: bool, n: SymMap)
      requires DiskInv(dir.disk) && Behaves(host) && m == Mapped(dir.disk)
      requires forall k :: k in objectSymbols ==> k !in m && CleanName(k)
      modifies dir
      ensures DiskInv(dir.disk) && Kept(old(dir.disk), dir.disk)
      ensures ok <==> FilesWork(host)
      ensures n == Mapped(dir.disk) && (!ok ==> n == m)
      ensures ok ==> OwnObject(dir.disk, objectSymbols) && forall k :: k in n <==> k in m || k in objectSymbols
      ensures dir.disk.temps == old(dir.disk.temps)
      ensures !ok && host.removeOk ==> dir.disk.objects.Keys <= old(dir.disk.objects).Keys
    {
      hide DiskInv, Kept, CleanMap, ParseMeta, Enumerates;
      var v := NextIncVer(m);
      var file := FileName(v);
      FreshName(m, v, objectSymbols);
      ghost var seen := dir.disk;
      ok := InstallObject(objectSymbols, file, host);
      UnmappedObject(seen, dir.disk, file);
      UnmappedKept(seen, dir.disk, file);
      n := m;
      if !ok { return; }
      n := AddAll(m, objectSymbols, file);
      CleanAdded(seen, objectSymbols, file);
      ghost var before := dir.disk;
      ok := InstallMeta(n, host);
      if ok {
        GrowMapped(before, dir.disk, objectSymbols, file);
        GrownKept(before, dir.disk, objectSymbols, file);
        OwnObjectGrown(before, dir.disk, objectSymbols, file);
      } else {
        n := m;
        if host.removeOk { dir.disk := dir.disk.(objects := dir.disk.objects - {file}); }
        UnmappedObject(before, dir.disk, file);
        UnmappedKept(before, dir.disk, file);
      }
      KeptTrans(seen, before, dir.disk);
    }

    /**
     Register an object that defines the provided symbols, unless one of them is there.
     All or nothing: the map gains every provided symbol or none.  Without the lock, or if a
     file operation fails, it fails, and for no other reason.  No temporary stays behind, and
     no object of a failed registration if it can be removed.
     */
    method Register(objectSymbols: set<string>, provided: seq<string>, host: Host) returns (result: Result)
      requires Valid() && Behaves(host)
      requires objectSymbols == SetOf(provided) && forall k :: k in provided ==> CleanName(k)
      modifies this, dir
      ensures Valid() && Kept(old(dir.disk), dir.disk)
      ensures result.Installed? || result.AlreadyPresent? || result.Failed?
      ensures var present := exists i :: 0 <= i < |provided| && provided[i] in Mapped(Seen(host, old(dir.disk)));
              (result.AlreadyPresent? <==> host.lockOk && present) &&
              (result.Installed? <==> host.lockOk && !present && FilesWork(host))
      ensures MeansOk(dir.disk, Registering(objectSymbols), result)
      ensures symToObj == if result.Failed? then old(symToObj) else Mapped(dir.disk)
      ensures var before := Mapped(Seen(host, old(dir.disk)));
              Mapped(dir.disk).Keys == before.Keys + (if result.Installed? then objectSymbols else {}) &&
              (result.Installed? ==> objectSymbols !! before.Keys)
      ensures var seen := Seen(host, old(dir.disk));
              dir.disk.temps == seen.temps && (result.AlreadyPresent? || !host.lockOk ==> dir.disk == seen) &&
              (result.Failed? && host.removeOk ==> dir.disk.objects.Keys <= seen.objects.Keys)
    {
      hide DiskInv, Closed, Kept, CleanMap, ParseMeta, OwnObject;
      ghost var start := dir.disk;
      KeptRefl(start);
      if !host.lockOk { return Failed; }
      dir.disk := host.others(dir.disk);
      ghost var seen := dir.disk;
      assert DiskInv(seen) && Kept(start, seen);
      ClosedKept(symToObj, start, seen);
      var m := ReadMeta(dir.disk.meta);
      for i := 0 to |provided|
        invariant forall j :: 0 <= j < i ==> provided[j] !in m
      {
        if provided[i] in m {
          symToObj := m;
          ClosedSelf(m);
          assert provided[i] in objectSymbols && provided[i] in Mapped(dir.disk);
          return AlreadyPresent;
        }
      }
      var ok, n := Install(m, objectSymbols, host);
      KeptTrans(start, seen, dir.disk);
      if !ok {
        ClosedKept(symToObj, seen, dir.disk);
        return Failed;
      }
      symToObj := n;
      ClosedSelf(n);
      assert n.Keys == m.Keys + objectSymbols;
      return Installed;
    }
  }

  lemma KeptRefl(d: Disk)
    requires DiskInv(d)
    ensures Kept(d, d)
  {
    KeptSame(d, d);
  }

  lemma ClosedSelf(m: SymMap)
    ensures Closed(m, m)
  {
  }

  lemma ClosedKept(part: SymMap, d: Disk, e: Disk)
    requires DiskInv(d) && DiskInv(e) && Kept(d, e) && Closed(part, Mapped(d))
    ensures Closed(part, Mapped(e))
  {
    forall k | k in part
      ensures SymbolsOf(Mapped(e), part[k]) <= part.Keys
    {
      assert SymbolsOf(Mapped(e), part[k]) == e.objects[part[k]] == d.objects[part[k]] == SymbolsOf(Mapped(d), part[k]);
    }
  }

  lemma FreshName(m: SymMap, v: nat, symbols: set<string>)
    requires IsNextVersion(m, v) && forall k :: k in symbols ==> k !in m
    ensures Unused(m, symbols, FileName(v))
  {
    forall k | k in m
      ensures m[k] != FileName(v)
    {
      NextNameIsFresh(m, v, k);
    }
    FileNameClean(v);
  }

  lemma UnmappedKept(d: Disk, e: Disk, file: string)
    requires DiskInv(d) && e.meta == d.meta
    requires forall k :: k in Mapped(d) ==> Mapped(d)[k] != file
    requires forall f :: f in d.objects && f != file ==> f in e.objects && e.objects[f] == d.objects[f]
    ensures Kept(d, e)
  {
  }

  lemma CleanAdded(d: Disk, symbols: set<string>, file: string)
    requires DiskInv(d) && '\n' !in file && forall k :: k in symbols ==> CleanName(k)
    ensures CleanMap(AddAll(Mapped(d), symbols, file))
  {
  }

  lemma GrownKept(d: Disk, e: Disk, symbols: set<string>, file: string)
    requires DiskInv(d) && e.objects == d.objects && Submap(Mapped(d), Mapped(e))
    ensures Kept(d, e)
  {
  }

  lemma OwnObjectGrown(d: Disk, e: Disk, symbols: set<string>, file: string)
    requires Mapped(e) == AddAll(Mapped(d), symbols, file) && SymbolsOf(Mapped(e), file) == symbols
    requires Stored(e.objects, file, symbols)
    ensures OwnObject(e, symbols)
  {
  }
}
