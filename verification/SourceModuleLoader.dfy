/**
 The loader: a depth-first traversal that keeps a state per module, the stack of modules
 being loaded and the order in which loading completed.
 */
module SourceModuleLoader {
  import opened SourceModules

  datatype ModuleState = Loading | Loaded | Failed

  datatype LoadResult = Ok | NotFound | Cycle(chain: seq<string>) | EarlierFailure(name: string) | ParseError(name: string) | BadInterface(name: string)

  /** What an error says is so: a cycle is one, and a module that is named has the fault. */
  ghost predicate HonestError(files: Files, r: LoadResult) {
    match r
    case Cycle(chain) => |chain| > 1 && Path(files, chain) && chain[0] == chain[|chain| - 1]
    case ParseError(n) => n in files && files[n].Unparsable?
    case BadInterface(n) => n in files && files[n].Parsed? && !ValidFile(files[n])
    case EarlierFailure(n) => n in files && !Sound(files, n)
    case _ => true
  }

  // ---------- the state between two steps ----------

  ghost predicate StackOk(files: Files, cache: map<string, ModuleState>, stack: seq<string>) {
    && NoRepeats(stack)
    && (forall n :: n in stack <==> n in cache && cache[n].Loading?)
    && (stack != [] ==> Path(files, stack))
  }

  ghost predicate CacheOk(files: Files, cache: map<string, ModuleState>) {
    forall n :: n in cache ==>
      && n in files
      && (cache[n].Loaded? ==> Sound(files, n))
      && (cache[n].Failed? ==> !Sound(files, n))
  }

  /** Completed modules, each once, dependencies first. */
  ghost predicate OrderOk(files: Files, cache: map<string, ModuleState>, order: seq<string>) {
    && NoRepeats(order)
    && (forall n :: n in order <==> n in cache && cache[n].Loaded?)
    && (forall i, d :: 0 <= i < |order| && DependsOn(files, order[i], d) ==> d in order[..i])
  }

  ghost predicate Inv(files: Files, cache: map<string, ModuleState>, stack: seq<string>, order: seq<string>) {
    StackOk(files, cache, stack) && CacheOk(files, cache) && OrderOk(files, cache, order)
  }

  /** What is decided stays decided. */
  ghost predicate Grows(before: map<string, ModuleState>, after: map<string, ModuleState>) {
    forall n :: n in before ==> n in after && after[n] == before[n]
  }

  lemma PushStack(files: Files, cache: map<string, ModuleState>, stack: seq<string>, order: seq<string>, n: string)
    requires Inv(files, cache, stack, order) && n in files && n !in cache
    requires stack != [] ==> DependsOn(files, stack[|stack| - 1], n)
    ensures Inv(files, cache[n := Loading], stack + [n], order)
  {
    hide Sound;
    if stack != [] { PathSnoc(files, stack, n); }
    assert forall m :: m in stack + [n] <==> m in stack || m == n;
  }

  lemma PopStackOk(files: Files, cache: map<string, ModuleState>, stack: seq<string>, n: string, s: ModuleState)
    requires StackOk(files, cache, stack + [n]) && !s.Loading?
    ensures n in cache && cache[n].Loading? && StackOk(files, cache[n := s], stack)
  {
    var all := stack + [n];
    assert all[|stack|] == n;
    assert forall i :: 0 <= i < |stack| ==> stack[i] == all[i];
    if stack != [] {
      PathPart(files, all, 0, |stack|);
      assert all[0..|stack|] == stack;
    }
    assert forall m :: m in all <==> m in stack || m == n;
  }

  lemma PopStack(files: Files, cache: map<string, ModuleState>, stack: seq<string>, order: seq<string>, n: string, s: ModuleState)
    requires Inv(files, cache, stack + [n], order) && !s.Loading?
    requires s.Loaded? <==> Sound(files, n)
    requires s.Loaded? ==> forall d :: DependsOn(files, n, d) ==> d in order
    ensures Inv(files, cache[n := s], stack, if s.Loaded? then order + [n] else order)
  {
    hide Sound, StackOk;
    PopStackOk(files, cache, stack, n, s);
    if s.Loaded? { AppendOrder(files, cache, order, n); }
  }

  lemma AppendOrder(files: Files, cache: map<string, ModuleState>, order: seq<string>, n: string)
    requires OrderOk(files, cache, order) && n in cache && cache[n].Loading?
    requires forall d :: DependsOn(files, n, d) ==> d in order
    ensures OrderOk(files, cache[n := Loaded], order + [n])
  {
    var all := order + [n];
    forall i, d | 0 <= i < |all| && DependsOn(files, all[i], d)
      ensures d in all[..i]
    {
      assert all[..|order|] == order;
      if i < |order| { assert all[..i] == order[..i]; }
    }
    assert forall m :: m in all <==> m in order || m == n;
  }

  lemma MarkFailed(files: Files, cache: map<string, ModuleState>, stack: seq<string>, order: seq<string>, n: string)
    requires Inv(files, cache, stack, order) && n in files && n !in cache && !Sound(files, n)
    ensures Inv(files, cache[n := Failed], stack, order)
  {
    hide Sound;
  }

  // ---------- the order in which modules complete ----------

  /**
   The modules completed once `name` is loaded: those before, then what it uses in the order of the text,
   each with what that uses in turn, and then `name`.  Modules on the way down are left out.
   */
  ghost function After(files: Files, name: string, open: set<string>, done: seq<string>): seq<string>
    decreases files.Keys - open, 0, 0
  {
    if name !in files || name in done || name in open || files[name].Unparsable? then done else
    var uses := Uses(files[name].stmts);
    assert name in files.Keys - open && name !in files.Keys - (open + {name});
    AfterAll(files, uses, |uses|, open + {name}, done) + [name]
  }

  ghost function AfterAll(files: Files, uses: seq<string>, n: nat, open: set<string>, done: seq<string>): seq<string>
    requires n <= |uses|
    decreases files.Keys - open, 1, n
  {
    if n == 0 then done else After(files, uses[n - 1], open, AfterAll(files, uses, n - 1, open, done))
  }

  lemma AfterModule(files: Files, name: string, open: set<string>, done: seq<string>)
    requires name in files && name !in done && name !in open && files[name].Parsed?
    ensures var uses := Uses(files[name].stmts);
            After(files, name, open, done) == AfterAll(files, uses, |uses|, open + {name}, done) + [name]
  {
  }

  lemma AfterNothing(files: Files, name: string, uses: seq<string>, open: set<string>, done: seq<string>)
    ensures name !in files || name in done ==> After(files, name, open, done) == done
    ensures AfterAll(files, uses, 0, open, done) == done
  {
  }

  lemma {:induction false} AfterPrefix(files: Files, uses: seq<string>, more: seq<string>, n: nat, open: set<string>, done: seq<string>)
    requires n <= |uses|
    ensures AfterAll(files, uses + more, n, open, done) == AfterAll(files, uses, n, open, done)
    decreases n
  {
    hide After;
    if n > 0 { AfterPrefix(files, uses, more, n - 1, open, done); }
  }

  lemma AfterSnoc(files: Files, uses: seq<string>, x: string, open: set<string>, done: seq<string>)
    ensures AfterAll(files, uses + [x], |uses| + 1, open, done) == After(files, x, open, AfterAll(files, uses, |uses|, open, done))
  {
    hide After;
    AfterPrefix(files, uses, [x], |uses|, open, done);
  }

  ghost function OpenSet(stack: seq<string>): set<string> { set n | n in stack }

  class SourceModuleLoader {
    const files: Files
    var cache: map<string, ModuleState>
    var loadStack: seq<string>
    var completionOrder: seq<string>

    ghost predicate Valid()
      reads this
    {
      Inv(files, cache, loadStack, completionOrder)
    }

    constructor (files: Files)
      ensures this.files == files && Valid() && cache == map[] && loadStack == [] && completionOrder == []
    {
      this.files := files;
      cache, loadStack, completionOrder := map[], [], [];
    }

    predicate Resolvable(name: string)
      reads this
    {
      name in cache || name in files
    }

    /**
     Loads a module and everything it needs.  It terminates, and succeeds exactly when the
     module is found, everything reachable from it is valid and nothing reachable is on a
     cycle, whatever was loaded before.
     */
    method Load(name: string) returns (r: LoadResult)
      requires Valid()
      requires loadStack != [] ==> DependsOn(files, loadStack[|loadStack| - 1], name)
      modifies this
      ensures Valid() && loadStack == old(loadStack) && Grows(old(cache), cache)
      ensures r.Ok? <==> Sound(files, name)
      ensures r.Ok? ==> name in cache && cache[name].Loaded?
      ensures r.Ok? ==> completionOrder == After(files, name, OpenSet(loadStack), old(completionOrder))
      ensures r.NotFound? <==> name !in files
      ensures HonestError(files, r)
      ensures old(completionOrder) <= completionOrder
      decreases files.Keys - cache.Keys, 2
    {
      hide Sound, Path, CacheOk, OrderOk;
      if name in cache {
        CachedName(files, cache, loadStack, completionOrder, name);
        match cache[name] {
          case Loaded =>
            LoadedInOrder(files, cache, loadStack, completionOrder);
            return Ok;
          case Loading =>
            var chain := ChainFrom(name);
            return Cycle(chain);
          case Failed => return EarlierFailure(name);
        }
      }
      if name !in files {
        MissingName(files, name);
        return NotFound;
      }
      if files[name].Unparsable? {
        SoundStep(files, name);
        MarkFailed(files, cache, loadStack, completionOrder, name);
        cache := cache[name := Failed];
        return ParseError(name);
      }
      r := LoadAst(name, files[name].stmts);
    }

    /** The part of the stack from `name` on, closed by `name`. */
    method ChainFrom(name: string) returns (chain: seq<string>)
      requires Valid() && name in loadStack && DependsOn(files, loadStack[|loadStack| - 1], name)
      ensures |chain| > 1 && Path(files, chain) && chain[0] == chain[|chain| - 1] == name
    {
      hide Path, Sound, CacheOk, OrderOk;
      StackPath(files, cache, loadStack);
      hide StackOk;
      var start := 0;
      while loadStack[start] != name
        invariant 0 <= start < |loadStack| && name in loadStack[start..]
        decreases |loadStack| - start
      {
        start := start + 1;
      }
      PathPart(files, loadStack, start, |loadStack|);
      PathSnoc(files, loadStack[start..], name);
      chain := loadStack[start..] + [name];
    }

    method LoadAst(name: string, stmts: seq<Stmt>) returns (r: LoadResult)
      requires Valid() && name in files && name !in cache && files[name].Parsed? && stmts == files[name].stmts
      requires loadStack != [] ==> DependsOn(files, loadStack[|loadStack| - 1], name)
      modifies this
      ensures Valid() && loadStack == old(loadStack) && Grows(old(cache), cache)
      ensures r.Ok? <==> Sound(files, name)
      ensures r.Ok? ==> name in cache && cache[name].Loaded?
      ensures r.Ok? ==> completionOrder == After(files, name, OpenSet(loadStack), old(completionOrder))
      ensures !r.NotFound? && HonestError(files, r)
      ensures old(completionOrder) <= completionOrder
      decreases files.Keys - cache.Keys, 1
    {
      hide Sound, Path, CacheOk, OrderOk, StackOk, After, AfterAll;
      ghost var stack := loadStack;
      SoundStep(files, name);
      PushStack(files, cache, loadStack, completionOrder, name);
      cache := cache[name := Loading];
      loadStack := loadStack + [name];
      var ok, dependencies, exports := CollectInterface(stmts);
      if !ok {
        Fail(stack, name);
        return BadInterface(name);
      }
      assert files.Keys - cache.Keys < old(files.Keys - cache.Keys) by {
        assert name in old(files.Keys - cache.Keys) && name !in files.Keys - cache.Keys;
      }
      r := LoadDependencies(stack, name, dependencies);
      if !r.Ok? {
        Fail(stack, name);
        return r;
      }
      LoadedInOrder(files, cache, loadStack, completionOrder);
      NotYetDone(files, old(cache), stack, old(completionOrder), name);
      AfterModule(files, name, OpenSet(stack), old(completionOrder));
      assert OpenSet(stack + [name]) == OpenSet(stack) + {name};
      PopStack(files, cache, stack, completionOrder, name, Loaded);
      loadStack := loadStack[..|loadStack| - 1];
      cache := cache[name := Loaded];
      completionOrder := completionOrder + [name];
    }

    /** Loads what the module on top of the stack uses, up to the first failure. */
    method LoadDependencies(ghost stack: seq<string>, name: string, dependencies: seq<string>) returns (r: LoadResult)
      requires Valid() && loadStack == stack + [name] && name in files && files[name].Parsed?
      requires forall d :: d in dependencies <==> HasUse(files[name].stmts, d)
      modifies this
      ensures Valid() && loadStack == old(loadStack) && Grows(old(cache), cache)
      ensures r.Ok? <==> forall d :: DependsOn(files, name, d) ==> Sound(files, d)
      ensures r.Ok? ==> forall d :: DependsOn(files, name, d) ==> d in cache && cache[d].Loaded?
      ensures r.Ok? ==>
                completionOrder == AfterAll(files, dependencies, |dependencies|, OpenSet(loadStack), old(completionOrder))
      ensures !r.NotFound? && HonestError(files, r)
      ensures old(completionOrder) <= completionOrder
      decreases files.Keys - cache.Keys, 3
    {
      hide Sound, Path, CacheOk, OrderOk, StackOk;
      for i := 0 to |dependencies|
        invariant Valid() && loadStack == stack + [name]
        invariant Grows(old(cache), cache) && old(completionOrder) <= completionOrder
        invariant completionOrder == AfterAll(files, dependencies, i, OpenSet(loadStack), old(completionOrder))
        invariant forall j :: 0 <= j < i && dependencies[j] in files ==>
                    dependencies[j] in cache && cache[dependencies[j]].Loaded? && Sound(files, dependencies[j])
      {
        var dep := dependencies[i];
        CachedInFiles(files, cache, loadStack, completionOrder);
        if Resolvable(dep) {
          assert dep in dependencies;
          assert DependsOn(files, name, dep);
          r := Load(dep);
          if !r.Ok? { return; }
        }
      }
      r := Ok;
    }

    /** Give up on the module on top of the stack. */
    method Fail(ghost stack: seq<string>, name: string)
      requires Valid() && loadStack == stack + [name] && name in cache && !Sound(files, name)
      modifies this`cache, this`loadStack
      ensures Valid() && loadStack == stack && cache == old(cache)[name := Failed]
    {
      hide Sound, Path, CacheOk, OrderOk, StackOk;
      PopStack(files, cache, stack, completionOrder, name, Failed);
      cache := cache[name := Failed];
      loadStack := loadStack[..|loadStack| - 1];
    }

    /** Completed modules in dependency-first order. */
    method TopologicalOrder() returns (names: seq<string>)
      requires Valid()
      ensures names == completionOrder
      ensures OrderOk(files, cache, names)
    {
      names := completionOrder;
    }
  }

  lemma StackPath(files: Files, cache: map<string, ModuleState>, stack: seq<string>)
    requires StackOk(files, cache, stack) && stack != []
    ensures Path(files, stack)
  {
  }

  lemma CachedName(files: Files, cache: map<string, ModuleState>, stack: seq<string>, order: seq<string>, n: string)
    requires Inv(files, cache, stack, order) && n in cache
    requires stack != [] ==> DependsOn(files, stack[|stack| - 1], n)
    ensures n in files && (cache[n].Loaded? <==> Sound(files, n)) && (cache[n].Loading? ==> n in stack)
  {
    hide Sound;
    if cache[n].Loading? { Circle(files, stack, n); }
  }

  lemma MissingName(files: Files, n: string)
    requires n !in files
    ensures !Sound(files, n)
  {
  }

  lemma CachedInFiles(files: Files, cache: map<string, ModuleState>, stack: seq<string>, order: seq<string>)
    requires Inv(files, cache, stack, order)
    ensures forall n :: n in cache ==> n in files
  {
    hide Sound;
  }

  lemma NotYetDone(files: Files, cache: map<string, ModuleState>, stack: seq<string>, order: seq<string>, n: string)
    requires Inv(files, cache, stack, order) && n !in cache
    ensures n !in order && n !in OpenSet(stack)
  {
    hide Sound;
  }

  lemma LoadedInOrder(files: Files, cache: map<string, ModuleState>, stack: seq<string>, order: seq<string>)
    requires Inv(files, cache, stack, order)
    ensures forall n :: n in cache && cache[n].Loaded? ==> n in order
  {
    hide Sound;
  }
}
