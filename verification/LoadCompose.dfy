/**
 Loading and composing together: the modules that main needs are loaded first, so the
 composed program has every declaration of them, dependencies before their users.
 */
module LoadCompose {
  import opened SourceModules
  import Loader = SourceModuleLoader
  import opened Compose

  function ModuleUnit(files: Files, name: string): Unit {
    if name in files && files[name].Parsed? then Unit(name, files[name].stmts, files[name].pragmas, false)
    else Unit(name, [], [], false)
  }

  function ModuleUnits(files: Files, order: seq<string>): (r: seq<Unit>)
    ensures |r| == |order|
  {
    seq(|order|, i requires 0 <= i < |order| => ModuleUnit(files, order[i]))
  }

  ghost predicate AllValid(files: Files, order: seq<string>) {
    forall i :: 0 <= i < |order| ==> Valid(files, order[i])
  }

  function MainUnit(stmts: seq<Stmt>, pragmas: seq<Pragma>): Unit { Unit("", stmts, pragmas, true) }

  /** Completed modules are valid files. */
  lemma LoadedModulesValid(files: Files, cache: map<string, Loader.ModuleState>, stack: seq<string>, order: seq<string>)
    requires Loader.Inv(files, cache, stack, order)
    ensures AllValid(files, order)
  {
    forall i | 0 <= i < |order|
      ensures Valid(files, order[i])
    {
      assert order[i] in order;
      SoundStep(files, order[i]);
    }
  }

  lemma UnitsValid(files: Files, order: seq<string>, main: Unit)
    requires AllValid(files, order) && main.isMain
    ensures ModulesValid(ModuleUnits(files, order) + [main])
  {
    var units := ModuleUnits(files, order) + [main];
    forall i | 0 <= i < |units| && !units[i].isMain
      ensures ValidFile(Parsed(units[i].stmts, units[i].pragmas))
    {
      assert Valid(files, order[i]);
    }
  }

  // ---------- where a statement of a unit stands ----------

  function Start(units: seq<Unit>, u: nat): nat
    requires u <= |units|
  {
    |Entries(units[..u])|
  }

  lemma {:induction false} EntryAt(units: seq<Unit>, u: nat, k: nat)
    requires u < |units| && k < |units[u].stmts|
    ensures Start(units, u) + k < |Entries(units)|
    ensures Entries(units)[Start(units, u) + k] == Entry(units[u].stmts[k], units[u].isMain)
    decreases |units|
  {
    var front := units[..|units| - 1];
    if u < |front| {
      EntryAt(front, u, k);
      assert front[..u] == units[..u];
    } else {
      assert front == units[..u];
    }
  }

  lemma {:induction false} StartOrder(units: seq<Unit>, u: nat, w: nat)
    requires u < w <= |units|
    ensures Start(units, u) + |units[u].stmts| <= Start(units, w)
    decreases w
  {
    assert units[..w][..w - 1] == units[..w - 1];
    if u < w - 1 { StartOrder(units, u, w - 1); }
  }

  /**
   Initialisation order: a global of a module stands, among the globals of the composed
   program, before every global of a module that uses it.
   */
  lemma DependencyGlobalsFirst(files: Files, cache: map<string, Loader.ModuleState>, order: seq<string>, main: Unit,
                               i: nat, d: string, k: nat, l: nat)
    returns (j: nat)
    requires Loader.Inv(files, cache, [], order) && main.isMain
    requires i < |order| && DependsOn(files, order[i], d)
    requires k < |ModuleUnit(files, d).stmts| && IsGlobal(ModuleUnit(files, d).stmts[k])
    requires l < |ModuleUnit(files, order[i]).stmts| && IsGlobal(ModuleUnit(files, order[i]).stmts[l])
    ensures j < i && order[j] == d
    ensures var units := ModuleUnits(files, order) + [main];
            Start(units, j) + k < Start(units, i) + l < |Entries(units)| &&
            Entries(units)[Start(units, j) + k].stmt == ModuleUnit(files, d).stmts[k] &&
            Entries(units)[Start(units, i) + l].stmt == ModuleUnit(files, order[i]).stmts[l] &&
            Rank(Entries(units), GlobalGroup, Start(units, j) + k) < Rank(Entries(units), GlobalGroup, Start(units, i) + l)
  {
    hide Entries, Select, Loader.CacheOk, Loader.StackOk, Rank;
    assert d in order[..i];
    j :| 0 <= j < i && order[j] == d;
    var units := ModuleUnits(files, order) + [main];
    assert units[j] == ModuleUnit(files, d) && units[i] == ModuleUnit(files, order[i]);
    EntryAt(units, j, k);
    EntryAt(units, i, l);
    StartOrder(units, j, i);
    RankOrder(Entries(units), GlobalGroup, Start(units, j) + k, Start(units, i) + l);
  }

  // ---------- the frontend entry ----------

  datatype Outcome = LoadError(error: Loader.LoadResult) | Unchanged | Result(composed: ComposeResult)

  /** Main's own uses that resolve to modules. */
  ghost predicate MainNeeds(files: Files, stmts: seq<Stmt>, name: string) {
    name in files && exists i :: 0 <= i < |stmts| && stmts[i].kind.Use? && stmts[i].name == name
  }

  /** First uses, and then every other statement of every unit, each as often as it was written. */
  ghost predicate NothingLost(units: seq<Unit>, stmts: seq<Stmt>) {
    && stmts == FirstUses(Entries(units)) + Rest(Entries(units))
    && multiset(Rest(Entries(units))) == multiset(Declarations(Entries(units)))
  }

  lemma NoUses()
    ensures Uses([]) == []
  {
  }

  lemma UsesSnoc(stmts: seq<Stmt>, i: nat)
    requires i < |stmts|
    ensures Uses(stmts[..i + 1]) == if stmts[i].kind.Use? then Uses(stmts[..i]) + [stmts[i].name] else Uses(stmts[..i])
  {
    assert stmts[..i + 1][..i] == stmts[..i];
    assert Uses(stmts[..i]) + [] == Uses(stmts[..i]);
  }

  /** Composition fails exactly on pragmas that differ within a group, or else on a name that is declared twice. */
  ghost predicate Explained(units: seq<Unit>, r: ComposeResult) {
    && (r.PragmaConflict? <==> !Consistent(AllPragmas(units)))
    && (Consistent(AllPragmas(units)) ==> (r.NameConflict? <==> DeclaredTwice(Entries(units), OverloadsOn(AllPragmas(units)))))
    && (r.Composition? ==> KindsInOrder(r.stmts) && MainFirst(Entries(units), r.stmts))
  }

  /**
   It fails to load exactly when something main needs is not sound; otherwise the result is
   the composition of all loaded modules with main, in which no declaration is lost.
   */
  method LoadAndCompose(loader: Loader.SourceModuleLoader, stmts: seq<Stmt>, pragmas: seq<Pragma>) returns (r: Outcome)
    requires loader.Valid() && loader.loadStack == []
    modifies loader
    ensures loader.Valid() && loader.loadStack == []
    ensures r.LoadError? <==> exists name :: MainNeeds(loader.files, stmts, name) && !Sound(loader.files, name)
    ensures !r.LoadError? ==> forall name :: MainNeeds(loader.files, stmts, name) ==> name in loader.completionOrder
    ensures !r.LoadError? ==>
              loader.completionOrder == Loader.AfterAll(loader.files, Uses(stmts), |Uses(stmts)|, {}, old(loader.completionOrder))
    ensures !r.LoadError? ==> (r.Unchanged? <==> loader.completionOrder == [])
    ensures r.Result? ==> Explained(ModuleUnits(loader.files, loader.completionOrder) + [MainUnit(stmts, pragmas)], r.composed)
    ensures AllValid(loader.files, loader.completionOrder)
    ensures r.Result? && r.composed.Composition? ==>
              NothingLost(ModuleUnits(loader.files, loader.completionOrder) + [MainUnit(stmts, pragmas)], r.composed.stmts)
  {
    hide Sound, Loader.StackOk, Loader.CacheOk, Loader.OrderOk, Loader.After, Loader.AfterAll;
    hide Composed, Rest, Declarations, Entries, FirstUses, Consistent, Uses;
    Loader.AfterNothing(loader.files, "", Uses([]), {}, loader.completionOrder);
    NoUses();
    for i := 0 to |stmts|
      invariant loader.Valid() && loader.loadStack == []
      invariant loader.completionOrder ==
                Loader.AfterAll(loader.files, Uses(stmts[..i]), |Uses(stmts[..i])|, {}, old(loader.completionOrder))
      invariant forall j :: 0 <= j < i && stmts[j].kind.Use? && stmts[j].name in loader.files ==>
                  Sound(loader.files, stmts[j].name) && stmts[j].name in loader.cache && loader.cache[stmts[j].name].Loaded?
    {
      Loader.CachedInFiles(loader.files, loader.cache, loader.loadStack, loader.completionOrder);
      UsesSnoc(stmts, i);
      Loader.AfterSnoc(loader.files, Uses(stmts[..i]), stmts[i].name, {}, old(loader.completionOrder));
      assert Loader.OpenSet([]) == {};
      Loader.AfterNothing(loader.files, stmts[i].name, [], {}, loader.completionOrder);
      if stmts[i].kind.Use? && loader.Resolvable(stmts[i].name) {
        var loaded := loader.Load(stmts[i].name);
        if !loaded.Ok? {
          assert MainNeeds(loader.files, stmts, stmts[i].name);
          LoadedModulesValid(loader.files, loader.cache, loader.loadStack, loader.completionOrder);
          return LoadError(loaded);
        }
      }
    }
    assert stmts[..|stmts|] == stmts;
    Loader.LoadedInOrder(loader.files, loader.cache, loader.loadStack, loader.completionOrder);
    LoadedModulesValid(loader.files, loader.cache, loader.loadStack, loader.completionOrder);
    var names := loader.TopologicalOrder();
    if names == [] { return Unchanged; }
    var units := ModuleUnits(loader.files, names) + [MainUnit(stmts, pragmas)];
    UnitsValid(loader.files, names, MainUnit(stmts, pragmas));
    Conservation(units);
    ComposedOrder(Entries(units));
    MainFunctionsFirst(Entries(units));
    var composed := Compose.Compose(units);
    return Result(composed);
  }
}
