/**
 Composition of the loaded modules and the main program into one list of declarations,
 grouped for the later stages.
 */
module Compose {
  import opened SourceModules

  /** A module or, at the end, the main program. */
  datatype Unit = Unit(name: string, stmts: seq<Stmt>, pragmas: seq<Pragma>, isMain: bool)

  /** A statement and the kind of unit it comes from. */
  datatype Entry = Entry(stmt: Stmt, isMain: bool)

  datatype Group = UseGroup | TypeGroup | GlobalGroup | MainFunctions | ModuleFunctions | OtherGroup | Dropped

  predicate IsGlobal(s: Stmt) { s.kind.Var? || s.kind.VarsBlock? || s.kind.Assign? || s.kind.ArrayAssign? }

  function GroupOf(e: Entry): Group {
    if e.stmt.kind.Use? then UseGroup
    else if e.stmt.kind.TypeDecl? then TypeGroup
    else if e.stmt.kind.Fun? then (if e.isMain then MainFunctions else ModuleFunctions)
    else if IsGlobal(e.stmt) then GlobalGroup
    else if e.isMain then OtherGroup
    else Dropped
  }

  function UnitEntries(u: Unit): (r: seq<Entry>)
    ensures |r| == |u.stmts|
  {
    seq(|u.stmts|, i requires 0 <= i < |u.stmts| => Entry(u.stmts[i], u.isMain))
  }

  /** All statements, units in order. */
  function Entries(units: seq<Unit>): seq<Entry> {
    if units == [] then [] else Entries(units[..|units| - 1]) + UnitEntries(units[|units| - 1])
  }

  /** The statements of a group, in order. */
  function Select(entries: seq<Entry>, g: Group): seq<Stmt> {
    if entries == [] then [] else
    var last := entries[|entries| - 1];
    Select(entries[..|entries| - 1], g) + if GroupOf(last) == g then [last.stmt] else []
  }

  predicate Named(s: seq<Stmt>, name: string) { exists i :: 0 <= i < |s| && s[i].name == name }

  /** The first use of each name. */
  function FirstUses(entries: seq<Entry>): seq<Stmt> {
    if entries == [] then [] else
    var before, last := FirstUses(entries[..|entries| - 1]), entries[|entries| - 1];
    before + if GroupOf(last) == UseGroup && !Named(before, last.stmt.name) then [last.stmt] else []
  }

  function Composed(entries: seq<Entry>): seq<Stmt> {
    FirstUses(entries) + Select(entries, TypeGroup) + Select(entries, GlobalGroup) + Select(entries, MainFunctions)
      + Select(entries, ModuleFunctions) + Select(entries, OtherGroup)
  }

  // ---------- what the grouping keeps ----------

  function Rank(entries: seq<Entry>, g: Group, i: nat): nat
    requires i <= |entries|
  {
    |Select(entries[..i], g)|
  }

  lemma {:induction false} SelectPrefix(entries: seq<Entry>, g: Group, n: nat)
    requires n <= |entries|
    ensures Select(entries[..n], g) <= Select(entries, g)
    decreases |entries|
  {
    if n < |entries| {
      SelectPrefix(entries[..|entries| - 1], g, n);
      assert entries[..|entries| - 1][..n] == entries[..n];
    } else {
      assert entries[..n] == entries;
    }
  }

  /** A statement of a group has its own place there. */
  lemma RankPlace(entries: seq<Entry>, g: Group, i: nat)
    requires i < |entries| && GroupOf(entries[i]) == g
    ensures Rank(entries, g, i) < |Select(entries, g)| && Select(entries, g)[Rank(entries, g, i)] == entries[i].stmt
  {
    assert entries[..i + 1][..i] == entries[..i];
    SelectPrefix(entries, g, i + 1);
  }

  /** Places keep the order of the statements; so globals of a dependency precede those of its user. */
  lemma RankOrder(entries: seq<Entry>, g: Group, i: nat, j: nat)
    requires i < j < |entries| && GroupOf(entries[i]) == g
    ensures Rank(entries, g, i) < Rank(entries, g, j)
  {
    assert entries[..i + 1][..i] == entries[..i];
    assert entries[..j][..i + 1] == entries[..i + 1];
    SelectPrefix(entries[..j], g, i + 1);
  }

  /** Every place is some statement's. */
  lemma {:induction false} RankOnto(entries: seq<Entry>, g: Group, k: nat) returns (i: nat)
    requires k < |Select(entries, g)|
    ensures i < |entries| && GroupOf(entries[i]) == g && Rank(entries, g, i) == k
    decreases |entries|
  {
    var n := |entries| - 1;
    if k < |Select(entries[..n], g)| {
      i := RankOnto(entries[..n], g, k);
      assert entries[..n][..i] == entries[..i];
    } else {
      i := n;
    }
  }

  function Declarations(entries: seq<Entry>): seq<Stmt> {
    if entries == [] then [] else
    var last := entries[|entries| - 1];
    Declarations(entries[..|entries| - 1]) + if last.stmt.kind.Use? then [] else [last.stmt]
  }

  /** The composed program without its uses. */
  function Rest(entries: seq<Entry>): seq<Stmt> {
    Select(entries, TypeGroup) + Select(entries, GlobalGroup) + Select(entries, MainFunctions)
      + Select(entries, ModuleFunctions) + Select(entries, OtherGroup)
  }

  /** How often a statement occurs in a group. */
  function Times(entries: seq<Entry>, g: Group, x: Stmt): nat { multiset(Select(entries, g))[x] }

  lemma SelectCounts(entries: seq<Entry>, g: Group, x: Stmt)
    requires entries != []
    ensures var last := entries[|entries| - 1];
            Times(entries, g, x) == Times(entries[..|entries| - 1], g, x) + if GroupOf(last) == g && last.stmt == x then 1 else 0
  {
  }

  lemma DeclarationCounts(entries: seq<Entry>, x: Stmt)
    requires entries != []
    ensures var last := entries[|entries| - 1];
            multiset(Declarations(entries))[x] ==
            multiset(Declarations(entries[..|entries| - 1]))[x] + if !last.stmt.kind.Use? && last.stmt == x then 1 else 0
  {
  }

  lemma {:induction false} RestCount(entries: seq<Entry>, x: Stmt)
    requires forall i :: 0 <= i < |entries| ==> GroupOf(entries[i]) != Dropped
    ensures Times(entries, TypeGroup, x) + Times(entries, GlobalGroup, x) + Times(entries, MainFunctions, x)
            + Times(entries, ModuleFunctions, x) + Times(entries, OtherGroup, x) == multiset(Declarations(entries))[x]
    decreases |entries|
  {
    if entries != [] {
      RestCount(entries[..|entries| - 1], x);
      hide Declarations, Times;
      DeclarationCounts(entries, x);
      SelectCounts(entries, TypeGroup, x);
      SelectCounts(entries, GlobalGroup, x);
      SelectCounts(entries, MainFunctions, x);
      SelectCounts(entries, ModuleFunctions, x);
      SelectCounts(entries, OtherGroup, x);
    }
  }

  lemma RestTimes(entries: seq<Entry>, x: Stmt)
    ensures multiset(Rest(entries))[x] ==
            Times(entries, TypeGroup, x) + Times(entries, GlobalGroup, x) + Times(entries, MainFunctions, x)
            + Times(entries, ModuleFunctions, x) + Times(entries, OtherGroup, x)
  {
    hide Select;
  }

  lemma RestCounts(entries: seq<Entry>)
    requires forall i :: 0 <= i < |entries| ==> GroupOf(entries[i]) != Dropped
    ensures multiset(Rest(entries)) == multiset(Declarations(entries))
  {
    hide Rest, Declarations, Times;
    forall x
      ensures multiset(Rest(entries))[x] == multiset(Declarations(entries))[x]
    {
      RestTimes(entries, x);
      RestCount(entries, x);
    }
  }

  predicate ModulesValid(units: seq<Unit>) {
    forall i :: 0 <= i < |units| && !units[i].isMain ==> ValidFile(Parsed(units[i].stmts, units[i].pragmas))
  }

  lemma {:induction false} NothingDropped(units: seq<Unit>)
    requires ModulesValid(units)
    ensures forall i :: 0 <= i < |Entries(units)| ==> GroupOf(Entries(units)[i]) != Dropped
    decreases |units|
  {
    if units != [] {
      NothingDropped(units[..|units| - 1]);
      var u := units[|units| - 1];
      assert forall i :: 0 <= i < |u.stmts| && !u.isMain ==> Admitted(u.stmts[i]);
    }
  }

  /** Conservation: what is not a use appears exactly as often as it was written, in modules and main together. */
  lemma Conservation(units: seq<Unit>)
    requires ModulesValid(units)
    ensures Composed(Entries(units)) == FirstUses(Entries(units)) + Rest(Entries(units))
    ensures multiset(Rest(Entries(units))) == multiset(Declarations(Entries(units)))
  {
    hide Select, Declarations, FirstUses, Entries;
    NothingDropped(units);
    RestCounts(Entries(units));
    hide Rest;
    ComposedParts(Entries(units));
  }

  lemma ComposedParts(entries: seq<Entry>)
    ensures Composed(entries) == FirstUses(entries) + Rest(entries)
  {
    hide Select, FirstUses;
  }

  predicate DistinctUses(u: seq<Stmt>) {
    && (forall i, j :: 0 <= i < j < |u| ==> u[i].name != u[j].name)
    && (forall i :: 0 <= i < |u| ==> u[i].kind.Use?)
  }

  /** Each used name is kept once, with its first use. */
  lemma {:induction false} UsesOnce(entries: seq<Entry>)
    ensures DistinctUses(FirstUses(entries))
    ensures forall k :: 0 <= k < |entries| && entries[k].stmt.kind.Use? ==> Named(FirstUses(entries), entries[k].stmt.name)
    decreases |entries|
  {
    if entries != [] {
      var front, last := entries[..|entries| - 1], entries[|entries| - 1];
      UsesOnce(front);
      var before, all := FirstUses(front), FirstUses(entries);
      assert before <= all && |all| <= |before| + 1;
      forall k | 0 <= k < |entries| && entries[k].stmt.kind.Use?
        ensures Named(all, entries[k].stmt.name)
      {
        if k < |front| {
          assert front[k] == entries[k];
          NamedPrefix(before, all, entries[k].stmt.name);
        } else if Named(before, last.stmt.name) {
          NamedPrefix(before, all, last.stmt.name);
        } else {
          assert all[|before|].name == last.stmt.name;
        }
      }
      if all != before { OneMoreUse(before, last.stmt); }
    }
  }

  lemma OneMoreUse(u: seq<Stmt>, s: Stmt)
    requires DistinctUses(u) && s.kind.Use? && !Named(u, s.name)
    ensures DistinctUses(u + [s])
  {
    forall i | 0 <= i < |u|
      ensures u[i].name != s.name
    {
    }
  }

  lemma NamedPrefix(before: seq<Stmt>, all: seq<Stmt>, name: string)
    requires before <= all && Named(before, name)
    ensures Named(all, name)
  {
    var i :| 0 <= i < |before| && before[i].name == name;
    assert all[i] == before[i];
  }

  function FunctionsOf(s: seq<Stmt>): seq<Stmt> {
    if s == [] then [] else FunctionsOf(s[..|s| - 1]) + if s[|s| - 1].kind.Fun? then [s[|s| - 1]] else []
  }

  lemma {:induction false} FunctionsConcat(a: seq<Stmt>, b: seq<Stmt>)
    ensures FunctionsOf(a + b) == FunctionsOf(a) + FunctionsOf(b)
    decreases |b|
  {
    if b == [] {
      assert a + b == a;
    } else {
      assert (a + b)[..|a + b| - 1] == a + b[..|b| - 1];
      FunctionsConcat(a, b[..|b| - 1]);
    }
  }

  predicate AllFunctions(s: seq<Stmt>, yes: bool) {
    FunctionsOf(s) == if yes then s else []
  }

  lemma AppendFunction(s: seq<Stmt>, x: Stmt, yes: bool)
    requires AllFunctions(s, yes) && (x.kind.Fun? <==> yes)
    ensures AllFunctions(s + [x], yes)
  {
    FunctionsConcat(s, [x]);
    OneFunction(x);
  }

  lemma {:induction false} GroupFunctions(entries: seq<Entry>, g: Group)
    requires g != UseGroup
    ensures AllFunctions(Select(entries, g), g.MainFunctions? || g.ModuleFunctions?)
    decreases |entries|
  {
    if entries != [] {
      var last := entries[|entries| - 1];
      GroupFunctions(entries[..|entries| - 1], g);
      assert Select(entries[..|entries| - 1], g) + [] == Select(entries[..|entries| - 1], g);
      if GroupOf(last) == g { AppendFunction(Select(entries[..|entries| - 1], g), last.stmt, g.MainFunctions? || g.ModuleFunctions?); }
    }
  }

  lemma OneFunction(s: Stmt)
    ensures FunctionsOf([s]) == if s.kind.Fun? then [s] else []
  {
    assert [s][..0] == [];
  }

  lemma {:induction false} UsesNoFunctions(s: seq<Stmt>)
    requires DistinctUses(s)
    ensures FunctionsOf(s) == []
    decreases |s|
  {
    if s != [] { UsesNoFunctions(s[..|s| - 1]); }
  }

  /** The functions that main, or else the modules, declare, in order. */
  function FunctionsIn(entries: seq<Entry>, inMain: bool): seq<Stmt> {
    if entries == [] then [] else
    var last := entries[|entries| - 1];
    FunctionsIn(entries[..|entries| - 1], inMain) + if last.stmt.kind == Fun && last.isMain == inMain then [last.stmt] else []
  }

  lemma {:induction false} FunctionGroups(entries: seq<Entry>)
    ensures Select(entries, MainFunctions) == FunctionsIn(entries, true)
    ensures Select(entries, ModuleFunctions) == FunctionsIn(entries, false)
    decreases |entries|
  {
    if entries != [] { FunctionGroups(entries[..|entries| - 1]); }
  }

  /** The functions of the program are main's and then the modules'. */
  ghost predicate MainFirst(entries: seq<Entry>, stmts: seq<Stmt>) {
    FunctionsOf(stmts) == FunctionsIn(entries, true) + FunctionsIn(entries, false)
  }

  /** So main's first function stays the entry point. */
  lemma MainFunctionsFirst(entries: seq<Entry>)
    ensures MainFirst(entries, Composed(entries))
  {
    hide Select, FirstUses, FunctionsOf, FunctionsIn;
    FunctionGroups(entries);
    UsesOnce(entries);
    UsesNoFunctions(FirstUses(entries));
    GroupFunctions(entries, TypeGroup);
    GroupFunctions(entries, GlobalGroup);
    GroupFunctions(entries, MainFunctions);
    GroupFunctions(entries, ModuleFunctions);
    GroupFunctions(entries, OtherGroup);
    var a := FirstUses(entries) + Select(entries, TypeGroup);
    var b := a + Select(entries, GlobalGroup);
    var c := b + Select(entries, MainFunctions);
    var d := c + Select(entries, ModuleFunctions);
    FunctionsConcat(FirstUses(entries), Select(entries, TypeGroup));
    FunctionsConcat(a, Select(entries, GlobalGroup));
    FunctionsConcat(b, Select(entries, MainFunctions));
    FunctionsConcat(c, Select(entries, ModuleFunctions));
    FunctionsConcat(d, Select(entries, OtherGroup));
  }

  /** Uses, types, globals, functions, everything else. */
  function KindOrder(k: StmtKind): nat {
    match k
    case Use => 0
    case TypeDecl => 1
    case Var | VarsBlock | Assign | ArrayAssign => 2
    case Fun => 3
    case OtherStmt => 4
  }

  ghost predicate KindsInOrder(stmts: seq<Stmt>) {
    forall i, j :: 0 <= i < j < |stmts| ==> KindOrder(stmts[i].kind) <= KindOrder(stmts[j].kind)
  }

  predicate AllOfOrder(stmts: seq<Stmt>, n: nat) { forall i :: 0 <= i < |stmts| ==> KindOrder(stmts[i].kind) == n }

  function GroupOrder(g: Group): nat {
    match g case UseGroup => 0 case TypeGroup => 1 case GlobalGroup => 2 case MainFunctions => 3 case ModuleFunctions => 3 case _ => 4
  }

  lemma {:induction false} GroupKinds(entries: seq<Entry>, g: Group)
    requires g != Dropped
    ensures AllOfOrder(Select(entries, g), GroupOrder(g))
    decreases |entries|
  {
    if entries != [] { GroupKinds(entries[..|entries| - 1], g); }
  }

  lemma OrderedAppend(a: seq<Stmt>, b: seq<Stmt>, n: nat)
    requires KindsInOrder(a) && (forall i :: 0 <= i < |a| ==> KindOrder(a[i].kind) <= n) && AllOfOrder(b, n)
    ensures KindsInOrder(a + b) && forall i :: 0 <= i < |a + b| ==> KindOrder((a + b)[i].kind) <= n
  {
  }

  /** In the composed program every use precedes every type, every type every global, every global every function. */
  lemma ComposedOrder(entries: seq<Entry>)
    ensures KindsInOrder(Composed(entries))
  {
    hide Select, FirstUses, KindOrder, AllOfOrder, KindsInOrder;
    UsesFirst(entries);
    GroupKinds(entries, TypeGroup);
    GroupKinds(entries, GlobalGroup);
    GroupKinds(entries, MainFunctions);
    GroupKinds(entries, ModuleFunctions);
    GroupKinds(entries, OtherGroup);
    var a := FirstUses(entries) + Select(entries, TypeGroup);
    var b := a + Select(entries, GlobalGroup);
    var c := b + Select(entries, MainFunctions);
    var d := c + Select(entries, ModuleFunctions);
    OrderedAppend(FirstUses(entries), Select(entries, TypeGroup), 1);
    OrderedAppend(a, Select(entries, GlobalGroup), 2);
    OrderedAppend(b, Select(entries, MainFunctions), 3);
    OrderedAppend(c, Select(entries, ModuleFunctions), 3);
    OrderedAppend(d, Select(entries, OtherGroup), 4);
  }

  lemma UsesFirst(entries: seq<Entry>)
    ensures KindsInOrder(FirstUses(entries)) && forall i :: 0 <= i < |FirstUses(entries)| ==> KindOrder(FirstUses(entries)[i].kind) <= 1
  {
    hide FirstUses;
    UsesOnce(entries);
  }

  // ---------- pragmas ----------

  function FindGroup(merged: seq<Pragma>, group: string): (r: int)
    ensures -1 <= r < |merged|
    ensures r >= 0 ==> merged[r].group == group
    ensures r == -1 ==> forall i :: 0 <= i < |merged| ==> merged[i].group != group
  {
    if merged == [] then -1
    else if merged[|merged| - 1].group == group then |merged| - 1
    else FindGroup(merged[..|merged| - 1], group)
  }

  datatype Merged = Conflict | Merged(pragmas: seq<Pragma>)

  function AddPragma(merged: seq<Pragma>, p: Pragma): Merged {
    var i := FindGroup(merged, p.group);
    if i < 0 then Merged(merged + [p]) else if merged[i].values != p.values then Conflict else Merged(merged)
  }

  function MergePragmas(all: seq<Pragma>): Merged {
    if all == [] then Merged([]) else
    match MergePragmas(all[..|all| - 1])
    case Conflict => Conflict
    case Merged(m) => AddPragma(m, all[|all| - 1])
  }

  predicate Consistent(all: seq<Pragma>) {
    forall i, j :: 0 <= i < j < |all| && all[i].group == all[j].group ==> all[i].values == all[j].values
  }

  predicate OnePerGroup(m: seq<Pragma>) { forall i, j :: 0 <= i < j < |m| ==> m[i].group != m[j].group }

  ghost predicate SameMembers(m: seq<Pragma>, all: seq<Pragma>) { forall p :: p in m <==> p in all }

  ghost predicate MergeOk(all: seq<Pragma>, r: Merged) {
    && (r.Merged? <==> Consistent(all))
    && (r.Merged? ==> OnePerGroup(r.pragmas) && SameMembers(r.pragmas, all))
  }

  /** Consistency by members instead of positions. */
  lemma ConsistentMembers(all: seq<Pragma>)
    ensures Consistent(all) <==> forall p, q :: p in all && q in all && p.group == q.group ==> p.values == q.values
  {
    if Consistent(all) {
      forall p, q | p in all && q in all && p.group == q.group
        ensures p.values == q.values
      {
        var i :| 0 <= i < |all| && all[i] == p;
        var j :| 0 <= j < |all| && all[j] == q;
        assert i < j || j < i || i == j;
      }
    }
  }

  lemma SnocMembers(front: seq<Pragma>, p: Pragma)
    ensures forall q :: q in front + [p] <==> q in front || q == p
  {
  }

  lemma AddKeeps(front: seq<Pragma>, m: seq<Pragma>, p: Pragma)
    requires Consistent(front) && OnePerGroup(m) && SameMembers(m, front)
    ensures MergeOk(front + [p], AddPragma(m, p))
  {
    hide Consistent, FindGroup;
    ConsistentMembers(front);
    ConsistentMembers(front + [p]);
    SnocMembers(front, p);
    SnocMembers(m, p);
    var i := FindGroup(m, p.group);
    if i >= 0 {
      assert m[i] in m;
      if m[i].values == p.values { assert m[i] == p; }
    } else {
      forall q | q in front
        ensures q.group != p.group
      {
        assert q in m;
      }
    }
  }

  /** Merging succeeds exactly when no group has two different values, and keeps one pragma a group. */
  lemma {:induction false} MergeExact(all: seq<Pragma>)
    ensures MergeOk(all, MergePragmas(all))
    decreases |all|
  {
    hide AddPragma;
    if all != [] {
      var front, p := all[..|all| - 1], all[|all| - 1];
      MergeExact(front);
      assert all == front + [p];
      if Consistent(front) {
        AddKeeps(front, MergePragmas(front).pragmas, p);
      } else {
        ConsistentMembers(front);
        ConsistentMembers(all);
        SnocMembers(front, p);
      }
    }
  }

  function AllPragmas(units: seq<Unit>): seq<Pragma> {
    if units == [] then [] else AllPragmas(units[..|units| - 1]) + units[|units| - 1].pragmas
  }

  lemma MergeSnoc(all: seq<Pragma>, p: Pragma)
    ensures MergePragmas(all + [p]) == if MergePragmas(all).Merged? then AddPragma(MergePragmas(all).pragmas, p) else Conflict
  {
    assert (all + [p])[..|all|] == all;
  }

  lemma {:induction false} MergeStops(all: seq<Pragma>, more: seq<Pragma>)
    requires MergePragmas(all).Conflict?
    ensures MergePragmas(all + more).Conflict?
    decreases |more|
  {
    if more == [] {
      assert all + more == all;
    } else {
      MergeStops(all, more[..|more| - 1]);
      assert all + more == all + more[..|more| - 1] + [more[|more| - 1]];
      MergeSnoc(all + more[..|more| - 1], more[|more| - 1]);
    }
  }

  lemma {:induction false} AllPragmasSplit(units: seq<Unit>, u: nat)
    requires u < |units|
    ensures exists more :: AllPragmas(units) == AllPragmas(units[..u]) + units[u].pragmas + more
    decreases |units|
  {
    if u == |units| - 1 {
      assert AllPragmas(units) == AllPragmas(units[..u]) + units[u].pragmas + [];
    } else {
      var front := units[..|units| - 1];
      AllPragmasSplit(front, u);
      assert front[..u] == units[..u];
      var more :| AllPragmas(front) == AllPragmas(front[..u]) + front[u].pragmas + more;
      assert AllPragmas(units) == AllPragmas(units[..u]) + units[u].pragmas + (more + units[|units| - 1].pragmas);
    }
  }

  method MergeUnitPragmas(units: seq<Unit>) returns (r: Merged)
    ensures r == MergePragmas(AllPragmas(units))
  {
    hide AddPragma, MergePragmas;
    var merged: seq<Pragma> := [];
    assert MergePragmas([]) == Merged([]) by { NoPragmas(); }
    for u := 0 to |units|
      invariant MergePragmas(AllPragmas(units[..u])) == Merged(merged)
    {
      ghost var before, ps := AllPragmas(units[..u]), units[u].pragmas;
      assert units[..u + 1][..u] == units[..u];
      assert before + ps[..0] == before;
      for k := 0 to |units[u].pragmas|
        invariant MergePragmas(before + ps[..k]) == Merged(merged)
      {
        MergeSnoc(before + ps[..k], ps[k]);
        assert before + ps[..k] + [ps[k]] == before + ps[..k + 1];
        var added := AddPragma(merged, units[u].pragmas[k]);
        if added.Conflict? {
          AllPragmasSplit(units, u);
          ghost var more :| AllPragmas(units) == before + ps + more;
          MergeStops(before + ps[..k + 1], ps[k + 1..] + more);
          assert before + ps[..k + 1] + (ps[k + 1..] + more) == AllPragmas(units);
          return Conflict;
        }
        merged := added.pragmas;
      }
      assert before + ps[..|ps|] == AllPragmas(units[..u + 1]);
    }
    assert units[..|units|] == units;
    return Merged(merged);
  }

  lemma NoPragmas()
    ensures MergePragmas([]) == Merged([])
  {
  }

  // ---------- name conflicts ----------

  predicate Declares(s: Stmt, name: string, asFunction: bool) {
    s.name == name && if asFunction then s.kind.Fun? else s.kind.TypeDecl? || s.kind.Var?
  }

  function CountDecls(entries: seq<Entry>, name: string, asFunction: bool): nat {
    if entries == [] then 0 else
    CountDecls(entries[..|entries| - 1], name, asFunction) + if Declares(entries[|entries| - 1].stmt, name, asFunction) then 1 else 0
  }

  /** Types and globals are unique; functions may share a name among themselves when overloads are on. */
  predicate Clash(unique: nat, funcs: nat, allowOverloads: bool) {
    unique > 1 || (unique >= 1 && funcs >= 1) || (funcs > 1 && !allowOverloads)
  }

  ghost predicate NameClash(entries: seq<Entry>, allowOverloads: bool) {
    exists name :: Clash(CountDecls(entries, name, false), CountDecls(entries, name, true), allowOverloads)
  }

  predicate IsDecl(s: Stmt) { s.kind == Fun || s.kind == TypeDecl || s.kind == Var }

  /** One name is declared at two places, and not by two functions where functions may share names. */
  ghost predicate DeclaredTwice(entries: seq<Entry>, overloads: bool) {
    exists i, j :: 0 <= i < j < |entries| && Clashing(entries[i].stmt, entries[j].stmt, overloads)
  }

  predicate Clashing(a: Stmt, b: Stmt, overloads: bool) {
    IsDecl(a) && IsDecl(b) && a.name == b.name && !(overloads && a.kind == Fun && b.kind == Fun)
  }

  /** A count of declarations by two of their places. */
  lemma {:induction false} CountedAt(entries: seq<Entry>, name: string, f: bool) returns (i: nat, j: nat)
    ensures CountDecls(entries, name, f) >= 1 ==> j < |entries| && Declares(entries[j].stmt, name, f)
    ensures CountDecls(entries, name, f) >= 2 ==> i < j < |entries| && Declares(entries[i].stmt, name, f)
    decreases |entries|
  {
    i, j := 0, 0;
    if entries != [] {
      var n := |entries| - 1;
      var k, l := CountedAt(entries[..n], name, f);
      if Declares(entries[n].stmt, name, f) { i, j := l, n; } else { i, j := k, l; }
    }
  }

  lemma {:induction false} CountAtLeast(entries: seq<Entry>, name: string, f: bool, i: nat, j: nat)
    requires i <= j < |entries| && Declares(entries[i].stmt, name, f) && Declares(entries[j].stmt, name, f)
    ensures CountDecls(entries, name, f) >= if i < j then 2 else 1
    decreases |entries|
  {
    var n := |entries| - 1;
    if j < n {
      CountAtLeast(entries[..n], name, f, i, j);
    } else if i < n {
      CountAtLeast(entries[..n], name, f, i, i);
    }
  }

  /** Counting finds a conflict exactly where two declarations clash. */
  lemma ClashExactly(entries: seq<Entry>, overloads: bool)
    ensures NameClash(entries, overloads) <==> DeclaredTwice(entries, overloads)
  {
    hide CountDecls;
    if NameClash(entries, overloads) {
      var name :| Clash(CountDecls(entries, name, false), CountDecls(entries, name, true), overloads);
      var i, j := CountedAt(entries, name, false);
      var k, l := CountedAt(entries, name, true);
      if CountDecls(entries, name, false) > 1 {
        assert Clashing(entries[i].stmt, entries[j].stmt, overloads);
      } else if CountDecls(entries, name, true) > 1 && !overloads {
        assert Clashing(entries[k].stmt, entries[l].stmt, overloads);
      } else {
        assert Clashing(entries[j].stmt, entries[l].stmt, overloads) && Clashing(entries[l].stmt, entries[j].stmt, overloads);
        assert j != l;
      }
    }
    if DeclaredTwice(entries, overloads) {
      var i, j :| 0 <= i < j < |entries| && Clashing(entries[i].stmt, entries[j].stmt, overloads);
      var name, f, g := entries[i].stmt.name, entries[i].stmt.kind == Fun, entries[j].stmt.kind == Fun;
      CountAtLeast(entries, name, f, i, i);
      CountAtLeast(entries, name, g, j, j);
      if f == g { CountAtLeast(entries, name, f, i, j); }
      assert Clash(CountDecls(entries, name, false), CountDecls(entries, name, true), overloads);
    }
  }

  datatype Counts = Counts(unique: nat, funcs: nat)

  function CountOf(byName: map<string, Counts>, name: string): Counts {
    if name in byName then byName[name] else Counts(0, 0)
  }

  ghost predicate Tallied(byName: map<string, Counts>, entries: seq<Entry>) {
    forall name :: CountOf(byName, name) == Counts(CountDecls(entries, name, false), CountDecls(entries, name, true))
  }

  function Tally(byName: map<string, Counts>, s: Stmt): map<string, Counts> {
    var c := CountOf(byName, s.name);
    if s.kind.Fun? then byName[s.name := c.(funcs := c.funcs + 1)]
    else if s.kind.TypeDecl? || s.kind.Var? then byName[s.name := c.(unique := c.unique + 1)]
    else byName
  }

  lemma TallyKeeps(byName: map<string, Counts>, entries: seq<Entry>, e: Entry)
    requires Tallied(byName, entries)
    ensures Tallied(Tally(byName, e.stmt), entries + [e])
  {
    var all, next := entries + [e], Tally(byName, e.stmt);
    assert all[..|entries|] == entries;
    forall name
      ensures CountOf(next, name) == Counts(CountDecls(all, name, false), CountDecls(all, name, true))
    {
      assert CountOf(byName, name) == Counts(CountDecls(entries, name, false), CountDecls(entries, name, true));
    }
  }

  method CheckConflicts(units: seq<Unit>, allowOverloads: bool) returns (conflict: bool)
    ensures conflict <==> DeclaredTwice(Entries(units), allowOverloads)
  {
    hide Tally, Clash;
    var byName: map<string, Counts> := map[];
    for u := 0 to |units|
      invariant Tallied(byName, Entries(units[..u]))
    {
      ghost var before, es := Entries(units[..u]), UnitEntries(units[u]);
      assert units[..u + 1][..u] == units[..u];
      assert before + es[..0] == before;
      for k := 0 to |units[u].stmts|
        invariant Tallied(byName, before + es[..k])
      {
        TallyKeeps(byName, before + es[..k], es[k]);
        assert before + es[..k] + [es[k]] == before + es[..k + 1];
        byName := Tally(byName, units[u].stmts[k]);
      }
      assert before + es[..|es|] == Entries(units[..u + 1]);
    }
    assert units[..|units|] == units;
    conflict := exists name :: name in byName && Clash(byName[name].unique, byName[name].funcs, allowOverloads);
    ClashFound(byName, Entries(units), allowOverloads);
    ClashExactly(Entries(units), allowOverloads);
  }

  lemma ClashFound(byName: map<string, Counts>, entries: seq<Entry>, allow: bool)
    requires Tallied(byName, entries)
    ensures (exists name :: name in byName && Clash(byName[name].unique, byName[name].funcs, allow)) <==> NameClash(entries, allow)
  {
    if name :| name in byName && Clash(byName[name].unique, byName[name].funcs, allow) {
      assert CountOf(byName, name) == byName[name];
    }
    if name :| Clash(CountDecls(entries, name, false), CountDecls(entries, name, true), allow) {
      assert CountOf(byName, name) == Counts(CountDecls(entries, name, false), CountDecls(entries, name, true));
      assert name in byName;
    }
  }

  // ---------- composition ----------

  datatype ComposeResult = Composition(stmts: seq<Stmt>, pragmas: seq<Pragma>) | PragmaConflict | NameConflict

  predicate AllowsOverloads(pragmas: seq<Pragma>) {
    exists i :: 0 <= i < |pragmas| && pragmas[i].group == "language" && "overloads" in pragmas[i].values
  }

  /** Some unit allows functions to share names. */
  ghost predicate OverloadsOn(all: seq<Pragma>) {
    exists p :: p in all && p.group == "language" && "overloads" in p.values
  }

  /** Merging keeps what it decides by. */
  lemma OverloadsKept(all: seq<Pragma>)
    requires MergePragmas(all).Merged?
    ensures AllowsOverloads(MergePragmas(all).pragmas) <==> OverloadsOn(all)
  {
    MergeExact(all);
    hide MergePragmas, Consistent;
    var m := MergePragmas(all).pragmas;
    if OverloadsOn(all) {
      var p :| p in all && p.group == "language" && "overloads" in p.values;
      assert p in m;
    }
    if AllowsOverloads(m) {
      var i :| 0 <= i < |m| && m[i].group == "language" && "overloads" in m[i].values;
      assert m[i] in m;
    }
  }

  lemma SelectSnoc(entries: seq<Entry>, e: Entry, g: Group)
    ensures Select(entries + [e], g) == Select(entries, g) + if GroupOf(e) == g then [e.stmt] else []
  {
    assert (entries + [e])[..|entries|] == entries;
  }

  lemma FirstUsesSnoc(entries: seq<Entry>, e: Entry)
    ensures FirstUses(entries + [e]) ==
            FirstUses(entries) + if GroupOf(e) == UseGroup && !Named(FirstUses(entries), e.stmt.name) then [e.stmt] else []
  {
    assert (entries + [e])[..|entries|] == entries;
  }

  /** The six groups under construction. */
  datatype Groups = Groups(
    uses: seq<Stmt>, types: seq<Stmt>, globals: seq<Stmt>, mainFunctions: seq<Stmt>, moduleFunctions: seq<Stmt>, other: seq<Stmt>)

  ghost predicate Grouped(gs: Groups, entries: seq<Entry>) {
    && gs.uses == FirstUses(entries) && gs.types == Select(entries, TypeGroup) && gs.globals == Select(entries, GlobalGroup)
    && gs.mainFunctions == Select(entries, MainFunctions) && gs.moduleFunctions == Select(entries, ModuleFunctions)
    && gs.other == Select(entries, OtherGroup)
  }

  method Place(gs: Groups, seenUses: set<string>, e: Entry, ghost entries: seq<Entry>) returns (next: Groups, seen: set<string>)
    requires Grouped(gs, entries) && forall n :: n in seenUses <==> Named(gs.uses, n)
    ensures Grouped(next, entries + [e]) && forall n :: n in seen <==> Named(next.uses, n)
  {
    FirstUsesSnoc(entries, e);
    SelectSnoc(entries, e, TypeGroup);
    SelectSnoc(entries, e, GlobalGroup);
    SelectSnoc(entries, e, MainFunctions);
    SelectSnoc(entries, e, ModuleFunctions);
    SelectSnoc(entries, e, OtherGroup);
    hide Select, FirstUses;
    next, seen := gs, seenUses;
    match GroupOf(e) {
      case UseGroup =>
        if e.stmt.name !in seenUses {
          NamedSnoc(gs.uses, e.stmt);
          seen := seenUses + {e.stmt.name};
          next := gs.(uses := gs.uses + [e.stmt]);
        }
      case TypeGroup => next := gs.(types := gs.types + [e.stmt]);
      case GlobalGroup => next := gs.(globals := gs.globals + [e.stmt]);
      case MainFunctions => next := gs.(mainFunctions := gs.mainFunctions + [e.stmt]);
      case ModuleFunctions => next := gs.(moduleFunctions := gs.moduleFunctions + [e.stmt]);
      case OtherGroup => next := gs.(other := gs.other + [e.stmt]);
      case Dropped =>
    }
  }

  lemma NamedSnoc(s: seq<Stmt>, x: Stmt)
    ensures forall n :: Named(s + [x], n) <==> Named(s, n) || n == x.name
  {
    forall n
      ensures Named(s + [x], n) <==> Named(s, n) || n == x.name
    {
      if Named(s, n) { NamedPrefix(s, s + [x], n); }
      if n == x.name { assert (s + [x])[|s|].name == n; }
    }
  }

  /** Modules come in dependency-first order, the main program last. */
  method Compose(units: seq<Unit>) returns (r: ComposeResult)
    ensures r.PragmaConflict? <==> !Consistent(AllPragmas(units))
    ensures Consistent(AllPragmas(units)) ==>
              (r.NameConflict? <==> DeclaredTwice(Entries(units), OverloadsOn(AllPragmas(units))))
    ensures r.Composition? ==>
              r.stmts == Composed(Entries(units)) && MergePragmas(AllPragmas(units)) == Merged(r.pragmas)
  {
    hide Select, FirstUses, DeclaredTwice, Consistent, OnePerGroup, SameMembers, OverloadsOn, AllowsOverloads;
    MergeExact(AllPragmas(units));
    var pragmas := MergeUnitPragmas(units);
    if pragmas.Conflict? { return PragmaConflict; }
    OverloadsKept(AllPragmas(units));
    var conflict := CheckConflicts(units, AllowsOverloads(pragmas.pragmas));
    if conflict { return NameConflict; }
    var gs := Groups([], [], [], [], [], []);
    var seenUses: set<string> := {};
    NoEntries();
    for u := 0 to |units|
      invariant Grouped(gs, Entries(units[..u])) && forall n :: n in seenUses <==> Named(gs.uses, n)
    {
      ghost var before, es := Entries(units[..u]), UnitEntries(units[u]);
      assert units[..u + 1][..u] == units[..u];
      assert before + es[..0] == before;
      for k := 0 to |units[u].stmts|
        invariant Grouped(gs, before + es[..k]) && forall n :: n in seenUses <==> Named(gs.uses, n)
      {
        gs, seenUses := Place(gs, seenUses, Entry(units[u].stmts[k], units[u].isMain), before + es[..k]);
        assert before + es[..k] + [es[k]] == before + es[..k + 1];
      }
      assert before + es[..|es|] == Entries(units[..u + 1]);
    }
    assert units[..|units|] == units;
    return Composition(gs.uses + gs.types + gs.globals + gs.mainFunctions + gs.moduleFunctions + gs.other, pragmas.pragmas);
  }

  lemma NoEntries()
    ensures Grouped(Groups([], [], [], [], [], []), [])
  {
  }
}
