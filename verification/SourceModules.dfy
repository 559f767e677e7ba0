/**
 Parsed source modules and their dependency graph.  Names resolve through a fixed map to
 files; what a file contains is a list of top-level statements.
 */
module SourceModules {
  /** `id` tells statements apart that read the same. */
  datatype Stmt = Stmt(kind: StmtKind, name: string, id: nat)

  datatype StmtKind = Use | TypeDecl | Fun | Var | VarsBlock | Assign | ArrayAssign | OtherStmt

  datatype Pragma = Pragma(group: string, values: seq<string>)

  datatype File = Unparsable | Parsed(stmts: seq<Stmt>, pragmas: seq<Pragma>)

  type Files = map<string, File>

  const MAIN_NAME: string := "<main>"

  // ---------- the interface of a module ----------

  /** What an imported module may contain at top level. */
  predicate Admitted(s: Stmt) {
    s.kind.Use? || s.kind.TypeDecl? || (s.kind.Fun? && s.name != MAIN_NAME) || s.kind.Var?
  }

  predicate ValidFile(f: File) {
    f.Parsed? && forall i :: 0 <= i < |f.stmts| ==> Admitted(f.stmts[i])
  }

  function Uses(stmts: seq<Stmt>): seq<string> {
    if stmts == [] then [] else
    Uses(stmts[..|stmts| - 1]) + if stmts[|stmts| - 1].kind.Use? then [stmts[|stmts| - 1].name] else []
  }

  /** How many of the first `n` statements are uses. */
  function CountUses(stmts: seq<Stmt>, n: nat): (r: nat)
    requires n <= |stmts|
    ensures r <= n
  {
    if n == 0 then 0 else CountUses(stmts, n - 1) + if stmts[n - 1].kind == Use then 1 else 0
  }

  /** A file's text has a statement that uses `dep`. */
  ghost predicate HasUse(stmts: seq<Stmt>, dep: string) {
    exists i :: 0 <= i < |stmts| && stmts[i].kind == Use && stmts[i].name == dep
  }

  datatype Export = Export(name: string, kind: StmtKind)

  function Exports(stmts: seq<Stmt>): seq<Export> {
    if stmts == [] then [] else
    var last := stmts[|stmts| - 1];
    Exports(stmts[..|stmts| - 1]) + if last.kind.Use? then [] else [Export(last.name, last.kind)]
  }

  lemma {:induction false} InterfaceSizes(stmts: seq<Stmt>)
    ensures |Uses(stmts)| == CountUses(stmts, |stmts|) && |Exports(stmts)| == |stmts| - CountUses(stmts, |stmts|)
    decreases |stmts|
  {
    if stmts != [] {
      InterfaceSizes(stmts[..|stmts| - 1]);
      CountFront(stmts, |stmts| - 1);
    }
  }

  /** Statement `i` is in the list of uses behind as many as precede it, or in the list of exports; nothing else is there. */
  lemma {:induction false} InterfaceAt(stmts: seq<Stmt>, i: nat)
    requires i < |stmts|
    ensures |Uses(stmts)| == CountUses(stmts, |stmts|) && |Exports(stmts)| == |stmts| - CountUses(stmts, |stmts|)
    ensures stmts[i].kind == Use ==> CountUses(stmts, i) < |Uses(stmts)| && Uses(stmts)[CountUses(stmts, i)] == stmts[i].name
    ensures stmts[i].kind != Use ==>
              0 <= i - CountUses(stmts, i) < |Exports(stmts)| &&
              Exports(stmts)[i - CountUses(stmts, i)] == Export(stmts[i].name, stmts[i].kind)
    decreases |stmts|
  {
    hide CountUses;
    var front := stmts[..|stmts| - 1];
    InterfaceSizes(stmts);
    InterfaceSizes(front);
    CountFront(stmts, |front|);
    if i < |front| {
      InterfaceAt(front, i);
      CountFront(stmts, i);
    }
  }

  lemma {:induction false} CountFront(stmts: seq<Stmt>, n: nat)
    requires stmts != [] && n <= |stmts| - 1
    ensures CountUses(stmts[..|stmts| - 1], n) == CountUses(stmts, n)
    decreases n
  {
    if n > 0 { CountFront(stmts, n - 1); }
  }

  /** The list of uses holds exactly the names that are used. */
  lemma {:induction false} UsesExactly(stmts: seq<Stmt>, dep: string)
    ensures dep in Uses(stmts) <==> HasUse(stmts, dep)
    decreases |stmts|
  {
    if stmts != [] {
      var front := stmts[..|stmts| - 1];
      UsesExactly(front, dep);
      if HasUse(front, dep) {
        var i :| 0 <= i < |front| && front[i].kind == Use && front[i].name == dep;
        assert stmts[i].kind == Use && stmts[i].name == dep;
      }
      if HasUse(stmts, dep) {
        var i :| 0 <= i < |stmts| && stmts[i].kind == Use && stmts[i].name == dep;
        assert i < |front| ==> front[i] == stmts[i];
      }
    }
  }

  /** Collects dependencies and exports; stops at the first statement that a module may not have. */
  method CollectInterface(stmts: seq<Stmt>) returns (ok: bool, dependencies: seq<string>, exports: seq<Export>)
    ensures ok <==> forall i :: 0 <= i < |stmts| ==> Admitted(stmts[i])
    ensures ok ==> dependencies == Uses(stmts) && exports == Exports(stmts)
    ensures ok ==> forall d :: d in dependencies <==> HasUse(stmts, d)
  {
    dependencies, exports := [], [];
    for i := 0 to |stmts|
      invariant dependencies == Uses(stmts[..i]) && exports == Exports(stmts[..i])
      invariant forall j :: 0 <= j < i ==> Admitted(stmts[j])
    {
      assert stmts[..i + 1][..i] == stmts[..i];
      var s := stmts[i];
      match s.kind {
        case Use => dependencies := dependencies + [s.name];
        case TypeDecl => exports := exports + [Export(s.name, TypeDecl)];
        case Fun =>
          if s.name == MAIN_NAME { return false, dependencies, exports; }
          exports := exports + [Export(s.name, Fun)];
        case Var => exports := exports + [Export(s.name, Var)];
        case _ => return false, dependencies, exports;
      }
    }
    assert stmts[..|stmts|] == stmts;
    forall d ensures d in Uses(stmts) <==> HasUse(stmts, d) { UsesExactly(stmts, d); }
    return true, dependencies, exports;
  }

  // ---------- the dependency graph ----------

  predicate Valid(files: Files, name: string) { name in files && ValidFile(files[name]) }

  /** Modules that `name` uses and that resolve; other names are left to a later stage. */
  ghost predicate DependsOn(files: Files, name: string, dep: string) {
    && name in files && files[name].Parsed?
    && HasUse(files[name].stmts, dep) && dep in files
  }

  /** A chain of dependencies. */
  ghost predicate Path(files: Files, p: seq<string>) {
    && p != []
    && (forall i :: 0 <= i < |p| ==> p[i] in files)
    && (forall i :: 0 <= i < |p| - 1 ==> DependsOn(files, p[i], p[i + 1]))
  }

  predicate NoRepeats(p: seq<string>) {
    forall i, j :: 0 <= i < j < |p| ==> p[i] != p[j]
  }

  /** Everything that can be reached is valid, and no chain comes back to a module on it. */
  ghost predicate Sound(files: Files, name: string) {
    name in files && forall p :: Path(files, p) && p[0] == name ==> Valid(files, p[|p| - 1]) && NoRepeats(p)
  }

  lemma PathTail(files: Files, p: seq<string>)
    requires Path(files, p) && |p| > 1
    ensures Path(files, p[1..]) && DependsOn(files, p[0], p[1])
  {
  }

  lemma PathCons(files: Files, n: string, p: seq<string>)
    requires Path(files, p) && DependsOn(files, n, p[0])
    ensures Path(files, [n] + p)
  {
  }

  lemma PathSnoc(files: Files, p: seq<string>, n: string)
    requires Path(files, p) && DependsOn(files, p[|p| - 1], n)
    ensures Path(files, p + [n])
  {
  }

  lemma PathPart(files: Files, p: seq<string>, i: nat, j: nat)
    requires Path(files, p) && i < j <= |p|
    ensures Path(files, p[i..j])
  {
  }

  lemma Circle(files: Files, p: seq<string>, n: string)
    requires Path(files, p) && n in p && DependsOn(files, p[|p| - 1], n)
    ensures !Sound(files, n)
  {
    var k :| 0 <= k < |p| && p[k] == n;
    PathPart(files, p, k, |p|);
    PathSnoc(files, p[k..], n);
    var c := p[k..] + [n];
    assert c[0] == c[|c| - 1];
  }

  /** Soundness is validity here and soundness of every dependency. */
  lemma SoundStep(files: Files, n: string)
    ensures Sound(files, n) <==> Valid(files, n) && forall d :: DependsOn(files, n, d) ==> Sound(files, d)
  {
    if Sound(files, n) {
      assert Path(files, [n]) && [n][0] == n;
      forall d | DependsOn(files, n, d)
        ensures Sound(files, d)
      {
        SoundBelow(files, n, d);
      }
    }
    if Valid(files, n) && forall d :: DependsOn(files, n, d) ==> Sound(files, d) {
      forall p | Path(files, p) && p[0] == n
        ensures Valid(files, p[|p| - 1]) && NoRepeats(p)
      {
        SoundAbove(files, n, p);
      }
    }
  }

  lemma SoundBelow(files: Files, n: string, d: string)
    requires Sound(files, n) && DependsOn(files, n, d)
    ensures Sound(files, d)
  {
    forall p | Path(files, p) && p[0] == d
      ensures Valid(files, p[|p| - 1]) && NoRepeats(p)
    {
      var q := [n] + p;
      PathCons(files, n, p);
      assert q[0] == n && NoRepeats(q) && q[|q| - 1] == p[|p| - 1];
      forall i, j | 0 <= i < j < |p|
        ensures p[i] != p[j]
      {
        assert q[i + 1] == p[i] && q[j + 1] == p[j];
      }
    }
  }

  lemma SoundAbove(files: Files, n: string, p: seq<string>)
    requires Valid(files, n) && forall d :: DependsOn(files, n, d) ==> Sound(files, d)
    requires Path(files, p) && p[0] == n
    ensures Valid(files, p[|p| - 1]) && NoRepeats(p)
  {
    if |p| > 1 {
      PathTail(files, p);
      var q := p[1..];
      assert Sound(files, q[0]) && q[|q| - 1] == p[|p| - 1];
      if n in q {
        var k :| 0 <= k < |q| && q[k] == n;
        PathPart(files, q, 0, k + 1);
        assert q[..k + 1][k] == n && q[0] in q[0..k + 1];
        Circle(files, q[0..k + 1], q[0]);
      }
      assert forall j :: 1 <= j < |p| ==> p[j] == q[j - 1];
    }
  }
}
