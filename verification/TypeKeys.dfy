/**
 Type keys: the text under which casts and operators of a type are looked up.  Types with the
 same key are the same when names and values avoid six of its delimiters, and not with fewer.
 */
module TypeKeys {
  import opened Decimals

  datatype IntKind = I8 | I16 | I32 | I64 | I128 | U8 | U16 | U32 | U64 | U128

  /** Source types, without mutability flags and without what a named type stands for. */
  datatype Ty =
    | Missing
    | Int(kind: IntKind)
    | Float | Bool | String | Char | Void
    | Named(name: string, args: seq<Arg>)
    | Future(result: Ty)
    | Array(arity: nat, element: Ty)
    | Ptr(to: Ty)
    | Ref(to: Ty)
    | Fun(params: seq<Ty>, ret: Ty)
    | Struct(fields: seq<Field>)

  datatype Arg = TypeArg(t: Ty) | ValueArg(v: string)

  datatype Field = Field(name: string, t: Ty)

  // ---------- the key ----------

  function IntName(k: IntKind): string {
    match k
    case I8 => "i8" case I16 => "i16" case I32 => "i32" case I64 => "i64" case I128 => "i128"
    case U8 => "u8" case U16 => "u16" case U32 => "u32" case U64 => "u64" case U128 => "u128"
  }

  /** The word a key begins with. */
  function Tag(t: Ty): string {
    match t
    case Missing => "unknown"
    case Int(k) => IntName(k)
    case Float => "Float"
    case Bool => "Bool"
    case String => "String"
    case Char => "Char"
    case Void => "Void"
    case Named(_, _) => "Named"
    case Future(_) => "Future"
    case Array(_, _) => "Array"
    case Ptr(_) => "Ptr"
    case Ref(_) => "Ref"
    case Fun(_, _) => "Fun"
    case Struct(_) => "Struct"
  }

  function TypeKey(t: Ty): string
    decreases t, 0
  {
    match t
    case Named(name, args) => "Named::" + name + (if args == [] then "" else "[" + ArgKeys(args) + "]")
    case Future(r) => "Future::" + TypeKey(r)
    case Array(n, e) => "Array::" + Decimal(n) + "::" + TypeKey(e)
    case Ptr(to) => "Ptr::" + TypeKey(to)
    case Ref(to) => "Ref::" + TypeKey(to)
    case Fun(ps, r) => "Fun::(" + ParamKeys(ps) + ")->" + TypeKey(r)
    case Struct(fs) => "Struct::{" + FieldKeys(fs) + "}"
    case _ => Tag(t)
  }

  function ArgKey(a: Arg): string
    decreases a, 1
  {
    match a case TypeArg(t) => TypeKey(t) case ValueArg(v) => "Value::" + v
  }

  /** Separated by commas; built from the end. */
  function ArgKeys(args: seq<Arg>): string
    decreases args
  {
    if args == [] then "" else ArgKey(args[0]) + (if |args| == 1 then "" else "," + ArgKeys(args[1..]))
  }

  function ParamKeys(ps: seq<Ty>): string
    decreases ps
  {
    if ps == [] then "" else TypeKey(ps[0]) + (if |ps| == 1 then "" else "," + ParamKeys(ps[1..]))
  }

  function FieldKeys(fs: seq<Field>): string
    decreases fs
  {
    if fs == [] then "" else fs[0].name + ":" + TypeKey(fs[0].t) + ";" + FieldKeys(fs[1..])
  }

  // ---------- the key, piece by piece ----------

  lemma {:induction false} ArgSnoc(args: seq<Arg>, i: nat)
    requires i < |args|
    ensures ArgKeys(args[..i + 1]) == if i == 0 then ArgKey(args[0]) else ArgKeys(args[..i]) + "," + ArgKey(args[i])
    decreases i
  {
    hide ArgKey;
    if i == 0 {
      assert args[..1] == [args[0]];
      assert ArgKey(args[0]) + "" == ArgKey(args[0]);
    } else {
      ArgSnoc(args[1..], i - 1);
      assert args[..i + 1][1..] == args[1..][..i] && args[..i][1..] == args[1..][..i - 1];
      var first := ArgKey(args[0]);
      if i == 1 {
        assert first + "" == first;
      } else {
        assert first + ("," + (ArgKeys(args[1..][..i - 1]) + "," + ArgKey(args[i])))
            == first + ("," + ArgKeys(args[1..][..i - 1])) + "," + ArgKey(args[i]);
      }
    }
  }

  lemma {:induction false} ParamSnoc(ps: seq<Ty>, i: nat)
    requires i < |ps|
    ensures ParamKeys(ps[..i + 1]) == if i == 0 then TypeKey(ps[0]) else ParamKeys(ps[..i]) + "," + TypeKey(ps[i])
    decreases i
  {
    hide TypeKey;
    if i == 0 {
      assert ps[..1] == [ps[0]];
      assert TypeKey(ps[0]) + "" == TypeKey(ps[0]);
    } else {
      ParamSnoc(ps[1..], i - 1);
      assert ps[..i + 1][1..] == ps[1..][..i] && ps[..i][1..] == ps[1..][..i - 1];
      var first := TypeKey(ps[0]);
      if i == 1 {
        assert first + "" == first;
      } else {
        assert first + ("," + (ParamKeys(ps[1..][..i - 1]) + "," + TypeKey(ps[i])))
            == first + ("," + ParamKeys(ps[1..][..i - 1])) + "," + TypeKey(ps[i]);
      }
    }
  }

  lemma {:induction false} FieldSnoc(fs: seq<Field>, i: nat)
    requires i < |fs|
    ensures FieldKeys(fs[..i + 1]) == FieldKeys(fs[..i]) + fs[i].name + ":" + TypeKey(fs[i].t) + ";"
    decreases i
  {
    hide TypeKey;
    if i == 0 {
      assert fs[..1] == [fs[0]] && fs[..1][1..] == [];
    } else {
      FieldSnoc(fs[1..], i - 1);
      assert fs[..i + 1][1..] == fs[1..][..i] && fs[..i][1..] == fs[1..][..i - 1];
    }
  }

  method BuildKey(t: Ty) returns (key: string)
    ensures key == TypeKey(t)
    decreases t, 0
  {
    match t {
      case Named(name, args) =>
        key := "Named::" + name;
        if args != [] {
          var list := "";
          for i := 0 to |args|
            invariant list == ArgKeys(args[..i])
          {
            ArgSnoc(args, i);
            if i != 0 { list := list + ","; }
            var part := BuildArgKey(args[i]);
            list := list + part;
          }
          assert args[..|args|] == args;
          key := key + ("[" + list + "]");
        }
      case Future(r) =>
        var k := BuildKey(r);
        key := "Future::" + k;
      case Array(n, e) =>
        var k := BuildKey(e);
        key := "Array::" + Decimal(n) + "::" + k;
      case Ptr(to) =>
        var k := BuildKey(to);
        key := "Ptr::" + k;
      case Ref(to) =>
        var k := BuildKey(to);
        key := "Ref::" + k;
      case Fun(ps, r) =>
        var list := "";
        for i := 0 to |ps|
          invariant list == ParamKeys(ps[..i])
        {
          ParamSnoc(ps, i);
          if i > 0 { list := list + ","; }
          var part := BuildKey(ps[i]);
          list := list + part;
        }
        assert ps[..|ps|] == ps;
        var k := BuildKey(r);
        key := "Fun::(" + list + ")->" + k;
      case Struct(fs) =>
        var list := "";
        for i := 0 to |fs|
          invariant list == FieldKeys(fs[..i])
        {
          FieldSnoc(fs, i);
          var part := BuildKey(fs[i].t);
          list := list + fs[i].name + ":" + part + ";";
        }
        assert fs[..|fs|] == fs;
        key := "Struct::{" + list + "}";
      case _ => key := Tag(t);
    }
  }

  method BuildArgKey(a: Arg) returns (key: string)
    ensures key == ArgKey(a)
    decreases a, 1
  {
    match a {
      case TypeArg(t) => key := BuildKey(t);
      case ValueArg(v) => key := "Value::" + v;
    }
  }

  // ---------- words and punctuation ----------

  /** All characters that keys are punctuated with. */
  const DELIMITERS: set<char> := {':', ',', ';', '[', ']', '(', ')', '{', '}'}

  /** Those that a name must not hold. */
  const MARKS: set<char> := {':', ',', ';', '[', ']', ')'}

  predicate IsMark(c: char) { c in MARKS }

  predicate Without(s: string, bad: set<char>) { forall i :: 0 <= i < |s| ==> s[i] !in bad }

  predicate Plain(s: string) { Without(s, MARKS) }

  /** The end of the text, or a mark. */
  predicate Cut(s: string) { s != [] ==> IsMark(s[0]) }

  /** What may stand behind a key inside another key. */
  predicate Ends(s: string) { s != [] ==> s[0] == ',' || s[0] == ']' || s[0] == ')' || s[0] == ';' }

  /** Names and values hold none of the characters. */
  predicate Avoids(t: Ty, bad: set<char>)
    decreases t, 0
  {
    match t
    case Named(name, args) => Without(name, bad) && AvoidsArgs(args, bad)
    case Future(r) => Avoids(r, bad)
    case Array(_, e) => Avoids(e, bad)
    case Ptr(to) => Avoids(to, bad)
    case Ref(to) => Avoids(to, bad)
    case Fun(ps, r) => AvoidsParams(ps, bad) && Avoids(r, bad)
    case Struct(fs) => AvoidsFields(fs, bad)
    case _ => true
  }

  predicate AvoidsArg(a: Arg, bad: set<char>)
    decreases a, 1
  {
    match a case TypeArg(t) => Avoids(t, bad) case ValueArg(v) => Without(v, bad)
  }

  predicate AvoidsArgs(args: seq<Arg>, bad: set<char>)
    decreases args
  {
    args == [] || (AvoidsArg(args[0], bad) && AvoidsArgs(args[1..], bad))
  }

  predicate AvoidsParams(ps: seq<Ty>, bad: set<char>)
    decreases ps
  {
    ps == [] || (Avoids(ps[0], bad) && AvoidsParams(ps[1..], bad))
  }

  predicate AvoidsFields(fs: seq<Field>, bad: set<char>)
    decreases fs
  {
    fs == [] || (Without(fs[0].name, bad) && Avoids(fs[0].t, bad) && AvoidsFields(fs[1..], bad))
  }

  /** Names and values without marks. */
  predicate Clean(t: Ty) { Avoids(t, MARKS) }

  predicate CleanArg(a: Arg) { AvoidsArg(a, MARKS) }

  predicate CleanArgs(args: seq<Arg>) { AvoidsArgs(args, MARKS) }

  predicate CleanParams(ps: seq<Ty>) { AvoidsParams(ps, MARKS) }

  predicate CleanFields(fs: seq<Field>) { AvoidsFields(fs, MARKS) }

  function CharAt(s: string, i: nat): char { if i < |s| then s[i] else 'x' }

  lemma BehindWord(w: string, a: string)
    ensures CharAt(w + a, |w|) == CharAt(a, 0)
  {
  }

  lemma InsideWord(w: string, a: string, i: nat)
    requires Plain(w)
    ensures i < |w| ==> CharAt(w + a, i) == CharAt(w, i) && !IsMark(CharAt(w, i))
  {
  }

  /** Two words before a mark or the end are read apart from what follows in one way only. */
  lemma WordSplit(w: string, a: string, x: string, b: string)
    requires Plain(w) && Plain(x) && Cut(a) && Cut(b) && w + a == x + b
    ensures w == x && a == b
  {
    BehindWord(w, a);
    BehindWord(x, b);
    InsideWord(w, a, |x|);
    InsideWord(x, b, |w|);
    assert |w + a| == |x + b|;
    assert |w| == |x|;
    assert w == (w + a)[..|w|] && x == (x + b)[..|x|];
    assert a == (w + a)[|w|..] && b == (x + b)[|x|..];
  }

  lemma SamePrefix(p: string, a: string, b: string)
    requires p + a == p + b
    ensures a == b
  {
    assert (p + a)[|p|..] == a && (p + b)[|p|..] == b;
  }

  lemma TagPlain(t: Ty)
    ensures Plain(Tag(t)) && Tag(t) != []
  {
  }

  /** What follows the first word. */
  function Tail(t: Ty): string {
    match t
    case Named(name, args) => "::" + name + (if args == [] then "" else "[" + ArgKeys(args) + "]")
    case Future(r) => "::" + TypeKey(r)
    case Array(n, e) => "::" + Decimal(n) + "::" + TypeKey(e)
    case Ptr(to) => "::" + TypeKey(to)
    case Ref(to) => "::" + TypeKey(to)
    case Fun(ps, r) => "::(" + ParamKeys(ps) + ")->" + TypeKey(r)
    case Struct(fs) => "::{" + FieldKeys(fs) + "}"
    case _ => ""
  }

  lemma Associate(a: string, b: string, c: string, ab: string)
    requires ab == a + b
    ensures ab + c == a + (b + c)
  {
  }

  lemma KeyParts(t: Ty)
    ensures TypeKey(t) == Tag(t) + Tail(t) && Cut(Tail(t))
  {
    hide ArgKeys, ParamKeys, FieldKeys, Decimal;
    match t
    case Named(name, args) =>
      var more := if args == [] then "" else "[" + ArgKeys(args) + "]";
      Associate("Named", "::", name, "Named::");
      Associate("Named", "::" + name, more, "Named::" + name);
    case Future(r) => Associate("Future", "::", TypeKey(r), "Future::");
    case Array(n, e) =>
      Associate("Array", "::", Decimal(n), "Array::");
      Associate("Array", "::" + Decimal(n), "::", "Array::" + Decimal(n));
      Associate("Array", "::" + Decimal(n) + "::", TypeKey(e), "Array::" + Decimal(n) + "::");
    case Ptr(to) => Associate("Ptr", "::", TypeKey(to), "Ptr::");
    case Ref(to) => Associate("Ref", "::", TypeKey(to), "Ref::");
    case Fun(ps, r) =>
      Associate("Fun", "::(", ParamKeys(ps), "Fun::(");
      Associate("Fun", "::(" + ParamKeys(ps), ")->", "Fun::(" + ParamKeys(ps));
      Associate("Fun", "::(" + ParamKeys(ps) + ")->", TypeKey(r), "Fun::(" + ParamKeys(ps) + ")->");
    case Struct(fs) =>
      Associate("Struct", "::{", FieldKeys(fs), "Struct::{");
      Associate("Struct", "::{" + FieldKeys(fs), "}", "Struct::{" + FieldKeys(fs));
    case _ => assert Tag(t) + "" == Tag(t);
  }

  // ---------- the first word decides the kind of type ----------

  function Code(t: Ty): nat {
    match t
    case Missing => 0 case Float => 1 case Bool => 2 case String => 3 case Char => 4 case Void => 5
    case Named(_, _) => 6 case Future(_) => 7 case Array(_, _) => 8 case Ptr(_) => 9 case Ref(_) => 10
    case Fun(_, _) => 11 case Struct(_) => 12
    case Int(k) => IntCode(k)
  }

  function IntCode(k: IntKind): nat {
    match k
    case I8 => 20 case I16 => 21 case I32 => 22 case I64 => 23 case I128 => 24
    case U8 => 25 case U16 => 26 case U32 => 27 case U64 => 28 case U128 => 29
  }

  function WordCode(w: string): nat {
    if w == "unknown" then 0 else if w == "Float" then 1 else if w == "Bool" then 2 else if w == "String" then 3
    else if w == "Char" then 4 else if w == "Void" then 5 else if w == "Named" then 6 else if w == "Future" then 7
    else if w == "Array" then 8 else if w == "Ptr" then 9 else if w == "Ref" then 10 else if w == "Fun" then 11
    else if w == "Struct" then 12 else 20 + IntWordCode(w)
  }

  function IntWordCode(w: string): nat {
    if w == "i8" then 0 else if w == "i16" then 1 else if w == "i32" then 2 else if w == "i64" then 3
    else if w == "i128" then 4 else if w == "u8" then 5 else if w == "u16" then 6 else if w == "u32" then 7
    else if w == "u64" then 8 else if w == "u128" then 9 else 10
  }

  lemma TagCode(t: Ty)
    ensures WordCode(Tag(t)) == Code(t) && Tag(t) != "Value"
  {
  }

  lemma SameTag(t: Ty, u: Ty)
    requires Tag(t) == Tag(u)
    ensures Code(t) == Code(u)
  {
    TagCode(t);
    TagCode(u);
  }

  // ---------- the parts of a key, from left to right ----------

  lemma KeyThen(t: Ty, a: string)
    ensures TypeKey(t) + a == Tag(t) + (Tail(t) + a)
    ensures Cut(Tail(t) + a) || Tail(t) == ""
  {
    KeyParts(t);
    hide TypeKey, Tail, Tag;
    Associate(Tag(t), Tail(t), a, TypeKey(t));
  }

  lemma HeadTail<T>(xs: seq<T>, ys: seq<T>)
    requires xs != [] && ys != [] && xs[0] == ys[0] && xs[1..] == ys[1..]
    ensures xs == ys
  {
    assert xs == [xs[0]] + xs[1..] && ys == [ys[0]] + ys[1..];
  }

  lemma Two(p: string, x: string, a: string)
    ensures p + x + a == p + (x + a)
  {
  }

  lemma Three(p: string, x: string, y: string, a: string)
    ensures p + x + y + a == p + (x + (y + a))
  {
    Two(p, x, y);
    Two(p, x + y, a);
    Two(x, y, a);
  }

  lemma Four(p: string, x: string, y: string, z: string, a: string)
    ensures p + x + y + z + a == p + (x + (y + (z + a)))
  {
    Three(p, x, y, z);
    Two(p, x + (y + z), a);
    Two(x, y + z, a);
    Two(y, z, a);
  }

  /** The arguments of a named type with their brackets, if it has any. */
  function Bracketed(args: seq<Arg>): string { if args == [] then "" else "[" + ArgKeys(args) + "]" }

  lemma TailThen(t: Ty, a: string)
    ensures match t
            case Named(name, args) => Tail(t) + a == "::" + (name + (Bracketed(args) + a))
            case Future(r) => Tail(t) + a == "::" + (TypeKey(r) + a)
            case Array(n, e) => Tail(t) + a == "::" + (Decimal(n) + ("::" + (TypeKey(e) + a)))
            case Ptr(to) => Tail(t) + a == "::" + (TypeKey(to) + a)
            case Ref(to) => Tail(t) + a == "::" + (TypeKey(to) + a)
            case Fun(ps, r) => Tail(t) + a == "::(" + (ParamKeys(ps) + (")->" + (TypeKey(r) + a)))
            case Struct(fs) => Tail(t) + a == "::{" + (FieldKeys(fs) + ("}" + a))
            case _ => Tail(t) + a == a
  {
    hide TypeKey, ArgKeys, ParamKeys, FieldKeys;
    match t
    case Named(name, args) => Three("::", name, Bracketed(args), a);
    case Future(r) => Two("::", TypeKey(r), a);
    case Array(n, e) => Four("::", Decimal(n), "::", TypeKey(e), a);
    case Ptr(to) => Two("::", TypeKey(to), a);
    case Ref(to) => Two("::", TypeKey(to), a);
    case Fun(ps, r) => Four("::(", ParamKeys(ps), ")->", TypeKey(r), a);
    case Struct(fs) => Three("::{", FieldKeys(fs), "}", a);
    case _ => assert "" + a == a;
  }

  // ---------- keys are read in one way only ----------

  /** Two keys, each before something that ends it, are equal only if the types and what follows are. */
  lemma {:induction false} KeyUnique(t: Ty, u: Ty, a: string, b: string)
    requires Clean(t) && Clean(u) && Ends(a) && Ends(b) && TypeKey(t) + a == TypeKey(u) + b
    ensures t == u && a == b
    decreases t, 4
  {
    TagPlain(t);
    TagPlain(u);
    hide TypeKey, Tail, Tag, Clean;
    KeyThen(t, a);
    KeyThen(u, b);
    assert Cut(Tail(t) + a) && Cut(Tail(u) + b) by {
      assert "" + a == a && "" + b == b;
    }
    WordSplit(Tag(t), Tail(t) + a, Tag(u), Tail(u) + b);
    SameTag(t, u);
    TailUnique(t, u, a, b);
  }

  lemma {:induction false} TailUnique(t: Ty, u: Ty, a: string, b: string)
    requires Clean(t) && Clean(u) && Ends(a) && Ends(b) && Code(t) == Code(u) && Tail(t) + a == Tail(u) + b
    ensures t == u && a == b
    decreases t, 3
  {
    TailThen(t, a);
    TailThen(u, b);
    hide TypeKey, Tail, ArgKeys, ParamKeys, FieldKeys, Ends;
    match t
    case Named(name, args) =>
      SamePrefix("::", name + (Bracketed(args) + a), u.name + (Bracketed(u.args) + b));
      NamedUnique(t, name, args, u.name, u.args, a, b);
    case Future(r) =>
      SamePrefix("::", TypeKey(r) + a, TypeKey(u.result) + b);
      KeyUnique(r, u.result, a, b);
    case Array(n, e) =>
      var x, y := "::" + (TypeKey(e) + a), "::" + (TypeKey(u.element) + b);
      SamePrefix("::", Decimal(n) + x, Decimal(u.arity) + y);
      ArityUnique(n, u.arity, x, y);
      SamePrefix("::", TypeKey(e) + a, TypeKey(u.element) + b);
      KeyUnique(e, u.element, a, b);
    case Ptr(to) =>
      SamePrefix("::", TypeKey(to) + a, TypeKey(u.to) + b);
      KeyUnique(to, u.to, a, b);
    case Ref(to) =>
      SamePrefix("::", TypeKey(to) + a, TypeKey(u.to) + b);
      KeyUnique(to, u.to, a, b);
    case Fun(ps, r) =>
      FunUnique(t, ps, r, u.params, u.ret, a, b);
    case Struct(fs) =>
      SamePrefix("::{", FieldKeys(fs) + ("}" + a), FieldKeys(u.fields) + ("}" + b));
      FieldsUnique(fs, u.fields, a, b);
    case _ =>
  }

  lemma ArityUnique(m: nat, n: nat, x: string, y: string)
    requires x != "" && y != "" && x[0] == ':' && y[0] == ':' && Decimal(m) + x == Decimal(n) + y
    ensures m == n && x == y
  {
    DecimalPlain(m);
    DecimalPlain(n);
    WordSplit(Decimal(m), x, Decimal(n), y);
    DecimalInjective(m, n);
  }

  lemma DecimalPlain(n: nat)
    ensures Plain(Decimal(n))
  {
  }

  lemma BracketedThen(args: seq<Arg>, a: string)
    ensures args == [] ==> Bracketed(args) + a == a
    ensures args != [] ==> Bracketed(args) + a == "[" + (ArgKeys(args) + ("]" + a))
    ensures Ends(a) ==> Cut(Bracketed(args) + a)
    ensures Ends(a) ==> (args == [] <==> !(Bracketed(args) + a != "" && (Bracketed(args) + a)[0] == '['))
  {
    hide ArgKeys;
    if args != [] { Three("[", ArgKeys(args), "]", a); } else { assert "" + a == a; }
  }

  lemma {:induction false} NamedUnique(t: Ty, m: string, xs: seq<Arg>, n: string, ys: seq<Arg>, a: string, b: string)
    requires t == Named(m, xs) && Plain(m) && Plain(n) && CleanArgs(xs) && CleanArgs(ys) && Ends(a) && Ends(b)
    requires m + (Bracketed(xs) + a) == n + (Bracketed(ys) + b)
    ensures m == n && xs == ys && a == b
    decreases t, 2
  {
    BracketedThen(xs, a);
    BracketedThen(ys, b);
    hide Bracketed, ArgKeys, Plain, CleanArgs;
    WordSplit(m, Bracketed(xs) + a, n, Bracketed(ys) + b);
    if xs != [] {
      SamePrefix("[", ArgKeys(xs) + ("]" + a), ArgKeys(ys) + ("]" + b));
      ArgsUnique(xs, ys, a, b);
    }
  }

  lemma {:induction false} ArgUnique(x: Arg, y: Arg, a: string, b: string)
    requires CleanArg(x) && CleanArg(y) && Ends(a) && Ends(b) && ArgKey(x) + a == ArgKey(y) + b
    ensures x == y && a == b
    decreases x, 5
  {
    hide TypeKey;
    if x.TypeArg? && y.TypeArg? {
      KeyUnique(x.t, y.t, a, b);
    } else if x.ValueArg? && y.ValueArg? {
      Two("Value::", x.v, a);
      Two("Value::", y.v, b);
      SamePrefix("Value::", x.v + a, y.v + b);
      WordSplit(x.v, a, y.v, b);
    } else if x.TypeArg? {
      NotAValue(x.t, a, y.v, b);
    } else {
      NotAValue(y.t, b, x.v, a);
    }
  }

  /** No type's key starts like a value's. */
  lemma NotAValue(t: Ty, a: string, v: string, b: string)
    requires Ends(a)
    ensures TypeKey(t) + a != "Value::" + v + b
  {
    TagPlain(t);
    TagCode(t);
    hide TypeKey, Tail, Tag;
    KeyThen(t, a);
    assert Cut(Tail(t) + a) by { assert "" + a == a; }
    assert "Value::" == "Value" + "::";
    Three("Value", "::", v, b);
    if TypeKey(t) + a == "Value::" + v + b {
      WordSplit(Tag(t), Tail(t) + a, "Value", "::" + (v + b));
    }
  }

  /** What follows the first argument: more behind a comma, or the closing bracket. */
  function ArgRest(args: seq<Arg>, a: string): string
    requires args != []
  {
    if |args| == 1 then "]" + a else "," + (ArgKeys(args[1..]) + ("]" + a))
  }

  lemma ArgsThen(args: seq<Arg>, a: string)
    requires args != []
    ensures ArgKeys(args) + ("]" + a) == ArgKey(args[0]) + ArgRest(args, a)
    ensures ArgRest(args, a) != "" && (|args| == 1 <==> ArgRest(args, a)[0] == ']') && Ends(ArgRest(args, a))
  {
    hide ArgKey;
    if |args| == 1 {
      assert ArgKey(args[0]) + "" == ArgKey(args[0]);
    } else {
      Two(ArgKey(args[0]), "," + ArgKeys(args[1..]), "]" + a);
      Two(",", ArgKeys(args[1..]), "]" + a);
    }
  }

  lemma {:induction false} ArgsUnique(xs: seq<Arg>, ys: seq<Arg>, a: string, b: string)
    requires xs != [] && ys != [] && CleanArgs(xs) && CleanArgs(ys) && ArgKeys(xs) + ("]" + a) == ArgKeys(ys) + ("]" + b)
    ensures xs == ys && a == b
    decreases xs
  {
    ArgsThen(xs, a);
    ArgsThen(ys, b);
    hide ArgKey, ArgKeys;
    ArgUnique(xs[0], ys[0], ArgRest(xs, a), ArgRest(ys, b));
    if |xs| == 1 {
      SamePrefix("]", a, b);
    } else {
      SamePrefix(",", ArgKeys(xs[1..]) + ("]" + a), ArgKeys(ys[1..]) + ("]" + b));
      ArgsUnique(xs[1..], ys[1..], a, b);
    }
    HeadTail(xs, ys);
  }

  function ParamRest(ps: seq<Ty>, a: string): string
    requires ps != []
  {
    if |ps| == 1 then ")" + a else "," + (ParamKeys(ps[1..]) + (")" + a))
  }

  lemma ParamsThen(ps: seq<Ty>, a: string)
    requires ps != []
    ensures ParamKeys(ps) + (")" + a) == TypeKey(ps[0]) + ParamRest(ps, a)
    ensures ParamRest(ps, a) != "" && (|ps| == 1 <==> ParamRest(ps, a)[0] == ')') && Ends(ParamRest(ps, a))
  {
    hide TypeKey;
    if |ps| == 1 {
      assert TypeKey(ps[0]) + "" == TypeKey(ps[0]);
    } else {
      Two(TypeKey(ps[0]), "," + ParamKeys(ps[1..]), ")" + a);
      Two(",", ParamKeys(ps[1..]), ")" + a);
    }
  }

  lemma {:induction false} ParamsUnique(xs: seq<Ty>, ys: seq<Ty>, a: string, b: string)
    requires xs != [] && ys != [] && CleanParams(xs) && CleanParams(ys) && ParamKeys(xs) + (")" + a) == ParamKeys(ys) + (")" + b)
    ensures xs == ys && a == b
    decreases xs
  {
    ParamsThen(xs, a);
    ParamsThen(ys, b);
    hide TypeKey, ParamKeys;
    KeyUnique(xs[0], ys[0], ParamRest(xs, a), ParamRest(ys, b));
    if |xs| == 1 {
      SamePrefix(")", a, b);
    } else {
      SamePrefix(",", ParamKeys(xs[1..]) + (")" + a), ParamKeys(ys[1..]) + (")" + b));
      ParamsUnique(xs[1..], ys[1..], a, b);
    }
    HeadTail(xs, ys);
  }

  /** A key begins with a letter, so a parameter list is empty exactly when it closes at once. */
  lemma ParamsClose(ps: seq<Ty>, a: string)
    ensures ParamKeys(ps) + (")" + a) != "" && (ps == [] <==> (ParamKeys(ps) + (")" + a))[0] == ')')
  {
    if ps == [] {
      assert "" + (")" + a) == ")" + a;
    } else {
      ParamsThen(ps, a);
      KeyParts(ps[0]);
      TagPlain(ps[0]);
      hide TypeKey, ParamKeys, Tag, Tail;
      assert TypeKey(ps[0])[0] == Tag(ps[0])[0];
    }
  }

  lemma {:induction false} FunUnique(t: Ty, ps: seq<Ty>, r: Ty, qs: seq<Ty>, w: Ty, a: string, b: string)
    requires t == Fun(ps, r) && CleanParams(ps) && Clean(r) && CleanParams(qs) && Clean(w) && Ends(a) && Ends(b)
    requires "::(" + (ParamKeys(ps) + (")->" + (TypeKey(r) + a))) == "::(" + (ParamKeys(qs) + (")->" + (TypeKey(w) + b)))
    ensures ps == qs && r == w && a == b
    decreases t, 2
  {
    hide TypeKey, ParamKeys;
    var x, y := "->" + (TypeKey(r) + a), "->" + (TypeKey(w) + b);
    assert ")->" == ")" + "->";
    Two(")", "->", TypeKey(r) + a);
    Two(")", "->", TypeKey(w) + b);
    SamePrefix("::(", ParamKeys(ps) + (")" + x), ParamKeys(qs) + (")" + y));
    ParamsClose(ps, x);
    ParamsClose(qs, y);
    if ps == [] {
      NoParams(x);
      NoParams(y);
      SamePrefix(")", x, y);
    } else {
      ParamsUnique(ps, qs, x, y);
    }
    SamePrefix("->", TypeKey(r) + a, TypeKey(w) + b);
    KeyUnique(r, w, a, b);
  }

  lemma NoParams(a: string)
    ensures ParamKeys([]) + (")" + a) == ")" + a
  {
  }

  lemma FieldsThen(fs: seq<Field>, a: string)
    ensures fs == [] ==> FieldKeys(fs) + ("}" + a) == "}" + a
    ensures fs != [] ==> FieldKeys(fs) + ("}" + a) ==
                         fs[0].name + (":" + (TypeKey(fs[0].t) + (";" + (FieldKeys(fs[1..]) + ("}" + a)))))
  {
    hide TypeKey;
    if fs == [] {
      assert "" + ("}" + a) == "}" + a;
    } else {
      var f := fs[0];
      Four(f.name, ":", TypeKey(f.t), ";", FieldKeys(fs[1..]) + ("}" + a));
      Two(f.name + ":" + TypeKey(f.t) + ";", FieldKeys(fs[1..]), "}" + a);
    }
  }

  /** A closing brace that ends a field list is followed by what ends a key, one in a field's name is not. */
  predicate Closes(s: string) { s != "" && s[0] == '}' && Ends(s[1..]) }

  lemma FieldsClose(fs: seq<Field>, a: string)
    requires CleanFields(fs) && Ends(a)
    ensures fs == [] <==> Closes(FieldKeys(fs) + ("}" + a))
  {
    FieldsThen(fs, a);
    hide TypeKey, FieldKeys;
    var all := FieldKeys(fs) + ("}" + a);
    if fs == [] {
      assert all[1..] == a;
    } else {
      NameOpens(fs[0].name, TypeKey(fs[0].t) + (";" + (FieldKeys(fs[1..]) + ("}" + a))));
    }
  }

  lemma NameOpens(name: string, rest: string)
    requires Plain(name)
    ensures !Closes(name + (":" + rest))
  {
    var all := name + (":" + rest);
    if name == "" {
      assert all[0] == ':';
    } else if |name| == 1 {
      assert all[1..][0] == ':';
    } else {
      assert all[1..][0] == name[1] && !IsMark(name[1]);
    }
  }

  lemma {:induction false} FieldsUnique(xs: seq<Field>, ys: seq<Field>, a: string, b: string)
    requires CleanFields(xs) && CleanFields(ys) && Ends(a) && Ends(b) && FieldKeys(xs) + ("}" + a) == FieldKeys(ys) + ("}" + b)
    ensures xs == ys && a == b
    decreases xs
  {
    FieldsThen(xs, a);
    FieldsThen(ys, b);
    FieldsClose(xs, a);
    FieldsClose(ys, b);
    hide TypeKey, FieldKeys, Closes;
    if xs == [] {
      SamePrefix("}", a, b);
    } else {
      var c, d := ";" + (FieldKeys(xs[1..]) + ("}" + a)), ";" + (FieldKeys(ys[1..]) + ("}" + b));
      WordSplit(xs[0].name, ":" + (TypeKey(xs[0].t) + c), ys[0].name, ":" + (TypeKey(ys[0].t) + d));
      SamePrefix(":", TypeKey(xs[0].t) + c, TypeKey(ys[0].t) + d);
      KeyUnique(xs[0].t, ys[0].t, c, d);
      SamePrefix(";", FieldKeys(xs[1..]) + ("}" + a), FieldKeys(ys[1..]) + ("}" + b));
      FieldsUnique(xs[1..], ys[1..], a, b);
      HeadTail(xs, ys);
    }
  }

  /** Types with the same key are the same type. */
  lemma KeyInjective(t: Ty, u: Ty)
    requires Clean(t) && Clean(u) && TypeKey(t) == TypeKey(u)
    ensures t == u
  {
    hide TypeKey;
    KeyUnique(t, u, "", "");
  }

  // ---------- which characters a name must not hold ----------

  /** Different types with the same key, whose names hold no delimiter but `m`. */
  predicate Collide(t: Ty, u: Ty, m: char) {
    t != u && TypeKey(t) == TypeKey(u) && Avoids(t, DELIMITERS - {m}) && Avoids(u, DELIMITERS - {m})
  }

  lemma ListKeys(a: Arg, b: Arg, bad: set<char>)
    ensures ArgKeys([a]) == ArgKey(a) && ArgKeys([a, b]) == ArgKey(a) + "," + ArgKey(b)
    ensures AvoidsArgs([a], bad) == AvoidsArg(a, bad) && AvoidsArgs([a, b], bad) == (AvoidsArg(a, bad) && AvoidsArg(b, bad))
  {
    hide ArgKey, AvoidsArg;
    assert [a, b][1..] == [b] && [b][1..] == [] && [a][1..] == [];
    assert ArgKey(a) + "" == ArgKey(a) && ArgKey(b) + "" == ArgKey(b);
    assert ArgKey(a) + ("," + ArgKey(b)) == ArgKey(a) + "," + ArgKey(b);
  }

  lemma ParamListKeys(a: Ty, b: Ty, bad: set<char>)
    ensures ParamKeys([a]) == TypeKey(a) && ParamKeys([a, b]) == TypeKey(a) + "," + TypeKey(b)
    ensures AvoidsParams([a], bad) == Avoids(a, bad) && AvoidsParams([a, b], bad) == (Avoids(a, bad) && Avoids(b, bad))
  {
    hide TypeKey, Avoids;
    assert [a, b][1..] == [b] && [b][1..] == [] && [a][1..] == [];
    assert TypeKey(a) + "" == TypeKey(a) && TypeKey(b) + "" == TypeKey(b);
    assert TypeKey(a) + ("," + TypeKey(b)) == TypeKey(a) + "," + TypeKey(b);
  }

  function FieldPart(f: Field): string { f.name + ":" + TypeKey(f.t) + ";" }

  predicate AvoidsField(f: Field, bad: set<char>) { Without(f.name, bad) && Avoids(f.t, bad) }

  lemma FieldListKeys(f: Field, g: Field, bad: set<char>)
    ensures FieldKeys([f]) == FieldPart(f) && FieldKeys([f, g]) == FieldPart(f) + FieldPart(g)
    ensures AvoidsFields([f], bad) == AvoidsField(f, bad) && AvoidsFields([f, g], bad) == (AvoidsField(f, bad) && AvoidsField(g, bad))
  {
    hide TypeKey, Avoids, Without;
    assert [f, g][1..] == [g] && [g][1..] == [] && [f][1..] == [];
    assert FieldPart(f) + "" == FieldPart(f) && FieldPart(g) + "" == FieldPart(g);
  }

  /** A type that is only a name. */
  function Plainly(name: string): Ty { Named(name, []) }

  lemma PlainlyKey(name: string, bad: set<char>)
    ensures TypeKey(Plainly(name)) == "Named::" + name
    ensures Avoids(Plainly(name), bad) == Without(name, bad)
  {
    assert "Named::" + name + "" == "Named::" + name;
  }

  const INT: Ty := Int(I64)

  lemma IntKey(bad: set<char>)
    ensures TypeKey(INT) == "i64" && Avoids(INT, bad)
  {
  }

  lemma NamedUnfold(name: string, args: seq<Arg>, bad: set<char>)
    requires args != []
    ensures TypeKey(Named(name, args)) == "Named::" + name + "[" + ArgKeys(args) + "]"
    ensures Avoids(Named(name, args), bad) == (Without(name, bad) && AvoidsArgs(args, bad))
  {
    hide ArgKeys, AvoidsArgs;
    assert "Named::" + name + ("[" + ArgKeys(args) + "]") == "Named::" + name + "[" + ArgKeys(args) + "]";
  }

  lemma StructUnfold(fs: seq<Field>, bad: set<char>)
    ensures TypeKey(Struct(fs)) == "Struct::{" + FieldKeys(fs) + "}" && Avoids(Struct(fs), bad) == AvoidsFields(fs, bad)
  {
    hide FieldKeys, AvoidsFields;
  }

  lemma FunUnfold(ps: seq<Ty>, r: Ty, bad: set<char>)
    ensures TypeKey(Fun(ps, r)) == "Fun::(" + ParamKeys(ps) + ")->" + TypeKey(r)
    ensures Avoids(Fun(ps, r), bad) == (AvoidsParams(ps, bad) && Avoids(r, bad))
  {
    hide ParamKeys, AvoidsParams;
  }

  /** A comma in a value spells one more argument. */
  lemma CommaCollides()
    ensures Collide(Named("list", [ValueArg("n,i64")]), Named("list", [ValueArg("n"), TypeArg(INT)]), ',')
  {
    hide TypeKey, Avoids, ArgKeys, AvoidsArgs;
    var bad := DELIMITERS - {','};
    NamedUnfold("list", [ValueArg("n,i64")], bad);
    NamedUnfold("list", [ValueArg("n"), TypeArg(INT)], bad);
    ListKeys(ValueArg("n,i64"), ValueArg(""), bad);
    ListKeys(ValueArg("n"), TypeArg(INT), bad);
    IntKey(bad);
    assert "Value::" + "n,i64" == "Value::" + "n" + "," + "i64";
  }

  /** A colon moves the border between the name of a field and its type. */
  lemma ColonCollides()
    ensures Collide(Struct([Field("a:Named::b", INT)]), Struct([Field("a", Plainly("b:i64"))]), ':')
  {
    hide TypeKey, Avoids, FieldKeys, AvoidsFields;
    var bad := DELIMITERS - {':'};
    var f, g := Field("a:Named::b", INT), Field("a", Plainly("b:i64"));
    StructUnfold([f], bad);
    StructUnfold([g], bad);
    FieldListKeys(f, f, bad);
    FieldListKeys(g, g, bad);
    IntKey(bad);
    PlainlyKey("b:i64", bad);
    assert FieldPart(f) == FieldPart(g);
    assert [f][0] != [g][0];
  }

  /** A semicolon belongs to the end of one field's type or to the beginning of the next one's name. */
  lemma SemicolonCollides()
    ensures Collide(Struct([Field("f", Plainly("n;")), Field("g", INT)]), Struct([Field("f", Plainly("n")), Field(";g", INT)]), ';')
  {
    hide TypeKey, Avoids, FieldKeys, AvoidsFields;
    var bad := DELIMITERS - {';'};
    var f, g, h, k := Field("f", Plainly("n;")), Field("g", INT), Field("f", Plainly("n")), Field(";g", INT);
    StructUnfold([f, g], bad);
    StructUnfold([h, k], bad);
    FieldListKeys(f, g, bad);
    FieldListKeys(h, k, bad);
    IntKey(bad);
    PlainlyKey("n;", bad);
    PlainlyKey("n", bad);
    assert FieldPart(f) + FieldPart(g) == FieldPart(h) + FieldPart(k);
    assert [f, g][1] != [h, k][1];
  }

  /** A named type as an argument. */
  function Item(name: string, args: seq<Arg>): Arg { TypeArg(Named(name, args)) }

  lemma OneIn(name: string, a: Arg, bad: set<char>)
    ensures ArgKey(Item(name, [a])) == "Named::" + name + "[" + ArgKey(a) + "]"
    ensures AvoidsArg(Item(name, [a]), bad) == (Without(name, bad) && AvoidsArg(a, bad))
  {
    hide TypeKey, Avoids, ArgKeys, AvoidsArgs, ArgKey, AvoidsArg;
    NamedUnfold(name, [a], bad);
    ListKeys(a, a, bad);
    ItemIs(name, [a], bad);
  }

  lemma TwoIn(name: string, a: Arg, b: Arg, bad: set<char>)
    ensures ArgKey(Item(name, [a, b])) == "Named::" + name + "[" + (ArgKey(a) + "," + ArgKey(b)) + "]"
    ensures AvoidsArg(Item(name, [a, b]), bad) == (Without(name, bad) && AvoidsArg(a, bad) && AvoidsArg(b, bad))
  {
    hide TypeKey, Avoids, ArgKeys, AvoidsArgs, ArgKey, AvoidsArg;
    NamedUnfold(name, [a, b], bad);
    ListKeys(a, b, bad);
    ItemIs(name, [a, b], bad);
  }

  lemma ItemIs(name: string, args: seq<Arg>, bad: set<char>)
    ensures ArgKey(Item(name, args)) == TypeKey(Named(name, args)) && AvoidsArg(Item(name, args), bad) == Avoids(Named(name, args), bad)
  {
    hide TypeKey, Avoids;
  }

  lemma LeafKeys(bad: set<char>)
    requires bad == DELIMITERS - {'['}
    ensures ArgKey(TypeArg(INT)) == "i64" && AvoidsArg(TypeArg(INT), bad)
    ensures ArgKey(Item("a[i64", [])) == "Named::a[i64" && AvoidsArg(Item("a[i64", []), bad)
    ensures ArgKey(Item("b[i64", [])) == "Named::b[i64" && AvoidsArg(Item("b[i64", []), bad)
  {
    hide TypeKey, Avoids;
    IntKey(bad);
    PlainlyKey("a[i64", bad);
    PlainlyKey("b[i64", bad);
  }

  /** With the bracket in the first name. */
  lemma FirstReading(x: Arg, c: Arg, bad: set<char>)
    requires x == Item("x", [Item("a[i64", [])]) && c == Item("b", [TypeArg(INT)]) && bad == DELIMITERS - {'['}
    ensures ArgKey(x) == "Named::x[Named::a[i64]" && ArgKey(c) == "Named::b[i64]" && AvoidsArg(x, bad) && AvoidsArg(c, bad)
  {
    hide TypeKey, Avoids, ArgKey, AvoidsArg, Item;
    LeafKeys(bad);
    OneIn("x", Item("a[i64", []), bad);
    OneIn("b", TypeArg(INT), bad);
  }

  /** With the bracket in the second name. */
  lemma SecondReading(z: Arg, bad: set<char>)
    requires z == Item("x", [Item("a", [TypeArg(INT)]), Item("b[i64", [])]) && bad == DELIMITERS - {'['}
    ensures ArgKey(z) == "Named::x[" + ("Named::a[i64]" + "," + "Named::b[i64") + "]" && AvoidsArg(z, bad)
  {
    hide TypeKey, Avoids, ArgKey, AvoidsArg, Item;
    var d := Item("a", [TypeArg(INT)]);
    LeafKeys(bad);
    OneIn("a", TypeArg(INT), bad);
    assert ArgKey(d) == "Named::a[i64]";
    TwoIn("x", d, Item("b[i64", []), bad);
  }

  lemma OneText()
    ensures "Named::x[Named::a[i64]" + "," + "Named::b[i64]" == "Named::x[" + ("Named::a[i64]" + "," + "Named::b[i64") + "]"
  {
  }

  /** Of two opening brackets one belongs to a name: the first or the second. */
  lemma OpenBracketCollides()
    ensures Collide(Named("y", [Item("x", [Item("a[i64", [])]), Item("b", [TypeArg(INT)])]),
                    Named("y", [Item("x", [Item("a", [TypeArg(INT)]), Item("b[i64", [])])]), '[')
  {
    hide TypeKey, Avoids, ArgKey, AvoidsArg, ArgKeys, AvoidsArgs, Item;
    var bad := DELIMITERS - {'['};
    var x, c := Item("x", [Item("a[i64", [])]), Item("b", [TypeArg(INT)]);
    var z := Item("x", [Item("a", [TypeArg(INT)]), Item("b[i64", [])]);
    FirstReading(x, c, bad);
    SecondReading(z, bad);
    ListKeys(x, c, bad);
    ListKeys(z, z, bad);
    NamedUnfold("y", [x, c], bad);
    NamedUnfold("y", [z], bad);
    OneText();
    assert Without("y", bad) && |[x, c]| != |[z]|;
  }

  /** A closing bracket belongs to the name of one argument or of the argument behind it. */
  lemma CloseBracketCollides()
    ensures var t := Named("a", [TypeArg(Named("b", [TypeArg(Plainly("c"))])), TypeArg(Plainly("d]"))]);
            var u := Named("a", [TypeArg(Named("b", [TypeArg(Plainly("c]")), TypeArg(Plainly("d"))]))]);
            Collide(t, u, ']')
  {
    hide TypeKey, Avoids, ArgKeys, AvoidsArgs;
    var bad := DELIMITERS - {']'};
    var c, d, c', d' := TypeArg(Plainly("c")), TypeArg(Plainly("d]")), TypeArg(Plainly("c]")), TypeArg(Plainly("d"));
    var b, e := TypeArg(Named("b", [c])), TypeArg(Named("b", [c', d']));
    PlainlyKey("c", bad);
    PlainlyKey("d]", bad);
    PlainlyKey("c]", bad);
    PlainlyKey("d", bad);
    ListKeys(c, c, bad);
    ListKeys(b, d, bad);
    ListKeys(c', d', bad);
    ListKeys(e, e, bad);
    NamedUnfold("b", [c], bad);
    NamedUnfold("b", [c', d'], bad);
    NamedUnfold("a", [b, d], bad);
    NamedUnfold("a", [e], bad);
    assert ArgKey(b) == "Named::b[Named::c]" && ArgKey(d) == "Named::d]";
    assert ArgKey(b) + "," + ArgKey(d) == ArgKey(e);
    assert |[b, d]| != |[e]|;
  }

  /** So does a closing parenthesis. */
  lemma ParenthesisCollides()
    ensures var t := Fun([Fun([Plainly("x")], INT), Plainly("y)->i64")], INT);
            var u := Fun([Fun([Plainly("x)->i64"), Plainly("y")], INT)], INT);
            Collide(t, u, ')')
  {
    hide TypeKey, Avoids, ParamKeys, AvoidsParams;
    var bad := DELIMITERS - {')'};
    var x, y, x', y' := Plainly("x"), Plainly("y)->i64"), Plainly("x)->i64"), Plainly("y");
    var f, g := Fun([x], INT), Fun([x', y'], INT);
    PlainlyKey("x", bad);
    PlainlyKey("y)->i64", bad);
    PlainlyKey("x)->i64", bad);
    PlainlyKey("y", bad);
    IntKey(bad);
    ParamListKeys(x, x, bad);
    ParamListKeys(f, y, bad);
    ParamListKeys(x', y', bad);
    ParamListKeys(g, g, bad);
    FunUnfold([x], INT, bad);
    FunUnfold([x', y'], INT, bad);
    FunUnfold([f, y], INT, bad);
    FunUnfold([g], INT, bad);
    assert TypeKey(f) == "Fun::(Named::x)->i64" && TypeKey(y) == "Named::y)->i64";
    assert TypeKey(f) + "," + TypeKey(y) == TypeKey(g);
    assert |[f, y]| != |[g]|;
  }

  /** Keys tell apart all types whose names and values hold none of the characters. */
  ghost predicate TellsApart(bad: set<char>) {
    forall t, u :: Avoids(t, bad) && Avoids(u, bad) && TypeKey(t) == TypeKey(u) ==> t == u
  }

  lemma {:induction false} AvoidsLess(t: Ty, bad: set<char>, more: set<char>)
    requires bad <= more && Avoids(t, more)
    ensures Avoids(t, bad)
    decreases t, 0
  {
    match t
    case Named(_, args) => AvoidsLessArgs(args, bad, more);
    case Future(r) => AvoidsLess(r, bad, more);
    case Array(_, e) => AvoidsLess(e, bad, more);
    case Ptr(to) => AvoidsLess(to, bad, more);
    case Ref(to) => AvoidsLess(to, bad, more);
    case Fun(ps, r) => AvoidsLessParams(ps, bad, more); AvoidsLess(r, bad, more);
    case Struct(fs) => AvoidsLessFields(fs, bad, more);
    case _ =>
  }

  lemma {:induction false} AvoidsLessArg(a: Arg, bad: set<char>, more: set<char>)
    requires bad <= more && AvoidsArg(a, more)
    ensures AvoidsArg(a, bad)
    decreases a, 1
  {
    if a.TypeArg? { AvoidsLess(a.t, bad, more); }
  }

  lemma {:induction false} AvoidsLessArgs(args: seq<Arg>, bad: set<char>, more: set<char>)
    requires bad <= more && AvoidsArgs(args, more)
    ensures AvoidsArgs(args, bad)
    decreases args
  {
    if args != [] {
      AvoidsLessArg(args[0], bad, more);
      AvoidsLessArgs(args[1..], bad, more);
    }
  }

  lemma {:induction false} AvoidsLessParams(ps: seq<Ty>, bad: set<char>, more: set<char>)
    requires bad <= more && AvoidsParams(ps, more)
    ensures AvoidsParams(ps, bad)
    decreases ps
  {
    if ps != [] {
      AvoidsLess(ps[0], bad, more);
      AvoidsLessParams(ps[1..], bad, more);
    }
  }

  lemma {:induction false} AvoidsLessFields(fs: seq<Field>, bad: set<char>, more: set<char>)
    requires bad <= more && AvoidsFields(fs, more)
    ensures AvoidsFields(fs, bad)
    decreases fs
  {
    if fs != [] {
      AvoidsLess(fs[0].t, bad, more);
      AvoidsLessFields(fs[1..], bad, more);
    }
  }

  lemma CollisionCounts(t: Ty, u: Ty, m: char, bad: set<char>)
    requires Collide(t, u, m) && bad <= DELIMITERS && m !in bad
    ensures !TellsApart(bad)
  {
    hide TypeKey, Avoids;
    AvoidsLess(t, bad, DELIMITERS - {m});
    AvoidsLess(u, bad, DELIMITERS - {m});
  }

  lemma MarkCollides(m: char) returns (t: Ty, u: Ty)
    requires m in MARKS
    ensures Collide(t, u, m)
  {
    hide Collide;
    if m == ',' {
      CommaCollides();
      t, u := Named("list", [ValueArg("n,i64")]), Named("list", [ValueArg("n"), TypeArg(INT)]);
    } else if m == ':' {
      ColonCollides();
      t, u := Struct([Field("a:Named::b", INT)]), Struct([Field("a", Plainly("b:i64"))]);
    } else if m == ';' {
      SemicolonCollides();
      t, u := Struct([Field("f", Plainly("n;")), Field("g", INT)]), Struct([Field("f", Plainly("n")), Field(";g", INT)]);
    } else if m == '[' {
      OpenBracketCollides();
      t := Named("y", [Item("x", [Item("a[i64", [])]), Item("b", [TypeArg(INT)])]);
      u := Named("y", [Item("x", [Item("a", [TypeArg(INT)]), Item("b[i64", [])])]);
    } else if m == ']' {
      CloseBracketCollides();
      t := Named("a", [TypeArg(Named("b", [TypeArg(Plainly("c"))])), TypeArg(Plainly("d]"))]);
      u := Named("a", [TypeArg(Named("b", [TypeArg(Plainly("c]")), TypeArg(Plainly("d"))]))]);
    } else {
      ParenthesisCollides();
      t := Fun([Fun([Plainly("x")], INT), Plainly("y)->i64")], INT);
      u := Fun([Fun([Plainly("x)->i64"), Plainly("y")], INT)], INT);
    }
  }

  /**
   Of the delimiters exactly six must be kept out of names and values: opening parentheses and braces do no harm,
   and each of the others alone makes two types share a key.
   */
  lemma KeysTellApartExactly(bad: set<char>)
    requires bad <= DELIMITERS
    ensures TellsApart(bad) <==> MARKS <= bad
  {
    hide TypeKey, Avoids, Collide;
    if MARKS <= bad {
      forall t, u | Avoids(t, bad) && Avoids(u, bad) && TypeKey(t) == TypeKey(u)
        ensures t == u
      {
        AvoidsLess(t, MARKS, bad);
        AvoidsLess(u, MARKS, bad);
        KeyInjective(t, u);
      }
    } else {
      var m :| m in MARKS && m !in bad;
      var t, u := MarkCollides(m);
      CollisionCounts(t, u, m, bad);
    }
  }
}
