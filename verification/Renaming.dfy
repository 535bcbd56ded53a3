/** Private-symbol renaming: the definitions a module does not export get a module prefix, and
    so do the references to them. The repository has two renamers. */
module Renaming {

  datatype Datum = Symbol(name: string) | Number(n: int) | Pair(head: Datum, tail: Datum)

  /** `letrec` stands for `letrec*` as well. */
  datatype LetKind = Parallel | Sequential | Recursive

  datatype Expr =
    | Const(n: int)
    | Var(name: string)
    | Quote(datum: Datum)
    | If(test: Expr, yes: Expr, no: Expr)
    | Sequence(exprs: seq<Expr>)
    | Call(func: Expr, args: seq<Expr>)
    | Lambda(params: seq<string>, body: Expr)
    | Let(kind: LetKind, names: seq<string>, values: seq<Expr>, body: Expr)
    | Set(name: string, value: Expr)

  /** A top-level form of a module. */
  datatype Form =
    | Define(name: string, value: Expr)
    | DefineFunction(name: string, params: seq<string>, body: Expr)
    | Expression(expr: Expr)

  type NameMap = map<string, string>

  /** How a renamer reads scopes. `Lexical` follows the language. `LetStar` is
      `eshkol::rename_private_symbols`, which treats a `let` like a `let*`. `Blind` is the
      static `rename_private_symbols`, which looks at no binder and enters quoted data. */
  datatype Style = Lexical | LetStar | Blind

  function Elements(s: seq<string>): set<string> {
    set x | x in s
  }

  /** Whether a reference to x is left alone because x is locally bound. */
  predicate Hidden(style: Style, x: string, bound: set<string>) {
    !style.Blind? && x in bound
  }

  function NewName(style: Style, x: string, m: NameMap, bound: set<string>): string {
    if x in m && !Hidden(style, x, bound) then m[x] else x
  }

  function RenameDatum(d: Datum, m: NameMap): Datum {
    match d
    case Symbol(name) => Symbol(if name in m then m[name] else name)
    case Number(_) => d
    case Pair(head, tail) => Pair(RenameDatum(head, m), RenameDatum(tail, m))
  }

  /** Whether each initializer sees the binders before it. */
  predicate Grows(style: Style, kind: LetKind) {
    kind.Sequential? || (kind.Parallel? && style.LetStar?)
  }

  function Rename(style: Style, e: Expr, m: NameMap, bound: set<string>): (r: Expr)
    decreases e
  {
    match e
    case Const(_) => e
    case Var(x) => Var(NewName(style, x, m, bound))
    case Quote(d) => Quote(if style.Blind? then RenameDatum(d, m) else d)
    case If(test, yes, no) =>
      If(Rename(style, test, m, bound), Rename(style, yes, m, bound), Rename(style, no, m, bound))
    case Sequence(exprs) => Sequence(RenameList(style, exprs, m, bound, [], false))
    case Call(func, args) => Call(Rename(style, func, m, bound), RenameList(style, args, m, bound, [], false))
    case Lambda(params, body) => Lambda(params, Rename(style, body, m, bound + Elements(params)))
    case Let(kind, names, values, body) =>
      var inner := bound + Elements(names);
      var around := if kind.Recursive? then inner else bound;
      Let(kind, names, RenameList(style, values, m, around, names, Grows(style, kind)), Rename(style, body, m, inner))
    case Set(x, value) => Set(NewName(style, x, m, bound), Rename(style, value, m, bound))
  }

  /** Rename expressions in turn; with `grows`, each also sees the names before it. */
  function RenameList(style: Style, es: seq<Expr>, m: NameMap, bound: set<string>, names: seq<string>,
                      grows: bool): (r: seq<Expr>)
    ensures |r| == |es|
    decreases es
  {
    if es == [] then []
    else
      [Rename(style, es[0], m, bound)] +
      RenameList(style, es[1..], m, Grown(bound, names, grows), Rest(names), grows)
  }

  function Grown(bound: set<string>, names: seq<string>, grows: bool): set<string> {
    if grows && names != [] then bound + {names[0]} else bound
  }

  function Rest(names: seq<string>): seq<string> {
    if names == [] then [] else names[1..]
  }

  function RenameForm(style: Style, f: Form, m: NameMap): Form {
    match f
    case Define(name, value) => Define(NewName(Blind, name, m, {}), Rename(style, value, m, {}))
    case DefineFunction(name, params, body) =>
      DefineFunction(NewName(Blind, name, m, {}), params, Rename(style, body, m, Elements(params)))
    case Expression(expr) => Expression(Rename(style, expr, m, {}))
  }

  function RenameForms(style: Style, fs: seq<Form>, m: NameMap): (r: seq<Form>)
    ensures |r| == |fs| && forall i | 0 <= i < |fs| :: r[i] == RenameForm(style, fs[i], m)
  {
    seq(|fs|, i requires 0 <= i < |fs| => RenameForm(style, fs[i], m))
  }

  // ---- The rename map ----

  function Mangle(name: string): (r: string)
    ensures |r| == |name|
  {
    if name == "" then "" else [if name[0] == '.' then '_' else name[0]] + Mangle(name[1..])
  }

  function PrivateName(moduleName: string, symbol: string): string {
    "__" + Mangle(moduleName) + "__" + symbol
  }

  /** Mangled names of one module never coincide, and none is its own original. */
  lemma PrivateNamesDiffer(moduleName: string, x: string, y: string)
    ensures PrivateName(moduleName, x) == PrivateName(moduleName, y) ==> x == y
    ensures PrivateName(moduleName, x) != x
  {
    var prefix := "__" + Mangle(moduleName) + "__";
    assert PrivateName(moduleName, x)[|prefix|..] == x;
    assert PrivateName(moduleName, y)[|prefix|..] == y;
  }

  /** The symbols x and y of two modules, the second of which adds `rest` to the mangled name of
      the first, get one name: the modules are mangled alike, or the underscores of the prefix
      slide. */
  predicate Slides(rest: string, x: string, y: string) {
    || (rest == "" && x == y)
    || (rest == "_" && x == "_" + y)
    || (|rest| >= 2 && rest[..2] == "__" && x == rest[2..] + "__" + y)
  }

  /** When symbols of two modules share a mangled name. */
  lemma PrivateNamesCollideIff(m: string, n: string, x: string, y: string)
    requires |m| <= |n|
    ensures PrivateName(m, x) == PrivateName(n, y) <==>
            Mangle(m) <= Mangle(n) && Slides(Mangle(n)[|m|..], x, y)
  {
    SharedPrefix("__", Mangle(m), Mangle(n), "__", x, y);
    if Mangle(m) <= Mangle(n) {
      SlidesIff(Mangle(n)[|m|..], x, y);
    }
  }

  lemma SharedPrefix(u: string, a: string, b: string, v: string, x: string, y: string)
    requires |a| <= |b|
    ensures u + a + v + x == u + b + v + y <==> a <= b && v + x == b[|a|..] + v + y
  {
    var s, t := u + a + v + x, u + b + v + y;
    var k := |u + a|;
    assert s[..k] == u + a && s[k..] == v + x;
    assert t[..k] == u + b[..|a|] && t[k..] == b[|a|..] + v + y;
    assert s == s[..k] + s[k..] && t == t[..k] + t[k..];
    assert (u + a)[|u|..] == a && (u + b[..|a|])[|u|..] == b[..|a|];
  }

  lemma SlidesIff(rest: string, x: string, y: string)
    ensures "__" + x == rest + "__" + y <==> Slides(rest, x, y)
  {
    var s, t := "__" + x, rest + "__" + y;
    assert s[2..] == x && s[..2] == "__";
    if rest == "" {
      assert t[2..] == y;
    } else if |rest| == 1 {
      assert rest == [rest[0]] && t[2..] == "_" + y && t[0] == rest[0] && t[1] == '_';
      assert s[0] == '_' && s[1] == '_';
    } else {
      assert t[..2] == rest[..2] && t[2..] == rest[2..] + "__" + y;
      assert rest == rest[..2] + rest[2..];
    }
  }

  /** One input for each way. */
  lemma PrivateNamesCollide(x: string)
    ensures PrivateName("a.b", x) == PrivateName("a_b", x)
    ensures PrivateName("a", "_" + x) == PrivateName("a_", x)
    ensures PrivateName("a", "b__" + x) == PrivateName("a__b", x)
  {
    assert Mangle("a") == ['a'] + Mangle("");
    assert Mangle("_b") == ['_'] + Mangle("b") && Mangle(".b") == ['_'] + Mangle("b") &&
           Mangle("b") == ['b'] + Mangle("");
    assert Mangle("a.b") == ['a'] + Mangle(".b") && Mangle("a_b") == ['a'] + Mangle("_b");
    assert Mangle("a_") == ['a'] + Mangle("_") && Mangle("_") == ['_'] + Mangle("");
    assert Mangle("__b") == ['_'] + Mangle("_b") && Mangle("a__b") == ['a'] + Mangle("__b");
  }

  predicate IsDefinition(f: Form) {
    f.Define? || f.DefineFunction?
  }

  /** The private definitions of a module, mapped to their mangled names. */
  function PrivateNames(fs: seq<Form>, moduleName: string, exports: set<string>): (m: NameMap)
    ensures forall x | x in m :: m[x] == PrivateName(moduleName, x)
    ensures forall x :: x in m <==> x !in exports && exists f | f in fs :: IsDefinition(f) && f.name == x
  {
    map f | f in fs && IsDefinition(f) && f.name !in exports :: f.name := PrivateName(moduleName, f.name)
  }

  predicate Injective(m: NameMap) {
    && (forall x, y | x in m && y in m && m[x] == m[y] :: x == y)
    && (forall x | x in m :: m[x] != x)
  }

  lemma PrivateNamesInjective(fs: seq<Form>, moduleName: string, exports: set<string>)
    ensures Injective(PrivateNames(fs, moduleName, exports))
  {
    forall x, y { PrivateNamesDiffer(moduleName, x, y); }
  }

  method CollectPrivateNames(asts: array<Form>, moduleName: string, exports: set<string>) returns (m: NameMap)
    ensures m == PrivateNames(asts[..], moduleName, exports)
  {
    m := map[];
    for i := 0 to asts.Length
      invariant m == PrivateNames(asts[..i], moduleName, exports)
    {
      PrivateNamesSnoc(asts[..i], asts[i], moduleName, exports);
      assert asts[..i + 1] == asts[..i] + [asts[i]];
      if IsDefinition(asts[i]) && asts[i].name !in exports {
        m := m[asts[i].name := PrivateName(moduleName, asts[i].name)];
      }
    }
    assert asts[..asts.Length] == asts[..];
  }

  lemma PrivateNamesSnoc(fs: seq<Form>, f: Form, moduleName: string, exports: set<string>)
    ensures var m := PrivateNames(fs, moduleName, exports);
            PrivateNames(fs + [f], moduleName, exports) ==
            if IsDefinition(f) && f.name !in exports then m[f.name := PrivateName(moduleName, f.name)] else m
  {
    assert forall g :: g in fs + [f] <==> g in fs || g == f;
  }

  /** The pass over a module's forms, in place: collect the private names, then rewrite. */
  method RenamePrivateSymbols(style: Style, asts: array<Form>, moduleName: string, exports: set<string>)
    modifies asts
    ensures asts[..] == RenameForms(style, old(asts[..]), PrivateNames(old(asts[..]), moduleName, exports))
  {
    var m := CollectPrivateNames(asts, moduleName, exports);
    if m == map[] {
      NothingToRename(style, asts[..]);
      return;
    }
    for i := 0 to asts.Length
      invariant forall j | 0 <= j < i :: asts[j] == RenameForm(style, old(asts[..])[j], m)
      invariant forall j | i <= j < asts.Length :: asts[j] == old(asts[..])[j]
    {
      asts[i] := RenameForm(style, asts[i], m);
    }
  }

  // ---- Renaming with nothing to rename ----

  lemma {:induction false} RenameNothing(style: Style, e: Expr, bound: set<string>)
    ensures Rename(style, e, map[], bound) == e
    decreases e
  {
    match e
    case Const(_) =>
    case Var(_) =>
    case Quote(d) => RenameDatumNothing(d);
    case If(test, yes, no) =>
      RenameNothing(style, test, bound);
      RenameNothing(style, yes, bound);
      RenameNothing(style, no, bound);
    case Sequence(exprs) => RenameListNothing(style, exprs, bound, [], false);
    case Call(func, args) =>
      RenameNothing(style, func, bound);
      RenameListNothing(style, args, bound, [], false);
    case Lambda(params, body) => RenameNothing(style, body, bound + Elements(params));
    case Let(kind, names, values, body) =>
      var inner := bound + Elements(names);
      RenameListNothing(style, values, if kind.Recursive? then inner else bound, names, Grows(style, kind));
      RenameNothing(style, body, inner);
    case Set(_, value) => RenameNothing(style, value, bound);
  }

  lemma {:induction false} RenameListNothing(style: Style, es: seq<Expr>, bound: set<string>, names: seq<string>,
                                             grows: bool)
    ensures RenameList(style, es, map[], bound, names, grows) == es
    decreases es
  {
    if es == [] {
    } else {
      RenameNothing(style, es[0], bound);
      RenameListNothing(style, es[1..], Grown(bound, names, grows), Rest(names), grows);
    }
  }

  lemma {:induction false} RenameDatumNothing(d: Datum)
    ensures RenameDatum(d, map[]) == d
  {
    match d
    case Pair(head, tail) =>
      RenameDatumNothing(head);
      RenameDatumNothing(tail);
    case _ =>
  }

  lemma NothingToRename(style: Style, fs: seq<Form>)
    ensures RenameForms(style, fs, map[]) == fs
  {
    forall i | 0 <= i < |fs| ensures RenameForm(style, fs[i], map[]) == fs[i] {
      match fs[i]
      case Define(_, value) => RenameNothing(style, value, {});
      case DefineFunction(_, params, body) => RenameNothing(style, body, Elements(params));
      case Expression(expr) => RenameNothing(style, expr, {});
    }
  }
}
