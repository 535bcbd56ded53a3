/** When the two renamers do what scoping asks for, said of the program alone: which binders have
    which uses, with no reference to how a renamer reads scopes. */
module RenamingScopes {
  import opened Renaming
  import opened RenamingAgreement
  import opened RenamingSemantics

  // ---- Free references ----

  /** e refers to x where no binder inside e binds it. */
  predicate Free(x: string, e: Expr)
    decreases e
  {
    match e
    case Const(_) => false
    case Var(y) => y == x
    case Quote(_) => false
    case If(test, yes, no) => Free(x, test) || Free(x, yes) || Free(x, no)
    case Sequence(exprs) => FreeAny(x, exprs)
    case Call(func, args) => Free(x, func) || FreeAny(x, args)
    case Lambda(params, body) => x !in params && Free(x, body)
    case Let(kind, names, values, body) =>
      || (x !in names && Free(x, body))
      || (match kind
          case Parallel => FreeAny(x, values)
          case Sequential => FreeEach(x, names, values)
          case Recursive => x !in names && FreeAny(x, values))
    case Set(y, value) => y == x || Free(x, value)
  }

  predicate FreeAny(x: string, es: seq<Expr>)
    decreases es
  {
    es != [] && (Free(x, es[0]) || FreeAny(x, es[1..]))
  }

  /** The same where each expression is under the names before it. */
  predicate FreeEach(x: string, names: seq<string>, es: seq<Expr>)
    decreases es
  {
    es != [] && (Free(x, es[0]) || ((names == [] || names[0] != x) && FreeEach(x, Rest(names), es[1..])))
  }

  /** No private name among `names` is free in e. */
  ghost predicate NoneFree(names: set<string>, e: Expr, m: NameMap) {
    forall x | x in names && x in m :: !Free(x, e)
  }

  ghost predicate NoneFreeAny(names: set<string>, es: seq<Expr>, m: NameMap) {
    forall x | x in names && x in m :: !FreeAny(x, es)
  }

  ghost predicate NoneFreeEach(names: set<string>, before: seq<string>, es: seq<Expr>, m: NameMap) {
    forall x | x in names && x in m :: !FreeEach(x, before, es)
  }

  // ---- The renamer in use ----

  /** No initializer of a parallel `let` refers to a private name, not bound around the `let`, that an
      earlier binder of the same `let` has. */
  ghost predicate Uncaptured(e: Expr, m: NameMap, bound: set<string>)
    decreases e
  {
    match e
    case Const(_) => true
    case Var(_) => true
    case Quote(_) => true
    case If(test, yes, no) => Uncaptured(test, m, bound) && Uncaptured(yes, m, bound) && Uncaptured(no, m, bound)
    case Sequence(exprs) => UncapturedAll(exprs, m, bound)
    case Call(func, args) => Uncaptured(func, m, bound) && UncapturedAll(args, m, bound)
    case Lambda(params, body) => Uncaptured(body, m, bound + Elements(params))
    case Let(kind, names, values, body) =>
      var inner := bound + Elements(names);
      && Uncaptured(body, m, inner)
      && (match kind
          case Parallel => UncapturedLater(values, m, bound, names, {})
          case Sequential => UncapturedEach(values, m, bound, names)
          case Recursive => UncapturedAll(values, m, inner))
    case Set(_, value) => Uncaptured(value, m, bound)
  }

  ghost predicate UncapturedAll(es: seq<Expr>, m: NameMap, bound: set<string>)
    decreases es
  {
    es == [] || (Uncaptured(es[0], m, bound) && UncapturedAll(es[1..], m, bound))
  }

  ghost predicate UncapturedEach(es: seq<Expr>, m: NameMap, bound: set<string>, names: seq<string>)
    decreases es
  {
    es == [] ||
    (&& Uncaptured(es[0], m, bound)
     && UncapturedEach(es[1..], m, if names == [] then bound else bound + {names[0]}, Rest(names)))
  }

  /** The initializers of a parallel `let` from one on; `earlier` are the binders before it. */
  ghost predicate UncapturedLater(es: seq<Expr>, m: NameMap, bound: set<string>, names: seq<string>,
                                  earlier: set<string>)
    decreases es
  {
    es == [] ||
    (&& Uncaptured(es[0], m, bound)
     && NoneFree(earlier - bound, es[0], m)
     && UncapturedLater(es[1..], m, bound, Rest(names), if names == [] then earlier else earlier + {names[0]}))
  }

  /** Where the renamer counts more binders than there are, it reads e right if and only if no let in
      it captures, and none of the surplus names is free in it. */
  lemma {:induction false} AgreesIffUncaptured(e: Expr, m: NameMap, seen: set<string>, actual: set<string>)
    requires actual <= seen
    ensures Agrees(LetStar, e, m, seen, actual) <==> Uncaptured(e, m, actual) && NoneFree(seen - actual, e, m)
    decreases e, 1
  {
    match e
    case Const(_) =>
    case Var(_) =>
    case Quote(_) =>
    case If(test, yes, no) =>
      AgreesIffUncaptured(test, m, seen, actual);
      AgreesIffUncaptured(yes, m, seen, actual);
      AgreesIffUncaptured(no, m, seen, actual);
    case Sequence(exprs) => AllIffUncaptured(exprs, m, seen, actual, []);
    case Call(func, args) =>
      AgreesIffUncaptured(func, m, seen, actual);
      AllIffUncaptured(args, m, seen, actual, []);
    case Lambda(params, body) =>
      AgreesIffUncaptured(body, m, seen + Elements(params), actual + Elements(params));
      NoneFreeUnder(seen, actual, params, body, m);
    case Let(kind, names, values, body) =>
      LetIffUncaptured(e, m, seen, actual);
    case Set(_, value) => AgreesIffUncaptured(value, m, seen, actual);
  }

  /** What is bound inside is no surplus there. */
  lemma NoneFreeUnder(seen: set<string>, actual: set<string>, names: seq<string>, body: Expr, m: NameMap)
    ensures NoneFree((seen + Elements(names)) - (actual + Elements(names)), body, m) <==>
            forall x | x in seen - actual && x in m :: !(x !in names && Free(x, body))
  {
  }

  lemma {:induction false} LetIffUncaptured(e: Expr, m: NameMap, seen: set<string>, actual: set<string>)
    requires e.Let? && actual <= seen
    ensures Agrees(LetStar, e, m, seen, actual) <==> Uncaptured(e, m, actual) && NoneFree(seen - actual, e, m)
    decreases e, 0
  {
    var names, values, own := e.names, e.values, Elements(e.names);
    AgreesIffUncaptured(e.body, m, seen + own, actual + own);
    NoneFreeUnder(seen, actual, names, e.body, m);
    match e.kind
    case Parallel =>
      assert seen + {} == seen;
      LaterIffUncaptured(values, m, seen, actual, names, {});
    case Sequential => EachIffUncaptured(values, m, seen, actual, names);
    case Recursive =>
      AllIffUncaptured(values, m, seen + own, actual + own, names);
      assert NoneFreeAny((seen + own) - (actual + own), values, m) <==>
             forall x | x in seen - actual && x in m :: !(x !in names && FreeAny(x, values));
  }

  lemma {:induction false} AllIffUncaptured(es: seq<Expr>, m: NameMap, seen: set<string>, actual: set<string>,
                                            names: seq<string>)
    requires actual <= seen
    ensures AgreesList(LetStar, es, m, seen, actual, names, false, false) <==>
            UncapturedAll(es, m, actual) && NoneFreeAny(seen - actual, es, m)
    decreases es
  {
    if es == [] {
    } else {
      AgreesIffUncaptured(es[0], m, seen, actual);
      AllIffUncaptured(es[1..], m, seen, actual, Rest(names));
    }
  }

  lemma {:induction false} EachIffUncaptured(es: seq<Expr>, m: NameMap, seen: set<string>, actual: set<string>,
                                             names: seq<string>)
    requires actual <= seen
    ensures AgreesList(LetStar, es, m, seen, actual, names, true, true) <==>
            UncapturedEach(es, m, actual, names) && NoneFreeEach(seen - actual, names, es, m)
    decreases es
  {
    if es == [] {
    } else {
      AgreesIffUncaptured(es[0], m, seen, actual);
      EachIffUncaptured(es[1..], m, Grown(seen, names, true), Grown(actual, names, true), Rest(names));
    }
  }

  lemma {:induction false} LaterIffUncaptured(es: seq<Expr>, m: NameMap, seen: set<string>, actual: set<string>,
                                              names: seq<string>, earlier: set<string>)
    requires actual <= seen
    ensures AgreesList(LetStar, es, m, seen + earlier, actual, names, true, false) <==>
            UncapturedLater(es, m, actual, names, earlier) && NoneFreeAny(seen - actual, es, m)
    decreases es
  {
    if es == [] {
    } else {
      AgreesIffUncaptured(es[0], m, seen + earlier, actual);
      assert NoneFree((seen + earlier) - actual, es[0], m) <==>
             NoneFree(seen - actual, es[0], m) && NoneFree(earlier - actual, es[0], m);
      var next := if names == [] then earlier else earlier + {names[0]};
      assert Grown(seen + earlier, names, true) == seen + next;
      LaterIffUncaptured(es[1..], m, seen, actual, Rest(names), next);
    }
  }

  // ---- The blind renamer ----

  /** No binder of a private name has a use, and no private name is quoted. */
  ghost predicate Unused(e: Expr, m: NameMap)
    decreases e
  {
    match e
    case Const(_) => true
    case Var(_) => true
    case Quote(d) => NoPrivateSymbol(d, m)
    case If(test, yes, no) => Unused(test, m) && Unused(yes, m) && Unused(no, m)
    case Sequence(exprs) => UnusedAll(exprs, m)
    case Call(func, args) => Unused(func, m) && UnusedAll(args, m)
    case Lambda(params, body) => Unused(body, m) && NoneFree(Elements(params), body, m)
    case Let(kind, names, values, body) =>
      && UnusedAll(values, m) && Unused(body, m) && NoneFree(Elements(names), body, m)
      && (match kind
          case Parallel => true
          case Sequential => UnusedEach(names, values, m)
          case Recursive => NoneFreeAny(Elements(names), values, m))
    case Set(_, value) => Unused(value, m)
  }

  ghost predicate UnusedAll(es: seq<Expr>, m: NameMap)
    decreases es
  {
    es == [] || (Unused(es[0], m) && UnusedAll(es[1..], m))
  }

  /** No private name of a sequential `let` is free in the initializers after its own. */
  ghost predicate UnusedEach(names: seq<string>, es: seq<Expr>, m: NameMap) {
    names == [] || es == [] ||
    ((names[0] in m ==> !FreeEach(names[0], names[1..], es[1..])) && UnusedEach(names[1..], es[1..], m))
  }

  /** It reads e right if and only if that holds and no private name bound around e is free in it. */
  lemma {:induction false} AgreesIffUnused(e: Expr, m: NameMap, seen: set<string>, actual: set<string>)
    ensures Agrees(Blind, e, m, seen, actual) <==> Unused(e, m) && NoneFree(actual, e, m)
    decreases e, 1
  {
    match e
    case Const(_) =>
    case Var(_) =>
    case Quote(_) =>
    case If(test, yes, no) =>
      AgreesIffUnused(test, m, seen, actual);
      AgreesIffUnused(yes, m, seen, actual);
      AgreesIffUnused(no, m, seen, actual);
    case Sequence(exprs) => AllIffUnused(exprs, m, seen, actual, [], false);
    case Call(func, args) =>
      AgreesIffUnused(func, m, seen, actual);
      AllIffUnused(args, m, seen, actual, [], false);
    case Lambda(params, body) => AgreesIffUnused(body, m, seen + Elements(params), actual + Elements(params));
    case Let(_, _, _, _) => LetIffUnused(e, m, seen, actual);
    case Set(_, value) => AgreesIffUnused(value, m, seen, actual);
  }

  lemma {:induction false} LetIffUnused(e: Expr, m: NameMap, seen: set<string>, actual: set<string>)
    requires e.Let?
    ensures Agrees(Blind, e, m, seen, actual) <==> Unused(e, m) && NoneFree(actual, e, m)
    decreases e, 0
  {
    var names, values, own := e.names, e.values, Elements(e.names);
    AgreesIffUnused(e.body, m, seen + own, actual + own);
    match e.kind
    case Parallel => AllIffUnused(values, m, seen, actual, names, Grows(Blind, Parallel));
    case Sequential => EachIffUnused(values, m, seen, actual, names);
    case Recursive => AllIffUnused(values, m, seen + own, actual + own, names, false);
  }

  lemma {:induction false} AllIffUnused(es: seq<Expr>, m: NameMap, seen: set<string>, actual: set<string>,
                                        names: seq<string>, seenGrows: bool)
    ensures AgreesList(Blind, es, m, seen, actual, names, seenGrows, false) <==>
            UnusedAll(es, m) && NoneFreeAny(actual, es, m)
    decreases es
  {
    if es == [] {
    } else {
      AgreesIffUnused(es[0], m, seen, actual);
      AllIffUnused(es[1..], m, Grown(seen, names, seenGrows), actual, Rest(names), seenGrows);
    }
  }

  lemma {:induction false} EachIffUnused(es: seq<Expr>, m: NameMap, seen: set<string>, actual: set<string>,
                                         names: seq<string>)
    ensures AgreesList(Blind, es, m, seen, actual, names, true, true) <==>
            UnusedAll(es, m) && UnusedEach(names, es, m) && NoneFreeEach(actual, names, es, m)
    decreases es
  {
    if es == [] {
    } else {
      AgreesIffUnused(es[0], m, seen, actual);
      EachIffUnused(es[1..], m, Grown(seen, names, true), Grown(actual, names, true), Rest(names));
    }
  }

  // ---- Modules ----

  function BodyOf(f: Form): Expr {
    match f
    case Define(_, value) => value
    case DefineFunction(_, _, body) => body
    case Expression(expr) => expr
  }

  /** The form is one the renamer reads right. */
  ghost predicate FormScoped(style: Style, f: Form, m: NameMap) {
    var bound := if f.DefineFunction? then Elements(f.params) else {};
    var e := BodyOf(f);
    match style
    case Lexical => true
    case LetStar => Uncaptured(e, m, bound)
    case Blind => Unused(e, m) && NoneFree(bound, e, m)
  }

  lemma FormAgreesIff(style: Style, f: Form, m: NameMap)
    requires !style.Lexical?
    ensures FormAgrees(style, f, m) <==> FormScoped(style, f, m)
  {
    var bound := if f.DefineFunction? then Elements(f.params) else {};
    var e := BodyOf(f);
    assert FormAgrees(style, f, m) <==> Agrees(style, e, m, bound, bound);
    if style.LetStar? {
      AgreesIffUncaptured(e, m, bound, bound);
    } else {
      AgreesIffUnused(e, m, bound, bound);
    }
  }

  /** A renamer treats a module as scoping asks if and only if each of its forms is one it reads right:
      for the renamer in use, no parallel `let` refers to a private name behind a binder of that name;
      for the blind one, no binder of a private name has a use and no private name is quoted. */
  lemma ModuleSameIffScoped(style: Style, fs: seq<Form>, moduleName: string, exports: set<string>)
    requires !style.Lexical?
    ensures var m := PrivateNames(fs, moduleName, exports);
            RenameForms(style, fs, m) == RenameForms(Lexical, fs, m) <==> forall f | f in fs :: FormScoped(style, f, m)
  {
    var m := PrivateNames(fs, moduleName, exports);
    ModuleSameIffAgrees(style, fs, moduleName, exports);
    forall f | f in fs ensures FormAgrees(style, f, m) <==> FormScoped(style, f, m) {
      FormAgreesIff(style, f, m);
    }
  }

  /** And then it preserves the meaning of the module. */
  lemma ScopedKeepsMeaning(style: Style, fs: seq<Form>, moduleName: string, exports: set<string>,
                           st: Store, t: Store, fuel: nat)
    requires !style.Lexical?
    requires var m := PrivateNames(fs, moduleName, exports);
             && (forall f | f in fs :: FormScoped(style, f, m) && CleanForm(f, m))
             && SameStore(st, t, m)
    ensures var m := PrivateNames(fs, moduleName, exports);
            SameOutcomes(RunForms(fs, st, fuel), RunForms(RenameForms(style, fs, m), t, fuel), m)
  {
    var m := PrivateNames(fs, moduleName, exports);
    forall f | f in fs ensures FormAgrees(style, f, m) {
      FormAgreesIff(style, f, m);
    }
    RenamingPreservesMeaning(style, fs, moduleName, exports, st, t, fuel);
  }
}
