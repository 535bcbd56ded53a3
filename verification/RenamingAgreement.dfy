/** When the two renamers do what scoping asks for: exactly when no reference to a private name
    is read under the wrong binders and, for the blind one, no private name is quoted. */
module RenamingAgreement {
  import opened Renaming
  import opened RenamingSemantics

  /** No symbol of d is a private name. */
  predicate NoPrivateSymbol(d: Datum, m: NameMap) {
    match d
    case Symbol(name) => name !in m
    case Number(_) => true
    case Pair(head, tail) => NoPrivateSymbol(head, m) && NoPrivateSymbol(tail, m)
  }

  /** A reference to x is hidden from the renamer exactly when a binder really binds it. */
  predicate ReadRight(style: Style, x: string, m: NameMap, seen: set<string>, actual: set<string>) {
    x in m ==> (Hidden(style, x, seen) <==> x in actual)
  }

  /** Every reference in e is read right, where `seen` are the binders the renamer counts around
      e and `actual` those in scope. */
  predicate Agrees(style: Style, e: Expr, m: NameMap, seen: set<string>, actual: set<string>)
    decreases e
  {
    match e
    case Const(_) => true
    case Var(x) => ReadRight(style, x, m, seen, actual)
    case Quote(d) => style.Blind? ==> NoPrivateSymbol(d, m)
    case If(test, yes, no) =>
      Agrees(style, test, m, seen, actual) && Agrees(style, yes, m, seen, actual) && Agrees(style, no, m, seen, actual)
    case Sequence(exprs) => AgreesList(style, exprs, m, seen, actual, [], false, false)
    case Call(func, args) =>
      Agrees(style, func, m, seen, actual) && AgreesList(style, args, m, seen, actual, [], false, false)
    case Lambda(params, body) => Agrees(style, body, m, seen + Elements(params), actual + Elements(params))
    case Let(kind, names, values, body) =>
      var own := Elements(names);
      && (if kind.Recursive? then AgreesList(style, values, m, seen + own, actual + own, names, false, false)
          else AgreesList(style, values, m, seen, actual, names, Grows(style, kind), kind.Sequential?))
      && Agrees(style, body, m, seen + own, actual + own)
    case Set(x, value) => ReadRight(style, x, m, seen, actual) && Agrees(style, value, m, seen, actual)
  }

  predicate AgreesList(style: Style, es: seq<Expr>, m: NameMap, seen: set<string>, actual: set<string>,
                       names: seq<string>, seenGrows: bool, actualGrows: bool)
    decreases es
  {
    es == [] ||
    (&& Agrees(style, es[0], m, seen, actual)
     && AgreesList(style, es[1..], m, Grown(seen, names, seenGrows), Grown(actual, names, actualGrows), Rest(names),
                   seenGrows, actualGrows))
  }

  lemma {:induction false} DatumAgrees(d: Datum, m: NameMap)
    requires Injective(m)
    ensures RenameDatum(d, m) == d <==> NoPrivateSymbol(d, m)
  {
    match d
    case Pair(head, tail) =>
      DatumAgrees(head, m);
      DatumAgrees(tail, m);
    case _ =>
  }

  /** A renamer and the lexical reading give the same expression if and only if it agrees. */
  lemma {:induction false} SameIffAgrees(style: Style, e: Expr, m: NameMap, seen: set<string>, actual: set<string>)
    requires Injective(m)
    ensures Rename(style, e, m, seen) == Rename(Lexical, e, m, actual) <==> Agrees(style, e, m, seen, actual)
    decreases e
  {
    match e
    case Const(_) =>
    case Var(_) =>
    case Quote(d) => DatumAgrees(d, m);
    case If(test, yes, no) =>
      SameIffAgrees(style, test, m, seen, actual);
      SameIffAgrees(style, yes, m, seen, actual);
      SameIffAgrees(style, no, m, seen, actual);
    case Sequence(exprs) => SameListIffAgrees(style, exprs, m, seen, actual, [], false, false);
    case Call(func, args) =>
      SameIffAgrees(style, func, m, seen, actual);
      SameListIffAgrees(style, args, m, seen, actual, [], false, false);
    case Lambda(params, body) => SameIffAgrees(style, body, m, seen + Elements(params), actual + Elements(params));
    case Let(kind, names, values, body) =>
      var own := Elements(names);
      if kind.Recursive? {
        SameListIffAgrees(style, values, m, seen + own, actual + own, names, false, false);
      } else {
        SameListIffAgrees(style, values, m, seen, actual, names, Grows(style, kind), kind.Sequential?);
      }
      SameIffAgrees(style, body, m, seen + own, actual + own);
    case Set(_, value) => SameIffAgrees(style, value, m, seen, actual);
  }

  lemma {:induction false} SameListIffAgrees(style: Style, es: seq<Expr>, m: NameMap, seen: set<string>,
                                             actual: set<string>, names: seq<string>, seenGrows: bool,
                                             actualGrows: bool)
    requires Injective(m)
    ensures RenameList(style, es, m, seen, names, seenGrows) ==
            RenameList(Lexical, es, m, actual, names, actualGrows) <==>
            AgreesList(style, es, m, seen, actual, names, seenGrows, actualGrows)
    decreases es
  {
    if es == [] {
    } else {
      var s, a := Grown(seen, names, seenGrows), Grown(actual, names, actualGrows);
      SameIffAgrees(style, es[0], m, seen, actual);
      SameListIffAgrees(style, es[1..], m, s, a, Rest(names), seenGrows, actualGrows);
      var x, y := Rename(style, es[0], m, seen), Rename(Lexical, es[0], m, actual);
      var xs := RenameList(style, es[1..], m, s, Rest(names), seenGrows);
      var ys := RenameList(Lexical, es[1..], m, a, Rest(names), actualGrows);
      assert ([x] + xs)[0] == x && ([x] + xs)[1..] == xs;
      assert ([y] + ys)[0] == y && ([y] + ys)[1..] == ys;
    }
  }

  /** What a module's forms must satisfy. */
  predicate FormAgrees(style: Style, f: Form, m: NameMap) {
    match f
    case Define(_, value) => Agrees(style, value, m, {}, {})
    case DefineFunction(_, params, body) => Agrees(style, body, m, Elements(params), Elements(params))
    case Expression(expr) => Agrees(style, expr, m, {}, {})
  }

  /** A renamer treats a module as scoping asks if and only if each of its forms agrees. */
  lemma ModuleSameIffAgrees(style: Style, fs: seq<Form>, moduleName: string, exports: set<string>)
    ensures var m := PrivateNames(fs, moduleName, exports);
            RenameForms(style, fs, m) == RenameForms(Lexical, fs, m) <==> forall f | f in fs :: FormAgrees(style, f, m)
  {
    var m := PrivateNames(fs, moduleName, exports);
    PrivateNamesInjective(fs, moduleName, exports);
    forall f | f in fs ensures RenameForm(style, f, m) == RenameForm(Lexical, f, m) <==> FormAgrees(style, f, m) {
      match f
      case Define(_, value) => SameIffAgrees(style, value, m, {}, {});
      case DefineFunction(_, params, body) => SameIffAgrees(style, body, m, Elements(params), Elements(params));
      case Expression(expr) => SameIffAgrees(style, expr, m, {}, {});
    }
    if forall f | f in fs :: FormAgrees(style, f, m) {
      assert RenameForms(style, fs, m) == RenameForms(Lexical, fs, m);
    }
    if RenameForms(style, fs, m) == RenameForms(Lexical, fs, m) {
      forall f | f in fs ensures FormAgrees(style, f, m) {
        var i :| 0 <= i < |fs| && fs[i] == f;
        assert RenameForms(style, fs, m)[i] == RenameForms(Lexical, fs, m)[i];
      }
    }
  }

  /** Either renamer preserves the meaning of a module whose forms agree, from any store and for
      any amount of fuel: running the renamed module gives the renamed results. */
  lemma RenamingPreservesMeaning(style: Style, fs: seq<Form>, moduleName: string, exports: set<string>,
                                 st: Store, t: Store, fuel: nat)
    requires var m := PrivateNames(fs, moduleName, exports);
             && (forall f | f in fs :: FormAgrees(style, f, m) && CleanForm(f, m))
             && SameStore(st, t, m)
    ensures var m := PrivateNames(fs, moduleName, exports);
            SameOutcomes(RunForms(fs, st, fuel), RunForms(RenameForms(style, fs, m), t, fuel), m)
  {
    var m := PrivateNames(fs, moduleName, exports);
    PrivateNamesInjective(fs, moduleName, exports);
    ModuleSameIffAgrees(style, fs, moduleName, exports);
    ModuleSame(fs, st, t, m, fuel);
  }

  // ---- Where they go wrong ----

  /** (define x ...) (lambda (x) x): the blind renamer renames the parameter's use but not the
      parameter. */
  lemma BlindCapturesParameter(m: NameMap)
    requires "x" in m && m["x"] != "x"
    ensures Rename(Blind, Lambda(["x"], Var("x")), m, {}) == Lambda(["x"], Var(m["x"]))
    ensures Rename(Lexical, Lambda(["x"], Var("x")), m, {}) == Lambda(["x"], Var("x"))
  {
    assert "x" in Elements(["x"]);
  }

  /** (define x ...) (let ((x 1) (y x)) y): the second initializer means the module's x, yet the
      renamer in use takes it for the first binder and leaves it alone. */
  lemma LetStarMissesInitializer(m: NameMap)
    requires "x" in m && m["x"] != "x"
    ensures var e := Let(Parallel, ["x", "y"], [Const(1), Var("x")], Var("y"));
            && Rename(LetStar, e, m, {}).values[1] == Var("x")
            && Rename(Lexical, e, m, {}).values[1] == Var(m["x"])
  {
    var values := [Const(1), Var("x")];
    assert values[1..] == [Var("x")];
    assert Grown({}, ["x", "y"], true) == {"x"} && Grown({}, ["x", "y"], false) == {};
    assert RenameList(LetStar, values[1..], m, {"x"}, Rest(["x", "y"]), true)[0] ==
           Rename(LetStar, values[1..][0], m, {"x"});
    assert RenameList(Lexical, values[1..], m, {}, Rest(["x", "y"]), false)[0] ==
           Rename(Lexical, values[1..][0], m, {});
  }

  const EMPTY := Store(map[], [])

  /** (let ((x 1) (y x)) y) */
  const SHADOWED := Let(Parallel, ["x", "y"], [Const(1), Var("x")], Var("y"))

  lemma ShadowedEvaluates(st: Store)
    requires st.cells == [] && "x" in st.globals
    ensures Eval(SHADOWED, map[], st, 0).Ok? && Eval(SHADOWED, map[], st, 0).value == st.globals["x"]
  {
    var values := [Const(1), Var("x")];
    assert values[1..] == [Var("x")];
    assert EvalList([Var("x")], map[], st, 0) == Cons(st.globals["x"], EvalList([], map[], st, 0));
    assert EvalList(values, map[], st, 0) == Cons(Int(1), EvalList([Var("x")], map[], st, 0));
    assert [Int(1)] + ([st.globals["x"]] + []) == [Int(1), st.globals["x"]];
    assert EvalList(values, map[], st, 0) == Ok([Int(1), st.globals["x"]], st);
    var env := Extend(map[], ["x", "y"], 0);
    assert ["x", "y"][1..] == ["y"] && ["y"][1..] == [];
    assert Extend(map["x" := 0], ["y"], 1) == Extend(map["x" := 0]["y" := 1], [], 2);
    assert env == map["x" := 0]["y" := 1];
    assert EvalBindings(Parallel, ["x", "y"], values, map[], st, 0) == Ok(env, st.(cells := [Int(1), st.globals["x"]]));
  }

  const MODULE := [Define("x", Const(5)), Expression(SHADOWED)]

  lemma ModuleRuns()
    ensures RunForms(MODULE, EMPTY, 0).Ok?
  {
    var st := Store(map["x" := Int(5)], []);
    assert MODULE[1..] == [MODULE[1]] && [MODULE[1]][1..] == [];
    assert RunForm(MODULE[0], EMPTY, 0) == Ok(Unspecified, st);
    ShadowedEvaluates(st);
    var r := RunForm(MODULE[1], st, 0);
    assert RunForms([MODULE[1]], st, 0) == Cons(r.value, RunForms([], r.store, 0));
    assert RunForms(MODULE, EMPTY, 0) == Cons(Unspecified, RunForms(MODULE[1..], st, 0));
  }

  lemma MissedIsStuck(e: Expr, t: Store)
    requires e.Let? && e.kind.Parallel? && |e.names| == |e.values| == 2
    requires e.values[0] == Const(1) && e.values[1] == Var("x") && "x" !in t.globals
    ensures Eval(e, map[], t, 0) == Stuck
  {
    assert e.values[1..] == [Var("x")];
    assert EvalList([Var("x")], map[], t, 0) == Stuck;
    assert EvalList(e.values, map[], t, 0) == Cons(Int(1), EvalList(e.values[1..], map[], t, 0));
  }

  /** Such a module runs, and is stuck once the renamer in use has renamed it. */
  lemma LetStarBreaksModule()
    ensures RunForms(MODULE, EMPTY, 0).Ok?
    ensures RunForms(RenameForms(LetStar, MODULE, map["x" := PrivateName("m", "x")]), EMPTY, 0) == Stuck
  {
    ModuleRuns();
    var p := PrivateName("m", "x");
    var m := map["x" := p];
    PrivateNamesDiffer("m", "x", "x");
    var gs := RenameForms(LetStar, MODULE, m);
    var t := Store(map[p := Int(5)], []);
    assert gs[1..] == [gs[1]];
    assert RunForm(gs[0], EMPTY, 0) == Ok(Unspecified, t);
    LetStarMissesInitializer(m);
    MissedIsStuck(gs[1].expr, t);
    assert RunForms([gs[1]], t, 0) == Stuck;
    assert RunForms(gs, EMPTY, 0) == Cons(Unspecified, RunForms(gs[1..], t, 0));
  }
}
