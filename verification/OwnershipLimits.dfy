/** Where the analyzer stops being sound, linear or exact: for each restriction, a program that
    breaks it and on which the verdict is wrong. Calls of closures are no part of the semantics,
    so for lambdas and function definitions the wrong verdicts are rejections. */
module OwnershipLimits {
  import opened OwnershipSyntax
  import opened OwnershipAnalysis
  import opened OwnershipSemantics

  const X := Var("x")
  const LOC := Loc(0, "x", 0)

  /** (define x (owned ...)) */
  const DEFINE_X := Define("x", false, Owned(Literal))

  const START := State([Scope(GlobalScope, map[], {})], multiset{})

  /** The analysis and the run after DEFINE_X. */
  function Analyzed(status: Status, borrowed: set<string>): State {
    State([Scope(GlobalScope, map["x" := VariableInfo(status, true)], borrowed)], multiset{})
  }

  function Ran(tape: seq<bool>, trace: Trace): Run {
    Run([Frame(map["x" := LOC], {LOC})], 1, tape, trace)
  }

  lemma AfterDefine(rest: seq<Ast>, tape: seq<bool>)
    ensures AnalyzeAll([DEFINE_X] + rest, START) == AnalyzeAll(rest, Analyzed(OWNED, {}))
    ensures TraceOf([DEFINE_X] + rest, tape) == ExecAll(rest, Ran(tape, [])).trace
  {
    var es := [DEFINE_X] + rest;
    assert es[0] == DEFINE_X && es[1..] == rest;
    assert Analyze(Owned(Literal), Analyzed(OWNED, {})) == Analyzed(OWNED, {});
    assert Analyze(DEFINE_X, START) == Analyzed(OWNED, {});
    var c := Run([Frame(map[], {})], 0, tape, []);
    assert Exec(Owned(Literal), c) == c;
    assert {} + {LOC} == {LOC};
    assert Exec(DEFINE_X, c).frames == Ran(tape, []).frames;
  }

  /** After (define x (owned ...)) (move x). */
  lemma AfterMove(rest: seq<Ast>, tape: seq<bool>)
    ensures var p := [DEFINE_X, Move(X)] + rest;
            && AnalyzeAll(p, START) == AnalyzeAll(rest, Analyzed(MOVED, {}))
            && TraceOf(p, tape) == ExecAll(rest, Ran(tape, [Moved(LOC)])).trace
  {
    var p := [DEFINE_X, Move(X)] + rest;
    var es := [Move(X)] + rest;
    assert p == [DEFINE_X] + es && es[0] == Move(X) && es[1..] == rest;
    AfterDefine(es, tape);
    assert Analyze(Move(X), Analyzed(OWNED, {})).scopes[0] == Analyzed(MOVED, {}).scopes[0];
    assert Analyze(Move(X), Analyzed(OWNED, {})) == Analyzed(MOVED, {});
    assert Exec(Move(X), Ran(tape, [])) == Ran(tape, [Moved(LOC)]);
  }

  lemma ProgramErrors(es: seq<Ast>)
    requires AnalyzeAll(es, START).scopes[0].kind == GlobalScope
    ensures AnalyzeProgram(es).errors == AnalyzeAll(es, START).errors
  {
    assert Push(State([], multiset{}), GlobalScope) == START;
  }

  /** Program [DEFINE_X, (move x), e] is accepted and reads x after the move. */
  lemma ReadsMoved(e: Ast, tape: seq<bool>)
    requires var r := Analyze(e, Analyzed(MOVED, {})); r.errors == multiset{} && r.scopes[0].kind == GlobalScope
    requires [Moved(LOC), Read(LOC)] <= Exec(e, Ran(tape, [Moved(LOC)])).trace
    ensures var p := [DEFINE_X, Move(X)] + [e];
            Accepted(p) && !Safe(TraceOf(p, tape))
  {
    AfterMove([e], tape);
    assert AnalyzeAll([e], Analyzed(MOVED, {})) == AnalyzeAll([], Analyze(e, Analyzed(MOVED, {})));
    ProgramErrors([DEFINE_X, Move(X)] + [e]);
    var c := Ran(tape, [Moved(LOC)]);
    assert ExecAll([e], c) == ExecAll([], Exec(e, c));
    var t := TraceOf([DEFINE_X, Move(X)] + [e], tape);
    assert t[..1][0] == Moved(LOC) && t[1] == Read(LOC);
    assert !SafeAfter(t[..1], t[1]);
  }

  // ---- An initializer that mentions its own binder ----

  /** (let* ((x x)) ...) */
  const REBIND := Let(Sequential, [Cons(X, X)], Literal)

  lemma RebindAnalyzed()
    ensures Analyze(REBIND, Analyzed(MOVED, {})) == Analyzed(MOVED, {})
  {
    var a := Analyzed(MOVED, {});
    var p := Push(a, LetScope);
    var inner := Register(p, "x", X);
    assert AnalyzeEach([Cons(X, X)], p) == AnalyzeEach([], AnalyzeValue(Cons(X, X), inner));
    assert AnalyzeBindings(Sequential, [Cons(X, X)], p) == inner;
    assert Unconsumed(inner.scopes[1]) == multiset{};
    assert Leave(inner).scopes == a.scopes;
  }

  lemma RebindRuns()
    ensures Exec(REBIND, Ran([], [Moved(LOC)])).trace == [Moved(LOC), Read(LOC), Left({})]
  {
    var c := Enter(Ran([], [Moved(LOC)]));
    assert FindFrame(c.frames, "x") == 0 by {
      assert c.frames[..1] == Ran([], [Moved(LOC)]).frames;
    }
    var d := Emit(c, Read(LOC));
    assert ExecEach([Cons(X, X)], c) == ExecEach([], BindOne(Cons(X, X), ExecValue(Cons(X, X), c)));
    assert ExecValue(Cons(X, X), c) == d;
    assert ExecBindings(Sequential, [Cons(X, X)], c) == Bind(d, "x", false);
  }

  /** (let* ((x x)) ...) after (move x): the initializer is looked up in the new scope. */
  lemma OwnBinderEscapes()
    ensures var p := [DEFINE_X, Move(X)] + [REBIND];
            Accepted(p) && !Safe(TraceOf(p, []))
  {
    RebindAnalyzed();
    RebindRuns();
    ReadsMoved(REBIND, []);
  }

  /** (let ((x ...) (y x)) ...) */
  const SECOND := Let(Parallel, [Cons(X, Literal), Cons(Var("y"), X)], Literal)

  lemma SecondAnalyzed()
    ensures Analyze(SECOND, Analyzed(MOVED, {})) == Analyzed(MOVED, {})
  {
    var a := Analyzed(MOVED, {});
    var p := Push(a, LetScope);
    var one, two := Cons(X, Literal), Cons(Var("y"), X);
    var q := Register(p, "x", Literal);
    var r := Register(q, "y", X);
    assert [one, two][1..] == [two] && [two][1..] == [];
    assert AnalyzeValue(one, RegisterBinding(one, p)) == q;
    assert Find(r.scopes, "x") == 1 && !IsMoved(r.scopes, "x");
    assert AnalyzeValue(two, RegisterBinding(two, q)) == r;
    assert AnalyzeEach([two], q) == AnalyzeEach([], r);
    assert AnalyzeEach([one, two], p) == AnalyzeEach([two], q);
    assert Unconsumed(r.scopes[1]) == multiset{};
    assert Leave(r).scopes == a.scopes;
  }

  lemma SecondRuns()
    ensures [Moved(LOC), Read(LOC)] <= Exec(SECOND, Ran([], [Moved(LOC)])).trace
  {
    var c := Enter(Ran([], [Moved(LOC)]));
    var one, two := Cons(X, Literal), Cons(Var("y"), X);
    assert FindFrame(c.frames, "x") == 0 by {
      assert c.frames[..1] == Ran([], [Moved(LOC)]).frames;
    }
    var d := Emit(c, Read(LOC));
    assert [one, two][1..] == [two] && [two][1..] == [];
    assert ExecValue(one, c) == c && ExecValue(two, c) == d;
    assert ExecValues([two], c) == ExecValues([], d);
    assert ExecValues([one, two], c) == d;
    var b := BindOne(one, d);
    assert BindAll([two], b) == BindAll([], BindOne(two, b));
    assert BindAll([one, two], d).trace == d.trace;
    assert d.trace == [Moved(LOC), Read(LOC)];
  }

  /** (let ((x ...) (y x)) ...) after (move x): the second initializer means the outer x, and the
      analyzer looks up the first binder. */
  lemma EarlierBinderEscapes()
    ensures var p := [DEFINE_X, Move(X)] + [SECOND];
            Accepted(p) && !Safe(TraceOf(p, []))
  {
    SecondAnalyzed();
    SecondRuns();
    ReadsMoved(SECOND, []);
  }

  /** (define x x) after (move x): the analyzer registers the new x before it looks at the value. */
  lemma OwnDefinitionEscapes()
    ensures var p := [DEFINE_X, Move(X)] + [Define("x", false, X)];
            Accepted(p) && !Safe(TraceOf(p, []))
  {
    var e, a, c := Define("x", false, X), Analyzed(MOVED, {}), Ran([], [Moved(LOC)]);
    var r := Register(a, "x", X);
    assert Find(r.scopes, "x") == 0 && !IsMoved(r.scopes, "x");
    assert Analyze(e, a) == r;
    assert Exec(X, c) == Emit(c, Read(LOC));
    assert Exec(e, c).trace == [Moved(LOC), Read(LOC)];
    ReadsMoved(e, []);
  }

  // ---- Nodes the analyzer does not enter ----

  /** The operand of a borrow is analyzed only when it is a variable. */
  lemma BorrowOperandEscapes()
    ensures var p := [DEFINE_X, Move(X)] + [Borrow(Owned(X), [])];
            Accepted(p) && !Safe(TraceOf(p, []))
  {
    var c := Ran([], [Moved(LOC)]);
    assert Exec(Owned(X), c) == Exec(X, c);
    ReadsMoved(Borrow(Owned(X), []), []);
  }

  /** An operation without a case of its own is not entered. */
  lemma OtherOperationEscapes()
    ensures var p := [DEFINE_X, Move(X)] + [Other([X])];
            Accepted(p) && !Safe(TraceOf(p, []))
  {
    var c := Ran([], [Moved(LOC)]);
    assert ExecAll([X], c) == ExecAll([], Exec(X, c));
    ReadsMoved(Other([X]), []);
  }

  // ---- A definition in an operand that does not run ----

  const MAYBE_DEFINE := Branch(If, Literal, [Define("x", false, Literal)])

  lemma MaybeDefineRegisters(p: State)
    requires p.scopes != []
    ensures Analyze(MAYBE_DEFINE, p) == Register(p, "x", Literal)
  {
    var define := Define("x", false, Literal);
    assert Analyze(define, p) == Register(p, "x", Literal);
    assert AnalyzeAll([define], p) == AnalyzeAll([], Analyze(define, p));
  }

  lemma MaybeDefineAnalyzed()
    ensures Analyze(WithRegion([MAYBE_DEFINE, X]), Analyzed(MOVED, {})) == Analyzed(MOVED, {})
  {
    var a := Analyzed(MOVED, {});
    var p := Push(a, RegionScope);
    var inner := Register(p, "x", Literal);
    MaybeDefineRegisters(p);
    assert [MAYBE_DEFINE, X][1..] == [X];
    assert AnalyzeAll([X], inner) == AnalyzeAll([], Analyze(X, inner));
    assert AnalyzeAll([MAYBE_DEFINE, X], p) == inner;
    assert Unconsumed(inner.scopes[1]) == multiset{};
    assert Leave(inner).scopes == a.scopes;
  }

  lemma MaybeDefineRuns()
    ensures Exec(WithRegion([MAYBE_DEFINE, X]), Ran([], [Moved(LOC)])).trace == [Moved(LOC), Read(LOC), Left({})]
  {
    var c := Enter(Ran([], [Moved(LOC)]));
    assert c.frames[..1] == Ran([], [Moved(LOC)]).frames;
    var define := Define("x", false, Literal);
    assert ExecMaybe(Literal, c) == c && ExecMaybe(define, c) == c;
    assert ExecSome([define], c) == ExecSome([], ExecMaybe(define, c));
    assert Exec(MAYBE_DEFINE, c) == c;
    assert [MAYBE_DEFINE, X][1..] == [X];
    assert ExecAll([MAYBE_DEFINE, X], c) == ExecAll([X], Exec(MAYBE_DEFINE, c));
    assert ExecAll([X], c) == ExecAll([], Exec(X, c));
    assert FindFrame(c.frames, "x") == 0;
  }

  /** The analyzer takes the definition as made, so it hides the moved variable. */
  lemma ConditionalDefineEscapes()
    ensures var p := [DEFINE_X, Move(X)] + [WithRegion([MAYBE_DEFINE, X])];
            Accepted(p) && !Safe(TraceOf(p, []))
  {
    MaybeDefineAnalyzed();
    MaybeDefineRuns();
    ReadsMoved(WithRegion([MAYBE_DEFINE, X]), []);
  }

  // ---- A second borrow of the same name in the same scope ----

  const NESTED := Borrow(X, [Borrow(X, []), Move(X)])

  lemma NestedAnalyzed()
    ensures Analyze(NESTED, Analyzed(OWNED, {})) == Analyzed(MOVED, {})
  {
    var a, b := Analyzed(OWNED, {}), Analyzed(OWNED, {"x"});
    assert StartBorrow("x", a).scopes == b.scopes by { assert {} + {"x"} == {"x"}; }
    assert StartBorrow("x", b).scopes == b.scopes by { assert {"x"} + {"x"} == {"x"}; }
    assert EndBorrow("x", b).scopes == a.scopes by { assert {"x"} - {"x"} == {}; }
    assert Analyze(Borrow(X, []), b) == a;
    assert Analyze(Move(X), a).scopes[0] == Analyzed(MOVED, {}).scopes[0];
    assert [Borrow(X, []), Move(X)][1..] == [Move(X)];
    assert AnalyzeAll([Borrow(X, []), Move(X)], b) == AnalyzeAll([Move(X)], Analyze(Borrow(X, []), b));
    assert AnalyzeAll([Move(X)], a) == AnalyzeAll([], Analyze(Move(X), a));
    assert AnalyzeAll([Borrow(X, []), Move(X)], b) == Analyzed(MOVED, {});
    assert EndBorrow("x", Analyzed(MOVED, {})).scopes == Analyzed(MOVED, {}).scopes by {
      assert {} - {"x"} == {};
    }
  }

  lemma NestedRuns()
    ensures Exec(NESTED, Ran([], [])).trace ==
            [Borrowed(LOC), Borrowed(LOC), Released(LOC), Moved(LOC), Released(LOC)]
  {
    var c := Ran([], [Borrowed(LOC)]);
    var d := Ran([], [Borrowed(LOC), Borrowed(LOC), Released(LOC)]);
    assert Emit(Ran([], []), Borrowed(LOC)) == c;
    assert Exec(Borrow(X, []), c) == d;
    assert [Borrow(X, []), Move(X)][1..] == [Move(X)];
    assert ExecAll([Borrow(X, []), Move(X)], c) == ExecAll([Move(X)], Exec(Borrow(X, []), c));
    assert ExecAll([Move(X)], d) == ExecAll([], Exec(Move(X), d));
  }

  /** The end of the inner borrow erases the mark of the outer one. */
  lemma NestedBorrowEscapes()
    ensures Accepted([DEFINE_X] + [NESTED]) && !Safe(TraceOf([DEFINE_X] + [NESTED], []))
  {
    NestedAnalyzed();
    NestedRuns();
    AfterDefine([NESTED], []);
    assert AnalyzeAll([NESTED], Analyzed(OWNED, {})) == AnalyzeAll([], Analyze(NESTED, Analyzed(OWNED, {})));
    ProgramErrors([DEFINE_X] + [NESTED]);
    var c := Ran([], []);
    assert ExecAll([NESTED], c) == ExecAll([], Exec(NESTED, c));
    var t := TraceOf([DEFINE_X] + [NESTED], []);
    assert t[..3] == [Borrowed(LOC), Borrowed(LOC), Released(LOC)];
    assert OnLoan(t[..3], LOC);
    assert !SafeAfter(t[..3], t[3]);
  }

  // ---- Linearity ----

  /** (let ((x (owned ...))) (if ... (move x))) */
  const MAYBE_MOVE := Let(Parallel, [Cons(X, Owned(Literal))], Branch(If, Literal, [Move(X)]))

  /** The analysis inside MAYBE_MOVE, before and after the move. */
  function Inside(status: Status): State {
    State([Scope(GlobalScope, map[], {}), Scope(LetScope, map["x" := VariableInfo(status, true)], {})], multiset{})
  }

  lemma MaybeMoveInner()
    ensures Analyze(MAYBE_MOVE.inner, Inside(OWNED)) == Inside(MOVED)
  {
    var a := Inside(OWNED);
    assert Find(a.scopes, "x") == 1;
    assert Analyze(Move(X), a).scopes[1] == Inside(MOVED).scopes[1];
    assert Analyze(Move(X), a).scopes == Inside(MOVED).scopes;
    assert AnalyzeAll([Move(X)], a) == AnalyzeAll([], Analyze(Move(X), a));
  }

  lemma MaybeMoveBinds()
    ensures AnalyzeBindings(Parallel, MAYBE_MOVE.bindings, Push(START, LetScope)) == Inside(OWNED)
  {
    var p, b := Push(START, LetScope), Cons(X, Owned(Literal));
    assert RegisterBinding(b, p).scopes == Inside(OWNED).scopes;
    assert Analyze(Owned(Literal), Inside(OWNED)) == Inside(OWNED);
    assert AnalyzeEach([b], p) == AnalyzeEach([], AnalyzeValue(b, RegisterBinding(b, p)));
  }

  lemma MaybeMoveAnalyzed()
    ensures Analyze(MAYBE_MOVE, START) == START
  {
    MaybeMoveBinds();
    MaybeMoveInner();
    var moved := Inside(MOVED);
    assert Unconsumed(moved.scopes[1]) == multiset{};
    assert Leave(moved).scopes == START.scopes;
  }

  lemma MaybeMoveRuns()
    ensures TraceOf([MAYBE_MOVE], []) == [Left({Loc(0, "x", 1)})]
  {
    var c := Run([Frame(map[], {}), Frame(map[], {})], 0, [], []);
    var start := Run([Frame(map[], {})], 0, [], []);
    assert Enter(start) == c;
    var d := Bind(c, "x", true);
    assert {} + {Loc(0, "x", 1)} == {Loc(0, "x", 1)};
    var bs := [Cons(X, Owned(Literal))];
    assert Exec(Owned(Literal), c) == c;
    assert ExecValues(bs, c) == ExecValues([], ExecValue(bs[0], c));
    assert BindAll(bs, c) == BindAll([], BindOne(bs[0], c));
    assert ExecMaybe(Literal, d) == d && ExecMaybe(Move(X), d) == d;
    assert ExecSome([Move(X)], d) == ExecSome([], ExecMaybe(Move(X), d));
    assert Exec(MAYBE_MOVE, start).trace == [Left({Loc(0, "x", 1)})];
    assert ExecAll([MAYBE_MOVE], start) == ExecAll([], Exec(MAYBE_MOVE, start));
  }

  /** A move on one arm counts as consumption on both. */
  lemma ConditionalMoveLeaks()
    ensures Accepted([MAYBE_MOVE]) && !Linear(TraceOf([MAYBE_MOVE], []))
  {
    MaybeMoveAnalyzed();
    MaybeMoveRuns();
    assert AnalyzeAll([MAYBE_MOVE], START) == AnalyzeAll([], Analyze(MAYBE_MOVE, START));
    ProgramErrors([MAYBE_MOVE]);
    var t := TraceOf([MAYBE_MOVE], []);
    assert t[0].Left? && Loc(0, "x", 1) in t[0].owned && multiset(t[..0])[Moved(Loc(0, "x", 1))] == 0;
  }

  // ---- A rejected program that does nothing wrong ----

  /** (borrow x (define x ...) (move x)), with no x bound outside */
  const SHADOW := Borrow(X, [Define("x", false, Literal), Move(X)])

  lemma ShadowAnalyzed()
    ensures MoveWhileBorrowed("x") in Analyze(SHADOW, START).errors
    ensures Analyze(SHADOW, START).scopes[0].kind == GlobalScope
  {
    var b := SetBorrowed(START, {} + {"x"});
    var d := Register(b, "x", Literal);
    assert StartBorrow("x", START) == b;
    assert Analyze(Define("x", false, Literal), b) == d;
    assert d.scopes[0].borrowed == {"x"} && IsBorrowed(d.scopes, "x");
    assert Find(d.scopes, "x") == 0;
    assert Analyze(Move(X), d) == Report(d, MoveWhileBorrowed("x"));
    assert SHADOW.body[1..] == [Move(X)];
    assert AnalyzeAll([Move(X)], d) == AnalyzeAll([], Analyze(Move(X), d));
    assert AnalyzeAll(SHADOW.body, b) == AnalyzeAll([Move(X)], d);
  }

  lemma ShadowRuns()
    ensures TraceOf([SHADOW], []) == [Moved(LOC)]
  {
    var c := Run([Frame(map[], {})], 0, [], []);
    var d := Bind(c, "x", false);
    assert FindFrame(c.frames, "x") < 0 && FindFrame(d.frames, "x") == 0;
    assert Exec(Define("x", false, Literal), c) == d;
    assert SHADOW.body[1..] == [Move(X)];
    assert ExecAll([Move(X)], d) == ExecAll([], Exec(Move(X), d));
    assert ExecAll(SHADOW.body, c) == ExecAll([Move(X)], d);
    assert Exec(SHADOW, c) == ExecBorrow("x", SHADOW.body, c) == ExecAll(SHADOW.body, c);
    assert ExecAll([SHADOW], c) == ExecAll([], Exec(SHADOW, c));
  }

  /** The mark of a borrow goes by name, so it also covers a binding made inside the borrow. */
  lemma ShadowedBorrowRejected()
    ensures !Accepted([SHADOW]) && Safe(TraceOf([SHADOW], [])) && Linear(TraceOf([SHADOW], []))
  {
    ShadowAnalyzed();
    ShadowRuns();
    assert AnalyzeAll([SHADOW], START) == AnalyzeAll([], Analyze(SHADOW, START));
    ProgramErrors([SHADOW]);
    assert [Moved(LOC)][..0] == [];
  }

  // ---- Bodies that are analyzed where they are defined ----

  /** Program [DEFINE_X, e, x] is rejected although it only reads x. */
  lemma RejectsUncalled(e: Ast)
    requires var b := Analyze(e, Analyzed(OWNED, {}));
             && b.scopes[0].kind == GlobalScope && "x" in b.scopes[0].vars && b.scopes[0].vars["x"].status == MOVED
    requires var d := Exec(e, Ran([], []));
             d.trace == [] && "x" in d.frames[0].vars && d.frames[0].vars["x"] == LOC
    ensures var p := [DEFINE_X] + [e, X];
            !Accepted(p) && Safe(TraceOf(p, [])) && Linear(TraceOf(p, []))
  {
    AfterDefine([e, X], []);
    assert [e, X][1..] == [X];
    ReadReported(Analyze(e, Analyzed(OWNED, {})));
    ProgramErrors([DEFINE_X] + [e, X]);
    ReadOnly(Exec(e, Ran([], [])));
  }

  lemma ReadReported(b: State)
    requires |b.scopes| == 1 && "x" in b.scopes[0].vars && b.scopes[0].vars["x"].status == MOVED
    ensures AnalyzeAll([X], b) == Report(b, UseOfMoved("x"))
  {
    assert Find(b.scopes, "x") == 0 && IsMoved(b.scopes, "x");
    assert AnalyzeAll([X], b) == AnalyzeAll([], Analyze(X, b));
  }

  lemma ReadOnly(d: Run)
    requires |d.frames| == 1 && "x" in d.frames[0].vars && d.frames[0].vars["x"] == LOC && d.trace == []
    ensures ExecAll([X], d).trace == [Read(LOC)] && Safe([Read(LOC)]) && Linear([Read(LOC)])
  {
    assert FindFrame(d.frames, "x") == 0;
    assert ExecAll([X], d) == ExecAll([], Emit(d, Read(LOC)));
    assert [] + [Read(LOC)] == [Read(LOC)];
    assert [Read(LOC)][..0] == [];
  }

  /** (lambda () (move x)) is never called, yet its body counts as a move. */
  lemma UncalledLambdaRejected()
    ensures var p := [DEFINE_X] + [Lambda([], Move(X)), X];
            !Accepted(p) && Safe(TraceOf(p, [])) && Linear(TraceOf(p, []))
  {
    var a := Analyzed(OWNED, {});
    var p := Push(a, LambdaScope);
    assert Find(p.scopes, "x") == 0 by { assert p.scopes[..1] == a.scopes; }
    assert !IsBorrowed(p.scopes, "x");
    var m := Put(p, 0, "x", VariableInfo(MOVED, true));
    assert Analyze(Move(X), p) == m;
    assert Leave(m).scopes[0] == m.scopes[0];
    RejectsUncalled(Lambda([], Move(X)));
  }

  /** The same for (define (f) (move x)). */
  lemma UncalledFunctionRejected()
    ensures var p := [DEFINE_X] + [Define("f", true, Move(X)), X];
            !Accepted(p) && Safe(TraceOf(p, [])) && Linear(TraceOf(p, []))
  {
    var e, a := Define("f", true, Move(X)), Analyzed(OWNED, {});
    assert "f" != "x" by { assert "f"[0] != "x"[0]; }
    var r := Register(a, "f", Move(X));
    assert Find(r.scopes, "x") == 0 && !IsBorrowed(r.scopes, "x");
    assert Analyze(e, a) == Analyze(Move(X), r) == Put(r, 0, "x", VariableInfo(MOVED, true));
    RejectsUncalled(e);
  }

  // ---- Redefinition ----

  /** A scope that defines x twice and moves it once */
  const TWICE := WithRegion([DEFINE_X, DEFINE_X, Move(X)])

  function TwiceInside(status: Status): State {
    State([Scope(GlobalScope, map[], {}), Scope(RegionScope, map["x" := VariableInfo(status, true)], {})], multiset{})
  }

  lemma TwiceDefines(p: State)
    requires p == Push(START, RegionScope) || p == TwiceInside(OWNED)
    ensures Analyze(DEFINE_X, p) == TwiceInside(OWNED)
  {
    var o := TwiceInside(OWNED);
    var r := Register(p, "x", Owned(Literal));
    assert r.scopes[1].vars == o.scopes[1].vars;
    assert r.scopes == o.scopes;
    assert Analyze(Owned(Literal), r) == r;
  }

  lemma TwiceMoves()
    ensures Analyze(Move(X), TwiceInside(OWNED)) == TwiceInside(MOVED)
  {
    var o := TwiceInside(OWNED);
    assert Find(o.scopes, "x") == 1 && !IsBorrowed(o.scopes, "x");
    assert Analyze(Move(X), o).scopes[1].vars == TwiceInside(MOVED).scopes[1].vars;
    assert Analyze(Move(X), o).scopes == TwiceInside(MOVED).scopes;
  }

  lemma TwiceAnalyzed()
    ensures Analyze(TWICE, START) == START
  {
    var p, o := Push(START, RegionScope), TwiceInside(OWNED);
    TwiceDefines(p);
    TwiceDefines(o);
    TwiceMoves();
    assert TWICE.body[1..] == [DEFINE_X, Move(X)] && [DEFINE_X, Move(X)][1..] == [Move(X)];
    assert AnalyzeAll([Move(X)], o) == AnalyzeAll([], Analyze(Move(X), o));
    assert AnalyzeAll([DEFINE_X, Move(X)], o) == AnalyzeAll([Move(X)], o);
    assert AnalyzeAll(TWICE.body, p) == TwiceInside(MOVED);
    assert Unconsumed(TwiceInside(MOVED).scopes[1]) == multiset{};
    assert Leave(TwiceInside(MOVED)).scopes == START.scopes;
  }

  lemma DefinesOwned(c: Run)
    requires c.frames != []
    ensures Exec(DEFINE_X, c) == Bind(c, "x", true)
  {
    assert Exec(Owned(Literal), c) == c;
  }

  lemma TwiceBound()
    ensures var e := Bind(Bind(Enter(Run([Frame(map[], {})], 0, [], [])), "x", true), "x", true);
            && |e.frames| == 2 && FindFrame(e.frames, "x") == 1 && e.trace == []
            && e.frames[1].vars["x"] == Loc(1, "x", 1) && e.frames[1].owned == {Loc(0, "x", 1), Loc(1, "x", 1)}
  {
    var first, second := Loc(0, "x", 1), Loc(1, "x", 1);
    assert {} + {first} == {first} && {first} + {second} == {first, second};
  }

  lemma ExecThree(e: Ast, f: Ast, g: Ast, c: Run)
    requires c.frames != []
    ensures ExecAll([e, f, g], c) == Exec(g, Exec(f, Exec(e, c)))
  {
    assert [e, f, g][1..] == [f, g] && [f, g][1..] == [g] && [g][1..] == [];
    assert ExecAll([f, g], Exec(e, c)) == ExecAll([g], Exec(f, Exec(e, c)));
    assert ExecAll([g], Exec(f, Exec(e, c))) == ExecAll([], Exec(g, Exec(f, Exec(e, c))));
  }

  lemma TwiceRuns()
    ensures TraceOf([TWICE], []) == [Moved(Loc(1, "x", 1)), Left({Loc(0, "x", 1), Loc(1, "x", 1)})]
  {
    var start := Run([Frame(map[], {})], 0, [], []);
    var c := Enter(start);
    TwiceBound();
    TwiceRunsInside(c);
    MovesInner(Bind(Bind(c, "x", true), "x", true));
    RunsAlone(TWICE, start);
  }

  lemma TwiceRunsInside(c: Run)
    requires c.frames != []
    ensures ExecAll(TWICE.body, c) == Exec(Move(X), Bind(Bind(c, "x", true), "x", true))
  {
    DefinesOwned(c);
    DefinesOwned(Bind(c, "x", true));
    ExecThree(DEFINE_X, DEFINE_X, Move(X), c);
  }

  lemma RunsAlone(e: Ast, c: Run)
    requires c.frames != []
    ensures ExecAll([e], c) == Exec(e, c)
  {
    assert ExecAll([e], c) == ExecAll([], Exec(e, c));
  }

  lemma MovesInner(c: Run)
    requires |c.frames| == 2 && FindFrame(c.frames, "x") == 1
    ensures Exec(Move(X), c) == Emit(c, Moved(c.frames[1].vars["x"]))
  {
  }

  /** The second definition hides the first owned value, which is never moved. */
  lemma RedefinitionLeaks()
    ensures Accepted([TWICE]) && !Linear(TraceOf([TWICE], []))
  {
    TwiceAnalyzed();
    TwiceRuns();
    assert AnalyzeAll([TWICE], START) == AnalyzeAll([], Analyze(TWICE, START));
    ProgramErrors([TWICE]);
    var t, first := TraceOf([TWICE], []), Loc(0, "x", 1);
    assert t[1].Left? && first in t[1].owned && t[..1] == [Moved(Loc(1, "x", 1))];
    assert multiset(t[..1])[Moved(first)] == 0;
  }
}
