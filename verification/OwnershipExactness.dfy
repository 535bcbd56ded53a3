/** On straight-line programs of the fragment the analyzer is exact: it accepts those programs
    that are safe and linear, and no others. */
module OwnershipExactness {
  import opened OwnershipSyntax
  import opened OwnershipAnalysis
  import opened OwnershipSemantics
  import opened OwnershipFrame
  import opened OwnershipSoundness

  /** No form inside a borrow of a name binds the name again. */
  predicate Unshadowed(e: Ast, lent: set<string>)
    decreases e
  {
    match e
    case Literal => true
    case Var(_) => true
    case Cons(car, cdr) => Unshadowed(car, lent) && Unshadowed(cdr, lent)
    case Define(name, _, value) => name !in lent && Unshadowed(value, lent)
    case Owned(value) => Unshadowed(value, lent)
    case Move(value) => Unshadowed(value, lent)
    case Borrow(value, body) => Unshadowed(value, lent) && AllUnshadowed(body, lent + {VarName(value)})
    case Let(_, bindings, inner) =>
      BinderNames(bindings) !! lent && AllUnshadowed(bindings, lent) && Unshadowed(inner, lent)
    case Lambda(_, _) => true
    case Call(func, args) => Unshadowed(func, lent) && AllUnshadowed(args, lent)
    case Branch(_, func, args) => Unshadowed(func, lent) && AllUnshadowed(args, lent)
    case Sequence(body) => AllUnshadowed(body, lent)
    case WithRegion(body) => AllUnshadowed(body, lent)
    case Wrapped(_, value) => Unshadowed(value, lent)
    case Quote(_) => true
    case Other(body) => AllUnshadowed(body, lent)
  }

  predicate AllUnshadowed(es: seq<Ast>, lent: set<string>)
    decreases es
  {
    es == [] || (Unshadowed(es[0], lent) && AllUnshadowed(es[1..], lent))
  }

  lemma {:induction false} UnshadowedDefines(e: Ast, lent: set<string>)
    requires Unshadowed(e, lent)
    ensures Defined(e) !! lent
    decreases e
  {
    match e
    case Cons(car, cdr) => UnshadowedDefines(car, lent); UnshadowedDefines(cdr, lent);
    case Define(_, _, value) => UnshadowedDefines(value, lent);
    case Owned(value) => UnshadowedDefines(value, lent);
    case Move(value) => UnshadowedDefines(value, lent);
    case Borrow(value, body) =>
      UnshadowedDefines(value, lent);
      AllUnshadowedDefine(body, lent + {VarName(value)});
    case Call(func, args) => UnshadowedDefines(func, lent); AllUnshadowedDefine(args, lent);
    case Branch(_, func, args) => UnshadowedDefines(func, lent); AllUnshadowedDefine(args, lent);
    case Sequence(body) => AllUnshadowedDefine(body, lent);
    case Wrapped(_, value) => UnshadowedDefines(value, lent);
    case Other(body) => AllUnshadowedDefine(body, lent);
    case _ =>
  }

  lemma {:induction false} AllUnshadowedDefine(es: seq<Ast>, lent: set<string>)
    requires AllUnshadowed(es, lent)
    ensures DefinedBy(es) !! lent
    decreases es
  {
    if es == [] {
    } else {
      UnshadowedDefines(es[0], lent);
      AllUnshadowedDefine(es[1..], lent);
    }
  }

  lemma {:induction false} ValuesUnshadowed(bs: seq<Ast>, lent: set<string>)
    requires AllUnshadowed(bs, lent)
    ensures ValueNames(bs) !! lent
  {
    if bs == [] {
    } else {
      UnshadowedDefines(bs[0], lent);
      ValuesUnshadowed(bs[1..], lent);
    }
  }

  // ---- What running a node leaves alone ----

  predicate FrameGrows(f: Frame, g: Frame, added: set<string>) {
    && f.vars.Keys <= g.vars.Keys <= f.vars.Keys + added
    && forall x | x in f.vars && x !in added :: f.vars[x] == g.vars[x]
  }

  /** The trace is extended, and only `added` names of the innermost frame are bound anew. */
  ghost predicate Grows(c: Run, d: Run, added: set<string>) {
    && c.frames != [] && |d.frames| == |c.frames| && c.trace <= d.trace
    && d.frames[..|c.frames| - 1] == c.frames[..|c.frames| - 1]
    && FrameGrows(c.frames[|c.frames| - 1], d.frames[|c.frames| - 1], added)
  }

  lemma GrowsTransitive(c: Run, d: Run, e: Run, f: set<string>, g: set<string>)
    requires Grows(c, d, f) && Grows(d, e, g)
    ensures Grows(c, e, f + g)
  {
  }

  lemma BindGrows(c: Run, x: string, owned: bool)
    requires c.frames != []
    ensures Grows(c, Bind(c, x, owned), {x})
  {
  }

  lemma PopGrows(c: Run, d: Run, added: set<string>)
    requires c.frames != [] && Grows(Enter(c), d, added)
    ensures Grows(c, Exit(d), {})
  {
    assert Enter(c).frames[..|c.frames|] == c.frames;
    assert Exit(d).frames == c.frames;
  }

  lemma {:induction false} ExecGrows(e: Ast, c: Run, open: set<string>)
    requires InFragment(e, open) && Straight(e) && c.frames != []
    ensures Grows(c, Exec(e, c), Defined(e))
    decreases e, 1
  {
    match e
    case Cons(car, cdr) => ExecTwoGrows(car, cdr, e, c, open);
    case Define(name, _, value) => ExecDefineGrows(name, value, c, open);
    case Owned(value) => ExecGrows(value, c, open);
    case Move(value) => if VarName(value) == "" { ExecGrows(value, c, open); }
    case Borrow(value, body) => ExecBorrowGrows(VarName(value), body, c, open);
    case Let(_, _, _) => ExecLetGrows(e, c);
    case Call(func, args) => ExecOperandsGrow(func, args, e, c, open);
    case Sequence(body) => ExecAllGrows(body, c, open);
    case WithRegion(body) => ExecRegionGrows(body, c);
    case Wrapped(_, value) => ExecGrows(value, c, open);
    case _ =>
  }

  lemma {:induction false} ExecTwoGrows(car: Ast, cdr: Ast, e: Ast, c: Run, open: set<string>)
    requires InFragment(car, open) && Straight(car) && InFragment(cdr, open) && Straight(cdr) && c.frames != []
    requires e == Cons(car, cdr)
    ensures Grows(c, Exec(cdr, Exec(car, c)), Defined(car) + Defined(cdr))
    decreases e, 0
  {
    ExecGrows(car, c, open);
    ExecGrows(cdr, Exec(car, c), open);
    GrowsTransitive(c, Exec(car, c), Exec(cdr, Exec(car, c)), Defined(car), Defined(cdr));
  }

  lemma {:induction false} ExecDefineGrows(x: string, value: Ast, c: Run, open: set<string>)
    requires InFragment(value, open) && Straight(value) && c.frames != []
    ensures Grows(c, Bind(Exec(value, c), x, HoldsOwned(value)), {x} + Defined(value))
    decreases value, 2
  {
    ExecGrows(value, c, open);
    BindGrows(Exec(value, c), x, HoldsOwned(value));
    GrowsTransitive(c, Exec(value, c), Bind(Exec(value, c), x, HoldsOwned(value)), Defined(value), {x});
    assert Defined(value) + {x} == {x} + Defined(value);
  }

  lemma {:induction false} ExecOperandsGrow(func: Ast, args: seq<Ast>, e: Ast, c: Run, open: set<string>)
    requires InFragment(func, open) && Straight(func) && AllInFragment(args, open) && AllStraight(args) &&
             c.frames != []
    requires e == Call(func, args)
    ensures Grows(c, ExecAll(args, Exec(func, c)), Defined(func) + DefinedBy(args))
    decreases e, 0
  {
    ExecGrows(func, c, open);
    ExecAllGrows(args, Exec(func, c), open);
    GrowsTransitive(c, Exec(func, c), ExecAll(args, Exec(func, c)), Defined(func), DefinedBy(args));
  }

  lemma {:induction false} ExecRegionGrows(body: seq<Ast>, c: Run)
    requires AllInFragment(body, {}) && AllStraight(body) && c.frames != []
    ensures Grows(c, Exit(ExecAll(body, Enter(c))), {})
    decreases body, 2
  {
    ExecAllGrows(body, Enter(c), {});
    PopGrows(c, ExecAll(body, Enter(c)), DefinedBy(body));
  }

  lemma {:induction false} ExecBorrowGrows(x: string, body: seq<Ast>, c: Run, open: set<string>)
    requires x != "" && AllInFragment(body, open + {x}) && AllStraight(body) && c.frames != []
    ensures Grows(c, ExecBorrow(x, body, c), DefinedBy(body))
    decreases body, 2
  {
    var k := FindFrame(c.frames, x);
    if k < 0 {
      ExecAllGrows(body, c, open + {x});
    } else {
      var d := Emit(c, Borrowed(c.frames[k].vars[x]));
      ExecAllGrows(body, d, open + {x});
    }
  }

  lemma {:induction false} ExecLetGrows(e: Ast, c: Run)
    requires e.Let? && InFragment(e, {}) && Straight(e) && c.frames != []
    ensures Grows(c, Exec(e, c), {})
    decreases e, 0
  {
    var q := Enter(c);
    var d := ExecBindings(e.kind, e.bindings, q);
    BindingsGrow(e.kind, e.bindings, q);
    ExecGrows(e.inner, d, {});
    GrowsTransitive(q, d, Exec(e.inner, d), BindingNames(e.bindings), Defined(e.inner));
    PopGrows(c, Exec(e.inner, d), BindingNames(e.bindings) + Defined(e.inner));
  }

  lemma {:induction false} ExecAllGrows(es: seq<Ast>, c: Run, open: set<string>)
    requires AllInFragment(es, open) && AllStraight(es) && c.frames != []
    ensures Grows(c, ExecAll(es, c), DefinedBy(es))
    decreases es, 1
  {
    if es == [] {
    } else {
      var d := Exec(es[0], c);
      ExecGrows(es[0], c, open);
      ExecAllGrows(es[1..], d, open);
      GrowsTransitive(c, d, ExecAll(es, c), Defined(es[0]), DefinedBy(es[1..]));
    }
  }

  lemma {:induction false} BindAllGrows(bs: seq<Ast>, c: Run)
    requires BindingsInFragment(bs) && c.frames != []
    ensures Grows(c, BindAll(bs, c), BinderNames(bs))
    ensures BindAll(bs, c).trace == c.trace
  {
    if bs == [] {
    } else {
      var d := BindOne(bs[0], c);
      BindGrows(c, VarName(bs[0].car), HoldsOwned(bs[0].cdr));
      BindAllGrows(bs[1..], d);
      GrowsTransitive(c, d, BindAll(bs, c), {VarName(bs[0].car)}, BinderNames(bs[1..]));
    }
  }

  lemma {:induction false} ExecValueGrows(b: Ast, c: Run)
    requires BindingInFragment(b) && Straight(b) && c.frames != []
    ensures Grows(c, ExecValue(b, c), Defined(b.cdr))
    decreases b, 0
  {
    ExecGrows(b.cdr, c, {});
  }

  lemma {:induction false} ExecValuesGrow(bs: seq<Ast>, c: Run)
    requires BindingsInFragment(bs) && AllStraight(bs) && c.frames != []
    ensures Grows(c, ExecValues(bs, c), ValueNames(bs))
    decreases bs, 1
  {
    if bs == [] {
    } else {
      var d := ExecValue(bs[0], c);
      ExecValueGrows(bs[0], c);
      ExecValuesGrow(bs[1..], d);
      GrowsTransitive(c, d, ExecValues(bs, c), Defined(bs[0].cdr), ValueNames(bs[1..]));
    }
  }

  lemma {:induction false} ExecEachGrows(bs: seq<Ast>, c: Run)
    requires BindingsInFragment(bs) && AllStraight(bs) && c.frames != []
    ensures Grows(c, ExecEach(bs, c), BindingNames(bs))
    decreases bs, 1
  {
    if bs == [] {
    } else {
      var x, v := VarName(bs[0].car), bs[0].cdr;
      var d := ExecValue(bs[0], c);
      var e := BindOne(bs[0], d);
      ExecValueGrows(bs[0], c);
      BindGrows(d, x, HoldsOwned(v));
      GrowsTransitive(c, d, e, Defined(v), {x});
      ExecEachGrows(bs[1..], e);
      GrowsTransitive(c, e, ExecEach(bs, c), Defined(v) + {x}, BindingNames(bs[1..]));
      assert Defined(v) + {x} + BindingNames(bs[1..]) == BindingNames(bs);
    }
  }

  lemma {:induction false} BindingsGrow(kind: LetKind, bs: seq<Ast>, c: Run)
    requires BindingsInFragment(bs) && AllStraight(bs) && c.frames != []
    ensures Grows(c, ExecBindings(kind, bs, c), BindingNames(bs))
    decreases bs, 2
  {
    match kind
    case Sequential => ExecEachGrows(bs, c);
    case Parallel =>
      var d := ExecValues(bs, c);
      ExecValuesGrow(bs, c);
      BindAllGrows(bs, d);
      GrowsTransitive(c, d, BindAll(bs, d), ValueNames(bs), BinderNames(bs));
      assert ValueNames(bs) + BinderNames(bs) == BindingNames(bs);
    case Recursive =>
      var d := BindAll(bs, c);
      BindAllGrows(bs, c);
      ExecValuesGrow(bs, d);
      GrowsTransitive(c, d, ExecValues(bs, d), BinderNames(bs), ValueNames(bs));
  }

  // ---- The analyzer's borrow marks stand for real loans ----

  /** The binding x refers to is on loan, if there is one. */
  predicate Lent(c: Run, x: string) {
    var k := FindFrame(c.frames, x);
    k < 0 || OnLoan(c.trace, c.frames[k].vars[x])
  }

  ghost predicate MarkReal(c: Run, s: Scope, lent: set<string>) {
    s.borrowed <= lent && forall x | x in s.borrowed :: Lent(c, x)
  }

  ghost predicate Real(c: Run, a: State, lent: set<string>) {
    && (forall loc :: Net(c.trace, loc) >= 0)
    && (forall k | 0 <= k < |a.scopes| :: MarkReal(c, a.scopes[k], lent))
  }

  lemma FindStays(c: Run, d: Run, added: set<string>, x: string)
    requires Grows(c, d, added) && x !in added
    ensures FindFrame(d.frames, x) == FindFrame(c.frames, x)
    ensures var k := FindFrame(c.frames, x); k >= 0 ==> d.frames[k].vars[x] == c.frames[k].vars[x]
  {
    var top := |c.frames| - 1;
    assert forall k | 0 <= k < top :: d.frames[k] == d.frames[..top][k] == c.frames[..top][k] == c.frames[k];
  }

  lemma LentStays(c: Run, d: Run, added: set<string>, x: string)
    requires Grows(c, d, added) && x !in added && Balanced(c.trace, d.trace) && Lent(c, x)
    ensures Lent(d, x)
  {
    FindStays(c, d, added, x);
    var k := FindFrame(c.frames, x);
    if k >= 0 {
      var loc := c.frames[k].vars[x];
      assert Net(c.trace, loc) == Net(d.trace, loc);
    }
  }

  lemma RealNext(c: Run, a: State, d: Run, b: State, lent: set<string>, added: set<string>)
    requires Real(c, a, lent) && Grows(c, d, added) && added !! lent && Balanced(c.trace, d.trace)
    requires |a.scopes| == |b.scopes|
    requires forall k | 0 <= k < |a.scopes| :: a.scopes[k].borrowed == b.scopes[k].borrowed
    ensures Real(d, b, lent)
  {
    forall k | 0 <= k < |b.scopes| ensures MarkReal(d, b.scopes[k], lent) {
      assert MarkReal(c, a.scopes[k], lent);
      forall x | x in b.scopes[k].borrowed ensures Lent(d, x) {
        LentStays(c, d, added, x);
      }
    }
    forall loc ensures Net(d.trace, loc) >= 0 {
      assert Net(c.trace, loc) == Net(d.trace, loc);
    }
  }

  lemma SameMarksThroughout(a: State, b: State, added: set<string>)
    requires Extends(a, b, added)
    ensures forall k | 0 <= k < |a.scopes| :: a.scopes[k].borrowed == b.scopes[k].borrowed
  {
    forall k | 0 <= k < |a.scopes| ensures a.scopes[k].borrowed == b.scopes[k].borrowed {
      assert ScopeExtends(a.scopes[k], b.scopes[k], if k == |a.scopes| - 1 then added else {});
    }
  }

  lemma RealInside(c: Run, a: State, kind: ScopeKind, lent: set<string>)
    requires Real(c, a, lent) && c.frames != []
    ensures Real(Enter(c), Push(a, kind), lent)
  {
    var d, b := Enter(c), Push(a, kind);
    assert d.frames[..|c.frames|] == c.frames;
    forall k | 0 <= k < |b.scopes| ensures MarkReal(d, b.scopes[k], lent) {
      if k < |a.scopes| {
        assert MarkReal(c, a.scopes[k], lent);
        assert forall x | x in b.scopes[k].borrowed :: FindFrame(d.frames, x) == FindFrame(c.frames, x);
      }
    }
  }

  /** A new loan, of the binding x refers to. */
  lemma RealLoan(x: string, c: Run, a: State, lent: set<string>)
    requires a.scopes != [] && Real(c, a, lent) && FindFrame(c.frames, x) >= 0
    ensures var loc := c.frames[FindFrame(c.frames, x)].vars[x];
            Real(Emit(c, Borrowed(loc)), SetBorrowed(a, Top(a).borrowed + {x}), lent + {x})
  {
    var loc := c.frames[FindFrame(c.frames, x)].vars[x];
    var d, b := Emit(c, Borrowed(loc)), SetBorrowed(a, Top(a).borrowed + {x});
    forall m ensures Net(d.trace, m) >= 0 {
      NetAppend(c.trace, Borrowed(loc), m);
    }
    forall k | 0 <= k < |b.scopes| ensures MarkReal(d, b.scopes[k], lent + {x}) {
      assert MarkReal(c, a.scopes[k], lent);
      assert b.scopes[k].borrowed <= a.scopes[k].borrowed + {x};
      forall y | y in b.scopes[k].borrowed ensures Lent(d, y) {
        LentAfterLoan(x, c, y);
      }
    }
  }

  lemma LentAfterLoan(x: string, c: Run, y: string)
    requires FindFrame(c.frames, x) >= 0 && (y == x || Lent(c, y))
    requires Net(c.trace, c.frames[FindFrame(c.frames, x)].vars[x]) >= 0
    ensures Lent(Emit(c, Borrowed(c.frames[FindFrame(c.frames, x)].vars[x])), y)
  {
    var loc, k := c.frames[FindFrame(c.frames, x)].vars[x], FindFrame(c.frames, y);
    if k >= 0 {
      NetAppend(c.trace, Borrowed(loc), c.frames[k].vars[y]);
    }
  }

  lemma RealUnbound(x: string, c: Run, a: State, lent: set<string>)
    requires a.scopes != [] && Real(c, a, lent) && FindFrame(c.frames, x) < 0
    ensures Real(c, SetBorrowed(a, Top(a).borrowed + {x}), lent + {x})
  {
    var b := SetBorrowed(a, Top(a).borrowed + {x});
    forall k | 0 <= k < |b.scopes| ensures MarkReal(c, b.scopes[k], lent + {x}) {
      assert MarkReal(c, a.scopes[k], lent);
    }
  }

  // ---- A safe and linear run meets no report ----

  ghost predicate Fine(t: Trace) {
    Safe(t) && Linear(t)
  }

  lemma FinePrefix(t: Trace, u: Trace)
    requires Fine(u) && t <= u
    ensures Fine(t)
  {
    assert forall i | 0 <= i < |t| :: t[..i] == u[..i] && t[i] == u[i];
    forall i | 0 <= i < |t| ensures SafeAfter(t[..i], t[i]) {
      assert SafeAfter(u[..i], u[i]);
    }
    forall i, loc | 0 <= i < |t| && t[i].Left? && loc in t[i].owned
      ensures multiset(t[..i])[Moved(loc)] == 1
    {
      assert loc in u[i].owned;
    }
  }

  /** What a walk over e may start from when the marks are real, and what the run of e must be. */
  ghost predicate Set(loans: seq<Loan>, c: Run, a: State, open: set<string>, lent: set<string>, defined: set<string>) {
    Ready(loans, c, a, open, true, defined) && Real(c, a, lent)
  }

  /** The state after a walk is one that another walk may start from. */
  lemma SetNext(loans: seq<Loan>, c: Run, a: State, d: Run, b: State, open: set<string>, lent: set<string>,
                added: set<string>, defined: set<string>)
    requires a.scopes != [] && Set(loans, c, a, open, lent, added + defined)
    requires added !! defined && added !! lent
    requires Extends(a, b, added) && Grows(c, d, added) && Done(loans, c, d, b, true)
    ensures Set(loans, d, b, open, lent, defined)
  {
    ReadyNext(loans, c, a, d, b, open, true, added, defined);
    SameMarksThroughout(a, b, added);
    RealNext(c, a, d, b, lent, added);
  }

  lemma PreciseVar(x: string, c: Run, a: State)
    requires a.scopes != [] && Corresponds(c, a, true) && Fine(Exec(Var(x), c).trace)
    ensures Analyze(Var(x), a).errors == a.errors
  {
    Lookup(c, a, true, x);
    var k := Find(a.scopes, x);
    if x != "" && k >= 0 {
      SafeAppend(c.trace, Read(c.frames[k].vars[x]));
    }
  }

  lemma PreciseMove(x: string, c: Run, a: State, lent: set<string>)
    requires Corresponds(c, a, true) && Real(c, a, lent)
    requires var k := FindFrame(c.frames, x); k >= 0 ==> Fine(c.trace + [Moved(c.frames[k].vars[x])])
    ensures !IsMoved(a.scopes, x) && (Find(a.scopes, x) >= 0 ==> !IsBorrowed(a.scopes, x))
  {
    Lookup(c, a, true, x);
    var k := Find(a.scopes, x);
    if k >= 0 {
      MayMove(x, k, c, a, lent);
    }
  }

  lemma MayMove(x: string, k: nat, c: Run, a: State, lent: set<string>)
    requires Real(c, a, lent) && k == FindFrame(c.frames, x)
    requires Fine(c.trace + [Moved(c.frames[k].vars[x])])
    ensures Moved(c.frames[k].vars[x]) !in c.trace && !IsBorrowed(a.scopes, x)
  {
    SafeAppend(c.trace, Moved(c.frames[k].vars[x]));
    Unmarked(x, c, a, lent);
  }

  lemma MoveIsSilent(x: string, a: State)
    requires !IsMoved(a.scopes, x) && (Find(a.scopes, x) >= 0 ==> !IsBorrowed(a.scopes, x))
    ensures AnalyzeMove(x, a).errors == a.errors
  {
  }

  lemma Unmarked(x: string, c: Run, a: State, lent: set<string>)
    requires Real(c, a, lent) && !Lent(c, x)
    ensures !IsBorrowed(a.scopes, x)
  {
    assert forall j | 0 <= j < |a.scopes| :: MarkReal(c, a.scopes[j], lent);
  }

  lemma {:induction false} Precise(e: Ast, c: Run, a: State, open: set<string>, loans: seq<Loan>, lent: set<string>)
    requires a.scopes != [] && InFragment(e, open) && Straight(e) && Unshadowed(e, lent)
    requires Set(loans, c, a, open, lent, Defined(e)) && Fine(Exec(e, c).trace)
    ensures Analyze(e, a).errors == a.errors
    decreases e, 2
  {
    match e
    case Var(x) => PreciseVar(x, c, a);
    case Cons(_, _) => PreciseCons(e, c, a, open, loans, lent);
    case Define(_, _, _) => PreciseDefine(e, c, a, open, loans, lent);
    case Owned(value) => Precise(value, c, a, open, loans, lent);
    case Move(value) =>
      if VarName(value) == "" {
        Precise(value, c, a, open, loans, lent);
      } else {
        PreciseMove(VarName(value), c, a, lent);
        MoveIsSilent(VarName(value), a);
      }
    case Borrow(value, body) => PreciseBorrow(VarName(value), body, c, a, open, loans, lent);
    case Let(_, _, _) => PreciseLet(e, c, a, open, loans, lent);
    case Call(_, _) => PreciseCall(e, c, a, open, loans, lent);
    case Sequence(body) => PreciseAll(body, c, a, open, loans, lent);
    case WithRegion(body) => PreciseRegion(body, c, a, open, loans, lent);
    case Wrapped(_, value) => Precise(value, c, a, open, loans, lent);
    case _ =>
  }

  /** A walk with no report, and what the next one starts from. */
  lemma {:induction false} PreciseThen(e: Ast, c: Run, a: State, open: set<string>, loans: seq<Loan>, lent: set<string>,
                                       defined: set<string>)
    requires a.scopes != [] && InFragment(e, open) && Straight(e) && Unshadowed(e, lent)
    requires Set(loans, c, a, open, lent, Defined(e) + defined) && Fine(Exec(e, c).trace)
    requires Defined(e) !! defined
    ensures Analyze(e, a).errors == a.errors
    ensures Set(loans, Exec(e, c), Analyze(e, a), open, lent, defined)
    decreases e, 3
  {
    Precise(e, c, a, open, loans, lent);
    SimulatesThen(e, c, a, open, loans, lent, defined);
  }

  lemma WalkDone(e: Ast, c: Run, a: State, open: set<string>, loans: seq<Loan>, defined: set<string>)
    requires a.scopes != [] && InFragment(e, open) && Straight(e)
    requires Ready(loans, c, a, open, true, defined) && Defined(e) <= defined
    requires Analyze(e, a).errors == a.errors
    ensures Done(loans, c, Exec(e, c), Analyze(e, a), true)
  {
    Simulates(e, c, a, open, loans, true);
  }

  lemma SimulatesThen(e: Ast, c: Run, a: State, open: set<string>, loans: seq<Loan>, lent: set<string>,
                      defined: set<string>)
    requires a.scopes != [] && InFragment(e, open) && Straight(e) && Unshadowed(e, lent)
    requires Set(loans, c, a, open, lent, Defined(e) + defined) && Defined(e) !! defined
    requires Analyze(e, a).errors == a.errors
    ensures Set(loans, Exec(e, c), Analyze(e, a), open, lent, defined)
  {
    WalkDone(e, c, a, open, loans, Defined(e) + defined);
    WalkExtends(e, a, open);
    ExecGrows(e, c, open);
    UnshadowedDefines(e, lent);
    SetNext(loans, c, a, Exec(e, c), Analyze(e, a), open, lent, Defined(e), defined);
  }

  lemma {:induction false} PreciseCons(e: Ast, c: Run, a: State, open: set<string>, loans: seq<Loan>, lent: set<string>)
    requires e.Cons? && a.scopes != [] && InFragment(e, open) && Straight(e) && Unshadowed(e, lent)
    requires Set(loans, c, a, open, lent, Defined(e)) && Fine(Exec(e, c).trace)
    ensures Analyze(e, a).errors == a.errors
    decreases e, 1
  {
    var d, b := Exec(e.car, c), Analyze(e.car, a);
    ExecGrows(e.cdr, d, open);
    FinePrefix(d.trace, Exec(e, c).trace);
    PreciseThen(e.car, c, a, open, loans, lent, Defined(e.cdr));
    Precise(e.cdr, d, b, open, loans, lent);
  }

  lemma {:induction false} PreciseCall(e: Ast, c: Run, a: State, open: set<string>, loans: seq<Loan>, lent: set<string>)
    requires e.Call? && a.scopes != [] && InFragment(e, open) && Straight(e) && Unshadowed(e, lent)
    requires Set(loans, c, a, open, lent, Defined(e)) && Fine(Exec(e, c).trace)
    ensures Analyze(e, a).errors == a.errors
    decreases e, 1
  {
    var d, b := Exec(e.func, c), Analyze(e.func, a);
    ExecAllGrows(e.args, d, open);
    FinePrefix(d.trace, Exec(e, c).trace);
    PreciseThen(e.func, c, a, open, loans, lent, DefinedBy(e.args));
    PreciseAll(e.args, d, b, open, loans, lent);
  }

  lemma {:induction false} PreciseDefine(e: Ast, c: Run, a: State, open: set<string>, loans: seq<Loan>,
                                         lent: set<string>)
    requires e.Define? && a.scopes != [] && InFragment(e, open) && Straight(e) && Unshadowed(e, lent)
    requires Set(loans, c, a, open, lent, Defined(e)) && Fine(Exec(e, c).trace)
    ensures Analyze(e, a).errors == a.errors
    decreases e, 1
  {
    RegisterLate(e.name, e.value, a);
    Precise(e.value, c, a, open, loans, lent);
  }

  lemma {:induction false} PreciseAll(es: seq<Ast>, c: Run, a: State, open: set<string>, loans: seq<Loan>,
                                      lent: set<string>)
    requires a.scopes != [] && AllInFragment(es, open) && AllStraight(es) && AllUnshadowed(es, lent)
    requires Set(loans, c, a, open, lent, DefinedBy(es)) && Fine(ExecAll(es, c).trace)
    ensures AnalyzeAll(es, a).errors == a.errors
    decreases es, 1
  {
    if es == [] {
    } else {
      var d, b := Exec(es[0], c), Analyze(es[0], a);
      ExecAllGrows(es[1..], d, open);
      FinePrefix(d.trace, ExecAll(es, c).trace);
      PreciseThen(es[0], c, a, open, loans, lent, DefinedBy(es[1..]));
      PreciseAll(es[1..], d, b, open, loans, lent);
    }
  }

  lemma {:induction false} PreciseBorrow(x: string, body: seq<Ast>, c: Run, a: State, open: set<string>,
                                         loans: seq<Loan>, lent: set<string>)
    requires a.scopes != [] && x != "" && x !in open
    requires AllInFragment(body, open + {x}) && AllStraight(body) && AllUnshadowed(body, lent + {x})
    requires Set(loans, c, a, open, lent, DefinedBy(body)) && Fine(ExecBorrow(x, body, c).trace)
    ensures EndBorrow(x, AnalyzeAll(body, StartBorrow(x, a))).errors == a.errors
    decreases body, 3
  {
    Lookup(c, a, true, x);
    var k := Find(a.scopes, x);
    var b := SetBorrowed(a, open + {x});
    if k < 0 {
      RealUnbound(x, c, a, lent);
      ReadyUnbound(x, c, a, open, loans, DefinedBy(body));
      PreciseAll(body, c, b, open + {x}, loans, lent + {x});
    } else {
      PreciseLoan(x, c.frames[k].vars[x], body, c, a, open, loans, lent);
      assert !IsMoved(a.scopes, x);
    }
  }

  lemma ReadyUnbound(x: string, c: Run, a: State, open: set<string>, loans: seq<Loan>, defined: set<string>)
    requires a.scopes != [] && Ready(loans, c, a, open, true, defined)
    ensures Ready(loans, c, SetBorrowed(a, open + {x}), open + {x}, true, defined)
  {
    var b := SetBorrowed(a, open + {x});
    MarkKeeps(c, a, true, open + {x});
    forall i | 0 <= i < |loans| ensures LoanHeld(loans[i], b) {
      assert LoanHeld(loans[i], a);
    }
  }

  lemma {:induction false} PreciseLoan(x: string, loc: Loc, body: seq<Ast>, c: Run, a: State, open: set<string>,
                                       loans: seq<Loan>, lent: set<string>)
    requires a.scopes != [] && x !in open && FindFrame(c.frames, x) >= 0 && loc.name == x
    requires loc == c.frames[FindFrame(c.frames, x)].vars[x]
    requires AllInFragment(body, open + {x}) && AllStraight(body) && AllUnshadowed(body, lent + {x})
    requires Set(loans, c, a, open, lent, DefinedBy(body))
    requires Fine(ExecAll(body, Emit(c, Borrowed(loc))).trace + [Released(loc)])
    ensures Moved(loc) !in c.trace
    ensures AnalyzeAll(body, SetBorrowed(a, open + {x})).errors == a.errors
    decreases body, 2
  {
    var d := Emit(c, Borrowed(loc));
    var r := ExecAll(body, d);
    ExecAllGrows(body, d, open + {x});
    FinePrefix(r.trace, r.trace + [Released(loc)]);
    FinePrefix(d.trace, r.trace);
    SafeAppend(c.trace, Borrowed(loc));
    StartLoan(loc, c, a, open, loans, true, DefinedBy(body));
    RealLoan(x, c, a, lent);
    PreciseAll(body, d, SetBorrowed(a, open + {x}), open + {x}, loans + [Loan(loc, |a.scopes| - 1)], lent + {x});
  }

  /** A scope whose owned values were all moved is left without a report. */
  lemma PreciseLeave(c: Run, a: State)
    requires a.scopes != [] && Corresponds(c, a, true) && Fine(Exit(c).trace)
    ensures Leave(a).errors == a.errors
  {
    var top := |c.frames| - 1;
    var f, s, t := c.frames[top], a.scopes[top], Exit(c).trace;
    assert FrameMatches(top, f, s, c.next, c.trace, true);
    assert t[..|c.trace|] == c.trace && t[|c.trace|] == Left(f.owned);
    forall x | x in s.vars ensures s.vars[x] != VariableInfo(OWNED, true) {
      assert f.vars[x] in f.owned ==> multiset(t[..|c.trace|])[Moved(f.vars[x])] == 1;
    }
  }

  lemma {:induction false} PreciseRegion(body: seq<Ast>, c: Run, a: State, open: set<string>, loans: seq<Loan>,
                                         lent: set<string>)
    requires a.scopes != [] && AllInFragment(body, {}) && AllStraight(body) && AllUnshadowed(body, lent)
    requires Set(loans, c, a, open, lent, {}) && Fine(Exit(ExecAll(body, Enter(c))).trace)
    ensures Leave(AnalyzeAll(body, Push(a, RegionScope))).errors == a.errors
    decreases body, 3
  {
    SetInside(loans, c, a, open, lent, RegionScope, DefinedBy(body));
    PreciseScope(body, Enter(c), Push(a, RegionScope), loans, lent);
  }

  lemma SetInside(loans: seq<Loan>, c: Run, a: State, open: set<string>, lent: set<string>, kind: ScopeKind,
                  defined: set<string>)
    requires a.scopes != [] && Set(loans, c, a, open, lent, {}) && !kind.GlobalScope?
    ensures Set(loans, Enter(c), Push(a, kind), {}, lent, defined)
  {
    ReadyInside(loans, c, a, open, true, kind, {}, defined);
    RealInside(c, a, kind, lent);
  }

  lemma {:induction false} PreciseScope(body: seq<Ast>, q: Run, p: State, loans: seq<Loan>, lent: set<string>)
    requires p.scopes != [] && AllInFragment(body, {}) && AllStraight(body) && AllUnshadowed(body, lent)
    requires Set(loans, q, p, {}, lent, DefinedBy(body)) && Fine(Exit(ExecAll(body, q)).trace)
    ensures Leave(AnalyzeAll(body, p)).errors == p.errors
    decreases body, 2
  {
    var d := ExecAll(body, q);
    FinePrefix(d.trace, Exit(d).trace);
    PreciseAll(body, q, p, {}, loans, lent);
    SimulatesAll(body, q, p, {}, loans, true);
    PreciseLeave(d, AnalyzeAll(body, p));
  }

  lemma {:induction false} PreciseLet(e: Ast, c: Run, a: State, open: set<string>, loans: seq<Loan>, lent: set<string>)
    requires e.Let? && a.scopes != [] && InFragment(e, open) && Straight(e) && Unshadowed(e, lent)
    requires Set(loans, c, a, open, lent, {}) && Fine(Exec(e, c).trace)
    ensures Analyze(e, a).errors == a.errors
    decreases e, 1
  {
    var p, q := Push(a, ScopeFor(e.kind)), Enter(c);
    SetInside(loans, c, a, open, lent, ScopeFor(e.kind), BindingNames(e.bindings) + Defined(e.inner));
    PreciseInside(e, q, p, loans, lent);
  }

  lemma {:induction false} PreciseInside(e: Ast, q: Run, p: State, loans: seq<Loan>, lent: set<string>)
    requires e.Let? && p.scopes != [] && InFragment(e, {}) && Straight(e) && Unshadowed(e, lent)
    requires Set(loans, q, p, {}, lent, BindingNames(e.bindings) + Defined(e.inner))
    requires Fine(Exit(Exec(e.inner, ExecBindings(e.kind, e.bindings, q))).trace)
    ensures Leave(Analyze(e.inner, AnalyzeBindings(e.kind, e.bindings, p))).errors == p.errors
    decreases e, 0
  {
    var b, d := AnalyzeBindings(e.kind, e.bindings, p), ExecBindings(e.kind, e.bindings, q);
    var r := Exec(e.inner, d);
    FinePrefix(r.trace, Exit(r).trace);
    ExecGrows(e.inner, d, {});
    FinePrefix(d.trace, r.trace);
    PreciseBindings(e.kind, e.bindings, q, p, loans, lent);
    SetAfterBindings(e.kind, e.bindings, q, p, loans, lent, Defined(e.inner));
    Precise(e.inner, d, b, {}, loans, lent);
    Simulates(e.inner, d, b, {}, loans, true);
    PreciseLeave(r, Analyze(e.inner, b));
  }

  lemma SetAfterBindings(kind: LetKind, bs: seq<Ast>, c: Run, a: State, loans: seq<Loan>, lent: set<string>,
                         defined: set<string>)
    requires a.scopes != [] && BindingsInFragment(bs) && AllStraight(bs) && BindersStraight(bs)
    requires kind.Parallel? ==> NoEarlierBinder(bs, {})
    requires kind.Sequential? ==> NoOwnBinder(bs)
    requires AllUnshadowed(bs, lent) && BinderNames(bs) !! lent && BindingNames(bs) !! defined
    requires Set(loans, c, a, {}, lent, BindingNames(bs) + defined)
    requires AnalyzeBindings(kind, bs, a).errors == a.errors
    ensures Set(loans, ExecBindings(kind, bs, c), AnalyzeBindings(kind, bs, a), {}, lent, defined)
  {
    var b, d := AnalyzeBindings(kind, bs, a), ExecBindings(kind, bs, c);
    BindingsDone(kind, bs, c, a, loans, BindingNames(bs) + defined);
    BindingsExtend(kind, bs, a);
    BindingsGrow(kind, bs, c);
    ValuesUnshadowed(bs, lent);
    SetNext(loans, c, a, d, b, {}, lent, BindingNames(bs), defined);
  }

  lemma BindingsDone(kind: LetKind, bs: seq<Ast>, c: Run, a: State, loans: seq<Loan>, defined: set<string>)
    requires a.scopes != [] && BindingsInFragment(bs) && AllStraight(bs) && BindersStraight(bs)
    requires kind.Parallel? ==> NoEarlierBinder(bs, {})
    requires kind.Sequential? ==> NoOwnBinder(bs)
    requires Ready(loans, c, a, {}, true, defined) && BindingNames(bs) <= defined
    requires AnalyzeBindings(kind, bs, a).errors == a.errors
    ensures Done(loans, c, ExecBindings(kind, bs, c), AnalyzeBindings(kind, bs, a), true)
  {
    SimulatesBindings(kind, bs, c, a, loans, true);
  }

  lemma {:induction false} RegisterAllSilent(bs: seq<Ast>, a: State)
    requires a.scopes != []
    ensures RegisterAll(bs, a).errors == a.errors
  {
    if bs == [] {
    } else {
      RegisterAllSilent(bs[1..], RegisterBinding(bs[0], a));
    }
  }

  lemma {:induction false} PreciseBindings(kind: LetKind, bs: seq<Ast>, c: Run, a: State, loans: seq<Loan>,
                                           lent: set<string>)
    requires a.scopes != [] && BindingsInFragment(bs) && AllStraight(bs) && BindersStraight(bs)
    requires kind.Parallel? ==> NoEarlierBinder(bs, {})
    requires kind.Sequential? ==> NoOwnBinder(bs)
    requires AllUnshadowed(bs, lent) && BinderNames(bs) !! lent
    requires Set(loans, c, a, {}, lent, BindingNames(bs))
    requires Fine(ExecBindings(kind, bs, c).trace)
    ensures AnalyzeBindings(kind, bs, a).errors == a.errors
    decreases bs, 2
  {
    match kind
    case Sequential => PreciseEach(bs, c, a, loans, lent);
    case Parallel =>
      LateBinders(bs, a);
      BindAllGrows(bs, ExecValues(bs, c));
      RegisterAllSilent(bs, AnalyzeValues(bs, a));
      PreciseValues(bs, c, a, loans, lent);
    case Recursive =>
      var b, d := RegisterAll(bs, a), BindAll(bs, c);
      SetAfterBindAll(bs, c, a, loans, lent);
      RegisterAllSilent(bs, a);
      PreciseValues(bs, d, b, loans, lent);
  }

  lemma SetAfterBindAll(bs: seq<Ast>, c: Run, a: State, loans: seq<Loan>, lent: set<string>)
    requires a.scopes != [] && BindingsInFragment(bs) && BindersStraight(bs) && BinderNames(bs) !! lent
    requires Set(loans, c, a, {}, lent, BindingNames(bs))
    ensures Set(loans, BindAll(bs, c), RegisterAll(bs, a), {}, lent, ValueNames(bs))
  {
    var b, d := RegisterAll(bs, a), BindAll(bs, c);
    BindersApart(bs);
    SimulatesBindAll(bs, c, a, loans, true);
    RegisterAllExtends(bs, a);
    BindAllGrows(bs, c);
    SetNext(loans, c, a, d, b, {}, lent, BinderNames(bs), ValueNames(bs));
  }

  /** As `PreciseThen`, for an initializer. */
  lemma {:induction false} PreciseValue(v: Ast, c: Run, a: State, loans: seq<Loan>, lent: set<string>,
                                        defined: set<string>)
    requires a.scopes != [] && BindingInFragment(v) && Straight(v) && Unshadowed(v, lent)
    requires Set(loans, c, a, {}, lent, Defined(v.cdr) + defined) && Defined(v.cdr) !! defined
    requires Fine(ExecValue(v, c).trace)
    ensures AnalyzeValue(v, a).errors == a.errors
    ensures Set(loans, ExecValue(v, c), AnalyzeValue(v, a), {}, lent, defined)
    decreases v, 0
  {
    PreciseThen(v.cdr, c, a, {}, loans, lent, defined);
  }

  lemma {:induction false} PreciseValues(bs: seq<Ast>, c: Run, a: State, loans: seq<Loan>, lent: set<string>)
    requires a.scopes != [] && BindingsInFragment(bs) && AllStraight(bs) && BindersStraight(bs)
    requires AllUnshadowed(bs, lent)
    requires Set(loans, c, a, {}, lent, ValueNames(bs)) && Fine(ExecValues(bs, c).trace)
    ensures AnalyzeValues(bs, a).errors == a.errors
    decreases bs, 1
  {
    if bs == [] {
    } else {
      var d, b := ExecValue(bs[0], c), AnalyzeValue(bs[0], a);
      ExecValuesGrow(bs[1..], d);
      FinePrefix(d.trace, ExecValues(bs, c).trace);
      PreciseValue(bs[0], c, a, loans, lent, ValueNames(bs[1..]));
      PreciseValues(bs[1..], d, b, loans, lent);
    }
  }

  lemma {:induction false} PreciseEach(bs: seq<Ast>, c: Run, a: State, loans: seq<Loan>, lent: set<string>)
    requires a.scopes != [] && BindingsInFragment(bs) && AllStraight(bs) && BindersStraight(bs) && NoOwnBinder(bs)
    requires AllUnshadowed(bs, lent) && BinderNames(bs) !! lent
    requires Set(loans, c, a, {}, lent, BindingNames(bs)) && Fine(ExecEach(bs, c).trace)
    ensures AnalyzeEach(bs, a).errors == a.errors
    decreases bs, 1
  {
    if bs == [] {
    } else {
      var x, v := VarName(bs[0].car), bs[0].cdr;
      var d, b := ExecValue(bs[0], c), AnalyzeValue(bs[0], a);
      var e, r := Bind(d, x, HoldsOwned(v)), Register(b, x, v);
      ExecEachGrows(bs[1..], e);
      FinePrefix(d.trace, ExecEach(bs, c).trace);
      EachNames(bs);
      PreciseValue(bs[0], c, a, loans, lent, {x} + BindingNames(bs[1..]));
      SetAfterBind(x, v, d, b, loans, lent, BindingNames(bs[1..]));
      PreciseEach(bs[1..], e, r, loans, lent);
      LateBinder(bs, a);
    }
  }

  lemma EachNames(bs: seq<Ast>)
    requires bs != [] && bs[0].Cons? && BindersStraight(bs)
    ensures var x, v, rest := VarName(bs[0].car), bs[0].cdr, BindingNames(bs[1..]);
            BindingNames(bs) == Defined(v) + ({x} + rest) && Defined(v) !! {x} + rest && x !in rest
  {
  }

  /** The first binder of a `let*` might as well be registered after its initializer. */
  lemma LateBinder(bs: seq<Ast>, a: State)
    requires a.scopes != [] && bs != [] && BindingInFragment(bs[0]) && NoOwnBinder(bs)
    ensures AnalyzeEach(bs, a) == AnalyzeEach(bs[1..], Register(AnalyzeValue(bs[0], a), VarName(bs[0].car), bs[0].cdr))
  {
    RegisterLate(VarName(bs[0].car), bs[0].cdr, a);
  }

  lemma SetAfterBind(x: string, v: Ast, c: Run, a: State, loans: seq<Loan>, lent: set<string>, defined: set<string>)
    requires a.scopes != [] && x !in lent && x !in defined
    requires Set(loans, c, a, {}, lent, {x} + defined)
    ensures Set(loans, Bind(c, x, HoldsOwned(v)), Register(a, x, v), {}, lent, defined)
  {
    var d, b := Bind(c, x, HoldsOwned(v)), Register(a, x, v);
    BindDone(loans, c, a, true, x, v);
    RegisterExtends(a, x, v);
    BindGrows(c, x, HoldsOwned(v));
    SetNext(loans, c, a, d, b, {}, lent, {x}, defined);
  }

  // ---- The theorem ----

  lemma FineIsAccepted(es: seq<Ast>, tape: seq<bool>)
    requires AllInFragment(es, {}) && AllStraight(es) && AllUnshadowed(es, {})
    requires Fine(TraceOf(es, tape))
    ensures Accepted(es)
  {
    var a := Push(State([], multiset{}), GlobalScope);
    var c := Run([Frame(map[], {})], 0, tape, []);
    SetAtStart(tape, DefinedBy(es));
    PreciseAll(es, c, a, {}, [], {});
    GlobalIsSilent(es);
  }

  lemma SetAtStart(tape: seq<bool>, defined: set<string>)
    ensures Set([], Run([Frame(map[], {})], 0, tape, []), Push(State([], multiset{}), GlobalScope), {}, {}, defined)
  {
  }

  /** The global scope is left without a report. */
  lemma GlobalIsSilent(es: seq<Ast>)
    requires AllInFragment(es, {})
    ensures AnalyzeProgram(es).errors == AnalyzeAll(es, Push(State([], multiset{}), GlobalScope)).errors
  {
    WalkAllExtends(es, Push(State([], multiset{}), GlobalScope), {});
  }

  /** Exactness. A straight-line program of the fragment that rebinds no borrowed name inside
      the borrow is accepted if and only if its run is safe and linear. */
  lemma AcceptedIffFine(es: seq<Ast>, tape: seq<bool>)
    requires AllInFragment(es, {}) && AllStraight(es) && AllUnshadowed(es, {})
    ensures Accepted(es) <==> Safe(TraceOf(es, tape)) && Linear(TraceOf(es, tape))
  {
    if Accepted(es) {
      AcceptedIsLinear(es, tape);
    }
    if Fine(TraceOf(es, tape)) {
      FineIsAccepted(es, tape);
    }
  }

  /** What a verdict promises: acceptance is sound on the fragment, and exact on its straight-line
      programs that rebind no borrowed name inside the borrow. */
  ghost predicate Vindicated(es: seq<Ast>, ok: bool) {
    && (ok && AllInFragment(es, {}) ==> forall tape :: Safe(TraceOf(es, tape)))
    && (AllInFragment(es, {}) && AllStraight(es) && AllUnshadowed(es, {}) ==>
          forall tape :: ok <==> Fine(TraceOf(es, tape)))
  }

  lemma VerdictHolds(es: seq<Ast>)
    ensures Vindicated(es, Accepted(es))
  {
    if Accepted(es) && AllInFragment(es, {}) {
      AcceptedIsSafe(es);
    }
    if AllInFragment(es, {}) && AllStraight(es) && AllUnshadowed(es, {}) {
      forall tape ensures Accepted(es) <==> Fine(TraceOf(es, tape)) {
        AcceptedIffFine(es, tape);
      }
    }
  }
}
