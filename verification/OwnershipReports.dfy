/** On straight-line programs of the fragment the reports are the right ones: the first thing that
    goes wrong in the run is reported, as what it is and under the name it happens to. */
module OwnershipReports {
  import opened OwnershipSyntax
  import opened OwnershipAnalysis
  import opened OwnershipSemantics
  import opened OwnershipFrame
  import opened OwnershipSoundness
  import opened OwnershipExactness

  /** What is wrong about an event that follows the history t. */
  ghost predicate IsFault(t: Trace, event: Event, error: OwnershipError) {
    match event
    case Read(loc) => Moved(loc) in t && error == UseOfMoved(loc.name)
    case Moved(loc) =>
      if Moved(loc) in t then error == DoubleMove(loc.name) else OnLoan(t, loc) && error == MoveWhileBorrowed(loc.name)
    case Borrowed(loc) => Moved(loc) in t && error == BorrowOfMoved(loc.name)
    case Released(_) => false
    case Left(owned) => exists loc | loc in owned :: Moved(loc) !in t && error == NotConsumed(loc.name)
  }

  ghost predicate FaultAt(t: Trace, i: nat, error: OwnershipError)
    requires i < |t|
  {
    Fine(t[..i]) && IsFault(t[..i], t[i], error)
  }

  /** All went well in t up to an event that is wrong in this way. */
  ghost predicate FirstFault(t: Trace, error: OwnershipError) {
    exists i | 0 <= i < |t| :: FaultAt(t, i, error)
  }

  // ---- Faults and traces ----

  /** An event may follow a fine history if and only if nothing is wrong about it. */
  lemma FineAppend(t: Trace, event: Event)
    requires Fine(t)
    ensures Fine(t + [event]) <==> forall error :: !IsFault(t, event, error)
  {
    SafeAppend(t, event);
    match event
    case Read(loc) => Unless(t, event, UseOfMoved(loc.name));
    case Moved(loc) => Unless(t, event, if Moved(loc) in t then DoubleMove(loc.name) else MoveWhileBorrowed(loc.name));
    case Borrowed(loc) => Unless(t, event, BorrowOfMoved(loc.name));
    case Released(_) => LinearAppend(t, event);
    case Left(owned) => LeftAppend(t, owned);
  }

  lemma Unless(t: Trace, event: Event, error: OwnershipError)
    requires Fine(t) && !event.Left?
    requires SafeAfter(t, event) <==> !IsFault(t, event, error)
    ensures Fine(t + [event]) <==> !IsFault(t, event, error)
  {
    SafeAppend(t, event);
    LinearAppend(t, event);
  }

  lemma LeftAppend(t: Trace, owned: set<Loc>)
    requires Fine(t)
    ensures Fine(t + [Left(owned)]) <==> forall loc | loc in owned :: Moved(loc) in t
    ensures Fine(t + [Left(owned)]) <==> forall error :: !IsFault(t, Left(owned), error)
  {
    var u := t + [Left(owned)];
    SafeAppend(t, Left(owned));
    forall loc ensures multiset(t)[Moved(loc)] == 1 <==> Moved(loc) in t {
      MovedAtMostOnce(t, loc);
    }
    if forall loc | loc in owned :: Moved(loc) in t {
      LinearAppend(t, Left(owned));
    }
    if Linear(u) {
      assert u[..|t|] == t && u[|t|] == Left(owned);
      forall loc | loc in owned ensures Moved(loc) in t {
        assert multiset(u[..|t|])[Moved(loc)] == 1;
      }
    }
    forall loc | loc in owned && Moved(loc) !in t ensures IsFault(t, Left(owned), NotConsumed(loc.name)) {
    }
  }

  /** A trace is fine if and only if it has no first fault. */
  lemma {:induction false} FineIff(t: Trace)
    ensures Fine(t) <==> forall error :: !FirstFault(t, error)
    decreases |t|
  {
    if t == [] {
    } else {
      var u, n := t[..|t| - 1], |t| - 1;
      assert t == u + [t[n]];
      FineIff(u);
      if Fine(u) {
        FineAppend(u, t[n]);
        forall error ensures FirstFault(t, error) <==> IsFault(u, t[n], error) {
          FaultLast(t, error);
        }
      } else {
        var error :| FirstFault(u, error);
        FaultStays(u, t, error);
        assert !Fine(t) by {
          if Fine(t) {
            FinePrefix(u, t);
          }
        }
      }
    }
  }

  lemma FaultStays(u: Trace, t: Trace, error: OwnershipError)
    requires FirstFault(u, error) && u <= t
    ensures FirstFault(t, error)
  {
    var i :| 0 <= i < |u| && FaultAt(u, i, error);
    assert t[..i] == u[..i] && t[i] == u[i];
    assert FaultAt(t, i, error);
  }

  /** Behind a fine history the first fault is at the last event. */
  lemma FaultLast(t: Trace, error: OwnershipError)
    requires t != [] && Fine(t[..|t| - 1])
    ensures FirstFault(t, error) <==> IsFault(t[..|t| - 1], t[|t| - 1], error)
  {
    var n := |t| - 1;
    if FirstFault(t, error) {
      var i :| 0 <= i < |t| && FaultAt(t, i, error);
      if i < n {
        FaultNotFine(t, i, error, t[..n]);
        assert false;
      }
    }
    if IsFault(t[..n], t[n], error) {
      assert FaultAt(t, n, error);
    }
  }

  lemma FaultNotFine(t: Trace, i: nat, error: OwnershipError, u: Trace)
    requires i < |u| && u <= t && FaultAt(t, i, error)
    ensures !Fine(u)
  {
    assert u[..i + 1] == t[..i] + [t[i]];
    FineAppend(t[..i], t[i]);
    if Fine(u) {
      FinePrefix(u[..i + 1], u);
    }
  }

  /** A first fault is in the front part, or that part is fine. */
  lemma FaultSplits(u: Trace, t: Trace, error: OwnershipError)
    requires u <= t && FirstFault(t, error)
    ensures FirstFault(u, error) || Fine(u)
  {
    var i :| 0 <= i < |t| && FaultAt(t, i, error);
    if i < |u| {
      assert u[..i] == t[..i] && u[i] == t[i];
      assert FaultAt(u, i, error);
    } else {
      FinePrefix(u, t[..i]);
    }
  }

  lemma NoFault(t: Trace, error: OwnershipError)
    requires Fine(t)
    ensures !FirstFault(t, error)
  {
    FineIff(t);
  }

  lemma FaultNext(t: Trace, event: Event, error: OwnershipError)
    requires Fine(t) && FirstFault(t + [event], error)
    ensures IsFault(t, event, error)
  {
    assert (t + [event])[..|t|] == t;
    FaultLast(t + [event], error);
  }

  // ---- Single events ----

  lemma BlameVar(x: string, c: Run, a: State, error: OwnershipError)
    requires a.scopes != [] && Corresponds(c, a, true) && FirstFault(Exec(Var(x), c).trace, error)
    ensures error in Analyze(Var(x), a).errors
  {
    Lookup(c, a, true, x);
    NoFault(c.trace, error);
    FaultNext(c.trace, Read(c.frames[FindFrame(c.frames, x)].vars[x]), error);
  }

  lemma BlameMove(x: string, c: Run, a: State, loans: seq<Loan>, error: OwnershipError)
    requires a.scopes != [] && Corresponds(c, a, true) && LoansHeld(loans, c, a)
    requires x != "" && FirstFault(Exec(Move(Var(x)), c).trace, error)
    ensures error in AnalyzeMove(x, a).errors
  {
    Lookup(c, a, true, x);
    NoFault(c.trace, error);
    var k := Find(a.scopes, x);
    var loc := c.frames[k].vars[x];
    FaultNext(c.trace, Moved(loc), error);
    if !IsBorrowed(a.scopes, x) {
      NotOnLoan(loans, c, a, loc);
    }
  }

  /** A scope is left with a report for each owned value that was not moved. */
  lemma BlameLeave(c: Run, a: State, error: OwnershipError)
    requires a.scopes != [] && Corresponds(c, a, true) && FirstFault(Exit(c).trace, error)
    requires !Top(a).kind.GlobalScope?
    ensures error in Leave(a).errors
  {
    var top := |c.frames| - 1;
    var f, s := c.frames[top], a.scopes[top];
    NoFault(c.trace, error);
    FaultNext(c.trace, Left(f.owned), error);
    assert FrameMatches(top, f, s, c.next, c.trace, true);
    var loc :| loc in f.owned && Moved(loc) !in c.trace && error == NotConsumed(loc.name);
    assert s.vars[loc.name] == VariableInfo(OWNED, true);
    assert error in Unconsumed(s);
  }

  // ---- Walks ----

  /** What was reported for one part stays reported through the next. */
  lemma KeptThrough(e: Ast, f: Ast, a: State, open: set<string>, error: OwnershipError)
    requires a.scopes != [] && InFragment(e, open) && InFragment(f, open) && Top(a).borrowed == open
    requires error in Analyze(e, a).errors
    ensures error in Analyze(f, Analyze(e, a)).errors
  {
    var b := Analyze(e, a);
    WalkExtends(e, a, open);
    KeptBy(f, b, open, error);
  }

  lemma KeptBy(e: Ast, a: State, open: set<string>, error: OwnershipError)
    requires a.scopes != [] && InFragment(e, open) && Top(a).borrowed == open && error in a.errors
    ensures error in Analyze(e, a).errors
  {
    WalkExtends(e, a, open);
  }

  lemma KeptThroughAll(e: Ast, es: seq<Ast>, a: State, open: set<string>, error: OwnershipError)
    requires a.scopes != [] && InFragment(e, open) && AllInFragment(es, open) && Top(a).borrowed == open
    requires error in Analyze(e, a).errors
    ensures error in AnalyzeAll(es, Analyze(e, a)).errors
  {
    WalkExtends(e, a, open);
    WalkAllExtends(es, Analyze(e, a), open);
  }

  lemma KeptThroughValues(v: Ast, bs: seq<Ast>, a: State, error: OwnershipError)
    requires a.scopes != [] && BindingInFragment(v) && BindingsInFragment(bs) && Top(a).borrowed == {}
    requires error in AnalyzeValue(v, a).errors
    ensures error in AnalyzeValues(bs, AnalyzeValue(v, a)).errors
  {
    ValueExtends(v, a);
    ValuesExtend(bs, AnalyzeValue(v, a));
  }

  lemma KeptThroughEach(v: Ast, x: string, bs: seq<Ast>, a: State, error: OwnershipError)
    requires a.scopes != [] && BindingInFragment(v) && BindingsInFragment(bs) && Top(a).borrowed == {}
    requires error in AnalyzeValue(v, a).errors
    ensures error in AnalyzeEach(bs, Register(AnalyzeValue(v, a), x, v.cdr)).errors
  {
    ValueExtends(v, a);
    EachExtends(bs, Register(AnalyzeValue(v, a), x, v.cdr));
  }

  lemma KeptInside(e: Ast, kind: LetKind, bs: seq<Ast>, a: State, error: OwnershipError)
    requires a.scopes != [] && BindingsInFragment(bs) && InFragment(e, {}) && Top(a).borrowed == {}
    requires error in AnalyzeBindings(kind, bs, a).errors
    ensures error in Leave(Analyze(e, AnalyzeBindings(kind, bs, a))).errors
  {
    var b := AnalyzeBindings(kind, bs, a);
    BindingsExtend(kind, bs, a);
    KeptBy(e, b, {}, error);
    KeptByLeave(Analyze(e, b), error);
  }

  lemma KeptByLeave(a: State, error: OwnershipError)
    requires a.scopes != [] && error in a.errors
    ensures error in Leave(a).errors
  {
  }

  lemma {:induction false} Blame(e: Ast, c: Run, a: State, open: set<string>, loans: seq<Loan>, lent: set<string>,
                                 error: OwnershipError)
    requires a.scopes != [] && InFragment(e, open) && Straight(e) && Unshadowed(e, lent)
    requires Set(loans, c, a, open, lent, Defined(e)) && FirstFault(Exec(e, c).trace, error)
    ensures error in Analyze(e, a).errors
    decreases e, 2
  {
    match e
    case Var(x) => BlameVar(x, c, a, error);
    case Cons(_, _) => BlameCons(e, c, a, open, loans, lent, error);
    case Define(_, _, _) =>
      RegisterLate(e.name, e.value, a);
      Blame(e.value, c, a, open, loans, lent, error);
    case Owned(value) => Blame(value, c, a, open, loans, lent, error);
    case Move(value) =>
      if VarName(value) == "" {
        Blame(value, c, a, open, loans, lent, error);
      } else {
        BlameMove(VarName(value), c, a, loans, error);
      }
    case Borrow(value, body) => BlameBorrow(VarName(value), body, c, a, open, loans, lent, error);
    case Let(_, _, _) => BlameLet(e, c, a, open, loans, lent, error);
    case Call(_, _) => BlameCall(e, c, a, open, loans, lent, error);
    case Sequence(body) => BlameAll(body, c, a, open, loans, lent, error);
    case WithRegion(body) =>
      SetInside(loans, c, a, open, lent, RegionScope, DefinedBy(body));
      BlameScope(body, Enter(c), Push(a, RegionScope), loans, lent, error);
    case Wrapped(_, value) => Blame(value, c, a, open, loans, lent, error);
    case _ => NoFault(c.trace, error);
  }

  lemma {:induction false} BlameCons(e: Ast, c: Run, a: State, open: set<string>, loans: seq<Loan>, lent: set<string>,
                                     error: OwnershipError)
    requires e.Cons? && a.scopes != [] && InFragment(e, open) && Straight(e) && Unshadowed(e, lent)
    requires Set(loans, c, a, open, lent, Defined(e)) && FirstFault(Exec(e, c).trace, error)
    ensures error in Analyze(e, a).errors
    decreases e, 1
  {
    var d, b := Exec(e.car, c), Analyze(e.car, a);
    ExecGrows(e.cdr, d, open);
    FaultSplits(d.trace, Exec(e, c).trace, error);
    if Fine(d.trace) {
      PreciseThen(e.car, c, a, open, loans, lent, Defined(e.cdr));
      Blame(e.cdr, d, b, open, loans, lent, error);
    } else {
      Blame(e.car, c, a, open, loans, lent, error);
      KeptThrough(e.car, e.cdr, a, open, error);
    }
  }

  lemma {:induction false} BlameCall(e: Ast, c: Run, a: State, open: set<string>, loans: seq<Loan>, lent: set<string>,
                                     error: OwnershipError)
    requires e.Call? && a.scopes != [] && InFragment(e, open) && Straight(e) && Unshadowed(e, lent)
    requires Set(loans, c, a, open, lent, Defined(e)) && FirstFault(Exec(e, c).trace, error)
    ensures error in Analyze(e, a).errors
    decreases e, 1
  {
    var d, b := Exec(e.func, c), Analyze(e.func, a);
    ExecAllGrows(e.args, d, open);
    FaultSplits(d.trace, Exec(e, c).trace, error);
    if Fine(d.trace) {
      PreciseThen(e.func, c, a, open, loans, lent, DefinedBy(e.args));
      BlameAll(e.args, d, b, open, loans, lent, error);
    } else {
      Blame(e.func, c, a, open, loans, lent, error);
      KeptThroughAll(e.func, e.args, a, open, error);
    }
  }

  lemma {:induction false} BlameAll(es: seq<Ast>, c: Run, a: State, open: set<string>, loans: seq<Loan>,
                                    lent: set<string>, error: OwnershipError)
    requires a.scopes != [] && AllInFragment(es, open) && AllStraight(es) && AllUnshadowed(es, lent)
    requires Set(loans, c, a, open, lent, DefinedBy(es)) && FirstFault(ExecAll(es, c).trace, error)
    ensures error in AnalyzeAll(es, a).errors
    decreases es, 1
  {
    if es == [] {
      NoFault(c.trace, error);
    } else {
      var d, b := Exec(es[0], c), Analyze(es[0], a);
      ExecAllGrows(es[1..], d, open);
      FaultSplits(d.trace, ExecAll(es, c).trace, error);
      if Fine(d.trace) {
        PreciseThen(es[0], c, a, open, loans, lent, DefinedBy(es[1..]));
        BlameAll(es[1..], d, b, open, loans, lent, error);
      } else {
        Blame(es[0], c, a, open, loans, lent, error);
        KeptThroughAll(es[0], es[1..], a, open, error);
      }
    }
  }

  lemma {:induction false} BlameBorrow(x: string, body: seq<Ast>, c: Run, a: State, open: set<string>,
                                       loans: seq<Loan>, lent: set<string>, error: OwnershipError)
    requires a.scopes != [] && x != "" && x !in open
    requires AllInFragment(body, open + {x}) && AllStraight(body) && AllUnshadowed(body, lent + {x})
    requires Set(loans, c, a, open, lent, DefinedBy(body)) && FirstFault(ExecBorrow(x, body, c).trace, error)
    ensures error in EndBorrow(x, AnalyzeAll(body, StartBorrow(x, a))).errors
    decreases body, 3
  {
    Lookup(c, a, true, x);
    var k := Find(a.scopes, x);
    if k < 0 {
      RealUnbound(x, c, a, lent);
      ReadyUnbound(x, c, a, open, loans, DefinedBy(body));
      BlameAll(body, c, SetBorrowed(a, open + {x}), open + {x}, loans, lent + {x}, error);
    } else {
      var loc := c.frames[k].vars[x];
      if Moved(loc) in c.trace {
        StartFaults(loc, body, c, open + {x}, ExecBorrow(x, body, c).trace, error);
        StartReported(x, body, a, open);
      } else {
        assert !IsMoved(a.scopes, x);
        BlameLoan(x, loc, body, c, a, open, loans, lent, error);
      }
    }
  }

  /** A borrow of a moved value is reported, and its body analyzed without the mark. */
  lemma StartReported(x: string, body: seq<Ast>, a: State, open: set<string>)
    requires a.scopes != [] && Top(a).borrowed == open && AllInFragment(body, open + {x}) && IsMoved(a.scopes, x)
    ensures BorrowOfMoved(x) in AnalyzeAll(body, StartBorrow(x, a)).errors
  {
    AllInFragmentShrinks(body, open + {x}, open);
    WalkAllExtends(body, StartBorrow(x, a), open);
  }

  lemma StartFaults(loc: Loc, body: seq<Ast>, c: Run, open: set<string>, u: Trace, error: OwnershipError)
    requires c.frames != [] && Fine(c.trace) && Moved(loc) in c.trace && AllInFragment(body, open) && AllStraight(body)
    requires u == ExecAll(body, Emit(c, Borrowed(loc))).trace + [Released(loc)] && FirstFault(u, error)
    ensures error == BorrowOfMoved(loc.name)
  {
    var d := Emit(c, Borrowed(loc));
    ExecAllGrows(body, d, open);
    PrefixThrough(d.trace, ExecAll(body, d).trace, Released(loc));
    FaultHere(c.trace, Borrowed(loc), BorrowOfMoved(loc.name), u, error);
  }

  lemma PrefixThrough(t: Trace, u: Trace, event: Event)
    requires t <= u
    ensures t <= u + [event]
  {
  }

  /** Where something is wrong about the next event, that is the first fault. */
  lemma FaultHere(t: Trace, event: Event, wrong: OwnershipError, u: Trace, error: OwnershipError)
    requires Fine(t) && t + [event] <= u && IsFault(t, event, wrong) && FirstFault(u, error)
    ensures IsFault(t, event, error)
  {
    FineAppend(t, event);
    FaultSplits(t + [event], u, error);
    FaultNext(t, event, error);
  }

  lemma {:induction false} BlameLoan(x: string, loc: Loc, body: seq<Ast>, c: Run, a: State, open: set<string>,
                                     loans: seq<Loan>, lent: set<string>, error: OwnershipError)
    requires a.scopes != [] && x !in open && FindFrame(c.frames, x) >= 0 && loc.name == x
    requires loc == c.frames[FindFrame(c.frames, x)].vars[x] && Moved(loc) !in c.trace
    requires AllInFragment(body, open + {x}) && AllStraight(body) && AllUnshadowed(body, lent + {x})
    requires Set(loans, c, a, open, lent, DefinedBy(body))
    requires FirstFault(ExecAll(body, Emit(c, Borrowed(loc))).trace + [Released(loc)], error)
    ensures error in AnalyzeAll(body, SetBorrowed(a, open + {x})).errors
    decreases body, 2
  {
    var d := Emit(c, Borrowed(loc));
    var r := ExecAll(body, d);
    FaultSplits(r.trace, r.trace + [Released(loc)], error);
    if Fine(r.trace) {
      FaultNext(r.trace, Released(loc), error);
    }
    StartLoan(loc, c, a, open, loans, true, DefinedBy(body));
    RealLoan(x, c, a, lent);
    BlameAll(body, d, SetBorrowed(a, open + {x}), open + {x}, loans + [Loan(loc, |a.scopes| - 1)], lent + {x}, error);
  }

  lemma {:induction false} BlameScope(body: seq<Ast>, q: Run, p: State, loans: seq<Loan>, lent: set<string>,
                                      error: OwnershipError)
    requires p.scopes != [] && AllInFragment(body, {}) && AllStraight(body) && AllUnshadowed(body, lent)
    requires Set(loans, q, p, {}, lent, DefinedBy(body)) && FirstFault(Exit(ExecAll(body, q)).trace, error)
    requires !Top(p).kind.GlobalScope?
    ensures error in Leave(AnalyzeAll(body, p)).errors
    decreases body, 2
  {
    var d := ExecAll(body, q);
    FaultSplits(d.trace, Exit(d).trace, error);
    if Fine(d.trace) {
      PreciseAll(body, q, p, {}, loans, lent);
      SimulatesAll(body, q, p, {}, loans, true);
      WalkAllExtends(body, p, {});
      BlameLeave(d, AnalyzeAll(body, p), error);
    } else {
      BlameAll(body, q, p, {}, loans, lent, error);
    }
  }

  lemma {:induction false} BlameLet(e: Ast, c: Run, a: State, open: set<string>, loans: seq<Loan>, lent: set<string>,
                                    error: OwnershipError)
    requires e.Let? && a.scopes != [] && InFragment(e, open) && Straight(e) && Unshadowed(e, lent)
    requires Set(loans, c, a, open, lent, {}) && FirstFault(Exec(e, c).trace, error)
    ensures error in Analyze(e, a).errors
    decreases e, 1
  {
    var p, q := Push(a, ScopeFor(e.kind)), Enter(c);
    SetInside(loans, c, a, open, lent, ScopeFor(e.kind), BindingNames(e.bindings) + Defined(e.inner));
    BlameInside(e, q, p, loans, lent, error);
  }

  lemma {:induction false} BlameInside(e: Ast, q: Run, p: State, loans: seq<Loan>, lent: set<string>,
                                       error: OwnershipError)
    requires e.Let? && p.scopes != [] && InFragment(e, {}) && Straight(e) && Unshadowed(e, lent)
    requires Set(loans, q, p, {}, lent, BindingNames(e.bindings) + Defined(e.inner))
    requires FirstFault(Exit(Exec(e.inner, ExecBindings(e.kind, e.bindings, q))).trace, error)
    requires !Top(p).kind.GlobalScope?
    ensures error in Leave(Analyze(e.inner, AnalyzeBindings(e.kind, e.bindings, p))).errors
    decreases e, 0
  {
    var b, d := AnalyzeBindings(e.kind, e.bindings, p), ExecBindings(e.kind, e.bindings, q);
    ExecGrows(e.inner, d, {});
    FaultSplits(d.trace, Exit(Exec(e.inner, d)).trace, error);
    if !Fine(d.trace) {
      BlameBindings(e.kind, e.bindings, q, p, loans, lent, error);
      KeptInside(e.inner, e.kind, e.bindings, p, error);
    } else {
      PreciseBindings(e.kind, e.bindings, q, p, loans, lent);
      SetAfterBindings(e.kind, e.bindings, q, p, loans, lent, Defined(e.inner));
      BindingsExtend(e.kind, e.bindings, p);
      BlameInner(e.inner, d, b, loans, lent, error);
    }
  }

  lemma {:induction false} BlameInner(e: Ast, d: Run, b: State, loans: seq<Loan>, lent: set<string>,
                                      error: OwnershipError)
    requires b.scopes != [] && InFragment(e, {}) && Straight(e) && Unshadowed(e, lent)
    requires Set(loans, d, b, {}, lent, Defined(e)) && FirstFault(Exit(Exec(e, d)).trace, error)
    requires !Top(b).kind.GlobalScope?
    ensures error in Leave(Analyze(e, b)).errors
    decreases e, 3
  {
    var r := Exec(e, d);
    FaultSplits(r.trace, Exit(r).trace, error);
    if Fine(r.trace) {
      Precise(e, d, b, {}, loans, lent);
      Simulates(e, d, b, {}, loans, true);
      WalkExtends(e, b, {});
      BlameLeave(r, Analyze(e, b), error);
    } else {
      Blame(e, d, b, {}, loans, lent, error);
    }
  }

  lemma {:induction false} BlameBindings(kind: LetKind, bs: seq<Ast>, c: Run, a: State, loans: seq<Loan>,
                                         lent: set<string>, error: OwnershipError)
    requires a.scopes != [] && BindingsInFragment(bs) && AllStraight(bs) && BindersStraight(bs)
    requires kind.Parallel? ==> NoEarlierBinder(bs, {})
    requires kind.Sequential? ==> NoOwnBinder(bs)
    requires AllUnshadowed(bs, lent) && BinderNames(bs) !! lent
    requires Set(loans, c, a, {}, lent, BindingNames(bs))
    requires FirstFault(ExecBindings(kind, bs, c).trace, error)
    ensures error in AnalyzeBindings(kind, bs, a).errors
    decreases bs, 2
  {
    match kind
    case Sequential => BlameEach(bs, c, a, loans, lent, error);
    case Parallel =>
      LateBinders(bs, a);
      BindAllGrows(bs, ExecValues(bs, c));
      RegisterAllSilent(bs, AnalyzeValues(bs, a));
      BlameValues(bs, c, a, loans, lent, error);
    case Recursive =>
      var b, d := RegisterAll(bs, a), BindAll(bs, c);
      SetAfterBindAll(bs, c, a, loans, lent);
      BlameValues(bs, d, b, loans, lent, error);
  }

  lemma {:induction false} BlameValue(v: Ast, c: Run, a: State, loans: seq<Loan>, lent: set<string>,
                                      error: OwnershipError)
    requires a.scopes != [] && BindingInFragment(v) && Straight(v) && Unshadowed(v, lent)
    requires Set(loans, c, a, {}, lent, Defined(v.cdr)) && FirstFault(ExecValue(v, c).trace, error)
    ensures error in AnalyzeValue(v, a).errors
    decreases v, 0
  {
    Blame(v.cdr, c, a, {}, loans, lent, error);
  }

  lemma {:induction false} BlameValues(bs: seq<Ast>, c: Run, a: State, loans: seq<Loan>, lent: set<string>,
                                       error: OwnershipError)
    requires a.scopes != [] && BindingsInFragment(bs) && AllStraight(bs) && BindersStraight(bs)
    requires AllUnshadowed(bs, lent)
    requires Set(loans, c, a, {}, lent, ValueNames(bs)) && FirstFault(ExecValues(bs, c).trace, error)
    ensures error in AnalyzeValues(bs, a).errors
    decreases bs, 1
  {
    if bs == [] {
      NoFault(c.trace, error);
    } else {
      var d, b := ExecValue(bs[0], c), AnalyzeValue(bs[0], a);
      ExecValuesGrow(bs[1..], d);
      FaultSplits(d.trace, ExecValues(bs, c).trace, error);
      if Fine(d.trace) {
        PreciseValue(bs[0], c, a, loans, lent, ValueNames(bs[1..]));
        BlameValues(bs[1..], d, b, loans, lent, error);
      } else {
        BlameValue(bs[0], c, a, loans, lent, error);
        KeptThroughValues(bs[0], bs[1..], a, error);
      }
    }
  }

  lemma {:induction false} BlameEach(bs: seq<Ast>, c: Run, a: State, loans: seq<Loan>, lent: set<string>,
                                     error: OwnershipError)
    requires a.scopes != [] && BindingsInFragment(bs) && AllStraight(bs) && BindersStraight(bs) && NoOwnBinder(bs)
    requires AllUnshadowed(bs, lent) && BinderNames(bs) !! lent
    requires Set(loans, c, a, {}, lent, BindingNames(bs)) && FirstFault(ExecEach(bs, c).trace, error)
    ensures error in AnalyzeEach(bs, a).errors
    decreases bs, 1
  {
    if bs == [] {
      NoFault(c.trace, error);
    } else {
      var x, v := VarName(bs[0].car), bs[0].cdr;
      var d, b := ExecValue(bs[0], c), AnalyzeValue(bs[0], a);
      var e, r := Bind(d, x, HoldsOwned(v)), Register(b, x, v);
      ExecEachGrows(bs[1..], e);
      FaultSplits(d.trace, ExecEach(bs, c).trace, error);
      EachNames(bs);
      LateBinder(bs, a);
      if Fine(d.trace) {
        PreciseValue(bs[0], c, a, loans, lent, {x} + BindingNames(bs[1..]));
        SetAfterBind(x, v, d, b, loans, lent, BindingNames(bs[1..]));
        BlameEach(bs[1..], e, r, loans, lent, error);
      } else {
        BlameValue(bs[0], c, a, loans, lent, error);
        KeptThroughEach(bs[0], x, bs[1..], a, error);
      }
    }
  }

  // ---- The theorem ----

  /** Whatever goes wrong first in the run of a straight-line program of the fragment that rebinds no
      borrowed name inside the borrow, the analyzer reports it, with its kind and its name. */
  lemma FirstFaultIsReported(es: seq<Ast>, tape: seq<bool>, error: OwnershipError)
    requires AllInFragment(es, {}) && AllStraight(es) && AllUnshadowed(es, {})
    requires FirstFault(TraceOf(es, tape), error)
    ensures error in AnalyzeProgram(es).errors
  {
    var a := Push(State([], multiset{}), GlobalScope);
    var c := Run([Frame(map[], {})], 0, tape, []);
    SetAtStart(tape, DefinedBy(es));
    BlameAll(es, c, a, {}, [], {}, error);
    GlobalIsSilent(es);
  }

  /** And something is reported if and only if something goes wrong. */
  lemma ReportedIffFault(es: seq<Ast>, tape: seq<bool>)
    requires AllInFragment(es, {}) && AllStraight(es) && AllUnshadowed(es, {})
    ensures AnalyzeProgram(es).errors != multiset{} <==> exists error :: FirstFault(TraceOf(es, tape), error)
  {
    AcceptedIffFine(es, tape);
    FineIff(TraceOf(es, tape));
  }

  /** What a list of reports promises: the first fault of any run is among them. */
  ghost predicate Informed(es: seq<Ast>, errors: multiset<OwnershipError>) {
    AllInFragment(es, {}) && AllStraight(es) && AllUnshadowed(es, {}) ==>
      forall tape, error | FirstFault(TraceOf(es, tape), error) :: error in errors
  }

  lemma ReportsInform(es: seq<Ast>)
    ensures Informed(es, AnalyzeProgram(es).errors)
  {
    if AllInFragment(es, {}) && AllStraight(es) && AllUnshadowed(es, {}) {
      forall tape, error | FirstFault(TraceOf(es, tape), error) ensures error in AnalyzeProgram(es).errors {
        FirstFaultIsReported(es, tape, error);
      }
    }
  }
}
