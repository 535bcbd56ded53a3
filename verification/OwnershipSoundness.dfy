/** The ownership analyzer is sound on the fragment, for every tape of branch choices, and
    linear on its straight-line part. */
module OwnershipSoundness {
  import opened OwnershipSyntax
  import opened OwnershipAnalysis
  import opened OwnershipSemantics
  import opened OwnershipFrame

  // ---- Traces ----

  lemma SafeAppend(t: Trace, event: Event)
    ensures Safe(t + [event]) <==> Safe(t) && SafeAfter(t, event)
  {
    var u := t + [event];
    assert u[..|t|] == t && u[|t|] == event;
    assert forall i | 0 <= i < |t| :: u[..i] == t[..i] && u[i] == t[i];
    if Safe(u) {
      forall i | 0 <= i < |t| ensures SafeAfter(t[..i], t[i]) {
        assert SafeAfter(u[..i], u[i]);
      }
      assert SafeAfter(u[..|t|], u[|t|]);
    }
  }

  lemma LinearAppend(t: Trace, event: Event)
    requires Linear(t)
    requires event.Left? ==> forall loc | loc in event.owned :: multiset(t)[Moved(loc)] == 1
    ensures Linear(t + [event])
  {
    var u := t + [event];
    forall i, loc | 0 <= i < |u| && u[i].Left? && loc in u[i].owned
      ensures multiset(u[..i])[Moved(loc)] == 1
    {
      if i < |t| {
        assert u[..i] == t[..i];
      } else {
        assert u[..i] == t;
      }
    }
  }

  /** A safe trace moves no location twice. */
  lemma {:induction false} MovedAtMostOnce(t: Trace, loc: Loc)
    requires Safe(t)
    ensures multiset(t)[Moved(loc)] <= 1
  {
    if t == [] {
    } else {
      var front, last := t[..|t| - 1], t[|t| - 1];
      assert t == front + [last];
      SafeAppend(front, last);
      MovedAtMostOnce(front, loc);
      assert multiset(t) == multiset(front) + multiset{last};
    }
  }

  /** Loans of loc taken minus loans given back. */
  function Net(t: Trace, loc: Loc): int {
    (multiset(t)[Borrowed(loc)] as int) - (multiset(t)[Released(loc)] as int)
  }

  lemma NetAppend(t: Trace, event: Event, loc: Loc)
    ensures Net(t + [event], loc) ==
            Net(t, loc) + (if event == Borrowed(loc) then 1 else if event == Released(loc) then -1 else 0)
  {
    assert multiset(t + [event]) == multiset(t) + multiset{event};
  }

  ghost predicate Balanced(t: Trace, u: Trace) {
    forall loc :: Net(t, loc) == Net(u, loc)
  }

  // ---- The invariant that ties a run to the analysis ----

  /** Frame k of the run against the analyzer's scope for it. A location moved in the run is
      marked moved; `linear` adds the converse and that the owned locations are the owned bindings'. */
  ghost predicate FrameMatches(k: nat, f: Frame, s: Scope, next: nat, t: Trace, linear: bool) {
    && f.vars.Keys == s.vars.Keys
    && (forall x | x in f.vars :: f.vars[x].id < next && f.vars[x].name == x && f.vars[x].depth == k)
    && (forall x | x in f.vars && Moved(f.vars[x]) in t :: s.vars[x].status == MOVED)
    && (linear ==>
          && (forall x | x in f.vars && s.vars[x].status == MOVED :: Moved(f.vars[x]) in t)
          && (forall x | x in f.vars && s.vars[x].isOwnedBinding ::
                s.vars[x].status != UNOWNED && f.vars[x] in f.owned)
          && (forall loc | loc in f.owned ::
                loc.name in f.vars && f.vars[loc.name] == loc && s.vars[loc.name].isOwnedBinding))
  }

  ghost predicate Corresponds(c: Run, a: State, linear: bool) {
    && |c.frames| == |a.scopes| && c.frames != []
    && (forall k | 0 <= k < |c.frames| ::
          FrameMatches(k, c.frames[k], a.scopes[k], c.next, c.trace, linear))
    && (forall loc | Moved(loc) in c.trace :: loc.id < c.next)
    && Safe(c.trace)
    && (linear ==> Linear(c.trace))
  }

  /** A borrow form in progress: the location lent and the scope that carries the mark. */
  datatype Loan = Loan(loc: Loc, depth: nat)

  ghost predicate LoanHeld(loan: Loan, a: State) {
    loan.depth < |a.scopes| && loan.loc.name in a.scopes[loan.depth].borrowed
  }

  ghost predicate LoansHeld(loans: seq<Loan>, c: Run, a: State) {
    && (forall i | 0 <= i < |loans| :: LoanHeld(loans[i], a))
    && (forall loc | Net(c.trace, loc) > 0 :: exists i :: 0 <= i < |loans| && loans[i].loc == loc)
  }

  // ---- Single steps keep the invariant ----

  lemma FindAgrees(c: Run, a: State, x: string)
    requires |c.frames| == |a.scopes|
    requires forall k | 0 <= k < |c.frames| :: c.frames[k].vars.Keys == a.scopes[k].vars.Keys
    ensures FindFrame(c.frames, x) == Find(a.scopes, x)
  {
    assert forall k | 0 <= k < |c.frames| :: x in c.frames[k].vars <==> x in a.scopes[k].vars;
  }

  /** Both sides resolve a name to the same binding and agree on whether it was moved. */
  lemma Lookup(c: Run, a: State, linear: bool, x: string)
    requires Corresponds(c, a, linear)
    ensures FindFrame(c.frames, x) == Find(a.scopes, x)
    ensures var k := Find(a.scopes, x);
            k >= 0 ==>
              && c.frames[k].vars[x].name == x
              && (Moved(c.frames[k].vars[x]) in c.trace ==> a.scopes[k].vars[x].status == MOVED)
              && (linear && a.scopes[k].vars[x].status == MOVED ==> Moved(c.frames[k].vars[x]) in c.trace)
  {
    assert forall k | 0 <= k < |c.frames| :: FrameMatches(k, c.frames[k], a.scopes[k], c.next, c.trace, linear);
    FindAgrees(c, a, x);
  }

  /** An event other than a move or the end of a scope. */
  lemma EmitKeeps(c: Run, a: State, linear: bool, event: Event)
    requires Corresponds(c, a, linear)
    requires !event.Moved? && !event.Left? && SafeAfter(c.trace, event)
    ensures Corresponds(Emit(c, event), a, linear)
  {
    var d := Emit(c, event);
    SafeAppend(c.trace, event);
    if linear { LinearAppend(c.trace, event); }
    assert forall loc :: Moved(loc) in d.trace <==> Moved(loc) in c.trace;
    forall k | 0 <= k < |d.frames|
      ensures FrameMatches(k, d.frames[k], a.scopes[k], d.next, d.trace, linear)
    {
      assert FrameMatches(k, c.frames[k], a.scopes[k], c.next, c.trace, linear);
    }
  }

  lemma MoveFrame(k: nat, f: Frame, s: Scope, next: nat, t: Trace, linear: bool, x: string)
    requires FrameMatches(k, f, s, next, t, linear)
    requires x in f.vars && x in s.vars
    ensures FrameMatches(k, f, s.(vars := s.vars[x := s.vars[x].(status := MOVED)]), next, t + [Moved(f.vars[x])],
                         linear)
  {
    assert forall loc :: Moved(loc) in t + [Moved(f.vars[x])] <==> Moved(loc) in t || loc == f.vars[x];
  }

  lemma UnmovedFrame(k: nat, f: Frame, s: Scope, next: nat, t: Trace, linear: bool, loc: Loc)
    requires FrameMatches(k, f, s, next, t, linear)
    requires loc.depth != k
    ensures FrameMatches(k, f, s, next, t + [Moved(loc)], linear)
  {
    assert forall m :: Moved(m) in t + [Moved(loc)] <==> Moved(m) in t || m == loc;
  }

  lemma MoveKeeps(c: Run, a: State, linear: bool, k: nat, x: string)
    requires Corresponds(c, a, linear)
    requires k < |c.frames| && x in c.frames[k].vars && x in a.scopes[k].vars
    requires a.scopes[k].vars[x].status != MOVED && !OnLoan(c.trace, c.frames[k].vars[x])
    ensures Corresponds(Emit(c, Moved(c.frames[k].vars[x])),
                        Put(a, k, x, a.scopes[k].vars[x].(status := MOVED)), linear)
  {
    var loc := c.frames[k].vars[x];
    var d, b := Emit(c, Moved(loc)), Put(a, k, x, a.scopes[k].vars[x].(status := MOVED));
    assert FrameMatches(k, c.frames[k], a.scopes[k], c.next, c.trace, linear);
    SafeAppend(c.trace, Moved(loc));
    if linear { LinearAppend(c.trace, Moved(loc)); }
    forall j | 0 <= j < |d.frames|
      ensures FrameMatches(j, d.frames[j], b.scopes[j], d.next, d.trace, linear)
    {
      assert FrameMatches(j, c.frames[j], a.scopes[j], c.next, c.trace, linear);
      if j == k {
        MoveFrame(j, c.frames[j], a.scopes[j], c.next, c.trace, linear, x);
      } else {
        UnmovedFrame(j, c.frames[j], a.scopes[j], c.next, c.trace, linear, loc);
      }
    }
  }

  lemma BindKeeps(c: Run, a: State, linear: bool, x: string, e: Ast)
    requires Corresponds(c, a, linear)
    requires linear ==> x !in a.scopes[|a.scopes| - 1].vars
    ensures Corresponds(Bind(c, x, HoldsOwned(e)), Register(a, x, e), linear)
  {
    var d, b := Bind(c, x, HoldsOwned(e)), Register(a, x, e);
    forall k | 0 <= k < |d.frames|
      ensures FrameMatches(k, d.frames[k], b.scopes[k], d.next, d.trace, linear)
    {
      assert FrameMatches(k, c.frames[k], a.scopes[k], c.next, c.trace, linear);
    }
  }

  /** Loans carry over to a run with the same net loans and a state with the same marks. */
  lemma LoansCarry(loans: seq<Loan>, c: Run, a: State, d: Run, b: State)
    requires LoansHeld(loans, c, a)
    requires Balanced(c.trace, d.trace)
    requires |a.scopes| <= |b.scopes|
    requires forall k | 0 <= k < |a.scopes| :: a.scopes[k].borrowed == b.scopes[k].borrowed
    ensures LoansHeld(loans, d, b)
  {
    forall i | 0 <= i < |loans| ensures LoanHeld(loans[i], b) {
      assert LoanHeld(loans[i], a);
    }
    forall loc | Net(d.trace, loc) > 0 ensures exists i :: 0 <= i < |loans| && loans[i].loc == loc {
      assert Net(c.trace, loc) > 0;
    }
  }

  lemma EnterKeeps(loans: seq<Loan>, c: Run, a: State, linear: bool, kind: ScopeKind)
    requires Corresponds(c, a, linear) && LoansHeld(loans, c, a)
    ensures Corresponds(Enter(c), Push(a, kind), linear) && LoansHeld(loans, Enter(c), Push(a, kind))
  {
    var d, b := Enter(c), Push(a, kind);
    forall k | 0 <= k < |d.frames|
      ensures FrameMatches(k, d.frames[k], b.scopes[k], d.next, d.trace, linear)
    {
      if k < |c.frames| {
        assert FrameMatches(k, c.frames[k], a.scopes[k], c.next, c.trace, linear);
      }
    }
    LoansCarry(loans, c, a, d, b);
  }

  /** Leaving a scope without an unconsumed value. */
  lemma ExitKeeps(c: Run, a: State, linear: bool)
    requires Corresponds(c, a, linear) && |c.frames| > 1
    requires linear ==> !a.scopes[|a.scopes| - 1].kind.GlobalScope?
    requires Leave(a).errors == a.errors
    ensures Corresponds(Exit(c), Leave(a), linear)
    ensures Balanced(c.trace, Exit(c).trace)
  {
    var top := |c.frames| - 1;
    var d, b := Exit(c), Leave(a);
    var event := Left(c.frames[top].owned);
    SafeAppend(c.trace, event);
    assert FrameMatches(top, c.frames[top], a.scopes[top], c.next, c.trace, linear);
    if linear {
      forall loc | loc in event.owned ensures multiset(c.trace)[Moved(loc)] == 1 {
        ConsumedOnce(c, a, loc);
      }
      LinearAppend(c.trace, event);
    }
    assert forall loc :: Moved(loc) in d.trace <==> Moved(loc) in c.trace;
    forall k | 0 <= k < top
      ensures FrameMatches(k, d.frames[k], b.scopes[k], d.next, d.trace, linear)
    {
      assert FrameMatches(k, c.frames[k], a.scopes[k], c.next, c.trace, linear);
    }
    forall loc ensures Net(c.trace, loc) == Net(d.trace, loc) {
      NetAppend(c.trace, event, loc);
    }
  }

  /** A report is one error more. */
  lemma Reported(a: State, error: OwnershipError)
    ensures Report(a, error).errors[error] == a.errors[error] + 1
    ensures Report(a, error).errors != a.errors
  {
  }

  /** A scope left without a report has no unconsumed value. */
  lemma QuietLeave(a: State)
    requires a.scopes != [] && Leave(a).errors == a.errors
    ensures Unconsumed(a.scopes[|a.scopes| - 1]) == multiset{}
  {
    var more := Unconsumed(a.scopes[|a.scopes| - 1]);
    assert forall e :: Leave(a).errors[e] == a.errors[e] + more[e];
    assert forall e :: more[e] == 0;
  }

  lemma ConsumedOnce(c: Run, a: State, loc: Loc)
    requires Corresponds(c, a, true)
    requires !a.scopes[|a.scopes| - 1].kind.GlobalScope?
    requires Leave(a).errors == a.errors
    requires loc in c.frames[|c.frames| - 1].owned
    ensures multiset(c.trace)[Moved(loc)] == 1
  {
    var top := |c.frames| - 1;
    var f, s := c.frames[top], a.scopes[top];
    assert FrameMatches(top, f, s, c.next, c.trace, true);
    var x := loc.name;
    QuietLeave(a);
    assert s.vars[x] == VariableInfo(OWNED, true) ==> NotConsumed(x) in Unconsumed(s);
    assert Moved(loc) in c.trace;
    MovedAtMostOnce(c.trace, loc);
  }

  lemma ExitKeepsLoans(loans: seq<Loan>, c: Run, a: State)
    requires c.frames != [] && a.scopes != []
    requires LoansHeld(loans, c, a)
    requires forall i | 0 <= i < |loans| :: loans[i].depth < |a.scopes| - 1
    requires Balanced(c.trace, Exit(c).trace)
    ensures LoansHeld(loans, Exit(c), Leave(a))
  {
    forall i | 0 <= i < |loans| ensures LoanHeld(loans[i], Leave(a)) {
      assert LoanHeld(loans[i], a);
    }
    forall loc | Net(Exit(c).trace, loc) > 0 ensures exists i :: 0 <= i < |loans| && loans[i].loc == loc {
      assert Net(c.trace, loc) > 0;
    }
  }

  /** Analyzing an operand that does not run. */
  lemma SkipKeeps(loans: seq<Loan>, c: Run, a: State, b: State)
    requires Corresponds(c, a, false) && LoansHeld(loans, c, a)
    requires Extends(a, b, {})
    ensures Corresponds(c, b, false) && LoansHeld(loans, c, b)
  {
    forall k | 0 <= k < |c.frames|
      ensures FrameMatches(k, c.frames[k], b.scopes[k], c.next, c.trace, false)
      ensures a.scopes[k].borrowed == b.scopes[k].borrowed
    {
      assert FrameMatches(k, c.frames[k], a.scopes[k], c.next, c.trace, false);
      assert ScopeExtends(a.scopes[k], b.scopes[k], {});
    }
    LoansCarry(loans, c, a, c, b);
  }

  // ---- Whole programs ----

  function Top(a: State): Scope
    requires a.scopes != []
  {
    a.scopes[|a.scopes| - 1]
  }

  /** What a walk over a node that defines `defined` starts from. */
  ghost predicate Ready(loans: seq<Loan>, c: Run, a: State, open: set<string>, linear: bool, defined: set<string>) {
    && Corresponds(c, a, linear) && LoansHeld(loans, c, a)
    && Top(a).borrowed == open
    && (linear ==> Unclaimed(a, defined))
  }

  /** The names are not bound in the innermost scope, and only the outermost one is global. */
  ghost predicate Unclaimed(a: State, names: set<string>)
    requires a.scopes != []
  {
    names !! Top(a).vars.Keys && forall k | 0 < k < |a.scopes| :: !a.scopes[k].kind.GlobalScope?
  }

  /** What it ends with. */
  ghost predicate Done(loans: seq<Loan>, c: Run, d: Run, b: State, linear: bool) {
    Corresponds(d, b, linear) && LoansHeld(loans, d, b) && Balanced(c.trace, d.trace)
  }

  ghost predicate SameMarking(a: State, b: State) {
    |a.scopes| == |b.scopes| && forall k | 0 <= k < |a.scopes| :: a.scopes[k].borrowed == b.scopes[k].borrowed
  }

  lemma RegisterMarks(a: State, x: string, e: Ast)
    requires a.scopes != []
    ensures SameMarking(a, Register(a, x, e))
  {
  }

  lemma SameTraceDone(loans: seq<Loan>, c: Run, a: State, d: Run, b: State, linear: bool)
    requires LoansHeld(loans, c, a) && Corresponds(d, b, linear) && c.trace == d.trace && SameMarking(a, b)
    ensures Done(loans, c, d, b, linear)
  {
    LoansCarry(loans, c, a, d, b);
  }

  lemma BindDone(loans: seq<Loan>, c: Run, a: State, linear: bool, x: string, e: Ast)
    requires Corresponds(c, a, linear) && LoansHeld(loans, c, a)
    requires linear ==> x !in Top(a).vars
    ensures Done(loans, c, Bind(c, x, HoldsOwned(e)), Register(a, x, e), linear)
  {
    BindKeeps(c, a, linear, x, e);
    RegisterMarks(a, x, e);
    SameTraceDone(loans, c, a, Bind(c, x, HoldsOwned(e)), Register(a, x, e), linear);
  }

  lemma BindAfter(loans: seq<Loan>, c: Run, d: Run, b: State, linear: bool, x: string, e: Ast)
    requires Done(loans, c, d, b, linear)
    requires linear ==> x !in Top(b).vars
    ensures Done(loans, c, Bind(d, x, HoldsOwned(e)), Register(b, x, e), linear)
  {
    BindDone(loans, d, b, linear, x, e);
  }

  /** The state after a walk is a state another walk may start from. */
  lemma ReadyNext(loans: seq<Loan>, c: Run, a: State, d: Run, b: State, open: set<string>, linear: bool,
                  added: set<string>, defined: set<string>)
    requires Ready(loans, c, a, open, linear, added + defined)
    requires added !! defined || !linear
    requires Extends(a, b, added)
    requires Done(loans, c, d, b, linear)
    ensures Ready(loans, d, b, open, linear, defined)
  {
    SameTopMarks(a, b, added);
    if linear {
      StillUnclaimed(a, b, added, defined);
    }
  }

  lemma SameTopMarks(a: State, b: State, added: set<string>)
    requires Extends(a, b, added)
    ensures Top(b).borrowed == Top(a).borrowed
  {
  }

  lemma StillUnclaimed(a: State, b: State, added: set<string>, names: set<string>)
    requires Extends(a, b, added) && Unclaimed(a, added + names) && added !! names
    ensures Unclaimed(b, names)
  {
    assert Top(b).vars.Keys == Top(a).vars.Keys + added;
    forall k | 0 < k < |b.scopes| ensures !b.scopes[k].kind.GlobalScope? {
      assert ScopeExtends(a.scopes[k], b.scopes[k], if k == |a.scopes| - 1 then added else {});
    }
  }

  lemma NoErrorBetween(a: State, b: State, r: State, f: set<string>, g: set<string>)
    requires Extends(a, b, f) && Extends(b, r, g) && r.errors == a.errors
    ensures b.errors == a.errors
  {
  }

  /** If the analyzer finds nothing to report in e, running e keeps the invariant: in
      particular everything it did was safe. */
  lemma {:induction false} Simulates(e: Ast, c: Run, a: State, open: set<string>, loans: seq<Loan>, linear: bool)
    requires a.scopes != [] && InFragment(e, open)
    requires Ready(loans, c, a, open, linear, Defined(e))
    requires linear ==> Straight(e)
    requires Analyze(e, a).errors == a.errors
    ensures Done(loans, c, Exec(e, c), Analyze(e, a), linear)
    decreases e, 1
  {
    match e
    case Literal =>
    case Var(x) => SimulatesVar(x, c, a, loans, linear);
    case Cons(_, _) => SimulatesCons(e, c, a, open, loans, linear);
    case Define(name, _, value) =>
      RegisterLate(name, value, a);
      SimulatesDefine(name, value, c, a, open, loans, linear);
    case Owned(value) => Simulates(value, c, a, open, loans, linear);
    case Move(value) =>
      if VarName(value) == "" {
        Simulates(value, c, a, open, loans, linear);
      } else {
        SimulatesMove(VarName(value), c, a, loans, linear);
      }
    case Borrow(value, body) => SimulatesBorrow(VarName(value), body, c, a, open, loans, linear);
    case Let(_, _, _) => SimulatesLet(e, c, a, open, loans, linear);
    case Call(_, _) => SimulatesCall(e, c, a, open, loans, linear);
    case Branch(_, _, _) => SimulatesBranch(e, c, a, open, loans);
    case Sequence(body) => SimulatesAll(body, c, a, open, loans, linear);
    case WithRegion(body) => SimulatesRegion(body, c, a, open, loans, linear);
    case Wrapped(_, value) => Simulates(value, c, a, open, loans, linear);
    case Quote(_) =>
  }

  lemma {:induction false} SimulatesCons(e: Ast, c: Run, a: State, open: set<string>, loans: seq<Loan>, linear: bool)
    requires e.Cons?
    requires a.scopes != [] && InFragment(e, open)
    requires Ready(loans, c, a, open, linear, Defined(e))
    requires linear ==> Straight(e)
    requires Analyze(e, a).errors == a.errors
    ensures Done(loans, c, Exec(e, c), Analyze(e, a), linear)
    decreases e, 0
  {
    var d, b := Exec(e.car, c), Analyze(e.car, a);
    WalkExtends(e.car, a, open);
    WalkExtends(e.cdr, b, open);
    NoErrorBetween(a, b, Analyze(e, a), Defined(e.car), Defined(e.cdr));
    Simulates(e.car, c, a, open, loans, linear);
    ReadyNext(loans, c, a, d, b, open, linear, Defined(e.car), Defined(e.cdr));
    Simulates(e.cdr, d, b, open, loans, linear);
  }

  lemma {:induction false} SimulatesCall(e: Ast, c: Run, a: State, open: set<string>, loans: seq<Loan>, linear: bool)
    requires e.Call?
    requires a.scopes != [] && InFragment(e, open)
    requires Ready(loans, c, a, open, linear, Defined(e))
    requires linear ==> Straight(e)
    requires Analyze(e, a).errors == a.errors
    ensures Done(loans, c, Exec(e, c), Analyze(e, a), linear)
    decreases e, 0
  {
    var d, b := Exec(e.func, c), Analyze(e.func, a);
    WalkExtends(e.func, a, open);
    WalkAllExtends(e.args, b, open);
    NoErrorBetween(a, b, Analyze(e, a), Defined(e.func), DefinedBy(e.args));
    Simulates(e.func, c, a, open, loans, linear);
    ReadyNext(loans, c, a, d, b, open, linear, Defined(e.func), DefinedBy(e.args));
    SimulatesAll(e.args, d, b, open, loans, linear);
  }

  lemma {:induction false} SimulatesDefine(x: string, value: Ast, c: Run, a: State, open: set<string>,
                                           loans: seq<Loan>, linear: bool)
    requires a.scopes != [] && InFragment(value, open)
    requires Ready(loans, c, a, open, linear, {x} + Defined(value))
    requires linear ==> Straight(value) && x !in Defined(value)
    requires Register(Analyze(value, a), x, value).errors == a.errors
    ensures Done(loans, c, Bind(Exec(value, c), x, HoldsOwned(value)), Register(Analyze(value, a), x, value),
                 linear)
    decreases value, 2
  {
    WalkExtends(value, a, open);
    if linear { StillUnbound(a, Analyze(value, a), Defined(value), x); }
    Simulates(value, c, a, open, loans, linear);
    BindAfter(loans, c, Exec(value, c), Analyze(value, a), linear, x, value);
  }

  lemma StillUnbound(a: State, b: State, added: set<string>, x: string)
    requires Extends(a, b, added) && x !in added && x !in Top(a).vars
    ensures x !in Top(b).vars
  {
  }

  lemma SimulatesVar(x: string, c: Run, a: State, loans: seq<Loan>, linear: bool)
    requires a.scopes != [] && Corresponds(c, a, linear) && LoansHeld(loans, c, a)
    requires Analyze(Var(x), a).errors == a.errors
    ensures Done(loans, c, Exec(Var(x), c), Analyze(Var(x), a), linear)
  {
    Lookup(c, a, linear, x);
    var k := Find(a.scopes, x);
    if x != "" && k >= 0 {
      Reported(a, UseOfMoved(x));
      assert !IsMoved(a.scopes, x);
      var event := Read(c.frames[k].vars[x]);
      EmitKeeps(c, a, linear, event);
      BalancedAfter(c, event);
      LoansCarry(loans, c, a, Emit(c, event), a);
    }
  }

  lemma BalancedAfter(c: Run, event: Event)
    requires !event.Borrowed? && !event.Released?
    ensures Balanced(c.trace, Emit(c, event).trace)
  {
    forall loc ensures Net(c.trace, loc) == Net(c.trace + [event], loc) {
      NetAppend(c.trace, event, loc);
    }
  }

  /** A location out on loan is marked under the name it is bound to. */
  lemma NotOnLoan(loans: seq<Loan>, c: Run, a: State, loc: Loc)
    requires LoansHeld(loans, c, a) && !IsBorrowed(a.scopes, loc.name)
    ensures !OnLoan(c.trace, loc)
  {
    assert OnLoan(c.trace, loc) ==> Net(c.trace, loc) > 0;
    assert forall i | 0 <= i < |loans| :: LoanHeld(loans[i], a);
  }

  lemma QuietMove(x: string, a: State)
    requires Find(a.scopes, x) >= 0 && AnalyzeMove(x, a).errors == a.errors
    ensures var k := Find(a.scopes, x);
            && a.scopes[k].vars[x].status != MOVED && !IsBorrowed(a.scopes, x)
            && AnalyzeMove(x, a) == Put(a, k, x, a.scopes[k].vars[x].(status := MOVED))
  {
    Reported(a, DoubleMove(x));
    Reported(a, MoveWhileBorrowed(x));
  }

  lemma SimulatesMove(x: string, c: Run, a: State, loans: seq<Loan>, linear: bool)
    requires a.scopes != [] && Corresponds(c, a, linear) && LoansHeld(loans, c, a)
    requires x != "" && AnalyzeMove(x, a).errors == a.errors
    ensures Done(loans, c, Exec(Move(Var(x)), c), AnalyzeMove(x, a), linear)
  {
    Lookup(c, a, linear, x);
    var k := Find(a.scopes, x);
    if k >= 0 {
      var loc := c.frames[k].vars[x];
      QuietMove(x, a);
      NotOnLoan(loans, c, a, loc);
      MoveKeeps(c, a, linear, k, x);
      BalancedAfter(c, Moved(loc));
      LoansCarry(loans, c, a, Emit(c, Moved(loc)), AnalyzeMove(x, a));
    }
  }

  lemma {:induction false} SimulatesAll(es: seq<Ast>, c: Run, a: State, open: set<string>, loans: seq<Loan>,
                                        linear: bool)
    requires a.scopes != [] && AllInFragment(es, open)
    requires Ready(loans, c, a, open, linear, DefinedBy(es))
    requires linear ==> AllStraight(es)
    requires AnalyzeAll(es, a).errors == a.errors
    ensures Done(loans, c, ExecAll(es, c), AnalyzeAll(es, a), linear)
    decreases es, 1
  {
    if es == [] {
    } else {
      var d, b := Exec(es[0], c), Analyze(es[0], a);
      WalkExtends(es[0], a, open);
      WalkAllExtends(es[1..], b, open);
      NoErrorBetween(a, b, AnalyzeAll(es, a), Defined(es[0]), DefinedBy(es[1..]));
      Simulates(es[0], c, a, open, loans, linear);
      ReadyNext(loans, c, a, d, b, open, linear, Defined(es[0]), DefinedBy(es[1..]));
      SimulatesAll(es[1..], d, b, open, loans, linear);
    }
  }

  /** Borrow marks do not bear on the correspondence. */
  lemma MarkKeeps(c: Run, a: State, linear: bool, borrowed: set<string>)
    requires Corresponds(c, a, linear)
    ensures Corresponds(c, SetBorrowed(a, borrowed), linear)
  {
    var b := SetBorrowed(a, borrowed);
    forall j | 0 <= j < |c.frames|
      ensures FrameMatches(j, c.frames[j], b.scopes[j], c.next, c.trace, linear)
    {
      assert FrameMatches(j, c.frames[j], a.scopes[j], c.next, c.trace, linear);
    }
  }

  /** Entering a borrow form whose variable is bound. */
  lemma StartLoan(loc: Loc, c: Run, a: State, open: set<string>, loans: seq<Loan>, linear: bool, defined: set<string>)
    requires a.scopes != [] && Ready(loans, c, a, open, linear, defined)
    requires Moved(loc) !in c.trace
    ensures Ready(loans + [Loan(loc, |a.scopes| - 1)], Emit(c, Borrowed(loc)), SetBorrowed(a, open + {loc.name}),
                  open + {loc.name}, linear, defined)
  {
    var d, b := Emit(c, Borrowed(loc)), SetBorrowed(a, open + {loc.name});
    var more := loans + [Loan(loc, |a.scopes| - 1)];
    EmitKeeps(c, a, linear, Borrowed(loc));
    MarkKeeps(d, a, linear, open + {loc.name});
    forall i | 0 <= i < |more| ensures LoanHeld(more[i], b) {
      if i < |loans| {
        assert LoanHeld(loans[i], a);
      }
    }
    forall m | Net(d.trace, m) > 0 ensures exists i :: 0 <= i < |more| && more[i].loc == m {
      NetAppend(c.trace, Borrowed(loc), m);
      if m == loc {
        assert more[|loans|].loc == m;
      } else {
        var i :| 0 <= i < |loans| && loans[i].loc == m;
        assert more[i].loc == m;
      }
    }
  }

  /** A lent location is back to the loans it had before once it is released. */
  lemma ReleaseBalances(t: Trace, u: Trace, loc: Loc)
    requires Balanced(t + [Borrowed(loc)], u)
    ensures Balanced(t, u + [Released(loc)])
  {
    forall m ensures Net(t, m) == Net(u + [Released(loc)], m) {
      NetAppend(t, Borrowed(loc), m);
      NetAppend(u, Released(loc), m);
      assert Net(t + [Borrowed(loc)], m) == Net(u, m);
    }
  }

  /** The end of a borrow form restores the marks, so the earlier loans hold as before. */
  lemma UnmarkKeeps(x: string, c: Run, a: State, d: Run, b: State, loans: seq<Loan>, linear: bool)
    requires a.scopes != [] && |b.scopes| == |a.scopes|
    requires LoansHeld(loans, c, a) && Balanced(c.trace, d.trace)
    requires Corresponds(d, b, linear)
    requires Top(b).borrowed - {x} == Top(a).borrowed
    requires forall k | 0 <= k < |a.scopes| - 1 :: a.scopes[k].borrowed == b.scopes[k].borrowed
    ensures Done(loans, c, d, EndBorrow(x, b), linear)
  {
    MarkKeeps(d, b, linear, Top(b).borrowed - {x});
    LoansCarry(loans, c, a, d, EndBorrow(x, b));
  }

  lemma {:induction false} SimulatesLoan(x: string, loc: Loc, body: seq<Ast>, c: Run, a: State, open: set<string>,
                                         loans: seq<Loan>, linear: bool)
    requires a.scopes != [] && loc.name == x && x !in open && AllInFragment(body, open + {x})
    requires Ready(loans, c, a, open, linear, DefinedBy(body)) && Moved(loc) !in c.trace
    requires linear ==> AllStraight(body)
    requires AnalyzeAll(body, SetBorrowed(a, open + {x})).errors == a.errors
    ensures var d := ExecAll(body, Emit(c, Borrowed(loc)));
            Done(loans, c, Emit(d, Released(loc)), EndBorrow(x, AnalyzeAll(body, SetBorrowed(a, open + {x}))), linear)
    decreases body, 2
  {
    var b := SetBorrowed(a, open + {x});
    var d, r := ExecAll(body, Emit(c, Borrowed(loc))), AnalyzeAll(body, b);
    StartLoan(loc, c, a, open, loans, linear, DefinedBy(body));
    SimulatesAll(body, Emit(c, Borrowed(loc)), b, open + {x}, loans + [Loan(loc, |a.scopes| - 1)], linear);
    WalkAllExtends(body, b, open + {x});
    SameMarks(a, open + {x}, r, DefinedBy(body));
    EmitKeeps(d, r, linear, Released(loc));
    ReleaseBalances(c.trace, d.trace, loc);
    UnmarkKeeps(x, c, a, Emit(d, Released(loc)), r, loans, linear);
  }

  lemma {:induction false} SimulatesUnbound(x: string, body: seq<Ast>, c: Run, a: State, open: set<string>,
                                            loans: seq<Loan>, linear: bool)
    requires a.scopes != [] && x !in open && AllInFragment(body, open + {x})
    requires Ready(loans, c, a, open, linear, DefinedBy(body))
    requires linear ==> AllStraight(body)
    requires AnalyzeAll(body, SetBorrowed(a, open + {x})).errors == a.errors
    ensures Done(loans, c, ExecAll(body, c), EndBorrow(x, AnalyzeAll(body, SetBorrowed(a, open + {x}))), linear)
    decreases body, 2
  {
    var b := SetBorrowed(a, open + {x});
    var r := AnalyzeAll(body, b);
    MarkKeeps(c, a, linear, open + {x});
    forall i | 0 <= i < |loans| ensures LoanHeld(loans[i], b) {
      assert LoanHeld(loans[i], a);
    }
    SimulatesAll(body, c, b, open + {x}, loans, linear);
    WalkAllExtends(body, b, open + {x});
    SameMarks(a, open + {x}, r, DefinedBy(body));
    UnmarkKeeps(x, c, a, ExecAll(body, c), r, loans, linear);
  }

  lemma SameMarks(a: State, borrowed: set<string>, r: State, added: set<string>)
    requires a.scopes != [] && Extends(SetBorrowed(a, borrowed), r, added)
    ensures Top(r).borrowed == borrowed
    ensures forall k | 0 <= k < |a.scopes| - 1 :: a.scopes[k].borrowed == r.scopes[k].borrowed
  {
    var b := SetBorrowed(a, borrowed);
    forall k | 0 <= k < |a.scopes| - 1 ensures a.scopes[k].borrowed == r.scopes[k].borrowed {
      assert ScopeExtends(b.scopes[k], r.scopes[k], {});
    }
  }

  lemma {:induction false} SimulatesBorrow(x: string, body: seq<Ast>, c: Run, a: State, open: set<string>,
                                           loans: seq<Loan>, linear: bool)
    requires a.scopes != [] && x != "" && x !in open && AllInFragment(body, open + {x})
    requires Ready(loans, c, a, open, linear, DefinedBy(body))
    requires linear ==> AllStraight(body)
    requires EndBorrow(x, AnalyzeAll(body, StartBorrow(x, a))).errors == a.errors
    ensures Done(loans, c, ExecBorrow(x, body, c), EndBorrow(x, AnalyzeAll(body, StartBorrow(x, a))), linear)
    decreases body, 3
  {
    Lookup(c, a, linear, x);
    if IsMoved(a.scopes, x) {
      MovedBorrowReports(x, body, a, open);
    }
    var k := Find(a.scopes, x);
    if k < 0 {
      SimulatesUnbound(x, body, c, a, open, loans, linear);
    } else {
      SimulatesLoan(x, c.frames[k].vars[x], body, c, a, open, loans, linear);
    }
  }

  lemma MovedBorrowReports(x: string, body: seq<Ast>, a: State, open: set<string>)
    requires a.scopes != [] && x !in open && AllInFragment(body, open + {x}) && Top(a).borrowed == open
    requires IsMoved(a.scopes, x)
    ensures EndBorrow(x, AnalyzeAll(body, StartBorrow(x, a))).errors != a.errors
  {
    AllInFragmentShrinks(body, open + {x}, open);
    var b := StartBorrow(x, a);
    WalkAllExtends(body, b, open);
    assert a.errors[BorrowOfMoved(x)] < b.errors[BorrowOfMoved(x)] <= AnalyzeAll(body, b).errors[BorrowOfMoved(x)];
  }

  lemma ReadyInside(loans: seq<Loan>, c: Run, a: State, open: set<string>, linear: bool, kind: ScopeKind,
                    outer: set<string>, defined: set<string>)
    requires a.scopes != [] && Ready(loans, c, a, open, linear, outer)
    requires !kind.GlobalScope?
    ensures Ready(loans, Enter(c), Push(a, kind), {}, linear, defined)
  {
    EnterKeeps(loans, c, a, linear, kind);
  }

  /** From the end of a scope's body to the end of the scope. */
  lemma LeaveScope(loans: seq<Loan>, c: Run, a: State, kind: ScopeKind, d: Run, b: State, added: set<string>,
                   linear: bool)
    requires a.scopes != [] && |c.frames| == |a.scopes| && LoansHeld(loans, c, a)
    requires Extends(Push(a, kind), b, added) && !kind.GlobalScope?
    requires Done(loans, Enter(c), d, b, linear)
    requires Leave(b).errors == a.errors
    ensures Done(loans, c, Exit(d), Leave(b), linear)
  {
    assert b.errors <= Leave(b).errors;
    assert ScopeExtends(Top(Push(a, kind)), Top(b), added);
    ExitKeeps(d, b, linear);
    forall i | 0 <= i < |loans| ensures loans[i].depth < |b.scopes| - 1 {
      assert LoanHeld(loans[i], a);
    }
    ExitKeepsLoans(loans, d, b);
    assert Balanced(c.trace, Exit(d).trace);
  }

  lemma {:induction false} SimulatesRegion(body: seq<Ast>, c: Run, a: State, open: set<string>, loans: seq<Loan>,
                                           linear: bool)
    requires a.scopes != [] && AllInFragment(body, {})
    requires Ready(loans, c, a, open, linear, {})
    requires linear ==> AllStraight(body)
    requires Leave(AnalyzeAll(body, Push(a, RegionScope))).errors == a.errors
    ensures Done(loans, c, Exit(ExecAll(body, Enter(c))), Leave(AnalyzeAll(body, Push(a, RegionScope))), linear)
    decreases body, 2
  {
    var p := Push(a, RegionScope);
    WalkAllExtends(body, p, {});
    ReadyInside(loans, c, a, open, linear, RegionScope, {}, DefinedBy(body));
    assert AnalyzeAll(body, p).errors == p.errors;
    SimulatesAll(body, Enter(c), p, {}, loans, linear);
    LeaveScope(loans, c, a, RegionScope, ExecAll(body, Enter(c)), AnalyzeAll(body, p), DefinedBy(body), linear);
  }

  lemma {:induction false} SimulatesLet(e: Ast, c: Run, a: State, open: set<string>, loans: seq<Loan>, linear: bool)
    requires e.Let? && a.scopes != [] && InFragment(e, open)
    requires Ready(loans, c, a, open, linear, {})
    requires linear ==> Straight(e)
    requires Analyze(e, a).errors == a.errors
    ensures Done(loans, c, Exec(e, c), Analyze(e, a), linear)
    decreases e, 0
  {
    var kind, bs, inner := e.kind, e.bindings, e.inner;
    var p, q := Push(a, ScopeFor(kind)), Enter(c);
    var b, d := AnalyzeBindings(kind, bs, p), ExecBindings(kind, bs, q);
    var names := BindingNames(bs);
    BindingsExtend(kind, bs, p);
    WalkExtends(inner, b, {});
    NoErrorBetween(p, b, Analyze(inner, b), names, Defined(inner));
    ReadyInside(loans, c, a, open, linear, ScopeFor(kind), {}, names + Defined(inner));
    SimulatesBindings(kind, bs, q, p, loans, linear);
    ReadyNext(loans, q, p, d, b, {}, linear, names, Defined(inner));
    Simulates(inner, d, b, {}, loans, linear);
    ExtendsTransitive(p, b, Analyze(inner, b), names, Defined(inner));
    LeaveScope(loans, c, a, ScopeFor(kind), Exec(inner, d), Analyze(inner, b), names + Defined(inner), linear);
  }

  lemma {:induction false} SimulatesBindings(kind: LetKind, bs: seq<Ast>, c: Run, a: State, loans: seq<Loan>,
                                             linear: bool)
    requires a.scopes != [] && BindingsInFragment(bs)
    requires kind.Parallel? ==> NoEarlierBinder(bs, {})
    requires kind.Sequential? ==> NoOwnBinder(bs)
    requires Ready(loans, c, a, {}, linear, BindingNames(bs))
    requires linear ==> AllStraight(bs) && BindersStraight(bs)
    requires AnalyzeBindings(kind, bs, a).errors == a.errors
    ensures Done(loans, c, ExecBindings(kind, bs, c), AnalyzeBindings(kind, bs, a), linear)
    decreases bs, 3
  {
    match kind
    case Sequential => SimulatesEach(bs, c, a, loans, linear);
    case Parallel =>
      LateBinders(bs, a);
      SimulatesParallel(bs, c, a, loans, linear);
    case Recursive => SimulatesRecursive(bs, c, a, loans, linear);
  }

  /** The binders of a `let` might as well be registered after its initializers. */
  lemma LateBinders(bs: seq<Ast>, a: State)
    requires a.scopes != [] && BindingsInFragment(bs) && NoEarlierBinder(bs, {})
    ensures AnalyzeBindings(Parallel, bs, a) == RegisterAll(bs, AnalyzeValues(bs, a))
  {
    EarlyIsLate([], bs, a);
    assert [] + bs == bs;
  }

  lemma {:induction false} SimulatesParallel(bs: seq<Ast>, c: Run, a: State, loans: seq<Loan>, linear: bool)
    requires a.scopes != [] && BindingsInFragment(bs)
    requires Ready(loans, c, a, {}, linear, BindingNames(bs))
    requires linear ==> AllStraight(bs) && BindersStraight(bs)
    requires RegisterAll(bs, AnalyzeValues(bs, a)).errors == a.errors
    ensures Done(loans, c, BindAll(bs, ExecValues(bs, c)), RegisterAll(bs, AnalyzeValues(bs, a)), linear)
    decreases bs, 2
  {
    if linear { BindersApart(bs); }
    var b, d := AnalyzeValues(bs, a), ExecValues(bs, c);
    ValuesExtend(bs, a);
    RegisterAllExtends(bs, b);
    NoErrorBetween(a, b, RegisterAll(bs, b), ValueNames(bs), BinderNames(bs));
    SimulatesValues(bs, c, a, loans, linear);
    ReadyNext(loans, c, a, d, b, {}, linear, ValueNames(bs), BinderNames(bs));
    SimulatesBindAll(bs, d, b, loans, linear);
  }

  lemma {:induction false} SimulatesRecursive(bs: seq<Ast>, c: Run, a: State, loans: seq<Loan>, linear: bool)
    requires a.scopes != [] && BindingsInFragment(bs)
    requires Ready(loans, c, a, {}, linear, BindingNames(bs))
    requires linear ==> AllStraight(bs) && BindersStraight(bs)
    requires AnalyzeValues(bs, RegisterAll(bs, a)).errors == a.errors
    ensures Done(loans, c, ExecValues(bs, BindAll(bs, c)), AnalyzeValues(bs, RegisterAll(bs, a)), linear)
    decreases bs, 2
  {
    if linear { BindersApart(bs); }
    var b, d := RegisterAll(bs, a), BindAll(bs, c);
    RegisterAllExtends(bs, a);
    ValuesExtend(bs, b);
    NoErrorBetween(a, b, AnalyzeValues(bs, b), BinderNames(bs), ValueNames(bs));
    SimulatesBindAll(bs, c, a, loans, linear);
    ReadyNext(loans, c, a, d, b, {}, linear, BinderNames(bs), ValueNames(bs));
    SimulatesValues(bs, d, b, loans, linear);
  }

  lemma {:induction false} BindersApart(bs: seq<Ast>)
    requires BindingsInFragment(bs) && BindersStraight(bs)
    ensures BinderNames(bs) !! ValueNames(bs)
  {
    if bs == [] {
    } else {
      BindersApart(bs[1..]);
    }
  }

  lemma {:induction false} SimulatesBindAll(bs: seq<Ast>, c: Run, a: State, loans: seq<Loan>, linear: bool)
    requires a.scopes != [] && BindingsInFragment(bs)
    requires Ready(loans, c, a, {}, linear, BinderNames(bs))
    requires linear ==> BindersStraight(bs)
    ensures Done(loans, c, BindAll(bs, c), RegisterAll(bs, a), linear)
  {
    if bs == [] {
    } else {
      var x := VarName(bs[0].car);
      var d, b := Bind(c, x, HoldsOwned(bs[0].cdr)), Register(a, x, bs[0].cdr);
      BindDone(loans, c, a, linear, x, bs[0].cdr);
      RegisterExtends(a, x, bs[0].cdr);
      ReadyNext(loans, c, a, d, b, {}, linear, {x}, BinderNames(bs[1..]));
      SimulatesBindAll(bs[1..], d, b, loans, linear);
    }
  }

  lemma {:induction false} SimulatesValue(v: Ast, c: Run, a: State, loans: seq<Loan>, linear: bool)
    requires a.scopes != [] && BindingInFragment(v)
    requires Ready(loans, c, a, {}, linear, Defined(v.cdr))
    requires linear ==> Straight(v)
    requires AnalyzeValue(v, a).errors == a.errors
    ensures Done(loans, c, ExecValue(v, c), AnalyzeValue(v, a), linear)
    decreases v, 0
  {
    Simulates(v.cdr, c, a, {}, loans, linear);
  }

  lemma {:induction false} SimulatesValues(bs: seq<Ast>, c: Run, a: State, loans: seq<Loan>, linear: bool)
    requires a.scopes != [] && BindingsInFragment(bs)
    requires Ready(loans, c, a, {}, linear, ValueNames(bs))
    requires linear ==> AllStraight(bs) && BindersStraight(bs)
    requires AnalyzeValues(bs, a).errors == a.errors
    ensures Done(loans, c, ExecValues(bs, c), AnalyzeValues(bs, a), linear)
    decreases bs, 1
  {
    if bs == [] {
    } else {
      var d, b := ExecValue(bs[0], c), AnalyzeValue(bs[0], a);
      ValueExtends(bs[0], a);
      ValuesExtend(bs[1..], b);
      NoErrorBetween(a, b, AnalyzeValues(bs, a), Defined(bs[0].cdr), ValueNames(bs[1..]));
      SimulatesValue(bs[0], c, a, loans, linear);
      ReadyNext(loans, c, a, d, b, {}, linear, Defined(bs[0].cdr), ValueNames(bs[1..]));
      SimulatesValues(bs[1..], d, b, loans, linear);
    }
  }

  /** The first binding of a sequential `let` reports nothing either, and may be read as bound last. */
  lemma FirstOfEach(bs: seq<Ast>, a: State, x: string, v: Ast, r: State)
    requires a.scopes != [] && BindingsInFragment(bs) && NoOwnBinder(bs) && Top(a).borrowed == {}
    requires bs != [] && bs[0].Cons? && x == VarName(bs[0].car) && v == bs[0].cdr
    requires r == Register(AnalyzeValue(bs[0], a), x, v) && AnalyzeEach(bs, a).errors == a.errors
    ensures AnalyzeEach(bs, a) == AnalyzeEach(bs[1..], r) && Extends(a, r, Defined(v) + {x})
    ensures AnalyzeValue(bs[0], a).errors == r.errors == a.errors
  {
    var b := AnalyzeValue(bs[0], a);
    ValueCommutes(bs[0], a, |a.scopes| - 1, x, InfoOf(v));
    assert AnalyzeValue(bs[0], RegisterBinding(bs[0], a)) == r;
    ValueExtends(bs[0], a);
    RegisterExtends(b, x, v);
    ExtendsTransitive(a, b, r, Defined(v), {x});
    EachExtends(bs[1..], r);
    NoErrorBetween(a, r, AnalyzeEach(bs, a), Defined(v) + {x}, BindingNames(bs[1..]));
  }

  lemma {:induction false} SimulatesFirst(b: Ast, c: Run, a: State, loans: seq<Loan>, linear: bool,
                                          d: Run, r: State, rest: set<string>)
    requires a.scopes != [] && BindingInFragment(b)
    requires Ready(loans, c, a, {}, linear, Defined(b.cdr) + {VarName(b.car)} + rest)
    requires linear ==> Straight(b) && VarName(b.car) !in Defined(b.cdr) && VarName(b.car) !in rest
    requires linear ==> Defined(b.cdr) !! rest
    requires AnalyzeValue(b, a).errors == a.errors && Extends(a, r, Defined(b.cdr) + {VarName(b.car)})
    requires d == Bind(ExecValue(b, c), VarName(b.car), HoldsOwned(b.cdr))
    requires r == Register(AnalyzeValue(b, a), VarName(b.car), b.cdr)
    ensures Done(loans, c, d, r, linear) && Ready(loans, d, r, {}, linear, rest)
    decreases b, 1
  {
    var x, v := VarName(b.car), b.cdr;
    ValueExtends(b, a);
    if linear {
      assert x !in Top(a).vars;
      StillUnbound(a, AnalyzeValue(b, a), Defined(v), x);
    }
    SimulatesValue(b, c, a, loans, linear);
    BindAfter(loans, c, ExecValue(b, c), AnalyzeValue(b, a), linear, x, v);
    ReadyNext(loans, c, a, d, r, {}, linear, Defined(v) + {x}, rest);
  }

  lemma {:induction false} SimulatesEach(bs: seq<Ast>, c: Run, a: State, loans: seq<Loan>, linear: bool)
    requires a.scopes != [] && BindingsInFragment(bs) && NoOwnBinder(bs)
    requires Ready(loans, c, a, {}, linear, BindingNames(bs))
    requires linear ==> AllStraight(bs) && BindersStraight(bs)
    requires AnalyzeEach(bs, a).errors == a.errors
    ensures Done(loans, c, ExecEach(bs, c), AnalyzeEach(bs, a), linear)
    decreases bs, 1
  {
    if bs == [] {
    } else {
      var x, v := VarName(bs[0].car), bs[0].cdr;
      var d := Bind(ExecValue(bs[0], c), x, HoldsOwned(v));
      var r := Register(AnalyzeValue(bs[0], a), x, v);
      FirstOfEach(bs, a, x, v, r);
      assert Defined(v) + {x} + BindingNames(bs[1..]) == BindingNames(bs);
      SimulatesFirst(bs[0], c, a, loans, linear, d, r, BindingNames(bs[1..]));
      SimulatesEach(bs[1..], d, r, loans, linear);
    }
  }

  // ---- Conditional forms: any of their operands may be skipped ----

  lemma {:induction false} SimulatesMaybe(e: Ast, c: Run, a: State, open: set<string>, loans: seq<Loan>)
    requires a.scopes != [] && InFragment(e, open) && Defined(e) == {}
    requires Ready(loans, c, a, open, false, {})
    requires Analyze(e, a).errors == a.errors
    ensures Done(loans, c, ExecMaybe(e, c), Analyze(e, a), false)
    decreases e, 2
  {
    WalkExtends(e, a, open);
    if Head(c) {
      Simulates(e, Tail(c), a, open, loans, false);
    } else {
      SkipKeeps(loans, c, a, Analyze(e, a));
    }
  }

  lemma {:induction false} SimulatesSome(es: seq<Ast>, c: Run, a: State, open: set<string>, loans: seq<Loan>)
    requires a.scopes != [] && AllInFragment(es, open) && DefinedBy(es) == {}
    requires Ready(loans, c, a, open, false, {})
    requires AnalyzeAll(es, a).errors == a.errors
    ensures Done(loans, c, ExecSome(es, c), AnalyzeAll(es, a), false)
    decreases es, 1
  {
    if es == [] {
    } else {
      var d, b := ExecMaybe(es[0], c), Analyze(es[0], a);
      assert Defined(es[0]) <= DefinedBy(es) && DefinedBy(es[1..]) <= DefinedBy(es);
      WalkExtends(es[0], a, open);
      WalkAllExtends(es[1..], b, open);
      NoErrorBetween(a, b, AnalyzeAll(es, a), {}, {});
      SimulatesMaybe(es[0], c, a, open, loans);
      ReadyNext(loans, c, a, d, b, open, false, {}, {});
      SimulatesSome(es[1..], d, b, open, loans);
    }
  }

  lemma {:induction false} SimulatesClause(e: Ast, c: Run, a: State, open: set<string>, loans: seq<Loan>)
    requires a.scopes != [] && InFragment(e, open) && Defined(e) == {}
    requires Ready(loans, c, a, open, false, {})
    requires Analyze(e, a).errors == a.errors
    ensures Done(loans, c, ExecClause(e, c), Analyze(e, a), false)
    decreases e, 3
  {
    if e.Call? {
      var d, b := ExecMaybe(e.func, c), Analyze(e.func, a);
      assert Defined(e.func) <= Defined(e) && DefinedBy(e.args) <= Defined(e);
      WalkExtends(e.func, a, open);
      WalkAllExtends(e.args, b, open);
      NoErrorBetween(a, b, Analyze(e, a), {}, {});
      SimulatesMaybe(e.func, c, a, open, loans);
      ReadyNext(loans, c, a, d, b, open, false, {}, {});
      SimulatesSome(e.args, d, b, open, loans);
    } else {
      SimulatesMaybe(e, c, a, open, loans);
    }
  }

  lemma {:induction false} SimulatesClauses(es: seq<Ast>, c: Run, a: State, open: set<string>, loans: seq<Loan>)
    requires a.scopes != [] && AllInFragment(es, open) && DefinedBy(es) == {}
    requires Ready(loans, c, a, open, false, {})
    requires AnalyzeAll(es, a).errors == a.errors
    ensures Done(loans, c, ExecClauses(es, c), AnalyzeAll(es, a), false)
    decreases es, 1
  {
    if es == [] {
    } else {
      var d, b := ExecClause(es[0], c), Analyze(es[0], a);
      assert Defined(es[0]) <= DefinedBy(es) && DefinedBy(es[1..]) <= DefinedBy(es);
      WalkExtends(es[0], a, open);
      WalkAllExtends(es[1..], b, open);
      NoErrorBetween(a, b, AnalyzeAll(es, a), {}, {});
      SimulatesClause(es[0], c, a, open, loans);
      ReadyNext(loans, c, a, d, b, open, false, {}, {});
      SimulatesClauses(es[1..], d, b, open, loans);
    }
  }

  lemma {:induction false} SimulatesBranch(e: Ast, c: Run, a: State, open: set<string>, loans: seq<Loan>)
    requires e.Branch? && a.scopes != [] && InFragment(e, open)
    requires Ready(loans, c, a, open, false, {})
    requires Analyze(e, a).errors == a.errors
    ensures Done(loans, c, Exec(e, c), Analyze(e, a), false)
    decreases e, 0
  {
    var d, b := ExecMaybe(e.func, c), Analyze(e.func, a);
    WalkExtends(e.func, a, open);
    WalkAllExtends(e.args, b, open);
    NoErrorBetween(a, b, Analyze(e, a), {}, {});
    SimulatesMaybe(e.func, c, a, open, loans);
    ReadyNext(loans, c, a, d, b, open, false, {}, {});
    if e.branch.Cond? {
      SimulatesClauses(e.args, d, b, open, loans);
    } else {
      SimulatesSome(e.args, d, b, open, loans);
    }
  }

  // ---- The theorems ----

  lemma ProgramSimulates(es: seq<Ast>, tape: seq<bool>, linear: bool)
    requires AllInFragment(es, {}) && Accepted(es)
    requires linear ==> AllStraight(es)
    ensures Safe(TraceOf(es, tape))
    ensures linear ==> Linear(TraceOf(es, tape))
  {
    var a := Push(State([], multiset{}), GlobalScope);
    var c := Run([Frame(map[], {})], 0, tape, []);
    WalkAllExtends(es, a, {});
    assert AnalyzeAll(es, a).errors == multiset{} by {
      assert AnalyzeAll(es, a).errors <= AnalyzeProgram(es).errors;
    }
    SimulatesAll(es, c, a, {}, [], linear);
  }

  /** Soundness. An accepted program of the fragment never touches a moved value nor moves a
      borrowed one, whichever operands its conditional forms evaluate. */
  lemma AcceptedIsSafe(es: seq<Ast>)
    requires AllInFragment(es, {})
    requires Accepted(es)
    ensures forall tape :: Safe(TraceOf(es, tape))
  {
    forall tape ensures Safe(TraceOf(es, tape)) {
      ProgramSimulates(es, tape, false);
    }
  }

  /** Linearity. In an accepted program without conditionals that defines no name twice in a
      scope, every owned value of an inner scope is moved exactly once before the scope ends. */
  lemma AcceptedIsLinear(es: seq<Ast>, tape: seq<bool>)
    requires AllInFragment(es, {}) && AllStraight(es)
    requires Accepted(es)
    ensures Safe(TraceOf(es, tape)) && Linear(TraceOf(es, tape))
  {
    ProgramSimulates(es, tape, true);
  }
}
