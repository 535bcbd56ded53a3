/** What the ownership analyzer computes, as functions on its state. */
module OwnershipAnalysis {
  import opened OwnershipSyntax

  /** The analyzer also declares a BORROWED state, which it never assigns. */
  datatype Status = UNOWNED | OWNED | MOVED

  datatype VariableInfo = VariableInfo(status: Status, isOwnedBinding: bool)

  datatype ScopeKind = GlobalScope | LetScope | LetrecScope | LambdaScope | RegionScope

  datatype Scope = Scope(kind: ScopeKind, vars: map<string, VariableInfo>, borrowed: set<string>)

  datatype OwnershipError =
    | UseOfMoved(name: string)
    | DoubleMove(name: string)
    | MoveWhileBorrowed(name: string)
    | BorrowOfMoved(name: string)
    | NotConsumed(name: string)

  /** The scope stack, innermost last, and the errors reported so far. */
  datatype State = State(scopes: seq<Scope>, errors: multiset<OwnershipError>)

  /** The index of the innermost scope that holds x, or -1. */
  function Find(scopes: seq<Scope>, x: string): (k: int)
    ensures -1 <= k < |scopes|
    ensures k >= 0 ==> x in scopes[k].vars
    ensures forall j | k < j < |scopes| :: x !in scopes[j].vars
  {
    if scopes == [] then -1
    else if x in scopes[|scopes| - 1].vars then |scopes| - 1
    else Find(scopes[..|scopes| - 1], x)
  }

  predicate IsMoved(scopes: seq<Scope>, x: string) {
    var k := Find(scopes, x);
    k >= 0 && scopes[k].vars[x].status == MOVED
  }

  predicate IsBorrowed(scopes: seq<Scope>, x: string) {
    exists k | 0 <= k < |scopes| :: x in scopes[k].borrowed
  }

  function Report(st: State, error: OwnershipError): State {
    st.(errors := st.errors + multiset{error})
  }

  /** st with x bound to info in scope k. */
  function Put(st: State, k: nat, x: string, info: VariableInfo): State
    requires k < |st.scopes|
  {
    var scope := st.scopes[k];
    st.(scopes := st.scopes[k := scope.(vars := scope.vars[x := info])])
  }

  function SetBorrowed(st: State, borrowed: set<string>): State
    requires st.scopes != []
  {
    var top := |st.scopes| - 1;
    st.(scopes := st.scopes[top := st.scopes[top].(borrowed := borrowed)])
  }

  function Push(st: State, kind: ScopeKind): State {
    st.(scopes := st.scopes + [Scope(kind, map[], {})])
  }

  /** The errors due when a scope is left: its owned bindings that were never moved. */
  function Unconsumed(scope: Scope): multiset<OwnershipError> {
    if scope.kind.GlobalScope? then multiset{} else
    multiset(set x | x in scope.vars && scope.vars[x] == VariableInfo(OWNED, true) :: NotConsumed(x))
  }

  /** Check the innermost scope, then drop it. */
  function Leave(st: State): State
    requires st.scopes != []
  {
    var top := |st.scopes| - 1;
    State(st.scopes[..top], st.errors + Unconsumed(st.scopes[top]))
  }

  /** Bind x in the innermost scope to the value e is about to produce. */
  function Register(st: State, x: string, e: Ast): State
    requires st.scopes != []
  {
    Put(st, |st.scopes| - 1, x, InfoOf(e))
  }

  /** A value written `(owned ...)` or `(move ...)` makes its binding an owned one. */
  predicate TransfersOwnership(e: Ast) {
    e.Owned? || e.Move?
  }

  function InfoOf(e: Ast): VariableInfo {
    if TransfersOwnership(e) then VariableInfo(OWNED, true) else VariableInfo(UNOWNED, false)
  }

  function ScopeFor(kind: LetKind): ScopeKind {
    if kind.Recursive? then LetrecScope else LetScope
  }

  function AnalyzeMove(x: string, st: State): (r: State)
    ensures |r.scopes| == |st.scopes|
  {
    var k := Find(st.scopes, x);
    if k < 0 then st
    else if st.scopes[k].vars[x].status == MOVED then Report(st, DoubleMove(x))
    else if IsBorrowed(st.scopes, x) then Report(st, MoveWhileBorrowed(x))
    else Put(st, k, x, st.scopes[k].vars[x].(status := MOVED))
  }

  function StartBorrow(x: string, st: State): (r: State)
    requires st.scopes != []
    ensures |r.scopes| == |st.scopes|
  {
    if IsMoved(st.scopes, x) then Report(st, BorrowOfMoved(x))
    else SetBorrowed(st, st.scopes[|st.scopes| - 1].borrowed + {x})
  }

  function EndBorrow(x: string, st: State): (r: State)
    requires st.scopes != []
    ensures |r.scopes| == |st.scopes|
  {
    SetBorrowed(st, st.scopes[|st.scopes| - 1].borrowed - {x})
  }

  /** The analyzer's walk over one node. */
  function Analyze(e: Ast, st: State): (r: State)
    requires st.scopes != []
    ensures |r.scopes| == |st.scopes|
    decreases e, 1
  {
    match e
    case Literal => st
    case Var(x) => if x != "" && IsMoved(st.scopes, x) then Report(st, UseOfMoved(x)) else st
    case Cons(car, cdr) => Analyze(cdr, Analyze(car, st))
    case Define(name, _, value) =>
      if name == "" then st else Analyze(value, Register(st, name, value))
    case Owned(value) => Analyze(value, st)
    case Move(value) =>
      if VarName(value) != "" then AnalyzeMove(VarName(value), st) else Analyze(value, st)
    case Borrow(value, body) =>
      var x := VarName(value);
      if x == "" then AnalyzeAll(body, st) else EndBorrow(x, AnalyzeAll(body, StartBorrow(x, st)))
    case Let(kind, bindings, inner) =>
      var bound := AnalyzeBindings(kind, bindings, Push(st, ScopeFor(kind)));
      Leave(Analyze(inner, bound))
    case Lambda(params, inner) =>
      Leave(Analyze(inner, RegisterParams(params, Push(st, LambdaScope))))
    case Call(func, args) => AnalyzeAll(args, Analyze(func, st))
    case Branch(_, func, args) => AnalyzeAll(args, Analyze(func, st))
    case Sequence(body) => AnalyzeAll(body, st)
    case WithRegion(body) => Leave(AnalyzeAll(body, Push(st, RegionScope)))
    case Wrapped(_, value) => Analyze(value, st)
    case Quote(_) => st
    case Other(_) => st
  }

  function AnalyzeAll(es: seq<Ast>, st: State): (r: State)
    requires st.scopes != []
    ensures |r.scopes| == |st.scopes|
    decreases es, 1
  {
    if es == [] then st else AnalyzeAll(es[1..], Analyze(es[0], st))
  }

  /** `let` and `let*` register each binder just before its initializer; `letrec` registers
      them all first. */
  function AnalyzeBindings(kind: LetKind, bs: seq<Ast>, st: State): (r: State)
    requires st.scopes != []
    ensures |r.scopes| == |st.scopes|
    decreases bs, 2
  {
    if kind.Recursive? then AnalyzeValues(bs, RegisterAll(bs, st)) else AnalyzeEach(bs, st)
  }

  function RegisterBinding(b: Ast, st: State): (r: State)
    requires st.scopes != []
    ensures |r.scopes| == |st.scopes|
  {
    if b.Cons? && VarName(b.car) != "" then Register(st, VarName(b.car), b.cdr) else st
  }

  function RegisterAll(bs: seq<Ast>, st: State): (r: State)
    requires st.scopes != []
    ensures |r.scopes| == |st.scopes|
  {
    if bs == [] then st else RegisterAll(bs[1..], RegisterBinding(bs[0], st))
  }

  function RegisterParams(params: seq<Ast>, st: State): (r: State)
    requires st.scopes != []
    ensures |r.scopes| == |st.scopes|
  {
    if params == [] then st
    else if VarName(params[0]) == "" then RegisterParams(params[1..], st)
    else RegisterParams(params[1..], Register(st, VarName(params[0]), Literal))
  }

  function AnalyzeValue(b: Ast, st: State): (r: State)
    requires st.scopes != []
    ensures |r.scopes| == |st.scopes|
    decreases b, 0
  {
    if b.Cons? then Analyze(b.cdr, st) else st
  }

  function AnalyzeValues(bs: seq<Ast>, st: State): (r: State)
    requires st.scopes != []
    ensures |r.scopes| == |st.scopes|
    decreases bs, 1
  {
    if bs == [] then st
    else AnalyzeValues(bs[1..], AnalyzeValue(bs[0], st))
  }

  function AnalyzeEach(bs: seq<Ast>, st: State): (r: State)
    requires st.scopes != []
    ensures |r.scopes| == |st.scopes|
    decreases bs, 1
  {
    if bs == [] then st
    else AnalyzeEach(bs[1..], AnalyzeValue(bs[0], RegisterBinding(bs[0], st)))
  }

  /** The whole analysis: one global scope around the program's forms. */
  function AnalyzeProgram(es: seq<Ast>): State {
    Leave(AnalyzeAll(es, Push(State([], multiset{}), GlobalScope)))
  }

  predicate Accepted(es: seq<Ast>) {
    AnalyzeProgram(es).errors == multiset{}
  }
}
