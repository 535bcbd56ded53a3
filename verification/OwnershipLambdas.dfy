/** How the analyzer treats a lambda: as a `let` that binds the parameters to unowned values, at the
    place where the lambda is written. */
module OwnershipLambdas {
  import opened OwnershipSyntax
  import opened OwnershipAnalysis

  // ---- The kind of a scope makes no difference to what is analyzed inside ----

  /** st with another kind for scope k. */
  function Rekind(st: State, k: nat, kind: ScopeKind): (r: State)
    requires k < |st.scopes|
    ensures |r.scopes| == |st.scopes|
  {
    st.(scopes := st.scopes[k := st.scopes[k].(kind := kind)])
  }

  lemma RekindFinds(st: State, k: nat, kind: ScopeKind, x: string)
    requires k < |st.scopes|
    ensures Find(Rekind(st, k, kind).scopes, x) == Find(st.scopes, x)
    ensures IsBorrowed(Rekind(st, k, kind).scopes, x) == IsBorrowed(st.scopes, x)
    ensures IsMoved(Rekind(st, k, kind).scopes, x) == IsMoved(st.scopes, x)
  {
    var r := Rekind(st, k, kind);
    assert forall j | 0 <= j < |st.scopes| ::
        r.scopes[j].vars == st.scopes[j].vars && r.scopes[j].borrowed == st.scopes[j].borrowed;
    assert forall j | 0 <= j < |st.scopes| :: x in r.scopes[j].vars <==> x in st.scopes[j].vars;
  }

  lemma RekindPut(st: State, k: nat, kind: ScopeKind, j: nat, x: string, info: VariableInfo)
    requires k < |st.scopes| && j < |st.scopes|
    ensures Put(Rekind(st, k, kind), j, x, info) == Rekind(Put(st, j, x, info), k, kind)
  {
    assert Put(Rekind(st, k, kind), j, x, info).scopes == Rekind(Put(st, j, x, info), k, kind).scopes;
  }

  lemma RekindMarks(st: State, k: nat, kind: ScopeKind, borrowed: set<string>)
    requires k < |st.scopes|
    ensures SetBorrowed(Rekind(st, k, kind), borrowed) == Rekind(SetBorrowed(st, borrowed), k, kind)
  {
    assert SetBorrowed(Rekind(st, k, kind), borrowed).scopes == Rekind(SetBorrowed(st, borrowed), k, kind).scopes;
  }

  lemma RekindMove(x: string, st: State, k: nat, kind: ScopeKind)
    requires k < |st.scopes|
    ensures AnalyzeMove(x, Rekind(st, k, kind)) == Rekind(AnalyzeMove(x, st), k, kind)
  {
    RekindFinds(st, k, kind, x);
    var j := Find(st.scopes, x);
    if j >= 0 {
      RekindPut(st, k, kind, j, x, st.scopes[j].vars[x].(status := MOVED));
    }
  }

  lemma RekindStart(x: string, st: State, k: nat, kind: ScopeKind)
    requires k < |st.scopes|
    ensures StartBorrow(x, Rekind(st, k, kind)) == Rekind(StartBorrow(x, st), k, kind)
  {
    RekindFinds(st, k, kind, x);
    RekindMarks(st, k, kind, st.scopes[|st.scopes| - 1].borrowed + {x});
  }

  lemma RekindInside(st: State, k: nat, kind: ScopeKind, inner: ScopeKind)
    requires k < |st.scopes|
    ensures Push(Rekind(st, k, kind), inner) == Rekind(Push(st, inner), k, kind)
  {
    assert Push(Rekind(st, k, kind), inner).scopes == Rekind(Push(st, inner), k, kind).scopes;
  }

  lemma RekindLeave(st: State, k: nat, kind: ScopeKind)
    requires k < |st.scopes| - 1
    ensures Leave(Rekind(st, k, kind)) == Rekind(Leave(st), k, kind)
  {
    assert Leave(Rekind(st, k, kind)).scopes == Rekind(Leave(st), k, kind).scopes;
  }

  lemma {:induction false} RekindWalk(e: Ast, st: State, k: nat, kind: ScopeKind)
    requires k < |st.scopes|
    ensures Analyze(e, Rekind(st, k, kind)) == Rekind(Analyze(e, st), k, kind)
    decreases e, 1
  {
    match e
    case Var(x) => RekindVar(x, st, k, kind);
    case Cons(_, _) => RekindCons(e, st, k, kind);
    case Define(_, _, _) => RekindDefine(e, st, k, kind);
    case Owned(value) => RekindWalk(value, st, k, kind);
    case Move(_) => RekindMoved(e, st, k, kind);
    case Borrow(_, _) => RekindBorrow(e, st, k, kind);
    case Let(_, _, _) => RekindLet(e, st, k, kind);
    case Lambda(_, _) => RekindLambda(e, st, k, kind);
    case Call(_, _) => RekindCall(e, st, k, kind);
    case Branch(_, _, _) => RekindBranch(e, st, k, kind);
    case Sequence(body) => RekindAll(body, st, k, kind);
    case WithRegion(_) => RekindRegion(e, st, k, kind);
    case Wrapped(_, value) => RekindWalk(value, st, k, kind);
    case _ =>
  }

  lemma RekindVar(x: string, st: State, k: nat, kind: ScopeKind)
    requires k < |st.scopes|
    ensures Analyze(Var(x), Rekind(st, k, kind)) == Rekind(Analyze(Var(x), st), k, kind)
  {
    RekindFinds(st, k, kind, x);
  }

  lemma {:induction false} RekindMoved(e: Ast, st: State, k: nat, kind: ScopeKind)
    requires e.Move? && k < |st.scopes|
    ensures Analyze(e, Rekind(st, k, kind)) == Rekind(Analyze(e, st), k, kind)
    decreases e, 0
  {
    if VarName(e.value) == "" {
      RekindWalk(e.value, st, k, kind);
    } else {
      RekindMove(VarName(e.value), st, k, kind);
    }
  }

  lemma {:induction false} RekindCons(e: Ast, st: State, k: nat, kind: ScopeKind)
    requires e.Cons? && k < |st.scopes|
    ensures Analyze(e, Rekind(st, k, kind)) == Rekind(Analyze(e, st), k, kind)
    decreases e, 0
  {
    RekindWalk(e.car, st, k, kind);
    RekindWalk(e.cdr, Analyze(e.car, st), k, kind);
  }

  lemma {:induction false} RekindDefine(e: Ast, st: State, k: nat, kind: ScopeKind)
    requires e.Define? && k < |st.scopes|
    ensures Analyze(e, Rekind(st, k, kind)) == Rekind(Analyze(e, st), k, kind)
    decreases e, 0
  {
    if e.name != "" {
      RekindPut(st, k, kind, |st.scopes| - 1, e.name, InfoOf(e.value));
      RekindWalk(e.value, Register(st, e.name, e.value), k, kind);
    }
  }

  lemma {:induction false} RekindLet(e: Ast, st: State, k: nat, kind: ScopeKind)
    requires e.Let? && k < |st.scopes|
    ensures Analyze(e, Rekind(st, k, kind)) == Rekind(Analyze(e, st), k, kind)
    decreases e, 0
  {
    var p := Push(st, ScopeFor(e.kind));
    var b := AnalyzeBindings(e.kind, e.bindings, p);
    RekindInside(st, k, kind, ScopeFor(e.kind));
    RekindBindings(e.kind, e.bindings, p, k, kind);
    RekindWalk(e.inner, b, k, kind);
    RekindLeave(Analyze(e.inner, b), k, kind);
  }

  lemma {:induction false} RekindLambda(e: Ast, st: State, k: nat, kind: ScopeKind)
    requires e.Lambda? && k < |st.scopes|
    ensures Analyze(e, Rekind(st, k, kind)) == Rekind(Analyze(e, st), k, kind)
    decreases e, 0
  {
    var p := Push(st, LambdaScope);
    var b := RegisterParams(e.params, p);
    RekindInside(st, k, kind, LambdaScope);
    RekindParams(e.params, p, k, kind);
    RekindWalk(e.inner, b, k, kind);
    RekindLeave(Analyze(e.inner, b), k, kind);
  }

  lemma {:induction false} RekindCall(e: Ast, st: State, k: nat, kind: ScopeKind)
    requires e.Call? && k < |st.scopes|
    ensures Analyze(e, Rekind(st, k, kind)) == Rekind(Analyze(e, st), k, kind)
    decreases e, 0
  {
    RekindWalk(e.func, st, k, kind);
    RekindAll(e.args, Analyze(e.func, st), k, kind);
  }

  lemma {:induction false} RekindBranch(e: Ast, st: State, k: nat, kind: ScopeKind)
    requires e.Branch? && k < |st.scopes|
    ensures Analyze(e, Rekind(st, k, kind)) == Rekind(Analyze(e, st), k, kind)
    decreases e, 0
  {
    RekindWalk(e.func, st, k, kind);
    RekindAll(e.args, Analyze(e.func, st), k, kind);
  }

  lemma {:induction false} RekindRegion(e: Ast, st: State, k: nat, kind: ScopeKind)
    requires e.WithRegion? && k < |st.scopes|
    ensures Analyze(e, Rekind(st, k, kind)) == Rekind(Analyze(e, st), k, kind)
    decreases e, 0
  {
    var p := Push(st, RegionScope);
    RekindInside(st, k, kind, RegionScope);
    RekindAll(e.body, p, k, kind);
    RekindLeave(AnalyzeAll(e.body, p), k, kind);
  }

  lemma {:induction false} RekindBorrow(e: Ast, st: State, k: nat, kind: ScopeKind)
    requires e.Borrow? && k < |st.scopes|
    ensures Analyze(e, Rekind(st, k, kind)) == Rekind(Analyze(e, st), k, kind)
    decreases e, 0
  {
    var x, body := VarName(e.value), e.body;
    if x == "" {
      RekindAll(body, st, k, kind);
    } else {
      var b := AnalyzeAll(body, StartBorrow(x, st));
      RekindStart(x, st, k, kind);
      RekindAll(body, StartBorrow(x, st), k, kind);
      RekindMarks(b, k, kind, b.scopes[|b.scopes| - 1].borrowed - {x});
    }
  }

  lemma {:induction false} RekindAll(es: seq<Ast>, st: State, k: nat, kind: ScopeKind)
    requires k < |st.scopes|
    ensures AnalyzeAll(es, Rekind(st, k, kind)) == Rekind(AnalyzeAll(es, st), k, kind)
    decreases es, 1
  {
    if es == [] {
    } else {
      RekindWalk(es[0], st, k, kind);
      RekindAll(es[1..], Analyze(es[0], st), k, kind);
    }
  }

  lemma RekindBinding(b: Ast, st: State, k: nat, kind: ScopeKind)
    requires k < |st.scopes|
    ensures RegisterBinding(b, Rekind(st, k, kind)) == Rekind(RegisterBinding(b, st), k, kind)
  {
    if b.Cons? && VarName(b.car) != "" {
      RekindPut(st, k, kind, |st.scopes| - 1, VarName(b.car), InfoOf(b.cdr));
    }
  }

  lemma {:induction false} RekindParams(params: seq<Ast>, st: State, k: nat, kind: ScopeKind)
    requires k < |st.scopes|
    ensures RegisterParams(params, Rekind(st, k, kind)) == Rekind(RegisterParams(params, st), k, kind)
    decreases params
  {
    if params == [] {
    } else if VarName(params[0]) == "" {
      RekindParams(params[1..], st, k, kind);
    } else {
      RekindPut(st, k, kind, |st.scopes| - 1, VarName(params[0]), InfoOf(Literal));
      RekindParams(params[1..], Register(st, VarName(params[0]), Literal), k, kind);
    }
  }

  lemma {:induction false} RekindRegistered(bs: seq<Ast>, st: State, k: nat, kind: ScopeKind)
    requires k < |st.scopes|
    ensures RegisterAll(bs, Rekind(st, k, kind)) == Rekind(RegisterAll(bs, st), k, kind)
    decreases bs
  {
    if bs == [] {
    } else {
      RekindBinding(bs[0], st, k, kind);
      RekindRegistered(bs[1..], RegisterBinding(bs[0], st), k, kind);
    }
  }

  lemma {:induction false} RekindValue(b: Ast, st: State, k: nat, kind: ScopeKind)
    requires k < |st.scopes|
    ensures AnalyzeValue(b, Rekind(st, k, kind)) == Rekind(AnalyzeValue(b, st), k, kind)
    decreases b, 0
  {
    if b.Cons? {
      RekindWalk(b.cdr, st, k, kind);
    }
  }

  lemma {:induction false} RekindBindings(let: LetKind, bs: seq<Ast>, st: State, k: nat, kind: ScopeKind)
    requires k < |st.scopes|
    ensures AnalyzeBindings(let, bs, Rekind(st, k, kind)) == Rekind(AnalyzeBindings(let, bs, st), k, kind)
    decreases bs, 2
  {
    if let.Recursive? {
      RekindRegistered(bs, st, k, kind);
      RekindValues(bs, RegisterAll(bs, st), k, kind);
    } else {
      RekindEach(bs, st, k, kind);
    }
  }

  lemma {:induction false} RekindValues(bs: seq<Ast>, st: State, k: nat, kind: ScopeKind)
    requires k < |st.scopes|
    ensures AnalyzeValues(bs, Rekind(st, k, kind)) == Rekind(AnalyzeValues(bs, st), k, kind)
    decreases bs, 1
  {
    if bs == [] {
    } else {
      RekindValue(bs[0], st, k, kind);
      RekindValues(bs[1..], AnalyzeValue(bs[0], st), k, kind);
    }
  }

  lemma {:induction false} RekindEach(bs: seq<Ast>, st: State, k: nat, kind: ScopeKind)
    requires k < |st.scopes|
    ensures AnalyzeEach(bs, Rekind(st, k, kind)) == Rekind(AnalyzeEach(bs, st), k, kind)
    decreases bs, 1
  {
    if bs == [] {
    } else {
      var r := RegisterBinding(bs[0], st);
      RekindBinding(bs[0], st, k, kind);
      RekindValue(bs[0], r, k, kind);
      RekindEach(bs[1..], AnalyzeValue(bs[0], r), k, kind);
    }
  }

  // ---- A lambda is a let ----

  /** A binding of each parameter to a literal. */
  function ParamBindings(params: seq<Ast>): seq<Ast> {
    if params == [] then [] else [Cons(params[0], Literal)] + ParamBindings(params[1..])
  }

  lemma {:induction false} ParamsAreBindings(params: seq<Ast>, st: State)
    requires st.scopes != []
    ensures AnalyzeEach(ParamBindings(params), st) == RegisterParams(params, st)
    decreases params
  {
    if params == [] {
    } else {
      var b := Cons(params[0], Literal);
      assert ParamBindings(params)[0] == b && ParamBindings(params)[1..] == ParamBindings(params[1..]);
      var r := RegisterBinding(b, st);
      assert AnalyzeValue(b, r) == r;
      ParamsAreBindings(params[1..], r);
    }
  }

  /** A lambda is analyzed where it is written, like a `let` of its parameters around its body: each
      parameter hides an outer variable of its name and is owned by nobody. */
  lemma LambdaIsLet(params: seq<Ast>, inner: Ast, st: State)
    requires st.scopes != []
    ensures Analyze(Lambda(params, inner), st) == Analyze(Let(Parallel, ParamBindings(params), inner), st)
  {
    ParamsAreBindings(params, Push(st, LetScope));
    ScopesAlike(params, inner, st);
    LambdaWalk(params, inner, st);
    LetWalk(ParamBindings(params), inner, st);
  }

  lemma LambdaWalk(params: seq<Ast>, inner: Ast, st: State)
    requires st.scopes != []
    ensures Analyze(Lambda(params, inner), st) == Leave(Analyze(inner, RegisterParams(params, Push(st, LambdaScope))))
  {
  }

  lemma LetWalk(bindings: seq<Ast>, inner: Ast, st: State)
    requires st.scopes != []
    ensures Analyze(Let(Parallel, bindings, inner), st) ==
            Leave(Analyze(inner, AnalyzeEach(bindings, Push(st, LetScope))))
  {
  }

  lemma ScopesAlike(params: seq<Ast>, inner: Ast, st: State)
    ensures Leave(Analyze(inner, RegisterParams(params, Push(st, LambdaScope)))) ==
            Leave(Analyze(inner, RegisterParams(params, Push(st, LetScope))))
  {
    var k, q := |st.scopes|, Push(st, LetScope);
    var r := RegisterParams(params, q);
    PushAlike(st);
    RekindParams(params, q, k, LambdaScope);
    ParamsKeepKind(params, q, k);
    RekindWalk(inner, r, k, LambdaScope);
    KeepsKind(inner, r, k);
    LeavesAlike(Analyze(inner, r), LambdaScope);
  }

  lemma PushAlike(st: State)
    ensures Push(st, LambdaScope) == Rekind(Push(st, LetScope), |st.scopes|, LambdaScope)
  {
    assert Push(st, LambdaScope).scopes == Rekind(Push(st, LetScope), |st.scopes|, LambdaScope).scopes;
  }

  /** Scopes of two kinds, neither the global one, are left alike. */
  lemma LeavesAlike(st: State, kind: ScopeKind)
    requires st.scopes != [] && !kind.GlobalScope?
    ensures !st.scopes[|st.scopes| - 1].kind.GlobalScope? ==> Leave(Rekind(st, |st.scopes| - 1, kind)) == Leave(st)
  {
    var top := |st.scopes| - 1;
    assert Rekind(st, top, kind).scopes[..top] == st.scopes[..top];
  }

  /** A walk leaves the kind of a scope as it is. */
  lemma KeepsKind(e: Ast, st: State, k: nat)
    requires k < |st.scopes|
    ensures Analyze(e, st).scopes[k].kind == st.scopes[k].kind
  {
    var kind := st.scopes[k].kind;
    assert Rekind(st, k, kind) == st by { assert Rekind(st, k, kind).scopes == st.scopes; }
    RekindWalk(e, st, k, kind);
  }

  lemma ParamsKeepKind(params: seq<Ast>, st: State, k: nat)
    requires k < |st.scopes|
    ensures RegisterParams(params, st).scopes[k].kind == st.scopes[k].kind
  {
    var kind := st.scopes[k].kind;
    assert Rekind(st, k, kind) == st by { assert Rekind(st, k, kind).scopes == st.scopes; }
    RekindParams(params, st, k, kind);
  }
}
