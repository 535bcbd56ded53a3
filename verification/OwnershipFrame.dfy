/** Facts about the analyzer alone: what one walk keeps, and when a binder may be registered
    late. */
module OwnershipFrame {
  import opened OwnershipSyntax
  import opened OwnershipAnalysis

  /** j may replace i in a later state of the same binding. */
  predicate Later(i: VariableInfo, j: VariableInfo) {
    && i.isOwnedBinding == j.isOwnedBinding
    && (i.status == MOVED ==> j.status == MOVED)
  }

  /** t is s later on: the same borrow marks, the names of s and those `added`, and no binding
      replaced except by an added one. */
  predicate ScopeExtends(s: Scope, t: Scope, added: set<string>) {
    && s.borrowed == t.borrowed && s.kind == t.kind
    && t.vars.Keys == s.vars.Keys + added
    && forall x | x in s.vars && x !in added :: Later(s.vars[x], t.vars[x])
  }

  /** b extends a: names are added to the innermost scope only, no move or error is forgotten. */
  ghost predicate Extends(a: State, b: State, added: set<string>) {
    && a.scopes != [] && |a.scopes| == |b.scopes|
    && (forall k | 0 <= k < |a.scopes| - 1 :: ScopeExtends(a.scopes[k], b.scopes[k], {}))
    && ScopeExtends(a.scopes[|a.scopes| - 1], b.scopes[|a.scopes| - 1], added)
    && a.errors <= b.errors
  }

  lemma ScopeExtendsTransitive(s: Scope, t: Scope, u: Scope, f: set<string>, g: set<string>)
    requires ScopeExtends(s, t, f) && ScopeExtends(t, u, g)
    ensures ScopeExtends(s, u, f + g)
  {
    forall x | x in s.vars && x !in f + g
      ensures Later(s.vars[x], u.vars[x])
    {
      assert Later(s.vars[x], t.vars[x]) && Later(t.vars[x], u.vars[x]);
    }
  }

  lemma ExtendsTransitive(a: State, b: State, c: State, f: set<string>, g: set<string>)
    requires Extends(a, b, f) && Extends(b, c, g)
    ensures Extends(a, c, f + g)
  {
    var top := |a.scopes| - 1;
    ScopeExtendsTransitive(a.scopes[top], b.scopes[top], c.scopes[top], f, g);
    forall k | 0 <= k < top
      ensures ScopeExtends(a.scopes[k], c.scopes[k], {})
    {
      ScopeExtendsTransitive(a.scopes[k], b.scopes[k], c.scopes[k], {}, {});
    }
  }

  lemma PopExtends(a: State, kind: ScopeKind, b: State, added: set<string>)
    requires a.scopes != []
    requires Extends(Push(a, kind), b, added)
    ensures Extends(a, Leave(b), {})
  {
    var p := Push(a, kind);
    forall k | 0 <= k < |a.scopes|
      ensures ScopeExtends(a.scopes[k], Leave(b).scopes[k], {})
    {
      assert ScopeExtends(p.scopes[k], b.scopes[k], {});
    }
  }

  lemma ReportExtends(a: State, b: State)
    requires a.scopes != [] && b.scopes == a.scopes && a.errors <= b.errors
    ensures Extends(a, b, {})
  {
  }

  lemma MoveExtends(a: State, x: string)
    requires a.scopes != []
    ensures Extends(a, AnalyzeMove(x, a), {})
  {
  }

  /** The marks of a borrow are gone when it ends. */
  lemma BorrowExtends(a: State, x: string, b: State, added: set<string>)
    requires a.scopes != [] && x !in a.scopes[|a.scopes| - 1].borrowed
    requires Extends(StartBorrow(x, a), b, added)
    ensures Extends(a, EndBorrow(x, b), added)
  {
    var s := StartBorrow(x, a);
    var top := |a.scopes| - 1;
    forall k | 0 <= k < top
      ensures ScopeExtends(a.scopes[k], EndBorrow(x, b).scopes[k], {})
    {
      assert ScopeExtends(s.scopes[k], b.scopes[k], {});
    }
  }

  lemma RegisterExtends(a: State, x: string, e: Ast)
    requires a.scopes != []
    ensures Extends(a, Register(a, x, e), {x})
  {
  }

  lemma {:induction false} RegisterAllExtends(bs: seq<Ast>, a: State)
    requires a.scopes != [] && BindingsInFragment(bs)
    ensures Extends(a, RegisterAll(bs, a), BinderNames(bs))
  {
    if bs == [] {
      ReportExtends(a, a);
    } else {
      var x := VarName(bs[0].car);
      var b := Register(a, x, bs[0].cdr);
      RegisterExtends(a, x, bs[0].cdr);
      RegisterAllExtends(bs[1..], b);
      ExtendsTransitive(a, b, RegisterAll(bs, a), {x}, BinderNames(bs[1..]));
    }
  }

  /** A walk over a program of the fragment extends the state by what the program defines. */
  lemma {:induction false} WalkExtends(e: Ast, a: State, open: set<string>)
    requires InFragment(e, open)
    requires a.scopes != [] && a.scopes[|a.scopes| - 1].borrowed == open
    ensures Extends(a, Analyze(e, a), Defined(e))
    decreases e, 1
  {
    match e
    case Literal => ReportExtends(a, a);
    case Var(_) => ReportExtends(a, Analyze(e, a));
    case Cons(car, cdr) =>
      WalkExtends(car, a, open);
      WalkExtends(cdr, Analyze(car, a), open);
      ExtendsTransitive(a, Analyze(car, a), Analyze(e, a), Defined(car), Defined(cdr));
    case Define(name, _, value) =>
      var b := Register(a, name, value);
      RegisterExtends(a, name, value);
      WalkExtends(value, b, open);
      ExtendsTransitive(a, b, Analyze(value, b), {name}, Defined(value));
    case Owned(value) => WalkExtends(value, a, open);
    case Move(value) =>
      if VarName(value) == "" {
        WalkExtends(value, a, open);
      } else {
        MoveExtends(a, VarName(value));
        assert Defined(value) == {};
      }
    case Borrow(value, body) =>
      BodyExtends(VarName(value), body, a, open);
      assert Defined(value) == {};
    case Let(kind, bindings, inner) =>
      LetExtends(e, a);
    case Call(func, args) =>
      WalkExtends(func, a, open);
      WalkAllExtends(args, Analyze(func, a), open);
      ExtendsTransitive(a, Analyze(func, a), Analyze(e, a), Defined(func), DefinedBy(args));
    case Branch(_, func, args) =>
      WalkExtends(func, a, open);
      WalkAllExtends(args, Analyze(func, a), open);
      ExtendsTransitive(a, Analyze(func, a), Analyze(e, a), Defined(func), DefinedBy(args));
    case Sequence(body) => WalkAllExtends(body, a, open);
    case WithRegion(body) =>
      var p := Push(a, RegionScope);
      WalkAllExtends(body, p, {});
      PopExtends(a, RegionScope, AnalyzeAll(body, p), DefinedBy(body));
    case Wrapped(_, value) => WalkExtends(value, a, open);
    case Quote(_) => ReportExtends(a, a);
  }

  lemma {:induction false} BodyExtends(x: string, body: seq<Ast>, a: State, open: set<string>)
    requires x !in open && AllInFragment(body, open + {x})
    requires a.scopes != [] && a.scopes[|a.scopes| - 1].borrowed == open
    ensures Extends(a, EndBorrow(x, AnalyzeAll(body, StartBorrow(x, a))), DefinedBy(body))
    decreases body, 2
  {
    var b := StartBorrow(x, a);
    if IsMoved(a.scopes, x) {
      AllInFragmentShrinks(body, open + {x}, open);
    }
    WalkAllExtends(body, b, b.scopes[|b.scopes| - 1].borrowed);
    BorrowExtends(a, x, AnalyzeAll(body, b), DefinedBy(body));
  }

  lemma {:induction false} LetExtends(e: Ast, a: State)
    requires e.Let? && InFragment(e.inner, {}) && BindingsInFragment(e.bindings)
    requires a.scopes != []
    ensures Extends(a, Analyze(e, a), {})
    decreases e, 0
  {
    var p := Push(a, ScopeFor(e.kind));
    var b := AnalyzeBindings(e.kind, e.bindings, p);
    BindingsExtend(e.kind, e.bindings, p);
    WalkExtends(e.inner, b, {});
    ExtendsTransitive(p, b, Analyze(e.inner, b), BindingNames(e.bindings), Defined(e.inner));
    PopExtends(a, ScopeFor(e.kind), Analyze(e.inner, b), BindingNames(e.bindings) + Defined(e.inner));
  }

  lemma {:induction false} WalkAllExtends(es: seq<Ast>, a: State, open: set<string>)
    requires AllInFragment(es, open)
    requires a.scopes != [] && a.scopes[|a.scopes| - 1].borrowed == open
    ensures Extends(a, AnalyzeAll(es, a), DefinedBy(es))
    decreases es, 1
  {
    if es == [] {
    } else {
      var b := Analyze(es[0], a);
      WalkExtends(es[0], a, open);
      WalkAllExtends(es[1..], b, open);
      ExtendsTransitive(a, b, AnalyzeAll(es, a), Defined(es[0]), DefinedBy(es[1..]));
    }
  }

  lemma {:induction false} BindingsExtend(kind: LetKind, bs: seq<Ast>, a: State)
    requires BindingsInFragment(bs)
    requires a.scopes != [] && a.scopes[|a.scopes| - 1].borrowed == {}
    ensures Extends(a, AnalyzeBindings(kind, bs, a), BindingNames(bs))
    decreases bs, 2
  {
    if kind.Recursive? {
      var b := RegisterAll(bs, a);
      RegisterAllExtends(bs, a);
      ValuesExtend(bs, b);
      ExtendsTransitive(a, b, AnalyzeValues(bs, b), BinderNames(bs), ValueNames(bs));
    } else {
      EachExtends(bs, a);
    }
  }

  lemma {:induction false} ValuesExtend(bs: seq<Ast>, a: State)
    requires BindingsInFragment(bs)
    requires a.scopes != [] && a.scopes[|a.scopes| - 1].borrowed == {}
    ensures Extends(a, AnalyzeValues(bs, a), ValueNames(bs))
    decreases bs, 1
  {
    if bs == [] {
      ReportExtends(a, a);
    } else {
      var b := AnalyzeValue(bs[0], a);
      ValueExtends(bs[0], a);
      ValuesExtend(bs[1..], b);
      ExtendsTransitive(a, b, AnalyzeValues(bs, a), Defined(bs[0].cdr), ValueNames(bs[1..]));
    }
  }

  lemma {:induction false} ValueExtends(b: Ast, a: State)
    requires BindingInFragment(b)
    requires a.scopes != [] && a.scopes[|a.scopes| - 1].borrowed == {}
    ensures Extends(a, AnalyzeValue(b, a), Defined(b.cdr))
    decreases b, 0
  {
    WalkExtends(b.cdr, a, {});
  }

  lemma {:induction false} EachExtends(bs: seq<Ast>, a: State)
    requires BindingsInFragment(bs)
    requires a.scopes != [] && a.scopes[|a.scopes| - 1].borrowed == {}
    ensures Extends(a, AnalyzeEach(bs, a), BindingNames(bs))
    decreases bs, 1
  {
    if bs == [] {
      ReportExtends(a, a);
    } else {
      var x := VarName(bs[0].car);
      var b := Register(a, x, bs[0].cdr);
      var c := AnalyzeValue(bs[0], b);
      RegisterExtends(a, x, bs[0].cdr);
      ValueExtends(bs[0], b);
      ExtendsTransitive(a, b, c, {x}, Defined(bs[0].cdr));
      EachExtends(bs[1..], c);
      var f := {x} + Defined(bs[0].cdr);
      ExtendsTransitive(a, c, AnalyzeEach(bs, a), f, BindingNames(bs[1..]));
      assert f + BindingNames(bs[1..]) == BindingNames(bs);
    }
  }

  /** Fewer open borrows put a program no further from the fragment. */
  lemma {:induction false} InFragmentShrinks(e: Ast, open: set<string>, fewer: set<string>)
    requires fewer <= open
    requires InFragment(e, open)
    ensures InFragment(e, fewer)
    decreases e
  {
    match e
    case Literal =>
    case Var(_) =>
    case Cons(car, cdr) =>
      InFragmentShrinks(car, open, fewer);
      InFragmentShrinks(cdr, open, fewer);
    case Define(_, _, value) => InFragmentShrinks(value, open, fewer);
    case Owned(value) => InFragmentShrinks(value, open, fewer);
    case Move(value) => InFragmentShrinks(value, open, fewer);
    case Borrow(value, body) =>
      AllInFragmentShrinks(body, open + {VarName(value)}, fewer + {VarName(value)});
    case Let(_, _, _) =>
    case Call(func, args) =>
      InFragmentShrinks(func, open, fewer);
      AllInFragmentShrinks(args, open, fewer);
    case Branch(_, func, args) =>
      InFragmentShrinks(func, open, fewer);
      AllInFragmentShrinks(args, open, fewer);
    case Sequence(body) => AllInFragmentShrinks(body, open, fewer);
    case WithRegion(_) =>
    case Wrapped(_, value) => InFragmentShrinks(value, open, fewer);
    case Quote(_) =>
  }

  lemma {:induction false} AllInFragmentShrinks(es: seq<Ast>, open: set<string>, fewer: set<string>)
    requires fewer <= open
    requires AllInFragment(es, open)
    ensures AllInFragment(es, fewer)
    decreases es
  {
    if es == [] {
    } else {
      InFragmentShrinks(es[0], open, fewer);
      AllInFragmentShrinks(es[1..], open, fewer);
    }
  }

  // ---- Registering a binder before or after an initializer that does not mention it ----

  lemma FindIgnores(scopes: seq<Scope>, k: nat, s: Scope, x: string)
    requires k < |scopes|
    requires x in scopes[k].vars <==> x in s.vars
    ensures Find(scopes[k := s], x) == Find(scopes, x)
  {
    assert forall j | 0 <= j < |scopes| :: x in scopes[j].vars <==> x in scopes[k := s][j].vars;
  }

  /** A walk that does not mention x commutes with binding x, in whatever scope. */
  lemma {:induction false} WalkCommutes(e: Ast, a: State, k: nat, x: string, info: VariableInfo)
    requires k < |a.scopes|
    requires !Mentions(e, x)
    ensures Analyze(e, Put(a, k, x, info)) == Put(Analyze(e, a), k, x, info)
    decreases e, 1
  {
    var b := Put(a, k, x, info);
    match e
    case Literal =>
    case Var(y) => FindIgnores(a.scopes, k, b.scopes[k], y);
    case Cons(car, cdr) =>
      WalkCommutes(car, a, k, x, info);
      WalkCommutes(cdr, Analyze(car, a), k, x, info);
    case Define(name, _, value) =>
      if name != "" {
        RegisterCommutes(a, name, value, k, x, info);
        WalkCommutes(value, Register(a, name, value), k, x, info);
      }
    case Owned(value) => WalkCommutes(value, a, k, x, info);
    case Move(value) =>
      if VarName(value) == "" {
        WalkCommutes(value, a, k, x, info);
      } else {
        MoveCommutes(VarName(value), a, k, x, info);
      }
    case Borrow(value, body) =>
      var y := VarName(value);
      if y == "" {
        WalkAllCommutes(body, a, k, x, info);
      } else {
        BorrowCommutes(y, a, k, x, info);
        WalkAllCommutes(body, StartBorrow(y, a), k, x, info);
        BorrowEndCommutes(y, AnalyzeAll(body, StartBorrow(y, a)), k, x, info);
      }
    case Let(_, _, _) => LetCommutes(e, a, k, x, info);
    case Lambda(_, _) => LambdaCommutes(e, a, k, x, info);
    case Call(func, args) =>
      WalkCommutes(func, a, k, x, info);
      WalkAllCommutes(args, Analyze(func, a), k, x, info);
    case Branch(_, func, args) =>
      WalkCommutes(func, a, k, x, info);
      WalkAllCommutes(args, Analyze(func, a), k, x, info);
    case Sequence(body) => WalkAllCommutes(body, a, k, x, info);
    case WithRegion(body) =>
      var p := Push(a, RegionScope);
      assert Push(b, RegionScope) == Put(p, k, x, info);
      WalkAllCommutes(body, p, k, x, info);
      LeaveCommutes(AnalyzeAll(body, p), k, x, info);
    case Wrapped(_, value) => WalkCommutes(value, a, k, x, info);
    case Quote(_) =>
    case Other(_) =>
  }

  lemma {:induction false} LetCommutes(e: Ast, a: State, k: nat, x: string, info: VariableInfo)
    requires e.Let? && k < |a.scopes| && !Mentions(e, x)
    ensures Analyze(e, Put(a, k, x, info)) == Put(Analyze(e, a), k, x, info)
    decreases e, 0
  {
    var p := Push(a, ScopeFor(e.kind));
    assert Push(Put(a, k, x, info), ScopeFor(e.kind)) == Put(p, k, x, info);
    BindingsCommute(e.kind, e.bindings, p, k, x, info);
    var c := AnalyzeBindings(e.kind, e.bindings, p);
    WalkCommutes(e.inner, c, k, x, info);
    LeaveCommutes(Analyze(e.inner, c), k, x, info);
  }

  lemma {:induction false} LambdaCommutes(e: Ast, a: State, k: nat, x: string, info: VariableInfo)
    requires e.Lambda? && k < |a.scopes| && !Mentions(e, x)
    ensures Analyze(e, Put(a, k, x, info)) == Put(Analyze(e, a), k, x, info)
    decreases e, 0
  {
    var p := Push(a, LambdaScope);
    assert Push(Put(a, k, x, info), LambdaScope) == Put(p, k, x, info);
    ParamsCommute(e.params, p, k, x, info);
    var c := RegisterParams(e.params, p);
    WalkCommutes(e.inner, c, k, x, info);
    LeaveCommutes(Analyze(e.inner, c), k, x, info);
  }

  lemma {:induction false} WalkAllCommutes(es: seq<Ast>, a: State, k: nat, x: string, info: VariableInfo)
    requires k < |a.scopes|
    requires !MentionsAny(es, x)
    ensures AnalyzeAll(es, Put(a, k, x, info)) == Put(AnalyzeAll(es, a), k, x, info)
    decreases es, 1
  {
    if es == [] {
    } else {
      WalkCommutes(es[0], a, k, x, info);
      WalkAllCommutes(es[1..], Analyze(es[0], a), k, x, info);
    }
  }

  /** A binder might as well be registered after a value that does not mention it was analyzed. */
  lemma RegisterLate(x: string, value: Ast, a: State)
    requires a.scopes != [] && !Mentions(value, x)
    ensures Analyze(value, Register(a, x, value)) == Register(Analyze(value, a), x, value)
  {
    WalkCommutes(value, a, |a.scopes| - 1, x, InfoOf(value));
  }

  lemma RegisterCommutes(a: State, y: string, e: Ast, k: nat, x: string, info: VariableInfo)
    requires k < |a.scopes| && x != y
    ensures Register(Put(a, k, x, info), y, e) == Put(Register(a, y, e), k, x, info)
  {
    var top := |a.scopes| - 1;
    var lhs := Register(Put(a, k, x, info), y, e);
    var rhs := Put(Register(a, y, e), k, x, info);
    assert lhs.scopes[top].vars == rhs.scopes[top].vars;
    assert lhs.scopes == rhs.scopes;
  }

  lemma MoveCommutes(y: string, a: State, k: nat, x: string, info: VariableInfo)
    requires k < |a.scopes| && x != y
    ensures AnalyzeMove(y, Put(a, k, x, info)) == Put(AnalyzeMove(y, a), k, x, info)
  {
    var b := Put(a, k, x, info);
    FindIgnores(a.scopes, k, b.scopes[k], y);
    assert forall j | 0 <= j < |a.scopes| :: a.scopes[j].borrowed == b.scopes[j].borrowed;
    assert IsBorrowed(a.scopes, y) == IsBorrowed(b.scopes, y);
    var j := Find(a.scopes, y);
    if j >= 0 {
      var moved := a.scopes[j].vars[y].(status := MOVED);
      var lhs, rhs := Put(b, j, y, moved), Put(Put(a, j, y, moved), k, x, info);
      assert lhs.scopes[j].vars == rhs.scopes[j].vars;
      assert lhs.scopes == rhs.scopes;
    }
  }

  lemma BorrowCommutes(y: string, a: State, k: nat, x: string, info: VariableInfo)
    requires k < |a.scopes| && x != y
    ensures StartBorrow(y, Put(a, k, x, info)) == Put(StartBorrow(y, a), k, x, info)
  {
    FindIgnores(a.scopes, k, Put(a, k, x, info).scopes[k], y);
    assert StartBorrow(y, Put(a, k, x, info)).scopes == Put(StartBorrow(y, a), k, x, info).scopes;
  }

  lemma BorrowEndCommutes(y: string, a: State, k: nat, x: string, info: VariableInfo)
    requires k < |a.scopes|
    ensures EndBorrow(y, Put(a, k, x, info)) == Put(EndBorrow(y, a), k, x, info)
  {
    assert EndBorrow(y, Put(a, k, x, info)).scopes == Put(EndBorrow(y, a), k, x, info).scopes;
  }

  lemma LeaveCommutes(a: State, k: nat, x: string, info: VariableInfo)
    requires k < |a.scopes| - 1
    ensures Leave(Put(a, k, x, info)) == Put(Leave(a), k, x, info)
  {
    assert Leave(Put(a, k, x, info)).scopes == Put(Leave(a), k, x, info).scopes;
  }

  lemma {:induction false} ParamsCommute(params: seq<Ast>, a: State, k: nat, x: string, info: VariableInfo)
    requires k < |a.scopes|
    requires !MentionsAny(params, x)
    ensures RegisterParams(params, Put(a, k, x, info)) == Put(RegisterParams(params, a), k, x, info)
  {
    if params == [] {
    } else {
      var y := VarName(params[0]);
      if y == "" {
        ParamsCommute(params[1..], a, k, x, info);
      } else {
        RegisterCommutes(a, y, Literal, k, x, info);
        ParamsCommute(params[1..], Register(a, y, Literal), k, x, info);
      }
    }
  }

  lemma {:induction false} BindingsCommute(kind: LetKind, bs: seq<Ast>, a: State, k: nat, x: string, info: VariableInfo)
    requires k < |a.scopes|
    requires !MentionsAny(bs, x)
    ensures AnalyzeBindings(kind, bs, Put(a, k, x, info)) == Put(AnalyzeBindings(kind, bs, a), k, x, info)
    decreases bs, 2
  {
    if kind.Recursive? {
      RegisterAllCommutes(bs, a, k, x, info);
      ValuesCommute(bs, RegisterAll(bs, a), k, x, info);
    } else {
      EachCommutes(bs, a, k, x, info);
    }
  }

  lemma BindingCommutes(b: Ast, a: State, k: nat, x: string, info: VariableInfo)
    requires k < |a.scopes|
    requires !Mentions(b, x)
    ensures RegisterBinding(b, Put(a, k, x, info)) == Put(RegisterBinding(b, a), k, x, info)
  {
    if b.Cons? && VarName(b.car) != "" {
      assert Mentions(b.car, VarName(b.car));
      RegisterCommutes(a, VarName(b.car), b.cdr, k, x, info);
    }
  }

  lemma {:induction false} RegisterAllCommutes(bs: seq<Ast>, a: State, k: nat, x: string, info: VariableInfo)
    requires k < |a.scopes|
    requires !MentionsAny(bs, x)
    ensures RegisterAll(bs, Put(a, k, x, info)) == Put(RegisterAll(bs, a), k, x, info)
  {
    if bs == [] {
    } else {
      BindingCommutes(bs[0], a, k, x, info);
      RegisterAllCommutes(bs[1..], RegisterBinding(bs[0], a), k, x, info);
    }
  }

  lemma {:induction false} ValueCommutes(b: Ast, a: State, k: nat, x: string, info: VariableInfo)
    requires k < |a.scopes|
    requires b.Cons? ==> !Mentions(b.cdr, x)
    ensures AnalyzeValue(b, Put(a, k, x, info)) == Put(AnalyzeValue(b, a), k, x, info)
    decreases b, 0
  {
    if b.Cons? {
      WalkCommutes(b.cdr, a, k, x, info);
    }
  }

  lemma {:induction false} ValuesCommute(bs: seq<Ast>, a: State, k: nat, x: string, info: VariableInfo)
    requires k < |a.scopes|
    requires !MentionsAny(bs, x)
    ensures AnalyzeValues(bs, Put(a, k, x, info)) == Put(AnalyzeValues(bs, a), k, x, info)
    decreases bs, 1
  {
    if bs == [] {
    } else {
      ValueCommutes(bs[0], a, k, x, info);
      ValuesCommute(bs[1..], AnalyzeValue(bs[0], a), k, x, info);
    }
  }

  lemma {:induction false} EachCommutes(bs: seq<Ast>, a: State, k: nat, x: string, info: VariableInfo)
    requires k < |a.scopes|
    requires !MentionsAny(bs, x)
    ensures AnalyzeEach(bs, Put(a, k, x, info)) == Put(AnalyzeEach(bs, a), k, x, info)
    decreases bs, 1
  {
    if bs == [] {
    } else {
      BindingCommutes(bs[0], a, k, x, info);
      var b := RegisterBinding(bs[0], a);
      ValueCommutes(bs[0], b, k, x, info);
      EachCommutes(bs[1..], AnalyzeValue(bs[0], b), k, x, info);
    }
  }

  lemma {:induction false} BinderNamesAppend(bs: seq<Ast>, b: Ast)
    ensures BinderNames(bs + [b]) == BinderNames(bs) + (if b.Cons? then {VarName(b.car)} else {})
  {
    if bs == [] {
      assert [] + [b] == [b] && [b][1..] == [];
    } else {
      assert (bs + [b])[1..] == bs[1..] + [b];
      BinderNamesAppend(bs[1..], b);
    }
  }

  lemma {:induction false} RegisterAllAppend(bs: seq<Ast>, b: Ast, a: State)
    requires a.scopes != []
    ensures RegisterAll(bs + [b], a) == RegisterBinding(b, RegisterAll(bs, a))
  {
    if bs == [] {
      assert RegisterAll([b], a) == RegisterAll([], RegisterBinding(b, a));
    } else {
      assert (bs + [b])[1..] == bs[1..] + [b];
      RegisterAllAppend(bs[1..], b, RegisterBinding(bs[0], a));
    }
  }

  lemma {:induction false} ValueAfterAll(done: seq<Ast>, b: Ast, a: State)
    requires a.scopes != []
    requires b.Cons? ==> forall x | x in BinderNames(done) :: !Mentions(b.cdr, x)
    ensures AnalyzeValue(b, RegisterAll(done, a)) == RegisterAll(done, AnalyzeValue(b, a))
  {
    if done == [] {
    } else {
      ValueAfterAll(done[1..], b, RegisterBinding(done[0], a));
      if done[0].Cons? && VarName(done[0].car) != "" {
        ValueCommutes(b, a, |a.scopes| - 1, VarName(done[0].car), InfoOf(done[0].cdr));
      }
    }
  }

  /** For a `let` of the fragment, registering each binder early gives the state that
      registering all of them after the last initializer gives. */
  lemma {:induction false} EarlyIsLate(done: seq<Ast>, bs: seq<Ast>, a: State)
    requires a.scopes != []
    requires NoEarlierBinder(bs, BinderNames(done))
    ensures AnalyzeEach(bs, RegisterAll(done, a)) == RegisterAll(done + bs, AnalyzeValues(bs, a))
    decreases bs
  {
    if bs == [] {
      assert done + bs == done;
    } else {
      var more := done + [bs[0]];
      RegisterAllAppend(done, bs[0], a);
      BinderNamesAppend(done, bs[0]);
      assert BinderNames(more) == if bs[0].Cons? then BinderNames(done) + {VarName(bs[0].car)} else BinderNames(done);
      ValueAfterAll(more, bs[0], a);
      EarlyIsLate(more, bs[1..], AnalyzeValue(bs[0], a));
      assert more + bs[1..] == done + bs;
    }
  }
}
