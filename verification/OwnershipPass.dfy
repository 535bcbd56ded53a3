/** The analyzer as the compiler runs it: an object whose walk updates a scope stack in place. */
module OwnershipPass {
  import opened OwnershipSyntax
  import opened OwnershipAnalysis
  import OwnershipExactness
  import OwnershipReports

  function UnconsumedAmong(scope: Scope, names: set<string>): set<OwnershipError> {
    set x | x in names && x in scope.vars && scope.vars[x] == VariableInfo(OWNED, true) :: NotConsumed(x)
  }

  lemma UnconsumedStep(scope: Scope, names: set<string>, x: string)
    requires names <= scope.vars.Keys && x in names
    ensures multiset(UnconsumedAmong(scope, scope.vars.Keys - (names - {x}))) ==
            multiset(UnconsumedAmong(scope, scope.vars.Keys - names)) +
            (if scope.vars[x] == VariableInfo(OWNED, true) then multiset{NotConsumed(x)} else multiset{})
  {
    var keys := scope.vars.Keys;
    var before, after := UnconsumedAmong(scope, keys - names), UnconsumedAmong(scope, keys - (names - {x}));
    assert keys - (names - {x}) == (keys - names) + {x};
    if scope.vars[x] == VariableInfo(OWNED, true) {
      assert after == before + {NotConsumed(x)} && NotConsumed(x) !in before;
    } else {
      assert after == before;
    }
  }

  class OwnershipAnalyzer {
    var scopeStack: seq<Scope>
    var errors: multiset<OwnershipError>
    var hasErrors: bool

    ghost predicate Valid()
      reads this
    {
      hasErrors <==> errors != multiset{}
    }

    ghost function Abstract(): State
      reads this
    {
      State(scopeStack, errors)
    }

    constructor ()
      ensures Valid() && Abstract() == State([], multiset{})
    {
      scopeStack, errors, hasErrors := [], multiset{}, false;
    }

    method ReportError(error: OwnershipError)
      requires Valid()
      modifies this`errors, this`hasErrors
      ensures Valid() && Abstract() == Report(old(Abstract()), error)
    {
      errors := errors + multiset{error};
      hasErrors := true;
      assert error in errors;
    }

    method PushScope(kind: ScopeKind)
      requires Valid()
      modifies this`scopeStack
      ensures Valid() && Abstract() == Push(old(Abstract()), kind)
    {
      scopeStack := scopeStack + [Scope(kind, map[], {})];
    }

    /** Innermost scope first. */
    method LookupVariable(x: string) returns (k: int)
      ensures k == Find(scopeStack, x)
    {
      k := |scopeStack| - 1;
      while k >= 0 && x !in scopeStack[k].vars
        invariant -1 <= k < |scopeStack|
        invariant forall j | k < j < |scopeStack| :: x !in scopeStack[j].vars
      {
        k := k - 1;
      }
    }

    method FindBorrow(x: string) returns (borrowed: bool)
      ensures borrowed == IsBorrowed(scopeStack, x)
    {
      for i := 0 to |scopeStack|
        invariant forall j | 0 <= j < i :: x !in scopeStack[j].borrowed
      {
        if x in scopeStack[i].borrowed { return true; }
      }
      return false;
    }

    method Register(x: string, e: Ast)
      requires Valid() && scopeStack != []
      modifies this`scopeStack
      ensures Valid() && Abstract() == OwnershipAnalysis.Register(old(Abstract()), x, e)
    {
      var top := |scopeStack| - 1;
      scopeStack := scopeStack[top := scopeStack[top].(vars := scopeStack[top].vars[x := InfoOf(e)])];
    }

    /** Report the unconsumed values of the innermost scope. */
    method CheckScopeExit()
      requires Valid() && scopeStack != []
      modifies this`errors, this`hasErrors
      ensures Valid()
      ensures errors == old(errors) + Unconsumed(scopeStack[|scopeStack| - 1])
    {
      var scope := scopeStack[|scopeStack| - 1];
      if scope.kind.GlobalScope? { return; }
      var names := scope.vars.Keys;
      while names != {}
        invariant names <= scope.vars.Keys
        invariant Valid()
        invariant errors == old(errors) + multiset(UnconsumedAmong(scope, scope.vars.Keys - names))
        decreases names
      {
        var x :| x in names;
        UnconsumedStep(scope, names, x);
        names := names - {x};
        CheckConsumed(x, scope.vars[x]);
      }
      assert scope.vars.Keys - names == scope.vars.Keys;
      assert UnconsumedAmong(scope, scope.vars.Keys) ==
          set x | x in scope.vars && scope.vars[x] == VariableInfo(OWNED, true) :: NotConsumed(x);
    }

    method CheckConsumed(x: string, info: VariableInfo)
      requires Valid()
      modifies this`errors, this`hasErrors
      ensures Valid()
      ensures errors == old(errors) +
              (if info == VariableInfo(OWNED, true) then multiset{NotConsumed(x)} else multiset{})
    {
      if info.status == OWNED && info.isOwnedBinding {
        ReportError(NotConsumed(x));
      }
    }

    method PopScope()
      requires Valid()
      modifies this`scopeStack
      ensures Valid()
      ensures scopeStack == if old(scopeStack) == [] then [] else old(scopeStack)[..|old(scopeStack)| - 1]
    {
      if scopeStack != [] {
        scopeStack := scopeStack[..|scopeStack| - 1];
      }
    }

    method LeaveScope()
      requires Valid() && scopeStack != []
      modifies this
      ensures Valid() && Abstract() == Leave(old(Abstract()))
    {
      CheckScopeExit();
      PopScope();
    }

    method AnalyzeAst(e: Ast)
      requires Valid() && scopeStack != []
      modifies this
      ensures Valid() && Abstract() == Analyze(e, old(Abstract()))
      decreases e, 3
    {
      match e
      case Literal =>
      case Var(x) => UseVariable(x);
      case Cons(car, cdr) =>
        AnalyzeAst(car);
        AnalyzeAst(cdr);
      case _ => AnalyzeOperation(e);
    }

    method UseVariable(x: string)
      requires Valid() && scopeStack != []
      modifies this
      ensures Valid() && Abstract() == Analyze(Var(x), old(Abstract()))
    {
      if x != "" {
        var k := LookupVariable(x);
        if k >= 0 && scopeStack[k].vars[x].status == MOVED { ReportError(UseOfMoved(x)); }
      }
    }

    method AnalyzeOperation(e: Ast)
      requires Valid() && scopeStack != []
      requires !e.Literal? && !e.Var? && !e.Cons?
      modifies this
      ensures Valid() && Abstract() == Analyze(e, old(Abstract()))
      decreases e, 2
    {
      match e
      case Define(name, _, value) => AnalyzeDefine(name, value);
      case Owned(value) => AnalyzeAst(value);
      case Move(value) => AnalyzeMoveForm(value);
      case Borrow(value, body) => AnalyzeBorrow(VarName(value), body);
      case Let(kind, bindings, inner) => AnalyzeLet(kind, bindings, inner);
      case Lambda(params, inner) => AnalyzeLambda(params, inner);
      case Call(_, _) => AnalyzeForm(e);
      case Branch(_, _, _) => AnalyzeForm(e);
      case Sequence(_) => AnalyzeForm(e);
      case WithRegion(_) => AnalyzeForm(e);
      case Wrapped(_, value) => AnalyzeAst(value);
      case Quote(_) =>
      case Other(_) =>
    }

    method AnalyzeForm(e: Ast)
      requires Valid() && scopeStack != []
      requires e.Call? || e.Branch? || e.Sequence? || e.WithRegion?
      modifies this
      ensures Valid() && Abstract() == Analyze(e, old(Abstract()))
      decreases e, 1
    {
      if e.Sequence? {
        AnalyzeList(e.body);
      } else if e.WithRegion? {
        AnalyzeRegion(e.body);
      } else {
        AnalyzeOperands(e.func, e.args, e);
      }
    }

    /** The operands of a call or a conditional form. */
    method AnalyzeOperands(func: Ast, args: seq<Ast>, ghost e: Ast)
      requires Valid() && scopeStack != []
      requires (e.Call? || e.Branch?) && e.func == func && e.args == args
      modifies this
      ensures Valid() && Abstract() == AnalyzeAll(args, Analyze(func, old(Abstract())))
      decreases e, 0
    {
      AnalyzeAst(func);
      AnalyzeList(args);
    }

    method AnalyzeDefine(name: string, value: Ast)
      requires Valid() && scopeStack != []
      modifies this
      ensures Valid()
      ensures Abstract() == if name == "" then old(Abstract())
                            else Analyze(value, OwnershipAnalysis.Register(old(Abstract()), name, value))
      decreases value, 4
    {
      if name != "" {
        Register(name, value);
        AnalyzeAst(value);
      }
    }

    method AnalyzeMoveForm(value: Ast)
      requires Valid() && scopeStack != []
      modifies this
      ensures Valid()
      ensures Abstract() == if VarName(value) != "" then AnalyzeMove(VarName(value), old(Abstract()))
                            else Analyze(value, old(Abstract()))
      decreases value, 4
    {
      if VarName(value) != "" {
        MoveVariable(VarName(value));
      } else {
        AnalyzeAst(value);
      }
    }

    method AnalyzeBorrow(x: string, body: seq<Ast>)
      requires Valid() && scopeStack != []
      modifies this
      ensures Valid()
      ensures Abstract() == if x == "" then AnalyzeAll(body, old(Abstract()))
                            else EndBorrow(x, AnalyzeAll(body, StartBorrow(x, old(Abstract()))))
      decreases body, 1
    {
      if x != "" { BeginBorrow(x); }
      AnalyzeList(body);
      if x != "" { FinishBorrow(x); }
    }

    method AnalyzeLet(kind: LetKind, bindings: seq<Ast>, inner: Ast)
      requires Valid() && scopeStack != []
      modifies this
      ensures Valid()
      ensures Abstract() ==
              Leave(Analyze(inner, AnalyzeBindings(kind, bindings, Push(old(Abstract()), ScopeFor(kind)))))
      decreases Let(kind, bindings, inner), 0, 0
    {
      PushScope(ScopeFor(kind));
      AnalyzeLetBindings(kind, bindings);
      AnalyzeAst(inner);
      LeaveScope();
    }

    method AnalyzeLambda(params: seq<Ast>, inner: Ast)
      requires Valid() && scopeStack != []
      modifies this
      ensures Valid()
      ensures Abstract() == Leave(Analyze(inner, RegisterParams(params, Push(old(Abstract()), LambdaScope))))
      decreases inner, 4
    {
      PushScope(LambdaScope);
      RegisterParameters(params);
      AnalyzeAst(inner);
      LeaveScope();
    }

    method AnalyzeRegion(body: seq<Ast>)
      requires Valid() && scopeStack != []
      modifies this
      ensures Valid()
      ensures Abstract() == Leave(AnalyzeAll(body, Push(old(Abstract()), RegionScope)))
      decreases body, 1
    {
      PushScope(RegionScope);
      AnalyzeList(body);
      LeaveScope();
    }

    method MoveVariable(x: string)
      requires Valid() && scopeStack != []
      modifies this
      ensures Valid() && Abstract() == AnalyzeMove(x, old(Abstract()))
    {
      var k := LookupVariable(x);
      if k >= 0 {
        var info := scopeStack[k].vars[x];
        var borrowed := FindBorrow(x);
        if info.status == MOVED {
          ReportError(DoubleMove(x));
        } else if borrowed {
          ReportError(MoveWhileBorrowed(x));
        } else {
          scopeStack := scopeStack[k := scopeStack[k].(vars := scopeStack[k].vars[x := info.(status := MOVED)])];
        }
      }
    }

    method BeginBorrow(x: string)
      requires Valid() && scopeStack != []
      modifies this
      ensures Valid() && Abstract() == StartBorrow(x, old(Abstract()))
    {
      var k := LookupVariable(x);
      if k >= 0 && scopeStack[k].vars[x].status == MOVED {
        ReportError(BorrowOfMoved(x));
      } else {
        var top := |scopeStack| - 1;
        scopeStack := scopeStack[top := scopeStack[top].(borrowed := scopeStack[top].borrowed + {x})];
      }
    }

    method FinishBorrow(x: string)
      requires Valid() && scopeStack != []
      modifies this`scopeStack
      ensures Valid() && Abstract() == EndBorrow(x, old(Abstract()))
    {
      var top := |scopeStack| - 1;
      scopeStack := scopeStack[top := scopeStack[top].(borrowed := scopeStack[top].borrowed - {x})];
    }

    method AnalyzeList(es: seq<Ast>)
      requires Valid() && scopeStack != []
      modifies this
      ensures Valid() && Abstract() == AnalyzeAll(es, old(Abstract()))
      decreases es, 0
    {
      for i := 0 to |es|
        invariant Valid() && scopeStack != []
        invariant AnalyzeAll(es[i..], Abstract()) == AnalyzeAll(es, old(Abstract()))
      {
        assert es[i..][1..] == es[i + 1..];
        AnalyzeAst(es[i]);
      }
    }

    method RegisterParameters(params: seq<Ast>)
      requires Valid() && scopeStack != []
      modifies this`scopeStack
      ensures Valid() && Abstract() == RegisterParams(params, old(Abstract()))
    {
      for i := 0 to |params|
        invariant Valid() && scopeStack != []
        invariant RegisterParams(params[i..], Abstract()) == RegisterParams(params, old(Abstract()))
      {
        assert params[i..][1..] == params[i + 1..];
        if VarName(params[i]) != "" { Register(VarName(params[i]), Literal); }
      }
    }

    method RegisterLetBinding(b: Ast)
      requires Valid() && scopeStack != []
      modifies this`scopeStack
      ensures Valid() && Abstract() == RegisterBinding(b, old(Abstract()))
    {
      if b.Cons? && VarName(b.car) != "" { Register(VarName(b.car), b.cdr); }
    }

    method AnalyzeLetValue(b: Ast)
      requires Valid() && scopeStack != []
      modifies this
      ensures Valid() && Abstract() == AnalyzeValue(b, old(Abstract()))
      decreases b, 0
    {
      if b.Cons? { AnalyzeAst(b.cdr); }
    }

    method AnalyzeLetBindings(kind: LetKind, bs: seq<Ast>)
      requires Valid() && scopeStack != []
      modifies this
      ensures Valid() && Abstract() == AnalyzeBindings(kind, bs, old(Abstract()))
      decreases bs, 1
    {
      if kind.Recursive? {
        for i := 0 to |bs|
          invariant Valid() && scopeStack != []
          invariant RegisterAll(bs[i..], Abstract()) == RegisterAll(bs, old(Abstract()))
        {
          assert bs[i..][1..] == bs[i + 1..];
          RegisterLetBinding(bs[i]);
        }
        ghost var registered := Abstract();
        for i := 0 to |bs|
          invariant Valid() && scopeStack != []
          invariant AnalyzeValues(bs[i..], Abstract()) == AnalyzeValues(bs, registered)
        {
          assert bs[i..][1..] == bs[i + 1..];
          AnalyzeLetValue(bs[i]);
        }
      } else {
        for i := 0 to |bs|
          invariant Valid() && scopeStack != []
          invariant AnalyzeEach(bs[i..], Abstract()) == AnalyzeEach(bs, old(Abstract()))
        {
          assert bs[i..][1..] == bs[i + 1..];
          RegisterLetBinding(bs[i]);
          AnalyzeLetValue(bs[i]);
        }
      }
    }

    /** Analyze a whole program. */
    method AnalyzeForms(asts: seq<Ast>) returns (ok: bool)
      modifies this
      ensures Valid() && ok == Accepted(asts)
      ensures scopeStack == [] && errors == AnalyzeProgram(asts).errors
      ensures OwnershipExactness.Vindicated(asts, ok) && OwnershipReports.Informed(asts, errors)
    {
      OwnershipExactness.VerdictHolds(asts);
      OwnershipReports.ReportsInform(asts);
      hasErrors, errors, scopeStack := false, multiset{}, [];
      PushScope(GlobalScope);
      AnalyzeList(asts);
      LeaveScope();
      ok := !hasErrors;
    }
  }
}
