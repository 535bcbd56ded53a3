/** Exactness beyond straight-line programs: the analyzer reads a conditional form like a call, so
    it decides the run in which every operand is evaluated. */
module OwnershipBranches {
  import opened OwnershipSyntax
  import opened OwnershipAnalysis
  import opened OwnershipSemantics
  import opened OwnershipExactness

  /** e with every conditional form turned into a call. */
  function Unbranch(e: Ast): Ast
    decreases e
  {
    match e
    case Literal => e
    case Var(_) => e
    case Cons(car, cdr) => Cons(Unbranch(car), Unbranch(cdr))
    case Define(name, isFunction, value) => Define(name, isFunction, Unbranch(value))
    case Owned(value) => Owned(Unbranch(value))
    case Move(value) => Move(Unbranch(value))
    case Borrow(value, body) => Borrow(Unbranch(value), UnbranchAll(body))
    case Let(kind, bindings, inner) => Let(kind, UnbranchAll(bindings), Unbranch(inner))
    case Lambda(params, inner) => Lambda(params, Unbranch(inner))
    case Call(func, args) => Call(Unbranch(func), UnbranchAll(args))
    case Branch(_, func, args) => Call(Unbranch(func), UnbranchAll(args))
    case Sequence(body) => Sequence(UnbranchAll(body))
    case WithRegion(body) => WithRegion(UnbranchAll(body))
    case Wrapped(op, value) => Wrapped(op, Unbranch(value))
    case Quote(_) => e
    case Other(body) => Other(UnbranchAll(body))
  }

  function UnbranchAll(es: seq<Ast>): (r: seq<Ast>)
    ensures |r| == |es|
    decreases es
  {
    if es == [] then [] else [Unbranch(es[0])] + UnbranchAll(es[1..])
  }

  lemma UnbranchStep(es: seq<Ast>)
    requires es != []
    ensures UnbranchAll(es) != [] && UnbranchAll(es)[0] == Unbranch(es[0]) &&
            UnbranchAll(es)[1..] == UnbranchAll(es[1..])
  {
  }

  // ---- The analysis is the same ----

  lemma {:induction false} AnalyzeSame(e: Ast, a: State)
    requires a.scopes != []
    ensures Analyze(Unbranch(e), a) == Analyze(e, a)
    decreases e, 1
  {
    match e
    case Cons(car, cdr) =>
      AnalyzeSame(car, a);
      AnalyzeSame(cdr, Analyze(car, a));
    case Define(_, _, _) => AnalyzeDefineSame(e, a);
    case Owned(value) => AnalyzeSame(value, a);
    case Move(_) => AnalyzeMoveSame(e, a);
    case Borrow(_, _) => AnalyzeBorrowSame(e, a);
    case Let(_, _, _) => AnalyzeScopeSame(e, a);
    case Lambda(_, _) => AnalyzeScopeSame(e, a);
    case Call(func, args) =>
      AnalyzeSame(func, a);
      AnalyzeAllSame(args, Analyze(func, a));
    case Branch(_, func, args) =>
      AnalyzeSame(func, a);
      AnalyzeAllSame(args, Analyze(func, a));
    case Sequence(body) => AnalyzeAllSame(body, a);
    case WithRegion(body) => AnalyzeAllSame(body, Push(a, RegionScope));
    case Wrapped(_, value) => AnalyzeSame(value, a);
    case _ =>
  }

  lemma {:induction false} AnalyzeDefineSame(e: Ast, a: State)
    requires e.Define? && a.scopes != []
    ensures Analyze(Unbranch(e), a) == Analyze(e, a)
    decreases e, 0
  {
    if e.name != "" {
      AnalyzeSame(e.value, Register(a, e.name, e.value));
    }
  }

  lemma {:induction false} AnalyzeMoveSame(e: Ast, a: State)
    requires e.Move? && a.scopes != []
    ensures Analyze(Unbranch(e), a) == Analyze(e, a)
    decreases e, 0
  {
    AnalyzeSame(e.value, a);
  }

  lemma {:induction false} AnalyzeBorrowSame(e: Ast, a: State)
    requires e.Borrow? && a.scopes != []
    ensures Analyze(Unbranch(e), a) == Analyze(e, a)
    decreases e, 0
  {
    var x := VarName(e.value);
    assert VarName(Unbranch(e.value)) == x;
    AnalyzeAllSame(e.body, if x == "" then a else StartBorrow(x, a));
  }

  lemma {:induction false} AnalyzeScopeSame(e: Ast, a: State)
    requires (e.Let? || e.Lambda?) && a.scopes != []
    ensures Analyze(Unbranch(e), a) == Analyze(e, a)
    decreases e, 0
  {
    if e.Let? {
      var p := Push(a, ScopeFor(e.kind));
      AnalyzeBindingsSame(e.kind, e.bindings, p);
      AnalyzeSame(e.inner, AnalyzeBindings(e.kind, e.bindings, p));
    } else {
      AnalyzeSame(e.inner, RegisterParams(e.params, Push(a, LambdaScope)));
    }
  }

  lemma {:induction false} AnalyzeAllSame(es: seq<Ast>, a: State)
    requires a.scopes != []
    ensures AnalyzeAll(UnbranchAll(es), a) == AnalyzeAll(es, a)
    decreases es, 1
  {
    if es == [] {
    } else {
      UnbranchStep(es);
      AnalyzeSame(es[0], a);
      AnalyzeAllSame(es[1..], Analyze(es[0], a));
    }
  }

  lemma RegisterSame(b: Ast, a: State)
    requires a.scopes != []
    ensures RegisterBinding(Unbranch(b), a) == RegisterBinding(b, a)
  {
  }

  lemma {:induction false} RegisterAllSame(bs: seq<Ast>, a: State)
    requires a.scopes != []
    ensures RegisterAll(UnbranchAll(bs), a) == RegisterAll(bs, a)
  {
    if bs == [] {
    } else {
      UnbranchStep(bs);
      RegisterSame(bs[0], a);
      RegisterAllSame(bs[1..], RegisterBinding(bs[0], a));
    }
  }

  lemma {:induction false} AnalyzeValueSame(b: Ast, a: State)
    requires a.scopes != []
    ensures AnalyzeValue(Unbranch(b), a) == AnalyzeValue(b, a)
    decreases b, 0
  {
    if b.Cons? {
      AnalyzeSame(b.cdr, a);
    }
  }

  lemma {:induction false} AnalyzeValuesSame(bs: seq<Ast>, a: State)
    requires a.scopes != []
    ensures AnalyzeValues(UnbranchAll(bs), a) == AnalyzeValues(bs, a)
    decreases bs, 1
  {
    if bs == [] {
    } else {
      UnbranchStep(bs);
      AnalyzeValueSame(bs[0], a);
      AnalyzeValuesSame(bs[1..], AnalyzeValue(bs[0], a));
    }
  }

  lemma {:induction false} AnalyzeEachSame(bs: seq<Ast>, a: State)
    requires a.scopes != []
    ensures AnalyzeEach(UnbranchAll(bs), a) == AnalyzeEach(bs, a)
    decreases bs, 1
  {
    if bs == [] {
    } else {
      UnbranchStep(bs);
      RegisterSame(bs[0], a);
      AnalyzeValueSame(bs[0], RegisterBinding(bs[0], a));
      AnalyzeEachSame(bs[1..], AnalyzeValue(bs[0], RegisterBinding(bs[0], a)));
    }
  }

  lemma {:induction false} AnalyzeBindingsSame(kind: LetKind, bs: seq<Ast>, a: State)
    requires a.scopes != []
    ensures AnalyzeBindings(kind, UnbranchAll(bs), a) == AnalyzeBindings(kind, bs, a)
    decreases bs, 2
  {
    if kind.Recursive? {
      RegisterAllSame(bs, a);
      AnalyzeValuesSame(bs, RegisterAll(bs, a));
    } else {
      AnalyzeEachSame(bs, a);
    }
  }

  // ---- The run in which every operand is evaluated ----

  /** How much of the tape a node reads when everything runs. */
  function Reads(e: Ast): nat
    decreases e, 1
  {
    match e
    case Cons(car, cdr) => Reads(car) + Reads(cdr)
    case Define(_, isFunction, value) => if isFunction then 0 else Reads(value)
    case Owned(value) => Reads(value)
    case Move(value) => if VarName(value) == "" then Reads(value) else 0
    case Borrow(value, body) => (if VarName(value) == "" then Reads(value) else 0) + ReadsAll(body)
    case Let(_, bindings, inner) => ReadsValues(bindings) + Reads(inner)
    case Call(func, args) => Reads(func) + ReadsAll(args)
    case Branch(kind, func, args) => 1 + Reads(func) + (if kind.Cond? then ReadsClauses(args) else ReadsSome(args))
    case Sequence(body) => ReadsAll(body)
    case WithRegion(body) => ReadsAll(body)
    case Wrapped(_, value) => Reads(value)
    case Other(body) => ReadsAll(body)
    case Literal => 0
    case Var(_) => 0
    case Lambda(_, _) => 0
    case Quote(_) => 0
  }

  function ReadsAll(es: seq<Ast>): nat
    decreases es, 1
  {
    if es == [] then 0 else Reads(es[0]) + ReadsAll(es[1..])
  }

  function ReadsSome(es: seq<Ast>): nat
    decreases es, 1
  {
    if es == [] then 0 else 1 + Reads(es[0]) + ReadsSome(es[1..])
  }

  function ReadsClause(e: Ast): nat
    decreases e, 2
  {
    if e.Call? then 1 + Reads(e.func) + ReadsSome(e.args) else 1 + Reads(e)
  }

  function ReadsClauses(es: seq<Ast>): nat
    decreases es, 1
  {
    if es == [] then 0 else ReadsClause(es[0]) + ReadsClauses(es[1..])
  }

  function ReadsValue(b: Ast): nat
    decreases b, 0
  {
    if b.Cons? then Reads(b.cdr) else 0
  }

  function ReadsValues(bs: seq<Ast>): nat
    decreases bs, 1
  {
    if bs == [] then 0 else ReadsValue(bs[0]) + ReadsValues(bs[1..])
  }

  /** A tape that evaluates the next n operands. */
  predicate Full(tape: seq<bool>, n: nat) {
    |tape| >= n && forall i | 0 <= i < |tape| :: tape[i]
  }

  /** The run without its tape. */
  function Bare(c: Run): Run {
    c.(tape := [])
  }

  /** Running something that reads n of the tape went as running d did without one. */
  predicate Ran(c: Run, r: Run, n: nat, d: Run)
    requires n <= |c.tape|
  {
    Bare(r) == d && r.tape == c.tape[n..]
  }

  lemma FullRest(tape: seq<bool>, m: nat, n: nat)
    requires Full(tape, m + n)
    ensures Full(tape, m) && Full(tape[m..], n) && tape[m..][n..] == tape[m + n..]
  {
  }

  lemma {:induction false} ExecFull(e: Ast, c: Run)
    requires c.frames != [] && Full(c.tape, Reads(e))
    ensures Ran(c, Exec(e, c), Reads(e), Exec(Unbranch(e), Bare(c)))
    decreases e, 1
  {
    match e
    case Cons(_, _) => ExecTwoFull(e, c);
    case Define(_, _, _) => ExecDefineFull(e, c);
    case Owned(value) => ExecFull(value, c);
    case Move(_) => ExecMoveFull(e, c);
    case Borrow(_, _) => ExecBorrowFull(e, c);
    case Let(_, _, _) => ExecLetFull(e, c);
    case Call(_, _) => ExecCallFull(e, c);
    case Branch(_, _, _) => ExecBranchFull(e, c);
    case Sequence(body) => ExecAllFull(body, c);
    case WithRegion(body) => ExecAllFull(body, Enter(c));
    case Wrapped(_, value) => ExecFull(value, c);
    case Other(body) => ExecAllFull(body, c);
    case _ =>
  }

  lemma {:induction false} ExecTwoFull(e: Ast, c: Run)
    requires e.Cons? && c.frames != [] && Full(c.tape, Reads(e))
    ensures Ran(c, Exec(e, c), Reads(e), Exec(Unbranch(e), Bare(c)))
    decreases e, 0
  {
    FullRest(c.tape, Reads(e.car), Reads(e.cdr));
    ExecFull(e.car, c);
    ExecFull(e.cdr, Exec(e.car, c));
  }

  lemma {:induction false} ExecDefineFull(e: Ast, c: Run)
    requires e.Define? && c.frames != [] && Full(c.tape, Reads(e))
    ensures Ran(c, Exec(e, c), Reads(e), Exec(Unbranch(e), Bare(c)))
    decreases e, 0
  {
    if !e.isFunction {
      ExecFull(e.value, c);
    }
  }

  lemma {:induction false} ExecMoveFull(e: Ast, c: Run)
    requires e.Move? && c.frames != [] && Full(c.tape, Reads(e))
    ensures Ran(c, Exec(e, c), Reads(e), Exec(Unbranch(e), Bare(c)))
    decreases e, 0
  {
    if VarName(e.value) == "" {
      ExecFull(e.value, c);
    }
  }

  lemma {:induction false} ExecLetFull(e: Ast, c: Run)
    requires e.Let? && c.frames != [] && Full(c.tape, Reads(e))
    ensures Ran(c, Exec(e, c), Reads(e), Exec(Unbranch(e), Bare(c)))
    decreases e, 0
  {
    FullRest(c.tape, ReadsValues(e.bindings), Reads(e.inner));
    ExecBindingsFull(e.kind, e.bindings, Enter(c));
    ExecFull(e.inner, ExecBindings(e.kind, e.bindings, Enter(c)));
  }

  lemma {:induction false} ExecCallFull(e: Ast, c: Run)
    requires e.Call? && c.frames != [] && Full(c.tape, Reads(e))
    ensures Ran(c, Exec(e, c), Reads(e), Exec(Unbranch(e), Bare(c)))
    decreases e, 0
  {
    FullRest(c.tape, Reads(e.func), ReadsAll(e.args));
    ExecFull(e.func, c);
    ExecAllFull(e.args, Exec(e.func, c));
  }

  lemma {:induction false} ExecBorrowFull(e: Ast, c: Run)
    requires e.Borrow? && c.frames != [] && Full(c.tape, Reads(e))
    ensures Ran(c, Exec(e, c), Reads(e), Exec(Unbranch(e), Bare(c)))
    decreases e, 0
  {
    var x := VarName(e.value);
    if x == "" {
      FullRest(c.tape, Reads(e.value), ReadsAll(e.body));
      ExecFull(e.value, c);
      ExecAllFull(e.body, Exec(e.value, c));
    } else {
      var k := FindFrame(c.frames, x);
      ExecAllFull(e.body, if k < 0 then c else Emit(c, Borrowed(c.frames[k].vars[x])));
    }
  }

  lemma {:induction false} ExecAllFull(es: seq<Ast>, c: Run)
    requires c.frames != [] && Full(c.tape, ReadsAll(es))
    ensures Ran(c, ExecAll(es, c), ReadsAll(es), ExecAll(UnbranchAll(es), Bare(c)))
    decreases es, 1
  {
    if es == [] {
    } else {
      UnbranchStep(es);
      FullRest(c.tape, Reads(es[0]), ReadsAll(es[1..]));
      ExecFull(es[0], c);
      ExecAllFull(es[1..], Exec(es[0], c));
    }
  }

  lemma {:induction false} ExecMaybeFull(e: Ast, c: Run)
    requires c.frames != [] && Full(c.tape, 1 + Reads(e))
    ensures Ran(c, ExecMaybe(e, c), 1 + Reads(e), Exec(Unbranch(e), Bare(c)))
    decreases e, 2
  {
    FullRest(c.tape, 1, Reads(e));
    ExecFull(e, Tail(c));
  }

  lemma {:induction false} ExecSomeFull(es: seq<Ast>, c: Run)
    requires c.frames != [] && Full(c.tape, ReadsSome(es))
    ensures Ran(c, ExecSome(es, c), ReadsSome(es), ExecAll(UnbranchAll(es), Bare(c)))
    decreases es, 1
  {
    if es == [] {
    } else {
      UnbranchStep(es);
      FullRest(c.tape, 1 + Reads(es[0]), ReadsSome(es[1..]));
      ExecMaybeFull(es[0], c);
      ExecSomeFull(es[1..], ExecMaybe(es[0], c));
    }
  }

  lemma {:induction false} ExecClauseFull(e: Ast, c: Run)
    requires c.frames != [] && Full(c.tape, ReadsClause(e))
    ensures Ran(c, ExecClause(e, c), ReadsClause(e), Exec(Unbranch(e), Bare(c)))
    decreases e, 3
  {
    if e.Call? {
      ExecOperandsFull(e.func, e.args, e, c);
      assert Exec(Unbranch(e), Bare(c)) == ExecAll(UnbranchAll(e.args), Exec(Unbranch(e.func), Bare(c)));
    } else {
      ExecMaybeFull(e, c);
    }
  }

  lemma {:induction false} ExecOperandsFull(func: Ast, args: seq<Ast>, e: Ast, c: Run)
    requires e == Call(func, args) && c.frames != [] && Full(c.tape, 1 + Reads(func) + ReadsSome(args))
    ensures Ran(c, ExecSome(args, ExecMaybe(func, c)), 1 + Reads(func) + ReadsSome(args),
                ExecAll(UnbranchAll(args), Exec(Unbranch(func), Bare(c))))
    decreases e, 2
  {
    FullRest(c.tape, 1 + Reads(func), ReadsSome(args));
    ExecMaybeFull(func, c);
    ExecSomeFull(args, ExecMaybe(func, c));
  }

  lemma {:induction false} ExecClausesFull(es: seq<Ast>, c: Run)
    requires c.frames != [] && Full(c.tape, ReadsClauses(es))
    ensures Ran(c, ExecClauses(es, c), ReadsClauses(es), ExecAll(UnbranchAll(es), Bare(c)))
    decreases es, 1
  {
    if es == [] {
    } else {
      UnbranchStep(es);
      FullRest(c.tape, ReadsClause(es[0]), ReadsClauses(es[1..]));
      ExecClauseFull(es[0], c);
      ExecClausesFull(es[1..], ExecClause(es[0], c));
    }
  }

  lemma {:induction false} ExecBranchFull(e: Ast, c: Run)
    requires e.Branch? && c.frames != [] && Full(c.tape, Reads(e))
    ensures Ran(c, Exec(e, c), Reads(e), Exec(Unbranch(e), Bare(c)))
    decreases e, 0
  {
    var d := ExecMaybe(e.func, c);
    if e.branch.Cond? {
      FullRest(c.tape, 1 + Reads(e.func), ReadsClauses(e.args));
      ExecMaybeFull(e.func, c);
      ExecClausesFull(e.args, d);
    } else {
      FullRest(c.tape, 1 + Reads(e.func), ReadsSome(e.args));
      ExecMaybeFull(e.func, c);
      ExecSomeFull(e.args, d);
    }
  }

  lemma BindOneBare(b: Ast, c: Run)
    requires c.frames != []
    ensures Bare(BindOne(b, c)) == BindOne(Unbranch(b), Bare(c)) && BindOne(b, c).tape == c.tape
  {
  }

  lemma {:induction false} BindAllBare(bs: seq<Ast>, c: Run)
    requires c.frames != []
    ensures Bare(BindAll(bs, c)) == BindAll(UnbranchAll(bs), Bare(c)) && BindAll(bs, c).tape == c.tape
  {
    if bs == [] {
    } else {
      UnbranchStep(bs);
      BindOneBare(bs[0], c);
      BindAllBare(bs[1..], BindOne(bs[0], c));
    }
  }

  lemma {:induction false} ExecValueFull(b: Ast, c: Run)
    requires c.frames != [] && Full(c.tape, ReadsValue(b))
    ensures Ran(c, ExecValue(b, c), ReadsValue(b), ExecValue(Unbranch(b), Bare(c)))
    decreases b, 0
  {
    if b.Cons? {
      ExecFull(b.cdr, c);
    }
  }

  lemma {:induction false} ExecValuesFull(bs: seq<Ast>, c: Run)
    requires c.frames != [] && Full(c.tape, ReadsValues(bs))
    ensures Ran(c, ExecValues(bs, c), ReadsValues(bs), ExecValues(UnbranchAll(bs), Bare(c)))
    decreases bs, 1
  {
    if bs == [] {
    } else {
      UnbranchStep(bs);
      FullRest(c.tape, ReadsValue(bs[0]), ReadsValues(bs[1..]));
      ExecValueFull(bs[0], c);
      ExecValuesFull(bs[1..], ExecValue(bs[0], c));
    }
  }

  lemma {:induction false} ExecEachFull(bs: seq<Ast>, c: Run)
    requires c.frames != [] && Full(c.tape, ReadsValues(bs))
    ensures Ran(c, ExecEach(bs, c), ReadsValues(bs), ExecEach(UnbranchAll(bs), Bare(c)))
    decreases bs, 1
  {
    if bs == [] {
    } else {
      var d := ExecValue(bs[0], c);
      UnbranchStep(bs);
      FullRest(c.tape, ReadsValue(bs[0]), ReadsValues(bs[1..]));
      ExecValueFull(bs[0], c);
      BindOneBare(bs[0], d);
      ExecEachFull(bs[1..], BindOne(bs[0], d));
    }
  }

  lemma {:induction false} ExecBindingsFull(kind: LetKind, bs: seq<Ast>, c: Run)
    requires c.frames != [] && Full(c.tape, ReadsValues(bs))
    ensures Ran(c, ExecBindings(kind, bs, c), ReadsValues(bs), ExecBindings(kind, UnbranchAll(bs), Bare(c)))
    decreases bs, 2
  {
    match kind
    case Parallel =>
      ExecValuesFull(bs, c);
      BindAllBare(bs, ExecValues(bs, c));
    case Sequential => ExecEachFull(bs, c);
    case Recursive =>
      BindAllBare(bs, c);
      ExecValuesFull(bs, BindAll(bs, c));
  }

  lemma TraceFull(es: seq<Ast>, tape: seq<bool>)
    requires Full(tape, ReadsAll(es))
    ensures TraceOf(es, tape) == TraceOf(UnbranchAll(es), [])
  {
    ExecAllFull(es, Run([Frame(map[], {})], 0, tape, []));
  }

  lemma AcceptedSame(es: seq<Ast>)
    ensures Accepted(UnbranchAll(es)) <==> Accepted(es)
  {
    AnalyzeAllSame(es, Push(State([], multiset{}), GlobalScope));
  }

  /** Exactness for programs with conditionals. A program that is straight-line and of the fragment
      once its conditionals are read as calls is accepted if and only if the run that evaluates
      every operand is safe and linear. */
  lemma AcceptedIffFullRunFine(es: seq<Ast>, tape: seq<bool>)
    requires var p := UnbranchAll(es); AllInFragment(p, {}) && AllStraight(p) && AllUnshadowed(p, {})
    requires Full(tape, ReadsAll(es))
    ensures Accepted(es) <==> Safe(TraceOf(es, tape)) && Linear(TraceOf(es, tape))
  {
    TraceFull(es, tape);
    AcceptedSame(es);
    AcceptedIffFine(UnbranchAll(es), []);
  }
}
