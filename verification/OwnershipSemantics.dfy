/** What a program does with its values, independently of the analyzer.

    Every binding gets a location of its own. Running a program yields a trace of what happens
    to those locations; nothing is checked while it runs. A tape of booleans settles which
    operands the conditional forms evaluate, so a claim about every tape is a claim about every
    execution. */
module OwnershipSemantics {
  import opened OwnershipSyntax

  /** The location of one binding: a number no other binding has, the name bound and the depth
      of the frame that binds it. */
  datatype Loc = Loc(id: nat, name: string, depth: nat)

  /** `Left` marks the end of a scope and lists the owned locations bound in it. */
  datatype Event =
    | Read(loc: Loc)
    | Moved(loc: Loc)
    | Borrowed(loc: Loc)
    | Released(loc: Loc)
    | Left(owned: set<Loc>)

  type Trace = seq<Event>

  datatype Frame = Frame(vars: map<string, Loc>, owned: set<Loc>)

  datatype Run = Run(frames: seq<Frame>, next: nat, tape: seq<bool>, trace: Trace)

  // ---- What a trace must satisfy ----

  /** Loc is out on loan at the end of t. */
  predicate OnLoan(t: Trace, loc: Loc) {
    multiset(t)[Borrowed(loc)] > multiset(t)[Released(loc)]
  }

  /** The event may follow the history t. */
  predicate SafeAfter(t: Trace, event: Event) {
    match event
    case Read(loc) => Moved(loc) !in t
    case Moved(loc) => Moved(loc) !in t && !OnLoan(t, loc)
    case Borrowed(loc) => Moved(loc) !in t
    case Released(_) => true
    case Left(_) => true
  }

  /** No location is read, moved or borrowed after it was moved, nor moved while on loan. */
  predicate Safe(t: Trace) {
    forall i | 0 <= i < |t| :: SafeAfter(t[..i], t[i])
  }

  /** Every owned location was moved exactly once by the time its scope ended. */
  predicate Linear(t: Trace) {
    forall i, loc | 0 <= i < |t| && t[i].Left? && loc in t[i].owned ::
      multiset(t[..i])[Moved(loc)] == 1
  }

  // ---- Running a program ----

  /** The index of the innermost frame that holds x, or -1. */
  function FindFrame(frames: seq<Frame>, x: string): (k: int)
    ensures -1 <= k < |frames|
    ensures k >= 0 ==> x in frames[k].vars
    ensures forall j | k < j < |frames| :: x !in frames[j].vars
  {
    if frames == [] then -1
    else if x in frames[|frames| - 1].vars then |frames| - 1
    else FindFrame(frames[..|frames| - 1], x)
  }

  function Emit(c: Run, event: Event): Run {
    c.(trace := c.trace + [event])
  }

  /** A location is owned, and so must be moved before its scope ends, if it is bound to a new value,
      written `(owned ...)`, or to one taken from another location, written `(move ...)`. */
  predicate HoldsOwned(value: Ast) {
    match value
    case Owned(_) => true
    case Move(_) => true
    case _ => false
  }

  /** Bind x, in the innermost frame, to a location not used before. */
  function Bind(c: Run, x: string, owned: bool): Run
    requires c.frames != []
  {
    var top := |c.frames| - 1;
    var f, loc := c.frames[top], Loc(c.next, x, top);
    c.(frames := c.frames[top := Frame(f.vars[x := loc], if owned then f.owned + {loc} else f.owned)],
       next := c.next + 1)
  }

  function Enter(c: Run): Run {
    c.(frames := c.frames + [Frame(map[], {})])
  }

  function Exit(c: Run): Run
    requires c.frames != []
  {
    var top := |c.frames| - 1;
    Emit(c.(frames := c.frames[..top]), Left(c.frames[top].owned))
  }

  function Tail(c: Run): Run {
    if c.tape == [] then c else c.(tape := c.tape[1..])
  }

  predicate Head(c: Run) {
    c.tape != [] && c.tape[0]
  }

  /** Running one node. The unbound name is not an ownership matter and leaves no event. */
  function Exec(e: Ast, c: Run): (r: Run)
    requires c.frames != []
    ensures |r.frames| == |c.frames|
    decreases e, 1
  {
    match e
    case Literal => c
    case Var(x) =>
      var k := FindFrame(c.frames, x);
      if x == "" || k < 0 then c else Emit(c, Read(c.frames[k].vars[x]))
    case Cons(car, cdr) => Exec(cdr, Exec(car, c))
    case Define(name, isFunction, value) =>
      if isFunction then Bind(c, name, false)
      else Bind(Exec(value, c), name, HoldsOwned(value))
    case Owned(value) => Exec(value, c)
    case Move(value) =>
      var x := VarName(value);
      if x == "" then Exec(value, c) else
      var k := FindFrame(c.frames, x);
      if k < 0 then c else Emit(c, Moved(c.frames[k].vars[x]))
    case Borrow(value, body) =>
      var x := VarName(value);
      if x == "" then ExecAll(body, Exec(value, c)) else ExecBorrow(x, body, c)
    case Let(kind, bindings, inner) =>
      Exit(Exec(inner, ExecBindings(kind, bindings, Enter(c))))
    case Lambda(_, _) => c
    case Call(func, args) => ExecAll(args, Exec(func, c))
    case Branch(kind, func, args) =>
      if kind.Cond? then ExecClauses(args, ExecMaybe(func, c)) else ExecSome(args, ExecMaybe(func, c))
    case Sequence(body) => ExecAll(body, c)
    case WithRegion(body) => Exit(ExecAll(body, Enter(c)))
    case Wrapped(_, value) => Exec(value, c)
    case Quote(_) => c
    case Other(body) => ExecAll(body, c)
  }

  /** The body of a borrow runs while the variable, if it is bound, is on loan. */
  function ExecBorrow(x: string, body: seq<Ast>, c: Run): (r: Run)
    requires c.frames != []
    ensures |r.frames| == |c.frames|
    decreases body, 2
  {
    var k := FindFrame(c.frames, x);
    if k < 0 then ExecAll(body, c) else
    var loc := c.frames[k].vars[x];
    Emit(ExecAll(body, Emit(c, Borrowed(loc))), Released(loc))
  }

  function ExecAll(es: seq<Ast>, c: Run): (r: Run)
    requires c.frames != []
    ensures |r.frames| == |c.frames|
    decreases es, 1
  {
    if es == [] then c else ExecAll(es[1..], Exec(es[0], c))
  }

  /** The next boolean of the tape says whether e runs. */
  function ExecMaybe(e: Ast, c: Run): (r: Run)
    requires c.frames != []
    ensures |r.frames| == |c.frames|
    decreases e, 2
  {
    if Head(c) then Exec(e, Tail(c)) else Tail(c)
  }

  /** Any of the operands, in order: `if` runs its test and one arm, `and` and `or` a prefix. */
  function ExecSome(es: seq<Ast>, c: Run): (r: Run)
    requires c.frames != []
    ensures |r.frames| == |c.frames|
    decreases es, 1
  {
    if es == [] then c else ExecSome(es[1..], ExecMaybe(es[0], c))
  }

  /** A clause of `cond` is a call node whose head is the test: any part of it may run. */
  function ExecClause(e: Ast, c: Run): (r: Run)
    requires c.frames != []
    ensures |r.frames| == |c.frames|
    decreases e, 3
  {
    if e.Call? then ExecSome(e.args, ExecMaybe(e.func, c)) else ExecMaybe(e, c)
  }

  function ExecClauses(es: seq<Ast>, c: Run): (r: Run)
    requires c.frames != []
    ensures |r.frames| == |c.frames|
    decreases es, 1
  {
    if es == [] then c else ExecClauses(es[1..], ExecClause(es[0], c))
  }

  /** `let` binds after the last initializer, `let*` after each one, `letrec` before the first. */
  function ExecBindings(kind: LetKind, bs: seq<Ast>, c: Run): (r: Run)
    requires c.frames != []
    ensures |r.frames| == |c.frames|
    decreases bs, 2
  {
    match kind
    case Parallel => BindAll(bs, ExecValues(bs, c))
    case Sequential => ExecEach(bs, c)
    case Recursive => ExecValues(bs, BindAll(bs, c))
  }

  function BindOne(b: Ast, c: Run): (r: Run)
    requires c.frames != []
    ensures |r.frames| == |c.frames|
  {
    if b.Cons? && VarName(b.car) != "" then Bind(c, VarName(b.car), HoldsOwned(b.cdr)) else c
  }

  function BindAll(bs: seq<Ast>, c: Run): (r: Run)
    requires c.frames != []
    ensures |r.frames| == |c.frames|
  {
    if bs == [] then c else BindAll(bs[1..], BindOne(bs[0], c))
  }

  function ExecValue(b: Ast, c: Run): (r: Run)
    requires c.frames != []
    ensures |r.frames| == |c.frames|
    decreases b, 0
  {
    if b.Cons? then Exec(b.cdr, c) else c
  }

  function ExecValues(bs: seq<Ast>, c: Run): (r: Run)
    requires c.frames != []
    ensures |r.frames| == |c.frames|
    decreases bs, 1
  {
    if bs == [] then c else ExecValues(bs[1..], ExecValue(bs[0], c))
  }

  function ExecEach(bs: seq<Ast>, c: Run): (r: Run)
    requires c.frames != []
    ensures |r.frames| == |c.frames|
    decreases bs, 1
  {
    if bs == [] then c else ExecEach(bs[1..], BindOne(bs[0], ExecValue(bs[0], c)))
  }

  /** The trace of a whole program. The global scope is never left. */
  function TraceOf(es: seq<Ast>, tape: seq<bool>): Trace {
    ExecAll(es, Run([Frame(map[], {})], 0, tape, [])).trace
  }
}
