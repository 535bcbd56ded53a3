/** The part of the abstract syntax tree that the ownership analyzer inspects, and the
    fragment of it on which the analyzer is proved sound. */
module OwnershipSyntax {

  /** How a conditional form picks the operands it evaluates. */
  datatype BranchKind = If | Cond | And | Or

  /** `let`, `let*` and `letrec`. */
  datatype LetKind = Parallel | Sequential | Recursive

  /** `shared`, `weak-ref` and `set!`: operations that only evaluate their value here. */
  datatype Wrapper = Shared | WeakRef | SetTo(name: string)

  /** `Literal` also stands for a null child. A binding of a `Let` is a `Cons` cell holding
      the binder and its initializer. `Other` is any operation without a case of its own. */
  datatype Ast =
    | Literal
    | Var(id: string)
    | Cons(car: Ast, cdr: Ast)
    | Define(name: string, isFunction: bool, value: Ast)
    | Owned(value: Ast)
    | Move(value: Ast)
    | Borrow(value: Ast, body: seq<Ast>)
    | Let(kind: LetKind, bindings: seq<Ast>, inner: Ast)
    | Lambda(params: seq<Ast>, inner: Ast)
    | Call(func: Ast, args: seq<Ast>)
    | Branch(branch: BranchKind, func: Ast, args: seq<Ast>)
    | Sequence(body: seq<Ast>)
    | WithRegion(body: seq<Ast>)
    | Wrapped(op: Wrapper, value: Ast)
    | Quote(datum: Ast)
    | Other(body: seq<Ast>)

  /** The name of a variable node, empty for every other node. */
  function VarName(e: Ast): string {
    if e.Var? then e.id else ""
  }

  /** x occurs in e, as a use or as a binder, outside quoted data. */
  predicate Mentions(e: Ast, x: string)
    decreases e
  {
    match e
    case Literal => false
    case Var(id) => id == x
    case Cons(car, cdr) => Mentions(car, x) || Mentions(cdr, x)
    case Define(name, _, value) => name == x || Mentions(value, x)
    case Owned(value) => Mentions(value, x)
    case Move(value) => Mentions(value, x)
    case Borrow(value, body) => Mentions(value, x) || MentionsAny(body, x)
    case Let(_, bindings, inner) => MentionsAny(bindings, x) || Mentions(inner, x)
    case Lambda(params, inner) => MentionsAny(params, x) || Mentions(inner, x)
    case Call(func, args) => Mentions(func, x) || MentionsAny(args, x)
    case Branch(_, func, args) => Mentions(func, x) || MentionsAny(args, x)
    case Sequence(body) => MentionsAny(body, x)
    case WithRegion(body) => MentionsAny(body, x)
    case Wrapped(_, value) => Mentions(value, x)
    case Quote(_) => false
    case Other(body) => MentionsAny(body, x)
  }

  predicate MentionsAny(es: seq<Ast>, x: string)
    decreases es
  {
    es != [] && (Mentions(es[0], x) || MentionsAny(es[1..], x))
  }

  /** The names e defines in the scope it is evaluated in; a nested scope keeps its own. */
  function Defined(e: Ast): set<string>
    decreases e
  {
    match e
    case Cons(car, cdr) => Defined(car) + Defined(cdr)
    case Define(name, _, value) => {name} + Defined(value)
    case Owned(value) => Defined(value)
    case Move(value) => Defined(value)
    case Borrow(value, body) => Defined(value) + DefinedBy(body)
    case Call(func, args) => Defined(func) + DefinedBy(args)
    case Branch(_, func, args) => Defined(func) + DefinedBy(args)
    case Sequence(body) => DefinedBy(body)
    case Wrapped(_, value) => Defined(value)
    case Other(body) => DefinedBy(body)
    case Literal => {}
    case Var(_) => {}
    case Let(_, _, _) => {}
    case Lambda(_, _) => {}
    case WithRegion(_) => {}
    case Quote(_) => {}
  }

  function DefinedBy(es: seq<Ast>): set<string>
    decreases es
  {
    if es == [] then {} else Defined(es[0]) + DefinedBy(es[1..])
  }

  /** What the soundness results ask of a program. `open` holds the names borrowed by the
      enclosing borrow forms of the same scope. Shadowing and redefinition are allowed. */
  predicate InFragment(e: Ast, open: set<string>)
    decreases e
  {
    match e
    case Literal => true
    case Var(_) => true
    case Cons(car, cdr) => InFragment(car, open) && InFragment(cdr, open)
    case Define(name, isFunction, value) =>
      name != "" && !isFunction && InFragment(value, open) && !Mentions(value, name)
    case Owned(value) => InFragment(value, open)
    case Move(value) => InFragment(value, open)
    case Borrow(value, body) =>
      var x := VarName(value);
      x != "" && x !in open && AllInFragment(body, open + {x})
    case Let(kind, bindings, inner) =>
      && InFragment(inner, {})
      && BindingsInFragment(bindings)
      && (kind.Parallel? ==> NoEarlierBinder(bindings, {}))
      && (kind.Sequential? ==> NoOwnBinder(bindings))
    case Lambda(_, _) => false
    case Call(func, args) => InFragment(func, open) && AllInFragment(args, open)
    case Branch(_, func, args) =>
      && InFragment(func, open) && AllInFragment(args, open)
      && Defined(func) == {} && DefinedBy(args) == {}
    case Sequence(body) => AllInFragment(body, open)
    case WithRegion(body) => AllInFragment(body, {})
    case Wrapped(_, value) => InFragment(value, open)
    case Quote(_) => true
    case Other(_) => false
  }

  predicate AllInFragment(es: seq<Ast>, open: set<string>)
    decreases es
  {
    es == [] || (InFragment(es[0], open) && AllInFragment(es[1..], open))
  }

  predicate BindingsInFragment(bs: seq<Ast>)
    decreases bs
  {
    bs == [] || (BindingInFragment(bs[0]) && BindingsInFragment(bs[1..]))
  }

  predicate BindingInFragment(b: Ast)
    decreases b, 0
  {
    b.Cons? && VarName(b.car) != "" && InFragment(b.cdr, {})
  }

  /** No initializer of a `let*` mentions the variable it initializes. */
  predicate NoOwnBinder(bs: seq<Ast>) {
    bs == [] ||
    ((bs[0].Cons? ==> !Mentions(bs[0].cdr, VarName(bs[0].car))) && NoOwnBinder(bs[1..]))
  }

  /** No initializer of a `let` mentions its own variable or an earlier one. */
  predicate NoEarlierBinder(bs: seq<Ast>, seen: set<string>) {
    bs == [] ||
    (var here := if bs[0].Cons? then seen + {VarName(bs[0].car)} else seen;
     && (bs[0].Cons? ==> forall x | x in here :: !Mentions(bs[0].cdr, x))
     && NoEarlierBinder(bs[1..], here))
  }

  /** e has no conditional form, and no scope inside it defines a name twice. */
  predicate Straight(e: Ast)
    decreases e
  {
    match e
    case Literal => true
    case Var(_) => true
    case Cons(car, cdr) => Straight(car) && Straight(cdr) && Defined(car) !! Defined(cdr)
    case Define(name, _, value) => name !in Defined(value) && Straight(value)
    case Owned(value) => Straight(value)
    case Move(value) => Straight(value)
    case Borrow(_, body) => AllStraight(body)
    case Let(_, bindings, inner) =>
      AllStraight(bindings) && Straight(inner) && BindersStraight(bindings)
      && Defined(inner) !! BindingNames(bindings)
    case Lambda(_, _) => true
    case Call(func, args) => Straight(func) && AllStraight(args) && Defined(func) !! DefinedBy(args)
    case Branch(_, _, _) => false
    case Sequence(body) => AllStraight(body)
    case WithRegion(body) => AllStraight(body)
    case Wrapped(_, value) => Straight(value)
    case Quote(_) => true
    case Other(_) => true
  }

  predicate AllStraight(es: seq<Ast>)
    decreases es
  {
    es == [] || (Straight(es[0]) && AllStraight(es[1..]) && Defined(es[0]) !! DefinedBy(es[1..]))
  }

  /** The variables some bindings bind. */
  function BinderNames(bs: seq<Ast>): set<string> {
    if bs == [] then {} else
    (if bs[0].Cons? then {VarName(bs[0].car)} else {}) + BinderNames(bs[1..])
  }

  /** The names their initializers define. */
  function ValueNames(bs: seq<Ast>): set<string> {
    if bs == [] then {} else
    (if bs[0].Cons? then Defined(bs[0].cdr) else {}) + ValueNames(bs[1..])
  }

  function BindingNames(bs: seq<Ast>): set<string> {
    BinderNames(bs) + ValueNames(bs)
  }

  predicate BindersStraight(bs: seq<Ast>) {
    bs == [] ||
    (&& BindersStraight(bs[1..])
     && (bs[0].Cons? ==>
           && VarName(bs[0].car) !in Defined(bs[0].cdr)
           && ({VarName(bs[0].car)} + Defined(bs[0].cdr)) !! BindingNames(bs[1..])))
  }
}
