/** Renaming preserves meaning: an evaluator for the expressions the renamers walk, and a proof
    that a lexically renamed module computes the renamed results, closures included. */
module RenamingSemantics {
  import opened Renaming

  datatype Primitive = Add | Less | IsEq | IsProcedure

  /** Local names to cells of the store. */
  type Env = map<string, nat>

  datatype Value =
    | Int(n: int)
    | Bool(b: bool)
    | Data(datum: Datum)
    | Unspecified
    | Builtin(op: Primitive)
    | Closure(params: seq<string>, body: Expr, env: Env)

  /** Module-level variables by name, local variables by cell. */
  datatype Store = Store(globals: map<string, Value>, cells: seq<Value>)

  datatype Outcome<T> = Ok(value: T, store: Store) | Stuck | OutOfFuel

  /** env with the names bound to consecutive cells from `base` on. */
  function Extend(env: Env, names: seq<string>, base: nat): (r: Env)
    ensures r.Keys == env.Keys + Elements(names)
    decreases names
  {
    if names == [] then env
    else
      assert Elements(names) == {names[0]} + Elements(names[1..]);
      Extend(env[names[0] := base], names[1..], base + 1)
  }

  function ApplyPrimitive(op: Primitive, args: seq<Value>): Outcome<Value> {
    var noStore := Store(map[], []);
    match op
    case Add => if |args| == 2 && args[0].Int? && args[1].Int? then Ok(Int(args[0].n + args[1].n), noStore) else Stuck
    case Less => if |args| == 2 && args[0].Int? && args[1].Int? then Ok(Bool(args[0].n < args[1].n), noStore) else Stuck
    case IsEq =>
      if |args| == 2 && !args[0].Closure? && !args[1].Closure? then Ok(Bool(args[0] == args[1]), noStore) else Stuck
    case IsProcedure => if |args| == 1 then Ok(Bool(args[0].Closure? || args[0].Builtin?), noStore) else Stuck
  }

  /** Evaluation. Fuel bounds the depth of closure calls. */
  function Eval(e: Expr, env: Env, st: Store, fuel: nat): Outcome<Value>
    decreases fuel, 1, e, 2
  {
    match e
    case Const(n) => Ok(Int(n), st)
    case Var(x) => Lookup(x, env, st)
    case Quote(d) => Ok(Data(d), st)
    case If(test, yes, no) =>
      var t := Eval(test, env, st, fuel);
      if !t.Ok? then t
      else if t.value == Bool(false) then Eval(no, env, t.store, fuel)
      else Eval(yes, env, t.store, fuel)
    case Sequence(exprs) =>
      var r := EvalList(exprs, env, st, fuel);
      if !r.Ok? then Failed(r) else Ok(if r.value == [] then Unspecified else r.value[|r.value| - 1], r.store)
    case Call(func, args) =>
      var f := Eval(func, env, st, fuel);
      if !f.Ok? then f else
      var r := EvalList(args, env, f.store, fuel);
      if !r.Ok? then Failed(r) else Apply(f.value, r.value, r.store, fuel)
    case Lambda(params, body) => Ok(Closure(params, body, env), st)
    case Let(kind, names, values, body) =>
      if |names| != |values| then Stuck else
      var r := EvalBindings(kind, names, values, env, st, fuel);
      if !r.Ok? then Failed(r) else Eval(body, r.value, r.store, fuel)
    case Set(x, value) =>
      var v := Eval(value, env, st, fuel);
      if !v.Ok? then v else Assign(x, v.value, env, v.store)
  }

  function Failed<T, U>(r: Outcome<T>): Outcome<U>
    requires !r.Ok?
  {
    if r.Stuck? then Stuck else OutOfFuel
  }

  function Lookup(x: string, env: Env, st: Store): Outcome<Value> {
    if x in env then (if env[x] < |st.cells| then Ok(st.cells[env[x]], st) else Stuck)
    else if x in st.globals then Ok(st.globals[x], st)
    else Stuck
  }

  function Assign(x: string, v: Value, env: Env, st: Store): Outcome<Value> {
    if x in env then
      if env[x] < |st.cells| then Ok(Unspecified, st.(cells := st.cells[env[x] := v])) else Stuck
    else if x in st.globals then Ok(Unspecified, st.(globals := st.globals[x := v]))
    else Stuck
  }

  function EvalList(es: seq<Expr>, env: Env, st: Store, fuel: nat): Outcome<seq<Value>>
    decreases fuel, 1, es, 1
  {
    if es == [] then Ok([], st)
    else
      var v := Eval(es[0], env, st, fuel);
      if !v.Ok? then Failed(v) else
      Cons(v.value, EvalList(es[1..], env, v.store, fuel))
  }

  function Apply(f: Value, args: seq<Value>, st: Store, fuel: nat): Outcome<Value>
    decreases fuel, 0
  {
    match f
    case Builtin(op) =>
      var r := ApplyPrimitive(op, args);
      if r.Ok? then Ok(r.value, st) else r
    case Closure(params, body, env) =>
      if |params| != |args| then Stuck
      else if fuel == 0 then OutOfFuel
      else Eval(body, Extend(env, params, |st.cells|), st.(cells := st.cells + args), fuel - 1)
    case _ => Stuck
  }

  /** The environment of a let's body. */
  function EvalBindings(kind: LetKind, names: seq<string>, values: seq<Expr>, env: Env, st: Store,
                        fuel: nat): Outcome<Env>
    requires |names| == |values|
    decreases fuel, 1, values, 3
  {
    match kind
    case Parallel =>
      var r := EvalList(values, env, st, fuel);
      if !r.Ok? then Failed(r)
      else Ok(Extend(env, names, |r.store.cells|), r.store.(cells := r.store.cells + r.value))
    case Sequential => EvalEach(names, values, env, st, fuel)
    case Recursive =>
      var inner := Extend(env, names, |st.cells|);
      var blank := st.(cells := st.cells + seq(|names|, i => Unspecified));
      var r := FillCells(values, |st.cells|, inner, blank, fuel);
      if !r.Ok? then Failed(r) else Ok(inner, r.store)
  }

  function EvalEach(names: seq<string>, values: seq<Expr>, env: Env, st: Store, fuel: nat): Outcome<Env>
    requires |names| == |values|
    decreases fuel, 1, values, 1
  {
    if values == [] then Ok(env, st)
    else
      var v := Eval(values[0], env, st, fuel);
      if !v.Ok? then Failed(v) else
      EvalEach(names[1..], values[1..], env[names[0] := |v.store.cells|],
               v.store.(cells := v.store.cells + [v.value]), fuel)
  }

  function FillCells(values: seq<Expr>, at: nat, env: Env, st: Store, fuel: nat): Outcome<Value>
    decreases fuel, 1, values, 1
  {
    if values == [] then Ok(Unspecified, st)
    else
      var v := Eval(values[0], env, st, fuel);
      if !v.Ok? then v
      else if at >= |v.store.cells| then Stuck
      else FillCells(values[1..], at + 1, env, v.store.(cells := v.store.cells[at := v.value]), fuel)
  }

  /** Running a module: the values of its expression forms and the store it leaves. */
  function RunForms(fs: seq<Form>, st: Store, fuel: nat): Outcome<seq<Value>>
    decreases |fs|
  {
    if fs == [] then Ok([], st)
    else
      var v := RunForm(fs[0], st, fuel);
      if !v.Ok? then Failed(v) else
      Cons(v.value, RunForms(fs[1..], v.store, fuel))
  }

  function RunForm(f: Form, st: Store, fuel: nat): Outcome<Value> {
    match f
    case Define(name, value) =>
      var v := Eval(value, map[], st, fuel);
      if !v.Ok? then v else Ok(Unspecified, v.store.(globals := v.store.globals[name := v.value]))
    case DefineFunction(name, params, body) =>
      Ok(Unspecified, st.(globals := st.globals[name := Closure(params, body, map[])]))
    case Expression(expr) => Eval(expr, map[], st, fuel)
  }

  // ---- Renamed values and stores ----

  function Renamed(x: string, m: NameMap): string {
    if x in m then m[x] else x
  }

  /** A closure's body is renamed under its parameters and the names its environment binds. */
  function RenameValue(v: Value, m: NameMap): Value {
    match v
    case Closure(params, body, env) => Closure(params, Rename(Lexical, body, m, env.Keys + Elements(params)), env)
    case _ => v
  }

  function RenameValues(vs: seq<Value>, m: NameMap): (r: seq<Value>)
    ensures |r| == |vs| && forall i | 0 <= i < |vs| :: r[i] == RenameValue(vs[i], m)
  {
    seq(|vs|, i requires 0 <= i < |vs| => RenameValue(vs[i], m))
  }

  // ---- Programs that do not use mangled names ----

  predicate CleanNames(names: seq<string>, m: NameMap) {
    forall x | x in names :: x !in m.Values
  }

  predicate Clean(e: Expr, m: NameMap)
    decreases e
  {
    match e
    case Const(_) => true
    case Var(x) => x !in m.Values
    case Quote(_) => true
    case If(test, yes, no) => Clean(test, m) && Clean(yes, m) && Clean(no, m)
    case Sequence(exprs) => CleanList(exprs, m)
    case Call(func, args) => Clean(func, m) && CleanList(args, m)
    case Lambda(params, body) => CleanNames(params, m) && Clean(body, m)
    case Let(_, names, values, body) => CleanNames(names, m) && CleanList(values, m) && Clean(body, m)
    case Set(x, value) => x !in m.Values && Clean(value, m)
  }

  predicate CleanList(es: seq<Expr>, m: NameMap)
    decreases es
  {
    es == [] || (Clean(es[0], m) && CleanList(es[1..], m))
  }

  predicate CleanEnv(env: Env, m: NameMap) {
    forall x | x in env :: x !in m.Values
  }

  predicate CleanValue(v: Value, m: NameMap) {
    v.Closure? ==> CleanNames(v.params, m) && Clean(v.body, m) && CleanEnv(v.env, m)
  }

  predicate CleanStore(st: Store, m: NameMap) {
    && (forall i | 0 <= i < |st.cells| :: CleanValue(st.cells[i], m))
    && (forall x | x in st.globals && x !in m.Values :: CleanValue(st.globals[x], m))
  }

  /** t is st with private names and all values renamed; what t holds under names st cannot
      mention is left open. */
  ghost predicate SameStore(st: Store, t: Store, m: NameMap) {
    && CleanStore(st, m)
    && t.cells == RenameValues(st.cells, m)
    && (forall x | x !in m.Values :: x in st.globals <==> Renamed(x, m) in t.globals)
    && (forall x | x !in m.Values && x in st.globals :: t.globals[Renamed(x, m)] == RenameValue(st.globals[x], m))
  }

  /** The renamed program's outcome is the original's, renamed. */
  ghost predicate SameOutcome(r: Outcome<Value>, q: Outcome<Value>, m: NameMap) {
    match r
    case Ok(v, st) => q.Ok? && CleanValue(v, m) && q.value == RenameValue(v, m) && SameStore(st, q.store, m)
    case Stuck => q.Stuck?
    case OutOfFuel => q.OutOfFuel?
  }

  ghost predicate SameOutcomes(r: Outcome<seq<Value>>, q: Outcome<seq<Value>>, m: NameMap) {
    match r
    case Ok(vs, st) =>
      && q.Ok? && (forall i | 0 <= i < |vs| :: CleanValue(vs[i], m))
      && q.value == RenameValues(vs, m) && SameStore(st, q.store, m)
    case Stuck => q.Stuck?
    case OutOfFuel => q.OutOfFuel?
  }

  ghost predicate SameEnvs(r: Outcome<Env>, q: Outcome<Env>, m: NameMap, keys: set<string>) {
    match r
    case Ok(env, st) => q.Ok? && q.value == env && env.Keys == keys && CleanEnv(env, m) && SameStore(st, q.store, m)
    case Stuck => q.Stuck?
    case OutOfFuel => q.OutOfFuel?
  }

  // ---- Single operations ----

  /** Clean names stay apart. */
  lemma RenamedApart(x: string, y: string, m: NameMap)
    requires Injective(m) && x !in m.Values && y !in m.Values
    ensures Renamed(x, m) == Renamed(y, m) ==> x == y
  {
  }

  lemma LookupSame(x: string, env: Env, st: Store, t: Store, m: NameMap)
    requires x !in m.Values && CleanEnv(env, m) && SameStore(st, t, m)
    ensures SameOutcome(Lookup(x, env, st), Lookup(NewName(Lexical, x, m, env.Keys), env, t), m)
  {
    if x !in env && x in m {
      assert m[x] in m.Values;
    }
  }

  lemma SetGlobalSame(x: string, v: Value, st: Store, t: Store, m: NameMap)
    requires Injective(m) && x !in m.Values && CleanValue(v, m) && SameStore(st, t, m)
    ensures SameStore(st.(globals := st.globals[x := v]),
                      t.(globals := t.globals[Renamed(x, m) := RenameValue(v, m)]), m)
  {
    forall y | y !in m.Values ensures Renamed(y, m) == Renamed(x, m) ==> x == y {
      RenamedApart(x, y, m);
    }
  }

  lemma SetCellSame(i: nat, v: Value, st: Store, t: Store, m: NameMap)
    requires i < |st.cells| && CleanValue(v, m) && SameStore(st, t, m)
    ensures i < |t.cells|
    ensures SameStore(st.(cells := st.cells[i := v]), t.(cells := t.cells[i := RenameValue(v, m)]), m)
  {
  }

  lemma AssignSame(x: string, v: Value, env: Env, st: Store, t: Store, m: NameMap)
    requires Injective(m) && x !in m.Values && CleanEnv(env, m) && CleanValue(v, m) && SameStore(st, t, m)
    ensures SameOutcome(Assign(x, v, env, st), Assign(NewName(Lexical, x, m, env.Keys), RenameValue(v, m), env, t), m)
  {
    if x in env {
      if env[x] < |st.cells| { SetCellSame(env[x], v, st, t, m); }
    } else {
      if x in m { assert m[x] in m.Values; }
      if x in st.globals { SetGlobalSame(x, v, st, t, m); }
    }
  }

  lemma PushSame(vs: seq<Value>, st: Store, t: Store, m: NameMap)
    requires SameStore(st, t, m) && forall i | 0 <= i < |vs| :: CleanValue(vs[i], m)
    ensures SameStore(st.(cells := st.cells + vs), t.(cells := t.cells + RenameValues(vs, m)), m)
  {
    assert RenameValues(st.cells + vs, m) == RenameValues(st.cells, m) + RenameValues(vs, m);
  }

  /** v in front of a list of values. */
  function Cons(v: Value, r: Outcome<seq<Value>>): Outcome<seq<Value>> {
    if r.Ok? then Ok([v] + r.value, r.store) else r
  }

  lemma ConsSame(v: Value, r: Outcome<seq<Value>>, q: Outcome<seq<Value>>, m: NameMap)
    requires CleanValue(v, m) && SameOutcomes(r, q, m)
    ensures SameOutcomes(Cons(v, r), Cons(RenameValue(v, m), q), m)
  {
    if r.Ok? {
      assert RenameValues([v] + r.value, m) == [RenameValue(v, m)] + RenameValues(r.value, m);
    }
  }

  lemma ExtendClean(env: Env, names: seq<string>, base: nat, m: NameMap)
    requires CleanEnv(env, m) && CleanNames(names, m)
    ensures CleanEnv(Extend(env, names, base), m)
  {
  }

  lemma PrimitiveSame(op: Primitive, args: seq<Value>, m: NameMap)
    ensures var r, q := ApplyPrimitive(op, args), ApplyPrimitive(op, RenameValues(args, m));
            if r.Ok? then q.Ok? && q.value == r.value && RenameValue(r.value, m) == r.value && !r.value.Closure?
            else q == r
  {
  }

  // ---- Evaluation ----

  /** Evaluating the renamed expression gives the renamed outcome, divergence included. */
  lemma {:induction false} EvalSame(e: Expr, env: Env, st: Store, t: Store, m: NameMap, fuel: nat)
    requires Injective(m) && Clean(e, m) && CleanEnv(env, m) && SameStore(st, t, m)
    ensures SameOutcome(Eval(e, env, st, fuel), Eval(Rename(Lexical, e, m, env.Keys), env, t, fuel), m)
    decreases fuel, 1, e, 2
  {
    match e
    case Const(_) =>
    case Var(x) => LookupSame(x, env, st, t, m);
    case Quote(_) =>
    case If(_, _, _) => IfSame(e, env, st, t, m, fuel);
    case Sequence(exprs) => EvalListSame(exprs, [], env, st, t, m, fuel);
    case Call(func, args) => CallSame(func, args, env, st, t, m, fuel);
    case Lambda(params, body) =>
    case Let(_, _, _, _) => LetSame(e, env, st, t, m, fuel);
    case Set(_, _) => SetSame(e, env, st, t, m, fuel);
  }

  lemma {:induction false} IfSame(e: Expr, env: Env, st: Store, t: Store, m: NameMap, fuel: nat)
    requires e.If? && Injective(m) && Clean(e, m) && CleanEnv(env, m) && SameStore(st, t, m)
    ensures SameOutcome(Eval(e, env, st, fuel), Eval(Rename(Lexical, e, m, env.Keys), env, t, fuel), m)
    decreases fuel, 1, e, 1
  {
    EvalSame(e.test, env, st, t, m, fuel);
    var r, q := Eval(e.test, env, st, fuel), Eval(Rename(Lexical, e.test, m, env.Keys), env, t, fuel);
    if r.Ok? {
      EvalSame(e.yes, env, r.store, q.store, m, fuel);
      EvalSame(e.no, env, r.store, q.store, m, fuel);
    }
  }

  lemma {:induction false} SetSame(e: Expr, env: Env, st: Store, t: Store, m: NameMap, fuel: nat)
    requires e.Set? && Injective(m) && Clean(e, m) && CleanEnv(env, m) && SameStore(st, t, m)
    ensures SameOutcome(Eval(e, env, st, fuel), Eval(Rename(Lexical, e, m, env.Keys), env, t, fuel), m)
    decreases fuel, 1, e, 1
  {
    EvalSame(e.value, env, st, t, m, fuel);
    var r, q := Eval(e.value, env, st, fuel), Eval(Rename(Lexical, e.value, m, env.Keys), env, t, fuel);
    if r.Ok? {
      AssignSame(e.name, r.value, env, r.store, q.store, m);
    }
  }

  lemma {:induction false} EvalListSame(es: seq<Expr>, names: seq<string>, env: Env, st: Store, t: Store, m: NameMap,
                                        fuel: nat)
    requires Injective(m) && CleanList(es, m) && CleanEnv(env, m) && SameStore(st, t, m)
    ensures SameOutcomes(EvalList(es, env, st, fuel),
                         EvalList(RenameList(Lexical, es, m, env.Keys, names, false), env, t, fuel), m)
    decreases fuel, 1, es, 1
  {
    if es == [] {
    } else {
      var renamed := RenameList(Lexical, es, m, env.Keys, names, false);
      assert renamed[0] == Rename(Lexical, es[0], m, env.Keys);
      assert renamed[1..] == RenameList(Lexical, es[1..], m, env.Keys, Rest(names), false);
      EvalSame(es[0], env, st, t, m, fuel);
      var r, q := Eval(es[0], env, st, fuel), Eval(renamed[0], env, t, fuel);
      if r.Ok? {
        EvalListSame(es[1..], Rest(names), env, r.store, q.store, m, fuel);
        ConsSame(r.value, EvalList(es[1..], env, r.store, fuel), EvalList(renamed[1..], env, q.store, fuel), m);
      }
    }
  }

  lemma {:induction false} CallSame(func: Expr, args: seq<Expr>, env: Env, st: Store, t: Store, m: NameMap, fuel: nat)
    requires Injective(m) && Clean(func, m) && CleanList(args, m) && CleanEnv(env, m) && SameStore(st, t, m)
    ensures SameOutcome(Eval(Call(func, args), env, st, fuel),
                        Eval(Rename(Lexical, Call(func, args), m, env.Keys), env, t, fuel), m)
    decreases fuel, 1, Call(func, args), 1
  {
    EvalSame(func, env, st, t, m, fuel);
    var f, g := Eval(func, env, st, fuel), Eval(Rename(Lexical, func, m, env.Keys), env, t, fuel);
    if f.Ok? {
      EvalListSame(args, [], env, f.store, g.store, m, fuel);
      var r := EvalList(args, env, f.store, fuel);
      var q := EvalList(RenameList(Lexical, args, m, env.Keys, [], false), env, g.store, fuel);
      if r.Ok? {
        ApplySame(f.value, r.value, r.store, q.store, m, fuel);
      }
    }
  }

  lemma {:induction false} ApplySame(f: Value, args: seq<Value>, st: Store, t: Store, m: NameMap, fuel: nat)
    requires Injective(m) && CleanValue(f, m) && SameStore(st, t, m)
    requires forall i | 0 <= i < |args| :: CleanValue(args[i], m)
    ensures SameOutcome(Apply(f, args, st, fuel), Apply(RenameValue(f, m), RenameValues(args, m), t, fuel), m)
    decreases fuel, 0
  {
    match f
    case Builtin(op) => PrimitiveSame(op, args, m);
    case Closure(params, body, env) =>
      if |params| == |args| && fuel > 0 {
        PushSame(args, st, t, m);
        ExtendClean(env, params, |st.cells|, m);
        EvalSame(body, Extend(env, params, |st.cells|), st.(cells := st.cells + args),
                 t.(cells := t.cells + RenameValues(args, m)), m, fuel - 1);
      }
    case _ =>
  }

  lemma {:induction false} LetSame(e: Expr, env: Env, st: Store, t: Store, m: NameMap, fuel: nat)
    requires e.Let? && Injective(m) && Clean(e, m) && CleanEnv(env, m) && SameStore(st, t, m)
    ensures SameOutcome(Eval(e, env, st, fuel), Eval(Rename(Lexical, e, m, env.Keys), env, t, fuel), m)
    decreases fuel, 1, e, 1
  {
    if |e.names| == |e.values| {
      var inner := env.Keys + Elements(e.names);
      var around := if e.kind.Recursive? then inner else env.Keys;
      var renamed := RenameList(Lexical, e.values, m, around, e.names, Grows(Lexical, e.kind));
      BindingsSame(e.kind, e.names, e.values, env, st, t, m, fuel);
      var r := EvalBindings(e.kind, e.names, e.values, env, st, fuel);
      var q := EvalBindings(e.kind, e.names, renamed, env, t, fuel);
      if r.Ok? {
        EvalSame(e.body, r.value, r.store, q.store, m, fuel);
      }
    }
  }

  lemma {:induction false} BindingsSame(kind: LetKind, names: seq<string>, values: seq<Expr>, env: Env, st: Store,
                                        t: Store, m: NameMap, fuel: nat)
    requires |names| == |values| && Injective(m) && CleanNames(names, m) && CleanList(values, m)
    requires CleanEnv(env, m) && SameStore(st, t, m)
    ensures var inner := env.Keys + Elements(names);
            var around := if kind.Recursive? then inner else env.Keys;
            SameEnvs(EvalBindings(kind, names, values, env, st, fuel),
                     EvalBindings(kind, names, RenameList(Lexical, values, m, around, names, Grows(Lexical, kind)),
                                  env, t, fuel),
                     m, inner)
    decreases fuel, 1, values, 3
  {
    match kind
    case Parallel =>
      EvalListSame(values, names, env, st, t, m, fuel);
      var r := EvalList(values, env, st, fuel);
      var q := EvalList(RenameList(Lexical, values, m, env.Keys, names, false), env, t, fuel);
      if r.Ok? {
        ExtendClean(env, names, |r.store.cells|, m);
        PushSame(r.value, r.store, q.store, m);
      }
    case Sequential => EachSame(names, values, env, st, t, m, fuel);
    case Recursive => RecursiveSame(names, values, env, st, t, m, fuel);
  }

  lemma {:induction false} RecursiveSame(names: seq<string>, values: seq<Expr>, env: Env, st: Store, t: Store,
                                         m: NameMap, fuel: nat)
    requires |names| == |values| && Injective(m) && CleanNames(names, m) && CleanList(values, m)
    requires CleanEnv(env, m) && SameStore(st, t, m)
    ensures var inner := env.Keys + Elements(names);
            SameEnvs(EvalBindings(Recursive, names, values, env, st, fuel),
                     EvalBindings(Recursive, names,
                                  RenameList(Lexical, values, m, inner, names, Grows(Lexical, Recursive)), env, t,
                                    fuel),
                     m, inner)
    decreases fuel, 1, values, 2
  {
    var blanks := seq(|names|, i => Unspecified);
    assert RenameValues(blanks, m) == blanks;
    ExtendClean(env, names, |st.cells|, m);
    PushSame(blanks, st, t, m);
    FillSame(values, |st.cells|, names, Extend(env, names, |st.cells|), st.(cells := st.cells + blanks),
             t.(cells := t.cells + blanks), m, fuel);
  }

  lemma {:induction false} EachSame(names: seq<string>, values: seq<Expr>, env: Env, st: Store, t: Store, m: NameMap,
                                    fuel: nat)
    requires |names| == |values| && Injective(m) && CleanNames(names, m) && CleanList(values, m)
    requires CleanEnv(env, m) && SameStore(st, t, m)
    ensures SameEnvs(EvalEach(names, values, env, st, fuel),
                     EvalEach(names, RenameList(Lexical, values, m, env.Keys, names, true), env, t, fuel),
                     m, env.Keys + Elements(names))
    decreases fuel, 1, values, 1
  {
    if values != [] {
      var renamed := RenameList(Lexical, values, m, env.Keys, names, true);
      assert renamed[0] == Rename(Lexical, values[0], m, env.Keys);
      EvalSame(values[0], env, st, t, m, fuel);
      var r, q := Eval(values[0], env, st, fuel), Eval(renamed[0], env, t, fuel);
      if r.Ok? {
        var next := env[names[0] := |r.store.cells|];
        assert next.Keys == Grown(env.Keys, names, true);
        assert renamed[1..] == RenameList(Lexical, values[1..], m, next.Keys, names[1..], true);
        PushSame([r.value], r.store, q.store, m);
        assert RenameValues([r.value], m) == [q.value];
        assert Elements(names) == {names[0]} + Elements(names[1..]);
        EachSame(names[1..], values[1..], next, r.store.(cells := r.store.cells + [r.value]),
                 q.store.(cells := q.store.cells + [q.value]), m, fuel);
        assert env.Keys + Elements(names) == next.Keys + Elements(names[1..]);
      }
    } else {
      assert Elements(names) == {};
    }
  }

  lemma {:induction false} FillSame(values: seq<Expr>, at: nat, names: seq<string>, env: Env, st: Store, t: Store,
                                    m: NameMap, fuel: nat)
    requires Injective(m) && CleanList(values, m) && CleanEnv(env, m) && SameStore(st, t, m)
    ensures SameOutcome(FillCells(values, at, env, st, fuel),
                        FillCells(RenameList(Lexical, values, m, env.Keys, names, false), at, env, t, fuel), m)
    decreases fuel, 1, values, 1
  {
    if values == [] {
    } else {
      var renamed := RenameList(Lexical, values, m, env.Keys, names, false);
      assert renamed[0] == Rename(Lexical, values[0], m, env.Keys);
      assert renamed[1..] == RenameList(Lexical, values[1..], m, env.Keys, Rest(names), false);
      EvalSame(values[0], env, st, t, m, fuel);
      var r, q := Eval(values[0], env, st, fuel), Eval(renamed[0], env, t, fuel);
      if r.Ok? && at < |r.store.cells| {
        SetCellSame(at, r.value, r.store, q.store, m);
        FillSame(values[1..], at + 1, Rest(names), env, r.store.(cells := r.store.cells[at := r.value]),
                 q.store.(cells := q.store.cells[at := q.value]), m, fuel);
      }
    }
  }

  // ---- Modules ----

  predicate CleanForm(f: Form, m: NameMap) {
    match f
    case Define(name, value) => name !in m.Values && Clean(value, m)
    case DefineFunction(name, params, body) => name !in m.Values && CleanNames(params, m) && Clean(body, m)
    case Expression(expr) => Clean(expr, m)
  }

  lemma FormSame(f: Form, st: Store, t: Store, m: NameMap, fuel: nat)
    requires Injective(m) && CleanForm(f, m) && SameStore(st, t, m)
    ensures SameOutcome(RunForm(f, st, fuel), RunForm(RenameForm(Lexical, f, m), t, fuel), m)
  {
    var empty: Env := map[];
    assert empty.Keys == {};
    match f
    case Define(name, value) =>
      EvalSame(value, empty, st, t, m, fuel);
      var r, q := Eval(value, empty, st, fuel), Eval(Rename(Lexical, value, m, {}), empty, t, fuel);
      if r.Ok? {
        SetGlobalSame(name, r.value, r.store, q.store, m);
      }
    case DefineFunction(name, params, body) =>
      assert empty.Keys + Elements(params) == Elements(params);
      SetGlobalSame(name, Closure(params, body, empty), st, t, m);
    case Expression(expr) => EvalSame(expr, empty, st, t, m, fuel);
  }

  /** Running the lexically renamed module gives the renamed values and the renamed store. */
  lemma {:induction false} ModuleSame(fs: seq<Form>, st: Store, t: Store, m: NameMap, fuel: nat)
    requires Injective(m) && (forall f | f in fs :: CleanForm(f, m)) && SameStore(st, t, m)
    ensures SameOutcomes(RunForms(fs, st, fuel), RunForms(RenameForms(Lexical, fs, m), t, fuel), m)
    decreases |fs|
  {
    if fs == [] {
    } else {
      var gs := RenameForms(Lexical, fs, m);
      assert gs[1..] == RenameForms(Lexical, fs[1..], m);
      FormSame(fs[0], st, t, m, fuel);
      var r, q := RunForm(fs[0], st, fuel), RunForm(gs[0], t, fuel);
      if r.Ok? {
        ModuleSame(fs[1..], r.store, q.store, m, fuel);
        ConsSame(r.value, RunForms(fs[1..], r.store, fuel), RunForms(gs[1..], q.store, fuel), m);
      }
    }
  }
}
