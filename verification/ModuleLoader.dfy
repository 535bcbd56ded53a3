/** Module loading: the recursive expansion of `require` forms into one list of forms. */
module ModuleLoader {
  import opened Graphs

  /** A top-level form. `Code` is anything that is neither a require, a provide nor a sequence. */
  datatype Form =
    | Require(modules: seq<string>)
    | Provide(names: seq<string>)
    | Sequence(forms: seq<Form>)
    | Code(text: string)

  datatype Option<T> = None | Some(value: T)

  /** The files that exist, by canonical path, with the forms read from them, the directory of
      each file, and where the search finds a module name required from a directory. */
  datatype World = World(files: map<string, seq<Form>>, parent: string -> string,
                         found: map<(string, string), string>) {

    function Resolve(name: string, dir: string): Option<string> {
      if (name, dir) in found && found[(name, dir)] in files then Some(found[(name, dir)]) else None
    }
  }

  /** Sequences are opened one level deep. */
  function Flatten(forms: seq<Form>): seq<Form> {
    if forms == [] then []
    else (if forms[0].Sequence? then forms[0].forms else [forms[0]]) + Flatten(forms[1..])
  }

  /** Sequences opened n levels deep, one level at a time. */
  function FlattenTimes(n: nat, forms: seq<Form>): seq<Form> {
    if n == 0 then forms else FlattenTimes(n - 1, Flatten(forms))
  }

  /** What a file contributes itself: its flattened forms without requires and provides. */
  function Rest(flat: seq<Form>): seq<Form> {
    if flat == [] then []
    else (if flat[0].Require? || flat[0].Provide? then [] else [flat[0]]) + Rest(flat[1..])
  }

  /** Every module name its flattened forms require, in order. */
  function Required(flat: seq<Form>): seq<string> {
    if flat == [] then []
    else (if flat[0].Require? then flat[0].modules else []) + Required(flat[1..])
  }

  /** The files the names resolve to, in order. */
  function Targets(w: World, names: seq<string>, dir: string): seq<string> {
    if names == [] then []
    else
      var rest := Targets(w, names[1..], dir);
      match w.Resolve(names[0], dir)
      case None => rest
      case Some(f) => [f] + rest
  }

  predicate Unresolved(w: World, names: seq<string>, dir: string) {
    exists name | name in names :: w.Resolve(name, dir).None?
  }

  function NamesOf(w: World, f: string): seq<string>
    requires f in w.files
  {
    Required(Flatten(w.files[f]))
  }

  /** The require graph. */
  function Requires(w: World): Graph<string> {
    map f | f in w.files :: Targets(w, NamesOf(w, f), w.parent(f))
  }

  /** Some require of a listed file resolves to nothing. */
  predicate AnyUnresolved(w: World, order: seq<string>) {
    exists f | f in order && f in w.files :: Unresolved(w, NamesOf(w, f), w.parent(f))
  }

  /** The contributions of the listed files, in order. Once the requires of a file are expanded its
      imports are processed, which opens sequences again even where there is nothing to import, in
      the file and in all it loaded: `depths` says how often that happened to each file. */
  function Contents(w: World, order: seq<string>, depths: seq<nat>): seq<Form>
    requires |order| == |depths|
  {
    if order == [] then []
    else (if order[0] in w.files then FlattenTimes(depths[0], Rest(Flatten(w.files[order[0]]))) else []) +
         Contents(w, order[1..], depths[1..])
  }

  /** The forms that are not sequences, at any depth, from left to right. */
  function Leaves(forms: seq<Form>): seq<Form>
    decreases forms
  {
    if forms == [] then []
    else (if forms[0].Sequence? then Leaves(forms[0].forms) else [forms[0]]) + Leaves(forms[1..])
  }

  /** The leaves without the directives that are at most n sequences deep. */
  function KeptLeaves(forms: seq<Form>, n: nat): seq<Form>
    decreases forms
  {
    if forms == [] then []
    else
      (match forms[0]
       case Require(_) => []
       case Provide(_) => []
       case Sequence(inner) => if n == 0 then Leaves(inner) else KeptLeaves(inner, n - 1)
       case Code(_) => [forms[0]]) + KeptLeaves(forms[1..], n)
  }

  /** The module names of the requires that are at most n sequences deep, from left to right. */
  function Asked(forms: seq<Form>, n: nat): seq<string>
    decreases forms
  {
    if forms == [] then []
    else
      (match forms[0]
       case Require(modules) => modules
       case Provide(_) => []
       case Sequence(inner) => if n == 0 then [] else Asked(inner, n - 1)
       case Code(_) => []) + Asked(forms[1..], n)
  }

  /** What the listed files say, file after file: the leaves of each, less the directives that are at
      top level or directly in a sequence. */
  function AllKept(w: World, order: seq<string>): seq<Form> {
    if order == [] then []
    else (if order[0] in w.files then KeptLeaves(w.files[order[0]], 1) else []) + AllKept(w, order[1..])
  }

  /** One more flattening for every file. */
  function Deeper(depths: seq<nat>): (r: seq<nat>)
    ensures |r| == |depths| && forall i | 0 <= i < |r| :: r[i] == depths[i] + 1
  {
    if depths == [] then [] else [depths[0] + 1] + Deeper(depths[1..])
  }

  // ---- What loading some targets achieves ----

  /** Loading `targets` when `before` were imported: `order` lists the files this adds, each
      once, and a file comes after each file it requires unless that was imported before or
      itself requires the file, directly or not. They come depth first. A file was loaded through as many files, itself
      included, as `depths` says. */
  ghost predicate Loads(w: World, targets: seq<string>, before: set<string>, after: set<string>,
                        order: seq<string>, depths: seq<nat>) {
    && NoDuplicates(order) && |depths| == |order| && order == DepthFirst(Requires(w), targets, before, true)
    && (forall f :: f in after <==> f in before || f in order)
    && (forall f | f in order :: f !in before && f in w.files)
    && (forall t | t in targets :: t in after)
    && (forall i {:trigger FromTargets(w, targets, order[i], depths[i])} | 0 <= i < |order| ::
          FromTargets(w, targets, order[i], depths[i]))
    && (forall f, d | f in order && d in Succ(Requires(w), f) :: d in after)
    && RequiredFirst(w, before, order)
  }

  /** n files lead from a target to f, both included, each requiring the next. */
  ghost predicate FromTargets(w: World, targets: seq<string>, f: string, n: nat) {
    exists t, p :: t in targets && WalkFrom(Requires(w), t, f, p) && |p| == n
  }

  ghost predicate RequiredFirst(w: World, before: set<string>, order: seq<string>) {
    forall i, d {:trigger d in Succ(Requires(w), order[i])} | 0 <= i < |order| && d in Succ(Requires(w), order[i]) ::
      d in before || d in order[..i] || Reaches(Requires(w), d, order[i])
  }

  lemma LoadsNothing(w: World, targets: seq<string>, before: set<string>)
    requires forall t | t in targets :: t in before
    ensures Loads(w, targets, before, before, [], [])
  {
    DepthFirstNothing(Requires(w), targets, before, true);
  }

  lemma LoadsThen(w: World, s: seq<string>, t: seq<string>, a: set<string>, b: set<string>, c: set<string>,
                  first: seq<string>, ds: seq<nat>, second: seq<string>, es: seq<nat>)
    requires Loads(w, s, a, b, first, ds) && Loads(w, t, b, c, second, es)
    ensures Loads(w, s + t, a, c, first + second, ds + es)
  {
    var order := first + second;
    assert b == a + Members(first);
    DepthFirstThen(Requires(w), s, t, a, b, true);
    assert forall f :: f in order <==> f in first || f in second;
    forall i, j | 0 <= i < j < |order| ensures order[i] != order[j] {
      if i < |first| <= j {
        assert first[i] in b && second[j - |first|] in second;
      }
    }
    forall i | 0 <= i < |order| ensures FromTargets(w, s + t, order[i], (ds + es)[i]) {
      if i < |first| {
        FromMore(w, s, s + t, first[i], ds[i]);
      } else {
        FromMore(w, t, s + t, second[i - |first|], es[i - |first|]);
      }
    }
    RequiredThen(w, a, b, first, second);
  }

  lemma RequiredThen(w: World, a: set<string>, b: set<string>, first: seq<string>, second: seq<string>)
    requires RequiredFirst(w, a, first) && RequiredFirst(w, b, second)
    requires forall f :: f in b <==> f in a || f in first
    ensures RequiredFirst(w, a, first + second)
  {
    var order := first + second;
    forall i, d | 0 <= i < |order| && d in Succ(Requires(w), order[i])
      ensures d in a || d in order[..i] || Reaches(Requires(w), d, order[i])
    {
      if i < |first| {
        assert d in Succ(Requires(w), first[i]);
        assert order[..i] == first[..i];
      } else {
        assert d in Succ(Requires(w), second[i - |first|]);
        assert order[..i] == first + second[..i - |first|];
      }
    }
  }

  lemma FromMore(w: World, targets: seq<string>, more: seq<string>, f: string, n: nat)
    requires FromTargets(w, targets, f, n) && forall t | t in targets :: t in more
    ensures FromTargets(w, more, f, n)
  {
    var t, p :| t in targets && WalkFrom(Requires(w), t, f, p) && |p| == n;
    assert t in more;
  }

  /** A file that is loaded for the first time: what it requires, then the file itself. */
  lemma LoadsFile(w: World, f: string, before: set<string>, after: set<string>, order: seq<string>, depths: seq<nat>)
    requires f in w.files && f !in before
    requires Loads(w, Succ(Requires(w), f), before + {f}, after, order, depths)
    ensures Loads(w, [f], before, after, order + [f], Deeper(depths + [0]))
  {
    var g := Requires(w);
    var all := order + [f];
    assert forall x :: x in all <==> x in order || x == f;
    forall i | 0 <= i < |all| ensures FromTargets(w, [f], all[i], Deeper(depths + [0])[i]) {
      if i < |order| {
        FromFile(w, f, order[i], depths[i]);
      } else {
        assert WalkFrom(g, f, f, [f]) && f in [f];
      }
    }
    FileLast(w, f, before, after, order, depths);
    DepthFirstNode(g, f, before, true);
  }

  lemma FileLast(w: World, f: string, before: set<string>, after: set<string>, order: seq<string>, depths: seq<nat>)
    requires Loads(w, Succ(Requires(w), f), before + {f}, after, order, depths)
    ensures RequiredFirst(w, before, order + [f])
  {
    var g := Requires(w);
    var all := order + [f];
    forall i, d | 0 <= i < |all| && d in Succ(g, all[i])
      ensures d in before || d in all[..i] || Reaches(g, d, all[i])
    {
      if i < |order| {
        assert d in Succ(g, order[i]);
        assert all[..i] == order[..i];
        FromFile(w, f, order[i], depths[i]);
      } else {
        assert all[..i] == order;
        ReachesItself(g, f);
      }
    }
  }

  lemma FromFile(w: World, f: string, x: string, n: nat)
    requires FromTargets(w, Succ(Requires(w), f), x, n)
    ensures FromTargets(w, [f], x, n + 1) && Reaches(Requires(w), f, x)
  {
    var g := Requires(w);
    var t, p :| t in Succ(g, f) && WalkFrom(g, t, x, p) && |p| == n;
    var q := [f] + p;
    forall i | 0 <= i < |q| - 1 ensures q[i + 1] in Succ(g, q[i]) {
      if i > 0 {
        assert p[(i - 1) + 1] in Succ(g, p[i - 1]);
      }
    }
    assert WalkFrom(g, f, x, q) && f in [f];
  }

  // ---- Lists ----

  lemma {:induction false} FlattenAppend(s: seq<Form>, t: seq<Form>)
    ensures Flatten(s + t) == Flatten(s) + Flatten(t)
  {
    if s == [] {
      assert s + t == t;
    } else {
      assert (s + t)[1..] == s[1..] + t;
      FlattenAppend(s[1..], t);
    }
  }

  lemma {:induction false} FlattenAfter(n: nat, forms: seq<Form>)
    ensures Flatten(FlattenTimes(n, forms)) == FlattenTimes(n + 1, forms)
    decreases n
  {
    if n == 0 {
      assert FlattenTimes(1, forms) == FlattenTimes(0, Flatten(forms));
    } else {
      FlattenAfter(n - 1, Flatten(forms));
    }
  }

  lemma {:induction false} ContentsAppend(w: World, s: seq<string>, ds: seq<nat>, t: seq<string>, es: seq<nat>)
    requires |s| == |ds| && |t| == |es|
    ensures Contents(w, s + t, ds + es) == Contents(w, s, ds) + Contents(w, t, es)
  {
    if s == [] {
      assert s + t == t && ds + es == es;
    } else {
      assert (s + t)[1..] == s[1..] + t && (ds + es)[1..] == ds[1..] + es;
      ContentsAppend(w, s[1..], ds[1..], t, es);
    }
  }

  lemma {:induction false} LeavesAppend(s: seq<Form>, t: seq<Form>)
    ensures Leaves(s + t) == Leaves(s) + Leaves(t)
    decreases |s|
  {
    if s == [] {
      assert s + t == t;
    } else {
      assert (s + t)[1..] == s[1..] + t;
      LeavesAppend(s[1..], t);
    }
  }

  lemma LeavesOne(x: Form)
    ensures Leaves([x]) == if x.Sequence? then Leaves(x.forms) else [x]
  {
    assert [x][1..] == [];
  }

  /** Opening sequences changes no leaf and no order. */
  lemma {:induction false} FlattenLeaves(forms: seq<Form>)
    ensures Leaves(Flatten(forms)) == Leaves(forms)
    decreases |forms|
  {
    if forms == [] {
    } else {
      var x := forms[0];
      LeavesOne(x);
      LeavesAppend(if x.Sequence? then x.forms else [x], Flatten(forms[1..]));
      FlattenLeaves(forms[1..]);
    }
  }

  lemma {:induction false} FlattenTimesLeaves(n: nat, forms: seq<Form>)
    ensures Leaves(FlattenTimes(n, forms)) == Leaves(forms)
    decreases n
  {
    if n == 0 {
    } else {
      FlattenTimesLeaves(n - 1, Flatten(forms));
      FlattenLeaves(forms);
    }
  }

  lemma {:induction false} KeptAppend(s: seq<Form>, t: seq<Form>, n: nat)
    ensures KeptLeaves(s + t, n) == KeptLeaves(s, n) + KeptLeaves(t, n)
    decreases |s|
  {
    if s == [] {
      assert s + t == t;
    } else {
      assert (s + t)[1..] == s[1..] + t;
      KeptAppend(s[1..], t, n);
    }
  }

  /** Dropping directives at top level, and the same after one flattening. */
  lemma {:induction false} RestLeaves(flat: seq<Form>)
    ensures Leaves(Rest(flat)) == KeptLeaves(flat, 0)
    decreases |flat|
  {
    if flat == [] {
    } else {
      var x := flat[0];
      LeavesOne(x);
      LeavesAppend(if x.Require? || x.Provide? then [] else [x], Rest(flat[1..]));
      RestLeaves(flat[1..]);
    }
  }

  lemma {:induction false} FlattenKept(forms: seq<Form>)
    ensures KeptLeaves(Flatten(forms), 0) == KeptLeaves(forms, 1)
    decreases |forms|
  {
    if forms == [] {
    } else {
      var x := forms[0];
      assert [x][1..] == [];
      KeptAppend(if x.Sequence? then x.forms else [x], Flatten(forms[1..]), 0);
      FlattenKept(forms[1..]);
    }
  }

  lemma {:induction false} AskedAppend(s: seq<Form>, t: seq<Form>, n: nat)
    ensures Asked(s + t, n) == Asked(s, n) + Asked(t, n)
    decreases |s|
  {
    if s == [] {
      assert s + t == t;
    } else {
      assert (s + t)[1..] == s[1..] + t;
      AskedAppend(s[1..], t, n);
    }
  }

  lemma {:induction false} RequiredAsked(flat: seq<Form>)
    ensures Required(flat) == Asked(flat, 0)
    decreases |flat|
  {
    if flat == [] {
    } else {
      RequiredAsked(flat[1..]);
    }
  }

  lemma {:induction false} FlattenAsked(forms: seq<Form>)
    ensures Asked(Flatten(forms), 0) == Asked(forms, 1)
    decreases |forms|
  {
    if forms == [] {
    } else {
      var x := forms[0];
      assert [x][1..] == [];
      AskedAppend(if x.Sequence? then x.forms else [x], Flatten(forms[1..]), 0);
      FlattenAsked(forms[1..]);
    }
  }

  lemma {:induction false} TargetsIff(w: World, names: seq<string>, dir: string, d: string)
    ensures d in Targets(w, names, dir) <==>
            exists name | name in names :: (name, dir) in w.found && w.found[(name, dir)] == d && d in w.files
  {
    if names == [] {
    } else {
      TargetsIff(w, names[1..], dir, d);
      assert forall name :: name in names <==> name == names[0] || name in names[1..];
    }
  }

  /** A file requires another if and only if one of its requires, at top level or directly in a
      sequence, names a module that the search from its directory finds there. */
  lemma RequiresIff(w: World, f: string, d: string)
    requires f in w.files
    ensures d in Succ(Requires(w), f) <==>
            exists name | name in Asked(w.files[f], 1) ::
              (name, w.parent(f)) in w.found && w.found[(name, w.parent(f))] == d && d in w.files
  {
    RequiredAsked(Flatten(w.files[f]));
    FlattenAsked(w.files[f]);
    TargetsIff(w, NamesOf(w, f), w.parent(f), d);
  }

  /** Whatever was flattened on the way, the leaves of what was loaded are those the files say. */
  lemma {:induction false} ContentsLeaves(w: World, order: seq<string>, depths: seq<nat>)
    requires |order| == |depths|
    ensures Leaves(Contents(w, order, depths)) == AllKept(w, order)
  {
    if order == [] {
    } else {
      ContentsLeaves(w, order[1..], depths[1..]);
      if order[0] in w.files {
        var own := Rest(Flatten(w.files[order[0]]));
        FlattenTimesLeaves(depths[0], own);
        RestLeaves(Flatten(w.files[order[0]]));
        FlattenKept(w.files[order[0]]);
        LeavesAppend(FlattenTimes(depths[0], own), Contents(w, order[1..], depths[1..]));
      } else {
        LeavesAppend([], Contents(w, order[1..], depths[1..]));
      }
    }
  }

  /** Flattening what some files contributed is one more flattening for each. */
  lemma {:induction false} FlattenContents(w: World, order: seq<string>, depths: seq<nat>)
    requires |order| == |depths|
    ensures Flatten(Contents(w, order, depths)) == Contents(w, order, Deeper(depths))
  {
    if order == [] {
    } else {
      FlattenContents(w, order[1..], depths[1..]);
      assert Deeper(depths)[1..] == Deeper(depths[1..]);
      if order[0] in w.files {
        var own := Rest(Flatten(w.files[order[0]]));
        FlattenAfter(depths[0], own);
        FlattenAppend(FlattenTimes(depths[0], own), Contents(w, order[1..], depths[1..]));
      } else {
        FlattenAppend([], Contents(w, order[1..], depths[1..]));
      }
    }
  }

  lemma {:induction false} TargetsAppend(w: World, s: seq<string>, t: seq<string>, dir: string)
    ensures Targets(w, s + t, dir) == Targets(w, s, dir) + Targets(w, t, dir)
  {
    if s == [] {
      assert s + t == t;
    } else {
      assert (s + t)[1..] == s[1..] + t;
      TargetsAppend(w, s[1..], t, dir);
    }
  }

  lemma OneTarget(w: World, name: string, dir: string)
    ensures Targets(w, [name], dir) == if w.Resolve(name, dir).Some? then [w.Resolve(name, dir).value] else []
    ensures Unresolved(w, [name], dir) <==> w.Resolve(name, dir).None?
  {
    assert Targets(w, [name][1..], dir) == [];
    assert name in [name];
  }

  /** Requiring some names and then some more. */
  lemma RequireThen(w: World, s: seq<string>, t: seq<string>, dir: string, a: set<string>, b: set<string>,
                    c: set<string>, first: seq<string>, ds: seq<nat>, second: seq<string>, es: seq<nat>)
    requires Loads(w, Targets(w, s, dir), a, b, first, ds) && Loads(w, Targets(w, t, dir), b, c, second, es)
    ensures Loads(w, Targets(w, s + t, dir), a, c, first + second, ds + es)
    ensures Contents(w, first + second, ds + es) == Contents(w, first, ds) + Contents(w, second, es)
    ensures Unresolved(w, s + t, dir) <==> Unresolved(w, s, dir) || Unresolved(w, t, dir)
    ensures AnyUnresolved(w, first + second) <==> AnyUnresolved(w, first) || AnyUnresolved(w, second)
  {
    TargetsAppend(w, s, t, dir);
    LoadsThen(w, Targets(w, s, dir), Targets(w, t, dir), a, b, c, first, ds, second, es);
    ContentsAppend(w, first, ds, second, es);
    assert forall x :: x in s + t <==> x in s || x in t;
    assert forall x :: x in first + second <==> x in first || x in second;
  }

  /** A file that was loaded for the first time, once its own requires are expanded and its imports
      processed. */
  lemma RequireFile(w: World, f: string, before: set<string>, after: set<string>, order: seq<string>, depths: seq<nat>)
    requires f in w.files && f !in before
    requires Loads(w, Targets(w, NamesOf(w, f), w.parent(f)), before + {f}, after, order, depths)
    ensures Loads(w, [f], before, after, order + [f], Deeper(depths + [0]))
    ensures Contents(w, order + [f], Deeper(depths + [0])) ==
            Flatten(Contents(w, order, depths) + Rest(Flatten(w.files[f])))
    ensures AnyUnresolved(w, order + [f]) <==> AnyUnresolved(w, order) || Unresolved(w, NamesOf(w, f), w.parent(f))
  {
    LoadsFile(w, f, before, after, order, depths);
    ContentsThenFile(w, f, order, depths);
    assert forall x :: x in order + [f] <==> x in order || x == f;
  }

  lemma ContentsThenFile(w: World, f: string, order: seq<string>, depths: seq<nat>)
    requires f in w.files && |order| == |depths|
    ensures Contents(w, order + [f], Deeper(depths + [0])) ==
            Flatten(Contents(w, order, depths) + Rest(Flatten(w.files[f])))
  {
    OneContribution(w, f, 0);
    ContentsAppend(w, order, depths, [f], [0]);
    FlattenContents(w, order + [f], depths + [0]);
  }

  lemma OneContribution(w: World, f: string, n: nat)
    requires f in w.files
    ensures Contents(w, [f], [n]) == FlattenTimes(n, Rest(Flatten(w.files[f])))
  {
    assert Contents(w, [f], [n]) == FlattenTimes(n, Rest(Flatten(w.files[f]))) + Contents(w, [], []);
  }

  lemma {:induction false} RequiredAppend(s: seq<Form>, t: seq<Form>)
    ensures Required(s + t) == Required(s) + Required(t)
  {
    if s == [] {
      assert s + t == t;
    } else {
      assert (s + t)[1..] == s[1..] + t;
      RequiredAppend(s[1..], t);
    }
  }

  lemma {:induction false} RestAppend(s: seq<Form>, t: seq<Form>)
    ensures Rest(s + t) == Rest(s) + Rest(t)
  {
    if s == [] {
      assert s + t == t;
    } else {
      assert (s + t)[1..] == s[1..] + t;
      RestAppend(s[1..], t);
    }
  }

  lemma RequiredTake(s: seq<Form>, i: nat)
    requires i < |s|
    ensures Required(s[..i + 1]) == Required(s[..i]) + Required([s[i]])
    ensures Rest(s[..i + 1]) == Rest(s[..i]) + Rest([s[i]])
  {
    assert s[..i + 1] == s[..i] + [s[i]];
    RequiredAppend(s[..i], [s[i]]);
    RestAppend(s[..i], [s[i]]);
  }

  /** One more form expanded. */
  lemma ExpandNext(w: World, flat: seq<Form>, i: nat, dir: string, a: set<string>, b: set<string>, c: set<string>,
                   order: seq<string>, ds: seq<nat>, more: seq<string>, es: seq<nat>)
    requires i < |flat|
    requires Loads(w, Targets(w, Required(flat[..i]), dir), a, b, order, ds)
    requires Loads(w, Targets(w, Required([flat[i]]), dir), b, c, more, es)
    ensures Loads(w, Targets(w, Required(flat[..i + 1]), dir), a, c, order + more, ds + es)
    ensures Contents(w, order + more, ds + es) == Contents(w, order, ds) + Contents(w, more, es)
    ensures Rest(flat[..i + 1]) == Rest(flat[..i]) + Rest([flat[i]])
    ensures Fails(w, flat[..i + 1], dir, order + more) <==>
            Fails(w, flat[..i], dir, order) || Fails(w, [flat[i]], dir, more)
  {
    RequiredTake(flat, i);
    RequireThen(w, Required(flat[..i]), Required([flat[i]]), dir, a, b, c, order, ds, more, es);
  }

  /** Some require of these forms, or of the files they added, resolves to nothing. */
  predicate Fails(w: World, flat: seq<Form>, dir: string, order: seq<string>) {
    Unresolved(w, Required(flat), dir) || AnyUnresolved(w, order)
  }

  /** What requiring some names adds. */
  ghost predicate Requiring(w: World, names: seq<string>, dir: string, before: set<string>, after: set<string>,
                            order: seq<string>, depths: seq<nat>, added: seq<Form>) {
    Loads(w, Targets(w, names, dir), before, after, order, depths) && added == Contents(w, order, depths)
  }

  lemma RequiringNext(w: World, names: seq<string>, i: nat, dir: string, a: set<string>, b: set<string>, c: set<string>,
                      order: seq<string>, ds: seq<nat>, added: seq<Form>,
                      more: seq<string>, es: seq<nat>, one: seq<Form>)
    requires i < |names|
    requires Requiring(w, names[..i], dir, a, b, order, ds, added)
    requires Requiring(w, [names[i]], dir, b, c, more, es, one)
    ensures Requiring(w, names[..i + 1], dir, a, c, order + more, ds + es, added + one)
    ensures Unresolved(w, names[..i + 1], dir) <==> Unresolved(w, names[..i], dir) || Unresolved(w, [names[i]], dir)
    ensures AnyUnresolved(w, order + more) <==> AnyUnresolved(w, order) || AnyUnresolved(w, more)
  {
    assert names[..i + 1] == names[..i] + [names[i]];
    RequireThen(w, names[..i], [names[i]], dir, a, b, c, order, ds, more, es);
  }

  /** The state of the expansion of some forms. */
  ghost predicate Expanding(w: World, flat: seq<Form>, dir: string, before: set<string>, after: set<string>,
                            order: seq<string>, depths: seq<nat>, required: seq<Form>, kept: seq<Form>) {
    && Loads(w, Targets(w, Required(flat), dir), before, after, order, depths)
    && required == Contents(w, order, depths) && kept == Rest(flat)
  }

  lemma ExpandingNext(w: World, flat: seq<Form>, i: nat, dir: string, a: set<string>, b: set<string>, c: set<string>,
                      order: seq<string>, ds: seq<nat>, required: seq<Form>, kept: seq<Form>,
                      more: seq<string>, es: seq<nat>, added: seq<Form>, own: seq<Form>)
    requires i < |flat|
    requires Expanding(w, flat[..i], dir, a, b, order, ds, required, kept)
    requires Expanding(w, [flat[i]], dir, b, c, more, es, added, own)
    ensures Expanding(w, flat[..i + 1], dir, a, c, order + more, ds + es, required + added, kept + own)
    ensures Fails(w, flat[..i + 1], dir, order + more) <==>
            Fails(w, flat[..i], dir, order) || Fails(w, [flat[i]], dir, more)
  {
    ExpandNext(w, flat, i, dir, a, b, c, order, ds, more, es);
  }

  lemma RequiredOne(x: Form)
    ensures Required([x]) == if x.Require? then x.modules else []
    ensures Rest([x]) == if x.Require? || x.Provide? then [] else [x]
  {
    assert [x][1..] == [];
  }

  lemma Whole<T>(s: seq<T>)
    ensures s[..|s|] == s
  {
  }

  // ---- The loader ----

  class Loader {
    const world: World
    var imported: set<string>
    var loading: set<string>
    var loadFailed: bool
    var cycleErrors: int

    ghost predicate Valid()
      reads this
    {
      loading <= imported
    }

    constructor (world: World)
      ensures Valid() && this.world == world
      ensures imported == {} && !loadFailed && cycleErrors == 0
    {
      this.world := world;
      imported, loading, loadFailed, cycleErrors := {}, {}, false, 0;
    }

    /** The forms of a file the first time it is loaded, none after that. */
    method LoadFile(f: string) returns (forms: seq<Form>)
      modifies this`imported
      ensures f in world.files ==> imported == old(imported) + {f}
      ensures f in world.files && f !in old(imported) ==> forms == world.files[f]
      ensures f !in world.files || f in old(imported) ==> forms == [] && imported == old(imported)
    {
      if f !in world.files || f in imported { return []; }
      imported := imported + {f};
      forms := world.files[f];
    }

    /** Load one required module, whose name may resolve to nothing. */
    method RequireModule(name: string, dir: string)
      returns (added: seq<Form>, ghost order: seq<string>, ghost depths: seq<nat>)
      requires Valid()
      modifies this`imported, this`loading, this`loadFailed, this`cycleErrors
      ensures Valid() && loading <= old(loading) && cycleErrors == old(cycleErrors)
      ensures Requiring(world, [name], dir, old(imported), imported, order, depths, added)
      ensures loadFailed == (old(loadFailed) || Unresolved(world, [name], dir) || AnyUnresolved(world, order))
      decreases world.files.Keys - imported, 1
    {
      OneTarget(world, name, dir);
      match world.Resolve(name, dir)
      case None =>
        added, order, depths := [], [], [];
        loadFailed := true;
        LoadsNothing(world, [], imported);
      case Some(f) =>
        added, order, depths := LoadModule(f);
    }

    /** Load one file, seen before or new; a new one is expanded in turn, and flattened again with
        its imports. */
    method LoadModule(f: string)
      returns (added: seq<Form>, ghost order: seq<string>, ghost depths: seq<nat>)
      requires Valid() && f in world.files
      modifies this`imported, this`loading, this`loadFailed, this`cycleErrors
      ensures Valid() && loading <= old(loading) && cycleErrors == old(cycleErrors)
      ensures Loads(world, [f], old(imported), imported, order, depths)
      ensures added == Contents(world, order, depths)
      ensures loadFailed == (old(loadFailed) || AnyUnresolved(world, order))
      decreases world.files.Keys - imported, 0
    {
      added, order, depths := [], [], [];
      var cyclic := f in loading && f !in imported;
      cycleErrors := if cyclic then cycleErrors + 1 else cycleErrors;
      if !cyclic {
        loading := loading + {f};
        var forms := LoadFile(f);
        if forms == [] {
          if f in old(imported) {
            LoadsNothing(world, [f], imported);
          } else {
            LoadsNothing(world, [], imported);
            RequireFile(world, f, old(imported), imported, [], []);
            order, depths := [] + [f], Deeper([] + [0]);
          }
        } else {
          added, order, depths := ProcessRequires(forms, world.parent(f));
          added := Flatten(added);
          RequireFile(world, f, old(imported), imported, order, depths);
          order, depths := order + [f], Deeper(depths + [0]);
        }
        loading := loading - {f};
      }
    }

    /** Expand the requires of some forms: what they require comes first, then what is left. */
    method ProcessRequires(forms: seq<Form>, dir: string)
      returns (out: seq<Form>, ghost order: seq<string>, ghost depths: seq<nat>)
      requires Valid()
      modifies this`imported, this`loading, this`loadFailed, this`cycleErrors
      ensures Valid() && loading <= old(loading) && cycleErrors == old(cycleErrors)
      ensures Loads(world, Targets(world, Required(Flatten(forms)), dir), old(imported), imported, order, depths)
      ensures out == Contents(world, order, depths) + Rest(Flatten(forms))
      ensures loadFailed ==
              (old(loadFailed) || Unresolved(world, Required(Flatten(forms)), dir) || AnyUnresolved(world, order))
      decreases world.files.Keys - imported, 4
    {
      var flat := Flatten(forms);
      var required, kept := [], [];
      order, depths := [], [];
      LoadsNothing(world, [], imported);
      for i := 0 to |flat|
        invariant Valid() && loading <= old(loading) && cycleErrors == old(cycleErrors)
        invariant Expanding(world, flat[..i], dir, old(imported), imported, order, depths, required, kept)
        invariant loadFailed == (old(loadFailed) || Fails(world, flat[..i], dir, order))
      {
        ghost var before := imported;
        var added, own, more, deeper := ExpandForm(flat[i], dir);
        ExpandingNext(world, flat, i, dir, old(imported), before, imported,
                      order, depths, required, kept, more, deeper, added, own);
        required, kept := required + added, kept + own;
        order, depths := order + more, depths + deeper;
      }
      Whole(flat);
      out := required + kept;
    }

    /** A require loads its modules, a provide is dropped, any other form is kept. */
    method ExpandForm(form: Form, dir: string)
      returns (added: seq<Form>, kept: seq<Form>, ghost order: seq<string>, ghost depths: seq<nat>)
      requires Valid()
      modifies this`imported, this`loading, this`loadFailed, this`cycleErrors
      ensures Valid() && loading <= old(loading) && cycleErrors == old(cycleErrors)
      ensures Expanding(world, [form], dir, old(imported), imported, order, depths, added, kept)
      ensures loadFailed == (old(loadFailed) || Fails(world, [form], dir, order))
      decreases world.files.Keys - imported, 3
    {
      RequiredOne(form);
      added, kept, order, depths := [], [], [], [];
      if form.Require? {
        added, order, depths := RequireAll(form.modules, dir);
      } else {
        LoadsNothing(world, [], imported);
        if !form.Provide? {
          kept := [form];
        }
      }
    }

    method RequireAll(names: seq<string>, dir: string)
      returns (added: seq<Form>, ghost order: seq<string>, ghost depths: seq<nat>)
      requires Valid()
      modifies this`imported, this`loading, this`loadFailed, this`cycleErrors
      ensures Valid() && loading <= old(loading) && cycleErrors == old(cycleErrors)
      ensures Requiring(world, names, dir, old(imported), imported, order, depths, added)
      ensures loadFailed == (old(loadFailed) || Unresolved(world, names, dir) || AnyUnresolved(world, order))
      decreases world.files.Keys - imported, 2
    {
      added, order, depths := [], [], [];
      LoadsNothing(world, [], imported);
      for i := 0 to |names|
        invariant Valid() && loading <= old(loading) && cycleErrors == old(cycleErrors)
        invariant Requiring(world, names[..i], dir, old(imported), imported, order, depths, added)
        invariant loadFailed == (old(loadFailed) || Unresolved(world, names[..i], dir) || AnyUnresolved(world, order))
      {
        ghost var before := imported;
        var one, more, deeper := RequireModule(names[i], dir);
        RequiringNext(world, names, i, dir, old(imported), before, imported, order, depths, added, more, deeper, one);
        added := added + one;
        order, depths := order + more, depths + deeper;
      }
      Whole(names);
    }
  }

  // ---- Whole programs ----

  /** The files reached from the entry, each once and the entry last, a file after what it
      requires unless that leads back to it. Each was loaded through `depths` files, from the
      entry to the file itself. */
  ghost predicate LoadOrder(w: World, entry: string, order: seq<string>, depths: seq<nat>) {
    && NoDuplicates(order) && order != [] && order[|order| - 1] == entry
    && order == DepthFirst(Requires(w), [entry], {}, true)
    && |depths| == |order| && depths[|order| - 1] == 1
    && (forall f :: f in order <==> Reaches(Requires(w), entry, f))
    && (forall f | f in order :: f in w.files)
    && (forall i | 0 <= i < |order| :: FromTargets(w, [entry], order[i], depths[i]))
    && RequiredFirst(w, {}, order)
  }

  /** Some require of a file reached from the entry resolves to nothing. */
  ghost predicate Missing(w: World, entry: string) {
    exists f | f in w.files && Reaches(Requires(w), entry, f) :: Unresolved(w, NamesOf(w, f), w.parent(f))
  }

  ghost predicate LoadedAs(w: World, out: seq<Form>, entry: string, order: seq<string>, depths: seq<nat>) {
    LoadOrder(w, entry, order, depths) && out == Contents(w, order, depths) && Leaves(out) == AllKept(w, order)
  }

  /** From one entry file, cyclic requires included, exactly the files it reaches are loaded.
      Each contributes once, what it requires first, opened once more for each file it was loaded
      through, and the load fails exactly when some require among them resolves to nothing. The
      cycle test never fires. */
  method LoadProgram(world: World, entry: string) returns (out: seq<Form>, failed: bool)
    requires entry in world.files
    ensures exists order, depths :: LoadedAs(world, out, entry, order, depths)
    ensures failed <==> Missing(world, entry)
  {
    var loader := new Loader(world);
    var forms := loader.LoadFile(entry);
    ghost var order, depths;
    out, order, depths := loader.ProcessRequires(forms, world.parent(entry));
    out := Flatten(out);
    failed := loader.loadFailed;
    EntryLoaded(world, entry, loader.imported, order, depths);
  }

  lemma EntryLoaded(w: World, entry: string, after: set<string>, order: seq<string>, depths: seq<nat>)
    requires entry in w.files
    requires Loads(w, Targets(w, NamesOf(w, entry), w.parent(entry)), {} + {entry}, after, order, depths)
    ensures LoadedAs(w, Flatten(Contents(w, order, depths) + Rest(Flatten(w.files[entry]))), entry,
                     order + [entry], Deeper(depths + [0]))
    ensures Unresolved(w, NamesOf(w, entry), w.parent(entry)) || AnyUnresolved(w, order) <==> Missing(w, entry)
  {
    RequireFile(w, entry, {}, after, order, depths);
    ContentsLeaves(w, order + [entry], Deeper(depths + [0]));
    LoadedAll(w, entry, after, order + [entry], Deeper(depths + [0]));
    SameMissing(w, entry, order + [entry], Deeper(depths + [0]));
  }

  lemma SameMissing(w: World, entry: string, order: seq<string>, depths: seq<nat>)
    requires LoadOrder(w, entry, order, depths)
    ensures AnyUnresolved(w, order) <==> Missing(w, entry)
  {
  }

  lemma LoadedAll(w: World, entry: string, after: set<string>, order: seq<string>, depths: seq<nat>)
    requires Loads(w, [entry], {}, after, order, depths)
    ensures forall f :: f in order <==> Reaches(Requires(w), entry, f)
  {
    var g := Requires(w);
    forall f | f in order ensures Reaches(g, entry, f) {
      var i :| 0 <= i < |order| && order[i] == f;
      assert FromTargets(w, [entry], order[i], depths[i]);
    }
    assert entry in [entry];
    forall f | Reaches(g, entry, f) ensures f in order {
      ClosedContains(g, after, entry, f);
    }
  }

  lemma {:induction false} RestHasNone(flat: seq<Form>)
    ensures forall x | x in Rest(flat) :: !x.Require? && !x.Provide?
  {
    if flat == [] {
    } else {
      RestHasNone(flat[1..]);
    }
  }

  /** What the i-th file loaded contributes. */
  function Contribution(w: World, order: seq<string>, depths: seq<nat>, i: nat): seq<Form>
    requires i < |order| == |depths| && order[i] in w.files
  {
    FlattenTimes(depths[i], Rest(Flatten(w.files[order[i]])))
  }

  /** Whatever the graph, a required file that does not itself require the requiring one has
      all its forms ahead of all of that one's. */
  lemma RequiredPrecedes(w: World, entry: string, order: seq<string>, depths: seq<nat>, i: nat, d: string)
    returns (j: nat, a: seq<Form>, b: seq<Form>, c: seq<Form>)
    requires LoadOrder(w, entry, order, depths) && i < |order|
    requires d in Succ(Requires(w), order[i]) && !Reaches(Requires(w), d, order[i])
    ensures j < i && order[j] == d && order[j] in w.files && order[i] in w.files
    ensures Contents(w, order, depths) ==
            a + Contribution(w, order, depths, j) + b + Contribution(w, order, depths, i) + c
  {
    j :| 0 <= j < i && order[j] == d;
    var front, ds := order[..i], depths[..i];
    assert front[j] == d && front[..j] == order[..j] && ds[..j] == depths[..j];
    ContentsAround(w, order, depths, i);
    ContentsAround(w, front, ds, j);
    a := Contents(w, order[..j], depths[..j]);
    b, c := Contents(w, front[j + 1..], ds[j + 1..]), Contents(w, order[i + 1..], depths[i + 1..]);
  }

  lemma ContentsAround(w: World, order: seq<string>, depths: seq<nat>, i: nat)
    requires i < |order| == |depths| && order[i] in w.files
    ensures Contents(w, order, depths) ==
            Contents(w, order[..i], depths[..i]) + Contribution(w, order, depths, i) +
            Contents(w, order[i + 1..], depths[i + 1..])
  {
    assert order == order[..i] + order[i..] && depths == depths[..i] + depths[i..];
    ContentsAppend(w, order[..i], depths[..i], order[i..], depths[i..]);
    assert order[i..][0] == order[i] && order[i..][1..] == order[i + 1..];
    assert depths[i..][0] == depths[i] && depths[i..][1..] == depths[i + 1..];
  }

  /** A required file that requires the requiring one closes a cycle, so on an acyclic graph
      the order holds for every require. */
  lemma MutualIsCyclic(g: Graph<string>, f: string, d: string)
    requires d in Succ(g, f) && Reaches(g, d, f)
    ensures Cyclic(g)
  {
    var p :| WalkFrom(g, d, f, p);
    WalkExtend(g, p, d);
    assert Cycle(g, p + [d]);
  }

  /** Sequences are opened one level only: a require two levels down is neither loaded nor
      dropped. */
  lemma NestedRequireStays(names: seq<string>)
    ensures var forms := [Sequence([Sequence([Require(names)])])];
            && Required(Flatten(forms)) == []
            && Rest(Flatten(forms)) == [Sequence([Require(names)])]
  {
    var inner := Sequence([Require(names)]);
    assert Flatten([Sequence([inner])]) == [inner] + Flatten([Sequence([inner])][1..]);
    RequiredOne(inner);
  }

  // ---- The flattening that goes with imports ----

  predicate Directive(x: Form) {
    x.Require? || x.Provide?
  }

  /** x is a directive or holds one at most n sequences deep. */
  predicate HoldsDirective(x: Form, n: nat)
    decreases n
  {
    Directive(x) || (n > 0 && x.Sequence? && exists y | y in x.forms :: HoldsDirective(y, n - 1))
  }

  lemma {:induction false} FlattenMembers(forms: seq<Form>)
    ensures forall y :: y in Flatten(forms) <==>
              exists x | x in forms :: if x.Sequence? then y in x.forms else y == x
  {
    if forms == [] {
    } else {
      FlattenMembers(forms[1..]);
      assert forall x | x in forms :: x == forms[0] || x in forms[1..];
      assert forall x | x in forms[1..] :: x in forms;
      assert forms[0] in forms;
    }
  }

  lemma FlattenHolds(forms: seq<Form>, n: nat)
    ensures (exists y | y in Flatten(forms) :: HoldsDirective(y, n)) <==>
            (exists x | x in forms :: HoldsDirective(x, n + 1))
  {
    FlattenMembers(forms);
    forall y | y in Flatten(forms) && HoldsDirective(y, n) ensures exists x | x in forms :: HoldsDirective(x, n + 1) {
      var x :| x in forms && if x.Sequence? then y in x.forms else y == x;
      if !x.Sequence? { assert Directive(x); }
      assert HoldsDirective(x, n + 1);
    }
    forall x | x in forms && HoldsDirective(x, n + 1) ensures exists y | y in Flatten(forms) :: HoldsDirective(y, n) {
      if x.Sequence? {
        var y :| y in x.forms && HoldsDirective(y, n);
        assert y in Flatten(forms);
      } else {
        assert x in Flatten(forms) && HoldsDirective(x, n);
      }
    }
  }

  /** After n more flattenings a directive stands at top level if and only if the forms held one at
      most n sequences deep. */
  lemma {:induction false} DirectiveLiftedIff(n: nat, forms: seq<Form>)
    ensures (exists y | y in FlattenTimes(n, forms) :: Directive(y)) <==>
            (exists x | x in forms :: HoldsDirective(x, n))
    decreases n
  {
    if n == 0 {
      assert forall x :: HoldsDirective(x, 0) <==> Directive(x);
    } else {
      DirectiveLiftedIff(n - 1, Flatten(forms));
      FlattenHolds(forms, n - 1);
    }
  }

  /** No form the file kept holds a directive at most n sequences deep. */
  predicate Clean(w: World, f: string, n: nat)
    requires f in w.files
  {
    forall x | x in Rest(Flatten(w.files[f])) :: !HoldsDirective(x, n)
  }

  /** So a program is loaded without a directive at top level if and only if no file kept a form
      that holds one as deep as the number of files it was loaded through. */
  lemma {:induction false} NoDirectivesIff(w: World, order: seq<string>, depths: seq<nat>)
    requires |order| == |depths| && forall f | f in order :: f in w.files
    ensures (forall y | y in Contents(w, order, depths) :: !Directive(y)) <==>
            (forall i | 0 <= i < |order| :: Clean(w, order[i], depths[i]))
  {
    if order == [] {
    } else {
      NoDirectivesIff(w, order[1..], depths[1..]);
      DirectiveLiftedIff(depths[0], Rest(Flatten(w.files[order[0]])));
      assert forall i | 0 <= i < |order[1..]| :: order[1..][i] == order[i + 1] && depths[1..][i] == depths[i + 1];
    }
  }

  /** In particular none is left by the expansion of requires, before any imports are processed, and
      none by the whole where no sequence was nested in another. */
  lemma NoDirectives(w: World, order: seq<string>, depths: seq<nat>)
    requires |order| == |depths| && forall f | f in order :: f in w.files
    requires forall i | 0 <= i < |order| :: depths[i] == 0 || Shallow(w.files[order[i]])
    ensures forall x | x in Contents(w, order, depths) :: !x.Require? && !x.Provide?
  {
    forall i | 0 <= i < |order| ensures Clean(w, order[i], depths[i]) {
      var flat := Flatten(w.files[order[i]]);
      RestHasNone(flat);
      FlattenMembers(w.files[order[i]]);
      forall x | x in Rest(flat) ensures !HoldsDirective(x, depths[i]) {
        RestWithin(flat, x);
      }
    }
    NoDirectivesIff(w, order, depths);
  }

  /** No sequence is nested in another. */
  predicate Shallow(forms: seq<Form>) {
    forall x, y | x in forms && x.Sequence? && y in x.forms :: !y.Sequence?
  }

  lemma {:induction false} RestWithin(flat: seq<Form>, x: Form)
    requires x in Rest(flat)
    ensures x in flat
  {
    if x == flat[0] {
    } else {
      RestWithin(flat[1..], x);
    }
  }
}
