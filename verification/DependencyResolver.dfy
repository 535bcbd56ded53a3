/** The module dependency resolver: a three-colour depth-first search with cycle reporting. */
module DependencyResolver {
  import opened Graphs

  datatype ModuleState = UNVISITED | VISITING | VISITED

  function Reversed<T>(s: seq<T>): (r: seq<T>)
    ensures |r| == |s|
    ensures forall i | 0 <= i < |s| :: r[i] == s[|s| - 1 - i]
  {
    if s == [] then [] else Reversed(s[1..]) + [s[0]]
  }

  /** The search so far. `sorted` are the nodes finished and `path` those on the stack; `known`
      and `stale` are the nodes that an earlier search left finished or on its stack. */
  ghost predicate Searching(g: Graph<string>, states: map<string, ModuleState>, sorted: seq<string>,
                            path: seq<string>, known: set<string>, stale: set<string>) {
    && NoDuplicates(sorted) && NoDuplicates(path)
    && (forall n | n in sorted || n in known :: n in states)
    && (forall n | n in path || n in stale :: n in states)
    && (forall n | n in states :: states[n] == VISITED <==> n in sorted || n in known)
    && (forall n | n in states :: states[n] == VISITING <==> n in path || n in stale)
    && (forall n | n in sorted :: n !in known)
    && (forall n | n in path :: n !in stale)
    && (path != [] ==> Walk(g, path))
    && DependenciesFirst(g, sorted, known)
  }

  /** `path` walks the graph and ends on a node that was on the stack. */
  ghost predicate ClosesCycle(g: Graph<string>, path: seq<string>, stale: set<string>) {
    && |path| >= 2 && Walk(g, path)
    && (path[|path| - 1] in path[..|path| - 1] || path[|path| - 1] in stale)
  }

  /** The nodes the search has not met yet. */
  ghost function Unmet(g: Graph<string>, sorted: seq<string>, path: seq<string>, known: set<string>,
                       stale: set<string>): set<string> {
    set n | n in Nodes(g) && n !in sorted && n !in path && n !in known && n !in stale
  }

  lemma UnmetMonotone(g: Graph<string>, sorted: seq<string>, more: seq<string>, path: seq<string>,
                      known: set<string>, stale: set<string>)
    requires sorted <= more
    ensures Unmet(g, more, path, known, stale) <= Unmet(g, sorted, path, known, stale)
  {
    assert forall n | n in sorted :: n in more;
  }

  lemma UnmetShrinks(g: Graph<string>, sorted: seq<string>, more: seq<string>, path: seq<string>,
                     known: set<string>, stale: set<string>, name: string)
    requires sorted <= more
    requires name in Unmet(g, sorted, path, known, stale)
    ensures Unmet(g, more, path + [name], known, stale) < Unmet(g, sorted, path, known, stale)
  {
    assert name in path + [name];
    assert forall n | n in sorted :: n in more;
    assert forall n | n in path :: n in path + [name];
  }

  lemma InPrefix(s: seq<string>, t: seq<string>, x: string)
    requires s <= t
    ensures x in s ==> x in t
  {
  }

  predicate Met(deps: seq<string>, sorted: seq<string>, known: set<string>) {
    forall d | d in deps :: d in sorted || d in known
  }

  lemma MetStays(deps: seq<string>, i: nat, before: seq<string>, sorted: seq<string>, known: set<string>)
    requires i < |deps| && before <= sorted && Met(deps[..i], before, known)
    requires deps[i] in sorted || deps[i] in known
    ensures Met(deps[..i + 1], sorted, known)
  {
    forall d | d in deps[..i + 1] ensures d in sorted || d in known {
      InPrefix(before, sorted, d);
      assert d in deps[..i] || d == deps[i];
    }
  }

  lemma StartVisit(g: Graph<string>, states: map<string, ModuleState>, sorted: seq<string>, path: seq<string>,
                   known: set<string>, stale: set<string>, name: string)
    requires Searching(g, states, sorted, path, known, stale)
    requires name in states && states[name] == UNVISITED
    requires path != [] ==> name in Succ(g, path[|path| - 1])
    ensures Searching(g, states[name := VISITING], sorted, path + [name], known, stale)
  {
    WalkExtend(g, path, name);
  }

  lemma FinishVisit(g: Graph<string>, states: map<string, ModuleState>, sorted: seq<string>, path: seq<string>,
                    known: set<string>, stale: set<string>, name: string)
    requires Searching(g, states, sorted, path + [name], known, stale)
    requires forall d | d in Succ(g, name) :: d in sorted || d in known
    ensures Searching(g, states[name := VISITED], sorted + [name], path, known, stale)
  {
    var longer := path + [name];
    assert longer[|path|] == name;
    assert forall n :: n in longer <==> n in path || n == name;
    assert forall i | 0 <= i < |path| :: longer[i] == path[i];
    assert name !in path;
    assert path != [] ==> Walk(g, path);
    var more := sorted + [name];
    assert forall n :: n in more <==> n in sorted || n == name;
    forall i, d | 0 <= i < |more| && d in Succ(g, more[i]) ensures d in known || d in more[..i] {
      if i < |sorted| {
        assert d in Succ(g, sorted[i]);
        assert more[..i] == sorted[..i];
      } else {
        assert more[..i] == sorted;
      }
    }
  }

  /** Modules recorded on the way start out unvisited. */
  lemma SameSearch(g: Graph<string>, states: map<string, ModuleState>, states': map<string, ModuleState>,
                   sorted: seq<string>, path: seq<string>, known: set<string>, stale: set<string>)
    requires Searching(g, states, sorted, path, known, stale)
    requires states.Keys <= states'.Keys
    requires forall n | n in states' :: states'[n] == if n in states then states[n] else UNVISITED
    ensures Searching(g, states', sorted, path, known, stale)
  {
  }

  lemma {:induction false} ReversedTwice<T>(s: seq<T>)
    ensures Reversed(Reversed(s)) == s
  {
    var r := Reversed(s);
    assert forall i | 0 <= i < |s| :: Reversed(r)[i] == r[|s| - 1 - i] == s[i];
  }

  /** The printed part of a failed search's path is a cycle of the graph. */
  lemma ReportedIsCycle(g: Graph<string>, path: seq<string>, start: nat, stale: set<string>)
    requires ClosesCycle(g, path, stale) && start <= |path|
    requires path[|path| - 1] in path[..|path| - 1] ==> start < |path| - 1 && path[start] == path[|path| - 1]
    ensures path[|path| - 1] in path[..|path| - 1] ==> Cycle(g, path[start..])
  {
    var printed := path[start..];
    forall i | 0 <= i < |printed| - 1 ensures printed[i + 1] in Succ(g, printed[i]) {
      assert path[(start + i) + 1] in Succ(g, path[start + i]);
    }
  }

  /** A first search that reports nothing has listed every node, and the graph has no cycle. */
  lemma ResolvedAll(g: Graph<string>, h: Graph<string>, states: map<string, ModuleState>, sorted: seq<string>)
    requires Searching(g, states, sorted, [], {}, {})
    requires states.Keys == h.Keys && h.Keys <= Nodes(g)
    requires forall n | n in g :: n in sorted
    ensures forall n :: n in Nodes(g) <==> n in Reversed(sorted)
    ensures !Cyclic(g)
    ensures Reversed(sorted) == [] <==> g == map[]
  {
    forall n | n in Nodes(g) ensures n in sorted {
      if n !in g {
        var m :| m in g && n in g[m];
        var i :| 0 <= i < |sorted| && sorted[i] == m;
        assert n in Succ(g, sorted[i]);
      }
    }
    assert forall n | n in sorted :: n in states;
    OrderedIsAcyclic(g, sorted);
    ReversedMembers(sorted);
    assert g == map[] ==> Nodes(g) == {};
    assert sorted != [] ==> sorted[0] in Nodes(g);
    assert sorted == [] ==> forall n :: n !in g;
    assert sorted == [] ==> g == map[];
  }

  lemma ReversedMembers<T>(s: seq<T>)
    ensures forall x :: x in s <==> x in Reversed(s)
  {
    var r := Reversed(s);
    forall x | x in s ensures x in r {
      var i :| 0 <= i < |s| && s[i] == x;
      assert r[|s| - 1 - i] == x;
    }
  }

  lemma ReversedDistinct<T>(s: seq<T>)
    requires NoDuplicates(s)
    ensures NoDuplicates(Reversed(s))
  {
    var r := Reversed(s);
    assert forall i | 0 <= i < |s| :: r[i] == s[|s| - 1 - i];
  }

  /** In the order `Resolve` returns, a module stands before the modules it depends on. */
  lemma DependentsFirst(g: Graph<string>, order: seq<string>, i: nat, j: nat)
    requires NoDuplicates(order) && DependenciesFirst(g, Reversed(order), {})
    requires i < |order| && j < |order| && order[j] in Succ(g, order[i])
    ensures i < j
  {
    var r := Reversed(order);
    var k := |order| - 1 - i;
    var m := Earlier(g, r, k, order[j]);
    assert order[|order| - 1 - m] == r[m];
  }

  /** So that order is dependencies first as well if and only if no module has a dependency. */
  lemma DependenciesFirstIff(g: Graph<string>, order: seq<string>)
    requires NoDuplicates(order) && DependenciesFirst(g, Reversed(order), {})
    ensures DependenciesFirst(g, order, {}) <==> forall n | n in order :: Succ(g, n) == []
  {
    if DependenciesFirst(g, order, {}) {
      forall n | n in order ensures Succ(g, n) == [] {
        var i :| 0 <= i < |order| && order[i] == n;
        if Succ(g, n) != [] {
          var m := Earlier(g, order, i, Succ(g, n)[0]);
          DependentsFirst(g, order, i, m);
          assert false;
        }
      }
    }
  }

  lemma Earlier(g: Graph<string>, order: seq<string>, k: nat, d: string) returns (m: nat)
    requires DependenciesFirst(g, order, {}) && k < |order| && d in Succ(g, order[k])
    ensures m < k && order[m] == d
  {
    assert d in order[..k];
    m :| 0 <= m < k && order[..k][m] == d;
  }

  // ---- The order of the search ----

  /** The modules a search has taken up. */
  function Coloured(states: map<string, ModuleState>): set<string> {
    set n | n in states && states[n] != UNVISITED
  }

  /** A search from the targets that found the modules `seen` taken up has appended to the list what a
      depth-first search finds, each module behind its dependencies, and taken that up. */
  ghost predicate Found(g: Graph<string>, targets: seq<string>, seen: set<string>, sorted: seq<string>,
                        sorted': seq<string>, now: set<string>) {
    var found := DepthFirst(g, targets, seen, true);
    sorted' == sorted + found && now == seen + Members(found)
  }

  lemma FoundNothing(g: Graph<string>, targets: seq<string>, seen: set<string>, sorted: seq<string>)
    requires forall t | t in targets :: t in seen
    ensures Found(g, targets, seen, sorted, sorted, seen)
  {
    DepthFirstNothing(g, targets, seen, true);
  }

  lemma FoundThen(g: Graph<string>, s: seq<string>, t: seq<string>, a: set<string>, b: set<string>, c: set<string>,
                  first: seq<string>, second: seq<string>, third: seq<string>)
    requires Found(g, s, a, first, second, b) && Found(g, t, b, second, third, c)
    ensures Found(g, s + t, a, first, third, c)
  {
    DepthFirstThen(g, s, t, a, b, true);
    MembersAppend(DepthFirst(g, s, a, true), DepthFirst(g, t, b, true));
    Associates(first, DepthFirst(g, s, a, true), DepthFirst(g, t, b, true));
  }

  lemma FoundNext(g: Graph<string>, deps: seq<string>, i: nat, a: set<string>, b: set<string>, c: set<string>,
                  first: seq<string>, second: seq<string>, third: seq<string>)
    requires i < |deps| && Found(g, deps[..i], a, first, second, b) && Found(g, [deps[i]], b, second, third, c)
    ensures Found(g, deps[..i + 1], a, first, third, c)
  {
    assert deps[..i + 1] == deps[..i] + [deps[i]];
    FoundThen(g, deps[..i], [deps[i]], a, b, c, first, second, third);
  }

  /** The order is the reverse of what a depth-first search from these roots finds. */
  ghost predicate Takes(g: Graph<string>, roots: seq<string>, order: seq<string>, seen: set<string>) {
    Members(roots) == g.Keys && Reversed(order) == DepthFirst(g, roots, seen, true)
  }

  ghost predicate InOrderOf(g: Graph<string>, order: seq<string>, seen: set<string>) {
    exists roots :: Takes(g, roots, order, seen)
  }

  lemma TakenUp(states: map<string, ModuleState>, name: string)
    ensures Coloured(states[name := VISITING]) == Coloured(states) + {name}
  {
  }

  lemma FoundNode(g: Graph<string>, n: string, seen: set<string>, sorted: seq<string>, below: seq<string>,
                  now: set<string>)
    requires n !in seen && Found(g, Succ(g, n), seen + {n}, sorted, below, now)
    ensures Found(g, [n], seen, sorted, below + [n], now)
  {
    DepthFirstNode(g, n, seen, true);
    MembersAppend(DepthFirst(g, Succ(g, n), seen + {n}, true), [n]);
    assert Members([n]) == {n};
  }

  lemma FinishFound(g: Graph<string>, states: map<string, ModuleState>, n: string, seen: set<string>,
                    sorted: seq<string>, below: seq<string>)
    requires n !in seen && Found(g, Succ(g, n), seen + {n}, sorted, below, Coloured(states))
    ensures Found(g, [n], seen, sorted, below + [n], Coloured(states[n := VISITED]))
  {
    assert n in Coloured(states);
    assert Coloured(states[n := VISITED]) == Coloured(states);
    FoundNode(g, n, seen, sorted, below, Coloured(states));
  }

  lemma FoundInOrder(g: Graph<string>, roots: seq<string>, seen: set<string>, sorted: seq<string>, now: set<string>)
    requires Members(roots) == g.Keys && Found(g, roots, seen, [], sorted, now)
    ensures InOrderOf(g, Reversed(sorted), seen)
  {
    ReversedTwice(sorted);
    assert Takes(g, roots, Reversed(sorted), seen);
  }

  lemma ReturnedOrder(g: Graph<string>, sorted: seq<string>, known: set<string>, roots: seq<string>,
                      seen: set<string>, now: set<string>)
    requires NoDuplicates(sorted) && DependenciesFirst(g, sorted, known)
    requires Members(roots) == g.Keys && Found(g, roots, seen, [], sorted, now)
    ensures NoDuplicates(Reversed(sorted)) && DependenciesFirst(g, Reversed(Reversed(sorted)), known)
    ensures InOrderOf(g, Reversed(sorted), seen)
  {
    ReversedTwice(sorted);
    ReversedDistinct(sorted);
    FoundInOrder(g, roots, seen, sorted, now);
  }

  /** The modules taken up as roots so far are finished or were taken up before. */
  ghost predicate RootsDone(g: Graph<string>, todo: set<string>, roots: seq<string>, sorted: seq<string>,
                            known: set<string>, stale: set<string>) {
    && todo <= g.Keys && Members(roots) == g.Keys - todo
    && forall n | n in g.Keys - todo :: n in sorted || n in known || n in stale
  }

  lemma RootDone(g: Graph<string>, todo: set<string>, roots: seq<string>, sorted: seq<string>, sorted': seq<string>,
                 known: set<string>, stale: set<string>, name: string)
    requires RootsDone(g, todo, roots, sorted, known, stale) && name in todo && sorted <= sorted'
    requires name in sorted' || name in known || name in stale
    ensures RootsDone(g, todo - {name}, roots + [name], sorted', known, stale)
  {
    MembersAppend(roots, [name]);
    assert Members([name]) == {name} && g.Keys - (todo - {name}) == g.Keys - todo + {name};
    assert forall n | n in sorted :: n in sorted';
  }

  class ModuleDependencyResolver {
    var graph: Graph<string>
    var states: map<string, ModuleState>

    ghost predicate Valid()
      reads this
    {
      states.Keys == graph.Keys
    }

    ghost function InState(s: ModuleState): set<string>
      reads this
    {
      set n | n in states && states[n] == s
    }

    /** No search has run since the last module was added. */
    ghost predicate Fresh()
      reads this
    {
      InState(VISITED) == {} && InState(VISITING) == {}
    }

    constructor ()
      ensures Valid() && Fresh() && graph == map[]
    {
      graph, states := map[], map[];
    }

    /** The first registration of a module wins. */
    method AddModule(name: string, dependencies: seq<string>)
      requires Valid()
      modifies this
      ensures Valid()
      ensures graph == if name in old(graph) then old(graph) else old(graph)[name := dependencies]
      ensures states == if name in old(graph) then old(states) else old(states)[name := UNVISITED]
      ensures old(Fresh()) ==> Fresh()
    {
      if name !in graph {
        graph := graph[name := dependencies];
        states := states[name := UNVISITED];
      }
    }

    /** The object holds the graph g, perhaps with empty entries for modules g only mentions. */
    ghost predicate Holds(g: Graph<string>)
      reads this
    {
      && Valid() && graph.Keys <= Nodes(g)
      && forall n :: Succ(graph, n) == Succ(g, n)
    }

    /** Give a dependency without an entry an empty one. */
    method Ensure(dep: string, ghost g: Graph<string>)
      requires Holds(g) && dep in Nodes(g)
      modifies this
      ensures Holds(g) && graph.Keys == old(graph).Keys + {dep}
      ensures forall n | n in states :: states[n] == if n in old(states) then old(states)[n] else UNVISITED
    {
      if dep !in graph {
        graph := graph[dep := []];
        states := states[dep := UNVISITED];
      }
    }

    /** Visit one unvisited module. */
    method Dfs(name: string, sorted: seq<string>, path: seq<string>,
               ghost g: Graph<string>, ghost known: set<string>, ghost stale: set<string>)
      returns (ok: bool, sorted': seq<string>, path': seq<string>)
      requires Holds(g) && name in states && states[name] == UNVISITED
      requires Searching(g, states, sorted, path, known, stale)
      requires path != [] ==> name in Succ(g, path[|path| - 1])
      modifies this
      ensures Holds(g) && old(graph).Keys <= graph.Keys
      ensures ok ==> path' == path && sorted <= sorted' && name in sorted'
      ensures ok ==> Searching(g, states, sorted', path, known, stale)
      ensures ok ==> Found(g, [name], old(Coloured(states)), sorted, sorted', Coloured(states))
      ensures !ok ==> ClosesCycle(g, path', stale)
      decreases Unmet(g, sorted, path, known, stale), 0
    {
      ghost var seen := Coloured(states);
      StartVisit(g, states, sorted, path, known, stale, name);
      UnmetShrinks(g, sorted, sorted, path, known, stale, name);
      TakenUp(states, name);
      states := states[name := VISITING];
      ok, sorted', path' := VisitDependencies(Succ(graph, name), sorted, path + [name], g, known, stale);
      if ok {
        FinishVisit(g, states, sorted', path, known, stale, name);
        FinishFound(g, states, name, seen, sorted, sorted');
        states := states[name := VISITED];
        sorted' := sorted' + [name];
        path' := path;
      }
    }

    method VisitDependencies(deps: seq<string>, sorted: seq<string>, path: seq<string>,
                             ghost g: Graph<string>, ghost known: set<string>, ghost stale: set<string>)
      returns (ok: bool, sorted': seq<string>, path': seq<string>)
      requires Holds(g) && path != [] && deps == Succ(g, path[|path| - 1])
      requires Searching(g, states, sorted, path, known, stale)
      modifies this
      ensures Holds(g) && old(graph).Keys <= graph.Keys
      ensures ok ==> path' == path && sorted <= sorted' && Met(deps, sorted', known)
      ensures ok ==> Searching(g, states, sorted', path, known, stale)
      ensures ok ==> Found(g, deps, old(Coloured(states)), sorted, sorted', Coloured(states))
      ensures !ok ==> ClosesCycle(g, path', stale)
      decreases Unmet(g, sorted, path, known, stale), 2
    {
      ok, sorted', path' := true, sorted, path;
      FoundNothing(g, [], Coloured(states), sorted);
      for i := 0 to |deps|
        invariant Holds(g) && old(graph).Keys <= graph.Keys
        invariant path' == path && sorted <= sorted'
        invariant Searching(g, states, sorted', path', known, stale)
        invariant Met(deps[..i], sorted', known)
        invariant Found(g, deps[..i], old(Coloured(states)), sorted, sorted', Coloured(states))
        invariant ok
      {
        ghost var before, seen := sorted', Coloured(states);
        UnmetMonotone(g, sorted, sorted', path, known, stale);
        ok, sorted', path' := VisitDependency(deps[i], sorted', path', g, known, stale);
        if !ok { return; }
        MetStays(deps, i, before, sorted', known);
        FoundNext(g, deps, i, old(Coloured(states)), seen, Coloured(states), sorted, before, sorted');
      }
      assert deps[..|deps|] == deps;
    }

    /** One turn of the loop over a module's dependencies. */
    method VisitDependency(dep: string, sorted: seq<string>, path: seq<string>,
                           ghost g: Graph<string>, ghost known: set<string>, ghost stale: set<string>)
      returns (ok: bool, sorted': seq<string>, path': seq<string>)
      requires Holds(g) && path != [] && dep in Succ(g, path[|path| - 1])
      requires Searching(g, states, sorted, path, known, stale)
      modifies this
      ensures Holds(g) && old(graph).Keys <= graph.Keys
      ensures ok ==> path' == path && sorted <= sorted' && (dep in sorted' || dep in known)
      ensures ok ==> Searching(g, states, sorted', path, known, stale)
      ensures ok ==> Found(g, [dep], old(Coloured(states)), sorted, sorted', Coloured(states))
      ensures !ok ==> ClosesCycle(g, path', stale)
      decreases Unmet(g, sorted, path, known, stale), 1
    {
      SuccInNodes(g, path[|path| - 1], dep);
      Ensure(dep, g);
      SameSearch(g, old(states), states, sorted, path, known, stale);
      assert Coloured(states) == old(Coloured(states));
      ok, sorted', path' := true, sorted, path;
      if states[dep] == VISITING {
        WalkExtend(g, path, dep);
        path' := path + [dep];
        ok := false;
      } else if states[dep] == UNVISITED {
        ok, sorted', path' := Dfs(dep, sorted, path, g, known, stale);
      } else {
        FoundNothing(g, [dep], Coloured(states), sorted);
      }
    }

    /** What the error message prints: the path from the first occurrence of its last node. */
    method FormatCycle(path: seq<string>) returns (start: nat, printed: seq<string>)
      ensures start <= |path| && printed == path[start..] && (path != [] ==> printed != [])
      ensures path != [] && path[|path| - 1] in path[..|path| - 1] ==>
                |printed| >= 2 && printed[0] == printed[|printed| - 1]
    {
      start := 0;
      if path == [] { return 0, []; }
      for i := 0 to |path| - 1
        invariant start == 0
        invariant path[|path| - 1] !in path[..i]
      {
        if path[i] == path[|path| - 1] {
          start := i;
          break;
        }
      }
      printed := path[start..];
    }

    /** The nodes in dependents-first order, or nothing and the cycle that was reported. */
    method Resolve() returns (order: seq<string>, reported: seq<string>)
      requires Valid()
      modifies this
      ensures Holds(old(graph))
      ensures reported != [] ==> order == []
      ensures reported != [] && old(InState(VISITING)) == {} ==> Cycle(old(graph), reported)
      ensures reported == [] ==> NoDuplicates(order)
      ensures reported == [] ==> DependenciesFirst(old(graph), Reversed(order), old(InState(VISITED)))
      ensures reported == [] && old(Fresh()) ==> forall n :: n in Nodes(old(graph)) <==> n in order
      ensures reported == [] ==> InOrderOf(old(graph), order, old(Coloured(states)))
      ensures old(Fresh()) ==> (order == [] <==> old(graph) == map[] || Cyclic(old(graph)))
    {
      ghost var g, known, stale := graph, InState(VISITED), InState(VISITING);
      ghost var seen := Coloured(states);
      ghost var roots;
      var ok, sorted, path;
      ok, sorted, path, roots := VisitAll(g, known, stale);
      if !ok {
        order := [];
        var start;
        start, reported := FormatCycle(path);
        ReportedIsCycle(g, path, start, stale);
        return;
      }
      order, reported := Reversed(sorted), [];
      ReturnedOrder(g, sorted, known, roots, seen, Coloured(states));
      if known == {} && stale == {} {
        ResolvedAll(g, graph, states, sorted);
      }
    }

    /** One turn of the loop over all modules. */
    method VisitRoot(name: string, sorted: seq<string>, ghost g: Graph<string>, ghost known: set<string>,
                     ghost stale: set<string>)
      returns (ok: bool, sorted': seq<string>, path: seq<string>)
      requires Holds(g) && name in states && Searching(g, states, sorted, [], known, stale)
      modifies this
      ensures Holds(g) && old(graph).Keys <= graph.Keys
      ensures ok ==> path == [] && sorted <= sorted' && (name in sorted' || name in known || name in stale)
      ensures ok ==> Searching(g, states, sorted', [], known, stale)
      ensures ok ==> Found(g, [name], old(Coloured(states)), sorted, sorted', Coloured(states))
      ensures !ok ==> ClosesCycle(g, path, stale)
    {
      ok, sorted', path := true, sorted, [];
      if states[name] == UNVISITED {
        ok, sorted', path := Dfs(name, sorted, [], g, known, stale);
      } else {
        FoundNothing(g, [name], Coloured(states), sorted);
      }
    }

    /** Search from every module that is still unvisited when its turn comes. */
    method VisitAll(ghost g: Graph<string>, ghost known: set<string>, ghost stale: set<string>)
      returns (ok: bool, sorted: seq<string>, path: seq<string>, ghost roots: seq<string>)
      requires Valid() && g == graph && known == InState(VISITED) && stale == InState(VISITING)
      modifies this
      ensures Holds(g)
      ensures !ok ==> ClosesCycle(g, path, stale)
      ensures ok ==> Searching(g, states, sorted, [], known, stale)
      ensures ok ==> forall n | n in g :: n in sorted || n in known || n in stale
      ensures ok ==> Members(roots) == g.Keys
      ensures ok ==> Found(g, roots, old(Coloured(states)), [], sorted, Coloured(states))
    {
      ok, sorted, path, roots := true, [], [], [];
      FoundNothing(g, [], Coloured(states), []);
      var todo := graph.Keys;
      while todo != {}
        invariant ok && Holds(g) && g.Keys <= graph.Keys
        invariant Searching(g, states, sorted, [], known, stale)
        invariant RootsDone(g, todo, roots, sorted, known, stale)
        invariant Found(g, roots, old(Coloured(states)), [], sorted, Coloured(states))
        decreases todo
      {
        var name :| name in todo;
        ghost var before, seen := sorted, Coloured(states);
        ok, sorted, path := VisitRoot(name, sorted, g, known, stale);
        if !ok { return; }
        FoundThen(g, roots, [name], old(Coloured(states)), seen, Coloured(states), [], before, sorted);
        RootDone(g, todo, roots, before, sorted, known, stale, name);
        todo, roots := todo - {name}, roots + [name];
      }
    }
  }
}
