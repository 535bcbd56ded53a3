/** Finite directed graphs given by successor lists. A node without a list has no successors. */
module Graphs {

  type Graph<N(==)> = map<N, seq<N>>

  function Succ<N>(g: Graph<N>, n: N): seq<N> {
    if n in g then g[n] else []
  }

  /** Every node that has a list or occurs in one. */
  function Nodes<N>(g: Graph<N>): set<N> {
    g.Keys + set n, d | n in g && d in g[n] :: d
  }

  lemma SuccInNodes<N>(g: Graph<N>, n: N, d: N)
    requires d in Succ(g, n)
    ensures d in Nodes(g)
  {
  }

  predicate NoDuplicates<N(==)>(s: seq<N>) {
    forall i, j | 0 <= i < j < |s| :: s[i] != s[j]
  }

  /** p is not empty and each of its nodes is a successor of the one before. */
  predicate Walk<N(==)>(g: Graph<N>, p: seq<N>) {
    p != [] && forall i | 0 <= i < |p| - 1 :: p[i + 1] in Succ(g, p[i])
  }

  predicate WalkFrom<N(==)>(g: Graph<N>, a: N, b: N, p: seq<N>) {
    Walk(g, p) && p[0] == a && p[|p| - 1] == b
  }

  ghost predicate Reaches<N(!new)>(g: Graph<N>, a: N, b: N) {
    exists p :: WalkFrom(g, a, b, p)
  }

  /** A walk of at least one step back to where it started. */
  predicate Cycle<N(==)>(g: Graph<N>, p: seq<N>) {
    Walk(g, p) && |p| >= 2 && p[0] == p[|p| - 1]
  }

  ghost predicate Cyclic<N(!new)>(g: Graph<N>) {
    exists p :: Cycle(g, p)
  }

  lemma ReachesItself<N(!new)>(g: Graph<N>, a: N)
    ensures Reaches(g, a, a)
  {
    assert WalkFrom(g, a, a, [a]);
  }

  lemma WalkExtend<N>(g: Graph<N>, p: seq<N>, d: N)
    requires p != [] ==> Walk(g, p) && d in Succ(g, p[|p| - 1])
    ensures Walk(g, p + [d])
  {
  }

  lemma ReachesStep<N(!new)>(g: Graph<N>, a: N, b: N, d: N)
    requires Reaches(g, a, b) && d in Succ(g, b)
    ensures Reaches(g, a, d)
  {
    var p :| WalkFrom(g, a, b, p);
    assert WalkFrom(g, a, d, p + [d]);
  }

  lemma ReachesTransitive<N(!new)>(g: Graph<N>, a: N, b: N, c: N)
    requires Reaches(g, a, b) && Reaches(g, b, c)
    ensures Reaches(g, a, c)
  {
    var p :| WalkFrom(g, a, b, p);
    var q :| WalkFrom(g, b, c, q);
    var r := p + q[1..];
    forall i | 0 <= i < |r| - 1 ensures r[i + 1] in Succ(g, r[i]) {
      if i < |p| - 1 {
        assert p[i + 1] in Succ(g, p[i]);
      } else {
        assert r[i] == q[i - |p| + 1] && r[i + 1] == q[i - |p| + 2];
      }
    }
    assert WalkFrom(g, a, c, r);
  }

  predicate Closed<N(==)>(g: Graph<N>, s: set<N>) {
    forall n, d | n in s && d in Succ(g, n) :: d in s
  }

  /** A closed set contains whatever its members reach. */
  lemma {:induction false} ClosedUnderWalk<N>(g: Graph<N>, s: set<N>, p: seq<N>, i: nat)
    requires Closed(g, s) && Walk(g, p) && p[0] in s
    requires i < |p|
    ensures p[i] in s
  {
    if i == 0 {
    } else {
      ClosedUnderWalk(g, s, p, i - 1);
      assert p[(i - 1) + 1] in Succ(g, p[i - 1]);
    }
  }

  lemma ClosedContains<N(!new)>(g: Graph<N>, s: set<N>, a: N, b: N)
    requires Closed(g, s) && a in s && Reaches(g, a, b)
    ensures b in s
  {
    var p :| WalkFrom(g, a, b, p);
    ClosedUnderWalk(g, s, p, |p| - 1);
  }

  // ---- Depth-first order ----

  function Members<N(==)>(s: seq<N>): set<N> {
    set x | x in s
  }

  /** The order of a depth-first search from the targets, from left to right, that skips the nodes
      `seen`. A node comes after what is found below it, or before that. */
  ghost function DepthFirst<N>(g: Graph<N>, targets: seq<N>, seen: set<N>, after: bool): seq<N>
    decreases Nodes(g) + Members(targets) - seen, |targets|
  {
    if targets == [] then []
    else
      var n := targets[0];
      if n in seen then DepthFirst(g, targets[1..], seen, after)
      else
        var below := DepthFirst(g, Succ(g, n), seen + {n}, after);
        var first := if after then below + [n] else [n] + below;
        first + DepthFirst(g, targets[1..], seen + Members(first), after)
  }

  lemma {:induction false} DepthFirstNothing<N>(g: Graph<N>, targets: seq<N>, seen: set<N>, after: bool)
    requires forall t | t in targets :: t in seen
    ensures DepthFirst(g, targets, seen, after) == []
  {
    if targets == [] {
    } else {
      assert targets[0] in targets && forall t | t in targets[1..] :: t in targets;
      DepthFirstNothing(g, targets[1..], seen, after);
    }
  }

  lemma DepthFirstNode<N>(g: Graph<N>, n: N, seen: set<N>, after: bool)
    requires n !in seen
    ensures var below := DepthFirst(g, Succ(g, n), seen + {n}, after);
            DepthFirst(g, [n], seen, after) == if after then below + [n] else [n] + below
  {
    var below := DepthFirst(g, Succ(g, n), seen + {n}, after);
    var first := if after then below + [n] else [n] + below;
    assert [n][1..] == [];
    assert DepthFirst(g, [n], seen, after) == first + DepthFirst(g, [], seen + Members(first), after);
  }

  /** The first target and then the others. */
  lemma DepthFirstCons<N>(g: Graph<N>, n: N, t: seq<N>, a: set<N>, after: bool)
    ensures var first := DepthFirst(g, [n], a, after);
            DepthFirst(g, [n] + t, a, after) == first + DepthFirst(g, t, a + Members(first), after)
  {
    assert ([n] + t)[1..] == t;
    if n in a {
      DepthFirstNothing(g, [n], a, after);
      assert a + Members([]) == a;
    } else {
      DepthFirstNode(g, n, a, after);
    }
  }

  lemma MembersAppend<N>(s: seq<N>, t: seq<N>)
    ensures Members(s + t) == Members(s) + Members(t)
  {
  }

  lemma Associates<N>(s: seq<N>, t: seq<N>, u: seq<N>)
    ensures s + (t + u) == s + t + u
  {
  }

  /** Some targets and then some more. */
  lemma {:induction false} DepthFirstThen<N>(g: Graph<N>, s: seq<N>, t: seq<N>, a: set<N>, b: set<N>, after: bool)
    requires b == a + Members(DepthFirst(g, s, a, after))
    ensures DepthFirst(g, s + t, a, after) == DepthFirst(g, s, a, after) + DepthFirst(g, t, b, after)
    decreases |s|
  {
    if s == [] {
      assert s + t == t && b == a;
    } else {
      assert s == [s[0]] + s[1..] && s + t == [s[0]] + (s[1..] + t);
      var first := DepthFirst(g, [s[0]], a, after);
      var c := a + Members(first);
      var middle := DepthFirst(g, s[1..], c, after);
      DepthFirstCons(g, s[0], s[1..], a, after);
      DepthFirstCons(g, s[0], s[1..] + t, a, after);
      MembersAppend(first, middle);
      DepthFirstThen(g, s[1..], t, c, b, after);
      Associates(first, middle, DepthFirst(g, t, b, after));
    }
  }

  /** Every successor of a listed node is listed before it, unless it is one of `known`. */
  predicate DependenciesFirst<N(==)>(g: Graph<N>, order: seq<N>, known: set<N>) {
    forall i, d {:trigger d in Succ(g, order[i])} | 0 <= i < |order| && d in Succ(g, order[i]) ::
      d in known || d in order[..i]
  }

  /** A graph whose nodes can all be listed dependencies first has no cycle. */
  lemma OrderedIsAcyclic<N(!new)>(g: Graph<N>, order: seq<N>)
    requires NoDuplicates(order) && DependenciesFirst(g, order, {})
    requires forall n | n in g && g[n] != [] :: n in order
    ensures !Cyclic(g)
  {
    forall p | Cycle(g, p) ensures false {
      assert p[0 + 1] in Succ(g, p[0]);
      assert p[0] in order;
      var i :| 0 <= i < |order| && order[i] == p[0];
      Descends(g, order, p, i, |p| - 1);
    }
  }

  lemma {:induction false} Descends<N>(g: Graph<N>, order: seq<N>, p: seq<N>, i: nat, k: nat)
    requires NoDuplicates(order) && DependenciesFirst(g, order, {})
    requires Walk(g, p) && i < |order| && order[i] == p[0] && 0 < k < |p|
    ensures p[k] in order[..i]
  {
    assert p[(k - 1) + 1] in Succ(g, p[k - 1]);
    if k == 1 {
      assert p[k] in Succ(g, order[i]);
    } else {
      Descends(g, order, p, i, k - 1);
      var j :| 0 <= j < i && order[j] == p[k - 1];
      assert p[k] in Succ(g, order[j]);
      assert p[k] in order[..j];
    }
  }
}
