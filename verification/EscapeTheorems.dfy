/** How good the capped iteration is: never above the least fixed point, equal to it for up to
    100 values, short of it on a chain of 101, and which graphs it is exact on. */
module EscapeTheorems {
  import opened Graphs
  import opened EscapeAnalysis
  import opened EscapeRounds

  /** k is the greatest marker among the values i flows into, i included: the least fixed point. */
  ghost predicate IsLevel(g: seq<Node>, i: int, k: Kind) {
    && (exists j :: 0 <= j < |g| && Reaches(Flows(g), i, j) && Marker(g[j]) == k)
    && (forall j | 0 <= j < |g| && Reaches(Flows(g), i, j) :: Marker(g[j]) <= k)
  }

  // ---- Walks need no more nodes than there are values ----

  /** More numbers below n than n repeat one. */
  lemma {:induction false} Pigeonhole(p: seq<int>, n: nat)
    requires |p| > n && forall i | 0 <= i < |p| :: 0 <= p[i] < n
    ensures !NoDuplicates(p)
    decreases n
  {
    assert 0 <= p[0] < n;
    if NoDuplicates(p) {
      if n - 1 !in p {
        Pigeonhole(p, n - 1);
      } else {
        var k :| 0 <= k < |p| && p[k] == n - 1;
        var q := p[..k] + p[k + 1..];
        forall i | 0 <= i < |q| ensures 0 <= q[i] < n - 1 {
          assert q[i] == p[if i < k then i else i + 1];
        }
        forall i, j | 0 <= i < j < |q| ensures q[i] != q[j] {
          assert q[i] == p[if i < k then i else i + 1] && q[j] == p[if j < k then j else j + 1];
        }
        Pigeonhole(q, n - 1);
      }
    }
  }

  /** Cutting the loop between two visits of a node. */
  lemma CutWalk(f: Graph<int>, a: int, b: int, p: seq<int>, i: int, j: int)
    requires WalkFrom(f, a, b, p) && 0 <= i < j < |p| && p[i] == p[j]
    ensures WalkFrom(f, a, b, p[..i] + p[j..])
  {
    var q := p[..i] + p[j..];
    forall k | 0 <= k < |q| - 1 ensures q[k + 1] in Succ(f, q[k]) {
      if k + 1 < i {
        assert p[k + 1] in Succ(f, p[k]);
      } else if k + 1 == i {
        assert p[k + 1] in Succ(f, p[k]) && q[k + 1] == p[j];
      } else {
        var s := k - i + j;
        assert p[s + 1] in Succ(f, p[s]);
      }
    }
  }

  lemma {:induction false} WalkInside(g: seq<Node>, p: seq<int>, i: int)
    requires Walk(Flows(g), p) && 0 <= p[0] < |g| && 0 <= i < |p|
    ensures 0 <= p[i] < |g|
  {
    if i > 0 {
      assert p[(i - 1) + 1] in Succ(Flows(g), p[i - 1]);
    }
  }

  lemma {:induction false} ShortWalk(g: seq<Node>, a: int, b: int, p: seq<int>) returns (q: seq<int>)
    requires WalkFrom(Flows(g), a, b, p) && 0 <= a < |g|
    ensures WalkFrom(Flows(g), a, b, q) && |q| <= |g|
    decreases |p|
  {
    if |p| <= |g| {
      q := p;
    } else {
      forall i | 0 <= i < |p| ensures 0 <= p[i] < |g| { WalkInside(g, p, i); }
      Pigeonhole(p, |g|);
      var i, j :| 0 <= i < j < |p| && p[i] == p[j];
      CutWalk(Flows(g), a, b, p, i, j);
      q := ShortWalk(g, a, b, p[..i] + p[j..]);
    }
  }

  // ---- The theorems ----

  lemma WithinReaches(g: seq<Node>, i: int, rounds: nat, p: seq<int>)
    requires Within(g, i, rounds, p)
    ensures Reaches(Flows(g), i, p[|p| - 1])
  {
    assert WalkFrom(Flows(g), i, p[|p| - 1], p);
  }

  /** A walk of no more nodes than rounds has fewer ascents than rounds. */
  lemma ShortIsWithin(g: seq<Node>, i: int, rounds: nat, p: seq<int>)
    requires Walk(Flows(g), p) && p[0] == i && 0 <= i < |g| && |p| <= rounds
    ensures Within(g, i, rounds, p)
  {
    FewAscents(p);
    forall j | 0 <= j < |p| ensures 0 <= p[j] < |g| {
      WalkInside(g, p, j);
    }
  }

  lemma {:induction false} FewAscents(p: seq<int>)
    requires p != []
    ensures Ascents(p) < |p|
  {
    if |p| == 1 {
    } else {
      FewAscents(p[1..]);
    }
  }

  /** The kind computed for a value is never above its level, whatever the size of the graph. */
  lemma NeverAboveLevel(g: seq<Node>, cap: nat, i: int, level: Kind)
    requires 0 <= i < |g| && IsLevel(g, i, level)
    ensures Iterate(g, Start(g), cap)[i] <= level
  {
    if cap > 0 {
      KindIs(g, cap, i);
      var p :| Within(g, i, cap, p) && EndMarker(g, p) == Iterate(g, Start(g), cap)[i];
      WithinReaches(g, i, cap, p);
    }
  }

  /** With no more values than rounds, every value gets exactly its level. */
  lemma ReachesLevel(g: seq<Node>, cap: nat, i: int)
    requires |g| <= cap && 0 <= i < |g|
    ensures IsLevel(g, i, Iterate(g, Start(g), cap)[i])
  {
    forall j | 0 <= j < |g| && Reaches(Flows(g), i, j) ensures Attained(g, i, cap, Marker(g[j])) {
      var p :| WalkFrom(Flows(g), i, j, p);
      var q := ShortWalk(g, i, j, p);
      ShortIsWithin(g, i, cap, q);
      assert EndMarker(g, q) == Marker(g[j]);
    }
    AttainedIsLevel(g, cap, i);
  }

  /** A value that attains every marker it reaches within the cap gets its level. */
  lemma AttainedIsLevel(g: seq<Node>, cap: nat, i: int)
    requires cap > 0 && 0 <= i < |g|
    requires forall j | 0 <= j < |g| && Reaches(Flows(g), i, j) :: Attained(g, i, cap, Marker(g[j]))
    ensures IsLevel(g, i, Iterate(g, Start(g), cap)[i])
  {
    var r := Iterate(g, Start(g), cap)[i];
    KindIs(g, cap, i);
    var p :| Within(g, i, cap, p) && EndMarker(g, p) == r;
    WithinReaches(g, i, cap, p);
    forall j | 0 <= j < |g| && Reaches(Flows(g), i, j) ensures Marker(g[j]) <= r {
      assert Attained(g, i, cap, Marker(g[j]));
    }
  }

  /** At the analyzer's cap of 100 rounds: for up to 100 values a value allocated on the stack
      flows, transitively, only into values allocated on the stack, and one allocated in a
      region never into a shared one. */
  lemma StackStaysOnStack(g: seq<Node>, i: int, j: int)
    requires |g| <= MAX_ITERATIONS && 0 <= i < |g| && 0 <= j < |g| && Reaches(Flows(g), i, j)
    ensures var r := Iterate(g, Start(g), MAX_ITERATIONS);
            && (StrategyFor(r[i]) == STACK ==> StrategyFor(r[j]) == STACK)
            && (StrategyFor(r[i]) == REGION ==> StrategyFor(r[j]) != SHARED)
  {
    var r := Iterate(g, Start(g), MAX_ITERATIONS);
    ReachesLevel(g, MAX_ITERATIONS, i);
    ReachesLevel(g, MAX_ITERATIONS, j);
    var k :| 0 <= k < |g| && Reaches(Flows(g), j, k) && Marker(g[k]) == r[j];
    ReachesTransitive(Flows(g), i, j, k);
  }

  /** What the marks say: for up to 100 values, a value is shared if and only if it flows,
      transitively, into one that is stored or captured, and on the stack if and only if it flows
      into none that is stored, captured or returned. */
  ghost predicate AllocatedBy(g: seq<Node>, i: int, strategy: Strategy) {
    && (strategy == SHARED <==>
        exists j | 0 <= j < |g| && Reaches(Flows(g), i, j) :: g[j].stored || g[j].captured)
    && (strategy == STACK <==>
        forall j | 0 <= j < |g| && Reaches(Flows(g), i, j) :: !g[j].stored && !g[j].captured && !g[j].returned)
  }

  lemma AllocationIff(g: seq<Node>, i: int)
    requires |g| <= 100 && 0 <= i < |g|
    ensures AllocatedBy(g, i, StrategyFor(Iterate(g, Start(g), MAX_ITERATIONS)[i]))
  {
    KindMeans(g, MAX_ITERATIONS, i);
    forall j | 0 <= j < |g| ensures Leads(g, i, MAX_ITERATIONS, j) <==> Reaches(Flows(g), i, j) {
      LeadsIffReaches(g, i, j, MAX_ITERATIONS);
    }
  }

  lemma LeadsIffReaches(g: seq<Node>, i: int, j: int, rounds: nat)
    requires |g| <= rounds && 0 <= i < |g| && 0 <= j < |g|
    ensures Leads(g, i, rounds, j) <==> Reaches(Flows(g), i, j)
  {
    if Leads(g, i, rounds, j) {
      var p :| Within(g, i, rounds, p) && p[|p| - 1] == j;
      WithinReaches(g, i, rounds, p);
    }
    if Reaches(Flows(g), i, j) {
      var p :| WalkFrom(Flows(g), i, j, p);
      var q := ShortWalk(g, i, j, p);
      ShortIsWithin(g, i, rounds, q);
    }
  }

  // ---- A chain one value too long ----

  /** Values 0 to n - 1, each flowing into the next, the last one stored globally. */
  function Chain(n: nat): seq<Node> {
    seq(n, i => Node(i == n - 1, false, false, [i + 1]))
  }

  /** Exactly the values from `from` on are known to escape. */
  predicate EscapesFrom(kinds: seq<Kind>, from: nat) {
    forall i | 0 <= i < |kinds| :: kinds[i] == if i >= from then GLOBAL_ESCAPE else NO_ESCAPE
  }

  lemma {:induction false} ChainSweep(n: nat, kinds: seq<Kind>, from: nat, i: int)
    requires |kinds| == n && 0 < from <= n && 0 <= i <= n
    requires forall j | 0 <= j < n ::
               kinds[j] == if j >= from || (j == from - 1 && j < i) then GLOBAL_ESCAPE else NO_ESCAPE
    ensures EscapesFrom(Sweep(Chain(n), kinds, i), from - 1)
    decreases n - i
  {
    if i == n {
    } else {
      var g := Chain(n);
      var k := NewKind(g, kinds, i);
      assert g[i].flowsTo == [i + 1];
      assert k == if i >= from - 1 then GLOBAL_ESCAPE else NO_ESCAPE by {
        assert i + 1 in g[i].flowsTo;
      }
      ChainSweep(n, kinds[i := k], from, i + 1);
    }
  }

  /** Each round carries the escape one value back along the chain. */
  lemma {:induction false} ChainIterate(n: nat, kinds: seq<Kind>, from: nat, cap: nat)
    requires |kinds| == n && EscapesFrom(kinds, from) && cap <= from <= n
    ensures EscapesFrom(Iterate(Chain(n), kinds, cap), from - cap)
    decreases cap
  {
    if cap == 0 {
    } else {
      ChainSweep(n, kinds, from, 0);
      var next := Round(Chain(n), kinds);
      assert next[from - 1] != kinds[from - 1];
      ChainIterate(n, next, from - 1, cap - 1);
    }
  }

  lemma {:induction false} ChainReaches(n: nat, i: int)
    requires 0 <= i < n
    ensures Reaches(Flows(Chain(n)), 0, i)
  {
    var f := Flows(Chain(n));
    if i == 0 {
      ReachesItself(f, 0);
    } else {
      ChainReaches(n, i - 1);
      assert i in Chain(n)[i - 1].flowsTo;
      ReachesStep(f, 0, i - 1, i);
    }
  }

  /** With more values than rounds the bound fails: at the cap of 100, on the chain of 101 values,
      the first is allocated on the stack and flows into a shared value. */
  lemma CapMissesLongChain(n: nat, cap: nat)
    requires n > cap
    ensures var g := Chain(n);
            var r := Iterate(g, Start(g), cap);
            && Reaches(Flows(g), 0, n - 1) && Marker(g[n - 1]) == GLOBAL_ESCAPE
            && StrategyFor(r[0]) == STACK && !IsLevel(g, 0, r[0])
            && (cap > 0 ==> StrategyFor(r[n - 1]) == SHARED)
  {
    var g := Chain(n);
    assert EscapesFrom(Start(g), n);
    ChainIterate(n, Start(g), n, cap);
    ChainReaches(n, n - 1);
  }

  /** In particular on the chain of 101 values. */
  lemma MissesChainOf101()
    ensures var g := Chain(101);
            var r := Iterate(g, Start(g), MAX_ITERATIONS);
            Reaches(Flows(g), 0, 100) && g[100].stored && StrategyFor(r[0]) == STACK && StrategyFor(r[100]) == SHARED
  {
    CapMissesLongChain(101, MAX_ITERATIONS);
  }

  /** Every value of g gets exactly its level within the cap. */
  ghost predicate Exact(g: seq<Node>, cap: nat) {
    forall i | 0 <= i < |g| :: IsLevel(g, i, Iterate(g, Start(g), cap)[i])
  }

  /** The capped iteration is exact on all graphs of n values if and only if n is at most the cap. */
  lemma ExactIff(n: nat, cap: nat)
    ensures (forall g: seq<Node> | |g| == n :: Exact(g, cap)) <==> n <= cap
  {
    if n <= cap {
      forall g: seq<Node> | |g| == n ensures Exact(g, cap) {
        forall i | 0 <= i < |g| ensures IsLevel(g, i, Iterate(g, Start(g), cap)[i]) {
          ReachesLevel(g, cap, i);
        }
      }
    } else {
      CapMissesLongChain(n, cap);
      assert !Exact(Chain(n), cap);
    }
  }

  /** On one graph it is exact if and only if whatever marker a value reaches is matched at the end
      of a walk from it with fewer ascents than the cap. */
  lemma ExactGraphIff(g: seq<Node>, cap: nat)
    requires cap > 0
    ensures Exact(g, cap) <==>
            forall i, j | 0 <= i < |g| && 0 <= j < |g| && Reaches(Flows(g), i, j) :: Attained(g, i, cap, Marker(g[j]))
  {
    if Exact(g, cap) {
      forall i, j | 0 <= i < |g| && 0 <= j < |g| && Reaches(Flows(g), i, j) ensures Attained(g, i, cap, Marker(g[j])) {
        assert IsLevel(g, i, Iterate(g, Start(g), cap)[i]);
        KindIs(g, cap, i);
      }
    }
    if forall i, j | 0 <= i < |g| && 0 <= j < |g| && Reaches(Flows(g), i, j) :: Attained(g, i, cap, Marker(g[j])) {
      forall i | 0 <= i < |g| ensures IsLevel(g, i, Iterate(g, Start(g), cap)[i]) {
        AttainedIsLevel(g, cap, i);
      }
    }
  }
}
