/** The escape analyzer as the compiler runs it: a table that is updated in place. */
module EscapePass {
  import opened EscapeAnalysis
  import opened EscapeRounds
  import opened EscapeTheorems

  /** The table in a round that started from `before` and has updated the entries below i. */
  ghost predicate Partway(g: seq<Node>, before: seq<Kind>, now: seq<Kind>, i: nat, changed: bool) {
    && i <= |g| == |before| == |now|
    && Sweep(g, now, i) == Round(g, before)
    && now[i..] == before[i..]
    && (changed <==> now[..i] != before[..i])
  }

  lemma PartwayStep(g: seq<Node>, before: seq<Kind>, now: seq<Kind>, i: nat, changed: bool)
    requires Partway(g, before, now, i, changed) && i < |g|
    ensures var kind := NewKind(g, now, i); Partway(g, before, now[i := kind], i + 1, changed || kind != now[i])
  {
    var next := now[i := NewKind(g, now, i)];
    assert now[i] == now[i..][0] == before[i..][0];
    assert next[i + 1..] == now[i..][1..] == before[i..][1..] == before[i + 1..];
    assert next[..i + 1] == now[..i] + [next[i]] && before[..i + 1] == before[..i] + [now[i]];
    assert next[..i + 1][..i] == now[..i] && before[..i + 1][..i] == before[..i];
    assert next[..i + 1][i] == next[i] && before[..i + 1][i] == now[i];
  }

  lemma ComputedLevels(g: seq<Node>, kinds: seq<Kind>)
    requires kinds == Iterate(g, Start(g), MAX_ITERATIONS)
    ensures forall i | 0 <= i < |g| :: IsLevelWithin(g, i, MAX_ITERATIONS, kinds[i])
    ensures |g| <= MAX_ITERATIONS ==> forall i | 0 <= i < |g| :: IsLevel(g, i, kinds[i])
  {
    forall i | 0 <= i < |g| ensures IsLevelWithin(g, i, MAX_ITERATIONS, kinds[i]) {
      KindIs(g, MAX_ITERATIONS, i);
    }
    if |g| <= MAX_ITERATIONS {
      forall i | 0 <= i < |g| ensures IsLevel(g, i, kinds[i]) {
        ReachesLevel(g, MAX_ITERATIONS, i);
      }
    }
  }

  class EscapeAnalyzer {
    const graph: seq<Node>
    const kinds: array<Kind>
    const strategies: array<Strategy>

    ghost predicate Valid()
      reads this
    {
      kinds.Length == strategies.Length == |graph|
    }

    constructor (graph: seq<Node>)
      ensures Valid() && this.graph == graph && fresh(kinds) && fresh(strategies)
      ensures kinds[..] == Start(graph)
    {
      this.graph := graph;
      kinds := new Kind[|graph|](i => NO_ESCAPE);
      strategies := new Strategy[|graph|](i => STACK);
    }

    method ComputeEscapeKinds()
      requires Valid()
      modifies kinds
      ensures kinds[..] == Iterate(graph, old(kinds[..]), MAX_ITERATIONS)
      ensures old(kinds[..]) == Start(graph) ==>
                forall i | 0 <= i < |graph| :: IsLevelWithin(graph, i, MAX_ITERATIONS, kinds[i])
      ensures old(kinds[..]) == Start(graph) && |graph| <= MAX_ITERATIONS ==>
                forall i | 0 <= i < |graph| :: IsLevel(graph, i, kinds[i])
    {
      var changed, iterations := true, 0;
      while changed && iterations < MAX_ITERATIONS
        invariant 0 <= iterations <= MAX_ITERATIONS
        invariant Iterate(graph, old(kinds[..]), MAX_ITERATIONS) ==
                  if changed then Iterate(graph, kinds[..], MAX_ITERATIONS - iterations) else kinds[..]
        decreases MAX_ITERATIONS - iterations
      {
        iterations := iterations + 1;
        changed := UpdateAll();
      }
      if old(kinds[..]) == Start(graph) {
        ComputedLevels(graph, kinds[..]);
      }
    }

    /** Both phases, from the initial table. */
    method Analyze()
      requires Valid() && kinds[..] == Start(graph)
      modifies kinds, strategies
      ensures forall i | 0 <= i < |graph| ::
                && IsLevelWithin(graph, i, MAX_ITERATIONS, kinds[i])
                && strategies[i] == StrategyFor(kinds[i])
      ensures |graph| <= 100 ==> forall i | 0 <= i < |graph| :: AllocatedBy(graph, i, strategies[i])
    {
      ComputeEscapeKinds();
      DetermineAllocationStrategies();
      if |graph| <= 100 {
        forall i | 0 <= i < |graph| ensures AllocatedBy(graph, i, strategies[i]) {
          AllocationIff(graph, i);
        }
      }
    }

    /** One round; reports whether it changed anything. */
    method UpdateAll() returns (changed: bool)
      requires Valid()
      modifies kinds
      ensures kinds[..] == Round(graph, old(kinds[..]))
      ensures changed <==> kinds[..] != old(kinds[..])
    {
      changed := false;
      ghost var before := kinds[..];
      for i := 0 to |graph|
        invariant Partway(graph, before, kinds[..], i, changed)
      {
        ghost var now := kinds[..];
        var updated := UpdateOne(i);
        PartwayStep(graph, before, now, i, changed);
        changed := changed || updated;
      }
      assert kinds[..][..|graph|] == kinds[..] && before[..|graph|] == before;
    }

    method UpdateOne(i: nat) returns (updated: bool)
      requires Valid() && i < |graph|
      modifies kinds
      ensures kinds[..] == old(kinds[..])[i := NewKind(graph, old(kinds[..]), i)]
      ensures updated <==> kinds[i] != old(kinds[i])
    {
      var kind := NewKind(graph, kinds[..], i);
      updated := kind != kinds[i];
      if updated { kinds[i] := kind; }
    }

    method DetermineAllocationStrategies()
      requires Valid()
      modifies strategies
      ensures forall i | 0 <= i < |graph| :: strategies[i] == StrategyFor(kinds[i])
    {
      for i := 0 to |graph|
        invariant forall j | 0 <= j < i :: strategies[j] == StrategyFor(kinds[j])
      {
        strategies[i] := StrategyFor(kinds[i]);
      }
    }
  }
}
