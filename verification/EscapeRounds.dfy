/** What the rounds of the escape iteration have found out, exactly: a round is made in the order of
    the table, so a marker travels back along any number of steps to lower positions in one round,
    but along one step to a higher position only. */
module EscapeRounds {
  import opened Graphs
  import opened EscapeAnalysis

  /** How many steps of p lead to a higher position. */
  function Ascents(p: seq<int>): nat {
    if |p| <= 1 then 0 else (if p[0] < p[1] then 1 else 0) + Ascents(p[1..])
  }

  predicate Inside(g: seq<Node>, p: seq<int>) {
    forall j | 0 <= j < |p| :: 0 <= p[j] < |g|
  }

  /** p is a walk among the values from i on with fewer than `rounds` ascents. */
  predicate Within(g: seq<Node>, i: int, rounds: nat, p: seq<int>) {
    Walk(Flows(g), p) && p[0] == i && Ascents(p) < rounds && Inside(g, p)
  }

  function EndMarker(g: seq<Node>, p: seq<int>): Kind
    requires p != [] && Inside(g, p)
  {
    Marker(g[p[|p| - 1]])
  }

  /** Such a walk from i ends in a marker of at least k. */
  ghost predicate Attained(g: seq<Node>, i: int, rounds: nat, k: Kind) {
    exists p :: Within(g, i, rounds, p) && EndMarker(g, p) >= k
  }

  // ---- Walks ----

  /** A walk starts with a step to a walk that is one shorter. */
  lemma WalkTail(g: seq<Node>, i: int, rounds: nat, p: seq<int>)
    requires Within(g, i, rounds, p) && |p| > 1
    ensures 0 <= i < |g| && 0 <= p[1] < |g| && p[1] in g[i].flowsTo
    ensures if i < p[1] then rounds > 1 && Within(g, p[1], rounds - 1, p[1..]) else Within(g, p[1], rounds, p[1..])
    ensures EndMarker(g, p[1..]) == EndMarker(g, p)
  {
    var q := p[1..];
    assert p[0 + 1] in Succ(Flows(g), p[0]);
    forall j | 0 <= j < |q| - 1 ensures q[j + 1] in Succ(Flows(g), q[j]) {
      assert p[(j + 1) + 1] in Succ(Flows(g), p[j + 1]);
    }
  }

  /** A value has at least what a value it flows into has; a step up costs a round. */
  lemma AttainedStep(g: seq<Node>, i: int, t: int, rounds: nat, k: Kind)
    requires 0 <= i < |g| && t in g[i].flowsTo && 0 <= t < |g| && Attained(g, t, rounds, k)
    ensures Attained(g, i, if i < t then rounds + 1 else rounds, k)
  {
    var q :| Within(g, t, rounds, q) && EndMarker(g, q) >= k;
    var p := [i] + q;
    assert t in Succ(Flows(g), i);
    forall j | 0 <= j < |p| - 1 ensures p[j + 1] in Succ(Flows(g), p[j]) {
      if j > 0 {
        assert q[(j - 1) + 1] in Succ(Flows(g), q[j - 1]);
      }
    }
    assert p[1..] == q;
    assert Within(g, i, if i < t then rounds + 1 else rounds, p);
  }

  lemma AttainedMore(g: seq<Node>, i: int, rounds: nat, more: nat, k: Kind)
    requires Attained(g, i, rounds, k) && rounds <= more
    ensures Attained(g, i, more, k)
  {
    var p :| Within(g, i, rounds, p) && EndMarker(g, p) >= k;
    assert Within(g, i, more, p);
  }

  lemma AttainedHere(g: seq<Node>, i: int, rounds: nat)
    requires 0 <= i < |g| && rounds > 0
    ensures Attained(g, i, rounds, Marker(g[i]))
  {
    assert Within(g, i, rounds, [i]);
  }

  // ---- No more than the walks give ----

  /** k is no more than `rounds` rounds can have brought to i. */
  ghost predicate Justified(g: seq<Node>, i: int, rounds: nat, k: Kind) {
    k == NO_ESCAPE || Attained(g, i, rounds, k)
  }

  /** In the middle of a round: the values before i are a round ahead. */
  ghost predicate AllJustified(g: seq<Node>, kinds: seq<Kind>, rounds: nat, i: int)
    requires |g| == |kinds|
  {
    && (forall j {:trigger Justified(g, j, rounds + 1, kinds[j])} | 0 <= j < i && j < |g| ::
          Justified(g, j, rounds + 1, kinds[j]))
    && (forall j {:trigger Justified(g, j, rounds, kinds[j])} | i <= j < |g| && 0 <= j ::
          Justified(g, j, rounds, kinds[j]))
  }

  lemma NewKindJustified(g: seq<Node>, kinds: seq<Kind>, rounds: nat, i: int)
    requires 0 <= i < |g| == |kinds| && AllJustified(g, kinds, rounds, i)
    ensures Justified(g, i, rounds + 1, NewKind(g, kinds, i))
  {
    var k := NewKind(g, kinds, i);
    assert Justified(g, i, rounds, kinds[i]);
    if k == NO_ESCAPE {
    } else if k == Marker(g[i]) {
      AttainedHere(g, i, rounds + 1);
    } else if k == kinds[i] {
      AttainedMore(g, i, rounds, rounds + 1, k);
    } else {
      var t :| t in g[i].flowsTo && 0 <= t < |kinds| && k == kinds[t];
      assert Justified(g, t, if t < i then rounds + 1 else rounds, k);
      AttainedStep(g, i, t, if t < i then rounds + 1 else rounds, k);
    }
  }

  lemma {:induction false} SweepJustified(g: seq<Node>, kinds: seq<Kind>, rounds: nat, i: int)
    requires 0 <= i <= |g| == |kinds| && AllJustified(g, kinds, rounds, i)
    ensures AllJustified(g, Sweep(g, kinds, i), rounds + 1, 0)
    decreases |g| - i
  {
    if i == |g| {
    } else {
      NewKindJustified(g, kinds, rounds, i);
      SweepJustified(g, kinds[i := NewKind(g, kinds, i)], rounds, i + 1);
    }
  }

  // ---- No less ----

  /** A round puts a value at or above its own marker, its old kind, its targets' old kinds and the
      new kinds of those targets that come before it. */
  predicate Above(g: seq<Node>, was: seq<Kind>, now: seq<Kind>, i: int)
    requires 0 <= i < |g| == |was| == |now|
  {
    && now[i] >= was[i] && now[i] >= Marker(g[i])
    && (forall t | t in g[i].flowsTo && 0 <= t < |g| :: now[i] >= was[t])
    && (forall t | t in g[i].flowsTo && 0 <= t < i :: now[i] >= now[t])
  }

  lemma {:induction false} SweepAbove(g: seq<Node>, was: seq<Kind>, kinds: seq<Kind>, i: int)
    requires 0 <= i <= |g| == |kinds| == |was|
    requires forall j | 0 <= j < |g| :: kinds[j] >= was[j]
    requires forall j | 0 <= j < i :: Above(g, was, kinds, j)
    ensures forall j | 0 <= j < |g| :: Above(g, was, Sweep(g, kinds, i), j)
    decreases |g| - i
  {
    if i == |g| {
    } else {
      var next := kinds[i := NewKind(g, kinds, i)];
      assert Above(g, was, next, i);
      forall j | 0 <= j < i ensures Above(g, was, next, j) {
        assert Above(g, was, kinds, j) && next[j] == kinds[j];
      }
      SweepAbove(g, was, next, i + 1);
    }
  }

  /** Every marker at the end of a walk with fewer than `rounds` ascents has arrived. */
  ghost predicate Arrived(g: seq<Node>, kinds: seq<Kind>, rounds: nat)
    requires |g| == |kinds|
  {
    forall i, p | 0 <= i < |g| && Within(g, i, rounds, p) :: EndMarker(g, p) <= kinds[i]
  }

  lemma {:induction false} RoundArrives(g: seq<Node>, was: seq<Kind>, now: seq<Kind>, rounds: nat, i: int, p: seq<int>)
    requires |g| == |was| == |now| && Arrived(g, was, rounds)
    requires forall j | 0 <= j < |g| :: Above(g, was, now, j)
    requires 0 <= i < |g| && Within(g, i, rounds + 1, p)
    ensures EndMarker(g, p) <= now[i]
    decreases |p|
  {
    assert Above(g, was, now, i);
    if |p| == 1 {
      assert p[|p| - 1] == i;
    } else {
      WalkTail(g, i, rounds + 1, p);
      if i < p[1] {
        assert EndMarker(g, p[1..]) <= was[p[1]];
      } else {
        RoundArrives(g, was, now, rounds, p[1], p[1..]);
      }
    }
  }

  // ---- Both, round after round ----

  /** `kinds` is what `rounds` rounds find out. */
  ghost predicate Tracks(g: seq<Node>, kinds: seq<Kind>, rounds: nat)
    requires |g| == |kinds|
  {
    AllJustified(g, kinds, rounds, 0) && Arrived(g, kinds, rounds)
  }

  lemma RoundTracks(g: seq<Node>, kinds: seq<Kind>, rounds: nat)
    requires |g| == |kinds| && Tracks(g, kinds, rounds)
    ensures Tracks(g, Round(g, kinds), rounds + 1)
  {
    var now := Round(g, kinds);
    SweepJustified(g, kinds, rounds, 0);
    SweepAbove(g, kinds, kinds, 0);
    forall i, p | 0 <= i < |g| && Within(g, i, rounds + 1, p) ensures EndMarker(g, p) <= now[i] {
      RoundArrives(g, kinds, now, rounds, i, p);
    }
  }

  /** A fixed point is what any number of further rounds find out. */
  lemma {:induction false} FixedPointTracks(g: seq<Node>, kinds: seq<Kind>, rounds: nat, more: nat)
    requires |g| == |kinds| && Round(g, kinds) == kinds && Tracks(g, kinds, rounds) && rounds <= more
    ensures Tracks(g, kinds, more)
    decreases more - rounds
  {
    if rounds == more {
    } else {
      RoundTracks(g, kinds, rounds);
      FixedPointTracks(g, kinds, rounds + 1, more);
    }
  }

  /** Stopping at a fixed point loses nothing. */
  lemma {:induction false} IterateTracks(g: seq<Node>, kinds: seq<Kind>, cap: nat, rounds: nat, total: nat)
    requires |g| == |kinds| && Tracks(g, kinds, rounds) && total == rounds + cap
    ensures Tracks(g, Iterate(g, kinds, cap), total)
    decreases cap
  {
    if cap == 0 {
    } else if Round(g, kinds) == kinds {
      FixedPointTracks(g, kinds, rounds, total);
    } else {
      RoundTracks(g, kinds, rounds);
      IterateTracks(g, Round(g, kinds), cap - 1, rounds + 1, total);
    }
  }

  /** k is the greatest marker at the end of the walks from i with fewer than `rounds` ascents. */
  ghost predicate IsLevelWithin(g: seq<Node>, i: int, rounds: nat, k: Kind) {
    && (exists p :: Within(g, i, rounds, p) && EndMarker(g, p) == k)
    && (forall p | Within(g, i, rounds, p) :: EndMarker(g, p) <= k)
  }

  /** On any graph and under any positive cap, the kind computed for a value is exactly the greatest
      marker at the end of the walks from it with fewer ascents than the cap. */
  lemma KindIs(g: seq<Node>, cap: nat, i: int)
    requires cap > 0 && 0 <= i < |g|
    ensures IsLevelWithin(g, i, cap, Iterate(g, Start(g), cap)[i])
  {
    var r := Iterate(g, Start(g), cap);
    assert Tracks(g, Start(g), 0);
    IterateTracks(g, Start(g), cap, 0, cap);
    assert Justified(g, i, cap, r[i]);
    AttainedHere(g, i, cap);
    var p :| Within(g, i, cap, p) && (r[i] == NO_ESCAPE || EndMarker(g, p) >= r[i]);
    assert EndMarker(g, p) == r[i];
  }

  // ---- What that means in terms of the marks ----

  /** A walk from i with fewer than `rounds` ascents ends at j. */
  ghost predicate Leads(g: seq<Node>, i: int, rounds: nat, j: int) {
    exists p :: Within(g, i, rounds, p) && p[|p| - 1] == j
  }

  /** Such a walk leads to a value that is stored globally. */
  ghost predicate Stored(g: seq<Node>, i: int, rounds: nat) {
    exists j | 0 <= j < |g| :: Leads(g, i, rounds, j) && g[j].stored
  }

  ghost predicate Captured(g: seq<Node>, i: int, rounds: nat) {
    exists j | 0 <= j < |g| :: Leads(g, i, rounds, j) && g[j].captured
  }

  ghost predicate Returned(g: seq<Node>, i: int, rounds: nat) {
    exists j | 0 <= j < |g| :: Leads(g, i, rounds, j) && g[j].returned
  }

  lemma LeadsBelow(g: seq<Node>, i: int, rounds: nat, k: Kind, j: int)
    requires IsLevelWithin(g, i, rounds, k) && 0 <= j < |g| && Leads(g, i, rounds, j)
    ensures Marker(g[j]) <= k
  {
    var p :| Within(g, i, rounds, p) && p[|p| - 1] == j;
    assert EndMarker(g, p) <= k;
  }

  /** A value escapes globally if and only if it flows into a stored one, through a closure if and
      only if it does not but flows into a captured one, and by a return if and only if it flows
      into a returned one and neither of these. */
  lemma KindMeans(g: seq<Node>, cap: nat, i: int)
    requires cap > 0 && 0 <= i < |g|
    ensures var k := Iterate(g, Start(g), cap)[i];
            && (k == GLOBAL_ESCAPE <==> Stored(g, i, cap))
            && (k == CLOSURE_ESCAPE <==> !Stored(g, i, cap) && Captured(g, i, cap))
            && (k == RETURN_ESCAPE <==> !Stored(g, i, cap) && !Captured(g, i, cap) && Returned(g, i, cap))
  {
    var k := Iterate(g, Start(g), cap)[i];
    KindIs(g, cap, i);
    var p :| Within(g, i, cap, p) && EndMarker(g, p) == k;
    assert Leads(g, i, cap, p[|p| - 1]);
    forall j | 0 <= j < |g| && Leads(g, i, cap, j) ensures Marker(g[j]) <= k {
      LeadsBelow(g, i, cap, k, j);
    }
  }
}
