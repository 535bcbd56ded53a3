/** Escape propagation: an in-place fixed-point iteration, capped at 100 rounds, over the graph
    of values and the values they flow into. */
module EscapeAnalysis {
  import opened Graphs

  /** NO_ESCAPE, RETURN_ESCAPE, CLOSURE_ESCAPE and GLOBAL_ESCAPE, in the order `max` uses. */
  type Kind = k: nat | k <= 3

  const NO_ESCAPE: Kind := 0
  const RETURN_ESCAPE: Kind := 1
  const CLOSURE_ESCAPE: Kind := 2
  const GLOBAL_ESCAPE: Kind := 3

  datatype Strategy = STACK | REGION | SHARED

  const MAX_ITERATIONS: nat := 100

  /** A value by its position in the name-ordered table. A flow target that is not a
      position of the table is one without an entry. */
  datatype Node = Node(stored: bool, captured: bool, returned: bool, flowsTo: seq<int>)

  function Max(a: Kind, b: Kind): Kind {
    if a < b then b else a
  }

  /** What the marks on the value itself say. */
  function Marker(n: Node): Kind {
    if n.stored then GLOBAL_ESCAPE
    else if n.captured then CLOSURE_ESCAPE
    else if n.returned then RETURN_ESCAPE
    else NO_ESCAPE
  }

  /** The greatest kind among the targets that have an entry, and `base`. */
  function Highest(kinds: seq<Kind>, targets: seq<int>, base: Kind): (r: Kind)
    ensures r >= base && forall t | t in targets && 0 <= t < |kinds| :: r >= kinds[t]
    ensures r == base || exists t | t in targets && 0 <= t < |kinds| :: r == kinds[t]
  {
    if targets == [] then base
    else
      var t := targets[0];
      Highest(kinds, targets[1..], if 0 <= t < |kinds| then Max(base, kinds[t]) else base)
  }

  function NewKind(g: seq<Node>, kinds: seq<Kind>, i: nat): Kind
    requires i < |g| == |kinds|
  {
    Highest(kinds, g[i].flowsTo, Max(kinds[i], Marker(g[i])))
  }

  /** One round from entry i on: every entry is updated in place, so later ones see it. */
  function Sweep(g: seq<Node>, kinds: seq<Kind>, i: nat): (r: seq<Kind>)
    requires i <= |g| == |kinds|
    ensures |r| == |kinds|
    decreases |g| - i
  {
    if i == |g| then kinds else Sweep(g, kinds[i := NewKind(g, kinds, i)], i + 1)
  }

  function Round(g: seq<Node>, kinds: seq<Kind>): (r: seq<Kind>)
    requires |g| == |kinds|
    ensures |r| == |kinds|
  {
    Sweep(g, kinds, 0)
  }

  /** Rounds until one changes nothing, but at most `cap`. */
  function Iterate(g: seq<Node>, kinds: seq<Kind>, cap: nat): (r: seq<Kind>)
    requires |g| == |kinds|
    ensures |r| == |kinds|
    decreases cap
  {
    if cap == 0 || Round(g, kinds) == kinds then kinds else Iterate(g, Round(g, kinds), cap - 1)
  }

  function Start(g: seq<Node>): seq<Kind> {
    seq(|g|, i => NO_ESCAPE)
  }

  function StrategyFor(kind: Kind): Strategy {
    if kind == NO_ESCAPE then STACK else if kind == RETURN_ESCAPE then REGION else SHARED
  }

  /** The flow graph among the values that have an entry. */
  function Flows(g: seq<Node>): Graph<int> {
    map i | 0 <= i < |g| :: Known(g[i].flowsTo, |g|)
  }

  function Known(targets: seq<int>, n: nat): (r: seq<int>)
    ensures forall t :: t in r <==> t in targets && 0 <= t < n
  {
    if targets == [] then []
    else if 0 <= targets[0] < n then [targets[0]] + Known(targets[1..], n)
    else Known(targets[1..], n)
  }
}
