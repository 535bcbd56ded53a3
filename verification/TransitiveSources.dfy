/** The two walks over the files a compilation reads: one collects their bytes for the cache
    key, the other their paths for the depfile. */
module TransitiveSources {
  import opened Graphs

  /** Canonical files with their bytes, and the files each one's text refers to. */
  datatype Disk = Disk(bytes: map<string, string>, refs: Graph<string>) {

    /** A file that cannot be read counts as empty. */
    function Bytes(f: string): string {
      if f in bytes then bytes[f] else ""
    }

    /** An empty file is not scanned. */
    function Links(): Graph<string> {
      map f | f in refs && Bytes(f) != "" :: refs[f]
    }
  }

  /** A file leads to another if and only if it can be read, is not empty and refers to it. */
  lemma LinksIff(disk: Disk, f: string, d: string)
    ensures d in Succ(disk.Links(), f) <==>
            f in disk.refs && d in disk.refs[f] && f in disk.bytes && disk.bytes[f] != ""
  {
    assert Succ(disk.Links(), f) == if f in disk.Links() then disk.Links()[f] else [];
  }

  /** after adds to before files reached from f, each with its references. */
  ghost predicate Explored(g: Graph<string>, f: string, before: set<string>, after: set<string>) {
    && before <= after && f in after
    && (forall n | n in after - before :: Reaches(g, f, n))
    && (forall n, d | n in after - before && d in Succ(g, n) :: d in after)
  }

  /** Starting from nothing, that is exactly the files reached from f. */
  lemma ExploredAll(g: Graph<string>, f: string, after: set<string>)
    requires Explored(g, f, {}, after)
    ensures forall n :: n in after <==> Reaches(g, f, n)
  {
    assert after - {} == after;
    forall n | Reaches(g, f, n) ensures n in after {
      ClosedContains(g, after, f, n);
    }
  }

  /** What is left to visit below f. */
  ghost function Unseen(g: Graph<string>, f: string, seen: set<string>): set<string> {
    Nodes(g) + {f} - seen
  }

  /** The exploration of f while its references are visited in turn. */
  ghost predicate Exploring(g: Graph<string>, f: string, before: set<string>, now: set<string>, i: nat) {
    && i <= |Succ(g, f)| && f !in before
    && before <= now && f in now
    && (forall n | n in now - before :: Reaches(g, f, n))
    && (forall n, d | n in now - before && n != f && d in Succ(g, n) :: d in now)
    && (forall j | 0 <= j < i :: Succ(g, f)[j] in now)
  }

  lemma ExploreStart(g: Graph<string>, f: string, before: set<string>)
    requires f !in before
    ensures Exploring(g, f, before, before + {f}, 0)
  {
    ReachesItself(g, f);
  }

  lemma ExploreNext(g: Graph<string>, f: string, before: set<string>, now: set<string>, later: set<string>, i: nat)
    requires Exploring(g, f, before, now, i) && i < |Succ(g, f)|
    requires Explored(g, Succ(g, f)[i], now, later)
    ensures Exploring(g, f, before, later, i + 1)
  {
    var d := Succ(g, f)[i];
    ReachesItself(g, f);
    ReachesStep(g, f, f, d);
    forall n | n in later - before ensures Reaches(g, f, n) {
      if n in later - now {
        ReachesTransitive(g, f, d, n);
      }
    }
  }

  lemma ExploreEnd(g: Graph<string>, f: string, before: set<string>, now: set<string>)
    requires Exploring(g, f, before, now, |Succ(g, f)|)
    ensures Explored(g, f, before, now)
  {
  }

  lemma UnseenShrinks(g: Graph<string>, f: string, before: set<string>, now: set<string>, i: nat)
    requires f !in before && before <= now && f in now && i < |Succ(g, f)|
    ensures Unseen(g, Succ(g, f)[i], now) < Unseen(g, f, before)
  {
    SuccInNodes(g, f, Succ(g, f)[i]);
  }

  /** The walk behind the run-cache key and the native-link discovery. */
  class SourceCollector {
    const disk: Disk
    var sources: map<string, string>

    constructor (disk: Disk)
      ensures this.disk == disk && sources == map[]
    {
      this.disk := disk;
      sources := map[];
    }

    method Collect(f: string)
      modifies this
      ensures Explored(disk.Links(), f, old(sources.Keys), sources.Keys)
      ensures forall n | n in sources :: sources[n] == if n in old(sources) then old(sources)[n] else disk.Bytes(n)
      decreases Unseen(disk.Links(), f, sources.Keys)
    {
      if f in sources { return; }
      sources := sources[f := ""];
      var text := disk.Bytes(f);
      sources := sources[f := text];
      ghost var g, before := disk.Links(), old(sources.Keys);
      assert sources.Keys == before + {f};
      ExploreStart(g, f, before);
      var refs := if text == "" || f !in disk.refs then [] else disk.refs[f];
      for i := 0 to |refs|
        invariant Exploring(g, f, before, sources.Keys, i)
        invariant forall n | n in sources :: sources[n] == if n in before then old(sources)[n] else disk.Bytes(n)
      {
        ghost var now := sources.Keys;
        UnseenShrinks(g, f, before, now, i);
        Collect(refs[i]);
        ExploreNext(g, f, before, now, sources.Keys, i);
      }
      ExploreEnd(g, f, before, sources.Keys);
    }
  }

  /** The order once the first i references of the file last in `start` were followed. */
  ghost predicate Followed(g: Graph<string>, refs: seq<string>, i: nat, start: seq<string>, order: seq<string>) {
    i <= |refs| && order == start + DepthFirst(g, refs[..i], Members(start), false)
  }

  lemma FollowNext(g: Graph<string>, refs: seq<string>, i: nat, start: seq<string>, order: seq<string>)
    requires i < |refs| && Followed(g, refs, i, start, order)
    ensures Followed(g, refs, i + 1, start, order + DepthFirst(g, [refs[i]], Members(order), false))
  {
    var a, below := Members(start), DepthFirst(g, refs[..i], Members(start), false);
    assert Members(order) == a + Members(below);
    assert refs[..i + 1] == refs[..i] + [refs[i]];
    DepthFirstThen(g, refs[..i], [refs[i]], a, Members(order), false);
  }

  lemma FollowedAll(g: Graph<string>, f: string, before: seq<string>, order: seq<string>)
    requires f !in before && Followed(g, Succ(g, f), |Succ(g, f)|, before + [f], order)
    ensures order == before + DepthFirst(g, [f], Members(before), false)
  {
    var refs := Succ(g, f);
    assert refs[..|refs|] == refs && Members([f]) == {f};
    MembersAppend(before, [f]);
    DepthFirstNode(g, f, Members(before), false);
    Associates(before, [f], DepthFirst(g, refs, Members(before) + {f}, false));
  }

  /** The walk behind the depfile. */
  class PathCollector {
    const disk: Disk
    var order: seq<string>
    var seen: set<string>

    ghost predicate Valid()
      reads this
    {
      NoDuplicates(order) && seen == Members(order)
    }

    constructor (disk: Disk)
      ensures Valid() && this.disk == disk && order == [] && seen == {}
    {
      this.disk := disk;
      order, seen := [], {};
    }

    method Collect(f: string)
      requires Valid()
      modifies this
      ensures Valid() && Explored(disk.Links(), f, old(seen), seen)
      ensures order == old(order) + DepthFirst(disk.Links(), [f], old(seen), false)
      decreases Unseen(disk.Links(), f, seen)
    {
      ghost var g, before := disk.Links(), seen;
      if f in seen {
        DepthFirstNothing(g, [f], before, false);
        return;
      }
      seen := seen + {f};
      order := order + [f];
      ghost var start := order;
      ExploreStart(g, f, before);
      var refs := if disk.Bytes(f) == "" || f !in disk.refs then [] else disk.refs[f];
      for i := 0 to |refs|
        invariant Valid() && Exploring(g, f, before, seen, i) && Followed(g, refs, i, start, order)
      {
        ghost var now := seen;
        UnseenShrinks(g, f, before, now, i);
        FollowNext(g, refs, i, start, order);
        Collect(refs[i]);
        ExploreNext(g, f, before, now, seen, i);
      }
      ExploreEnd(g, f, before, seen);
      FollowedAll(g, f, old(order), order);
    }
  }

  /** From one entry file both walks cover the same files, those reached from it; the paths
      come once each in the order of the search, so with the entry first. */
  method CollectBoth(disk: Disk, entry: string) returns (sources: map<string, string>, order: seq<string>)
    ensures forall f :: f in sources <==> Reaches(disk.Links(), entry, f)
    ensures forall f :: f in order <==> f in sources
    ensures NoDuplicates(order) && order != [] && order[0] == entry
    ensures order == DepthFirst(disk.Links(), [entry], {}, false)
    ensures forall f | f in sources :: sources[f] == if f in disk.bytes then disk.bytes[f] else ""
  {
    sources := CollectSources(disk, entry);
    order := CollectPaths(disk, entry);
    EntryFirst(disk.Links(), entry);
  }

  method CollectSources(disk: Disk, entry: string) returns (sources: map<string, string>)
    ensures forall f :: f in sources <==> Reaches(disk.Links(), entry, f)
    ensures forall f | f in sources :: sources[f] == disk.Bytes(f)
  {
    var collector := new SourceCollector(disk);
    collector.Collect(entry);
    ExploredAll(disk.Links(), entry, collector.sources.Keys);
    sources := collector.sources;
  }

  method CollectPaths(disk: Disk, entry: string) returns (order: seq<string>)
    ensures NoDuplicates(order) && forall f :: f in order <==> Reaches(disk.Links(), entry, f)
    ensures order == DepthFirst(disk.Links(), [entry], {}, false)
  {
    var collector := new PathCollector(disk);
    collector.Collect(entry);
    ExploredAll(disk.Links(), entry, collector.seen);
    order := collector.order;
    assert [] + DepthFirst(disk.Links(), [entry], {}, false) == DepthFirst(disk.Links(), [entry], {}, false);
  }

  lemma EntryFirst(g: Graph<string>, entry: string)
    ensures DepthFirst(g, [entry], {}, false) != [] && DepthFirst(g, [entry], {}, false)[0] == entry
  {
    DepthFirstNode(g, entry, {}, false);
  }
}
