/**
 * Pruning the directory of cached programs: entries older than thirty days go, and then the
 * least recently written ones until the rest fits in one gibibyte.
 */
module PruneCache {

  type Name = string

  const CAP: nat := 1024 * 1024 * 1024
  const MAX_AGE: nat := 24 * 30 * 3600 * 1_000_000_000
  const WORD: nat := 0x1_0000_0000_0000_0000

  /** A file size as the program holds it, in a machine word. */
  type Size = n: nat | n < WORD

  datatype Entry = Entry(name: Name, size: Size, mtime: int)

  /**
   * What the scan learns of one directory entry: it is no regular file, that question failed, its
   * size and time could not be read, or it is a cached file.  The first failure leaves its error
   * code set, which ends the scan at the next entry.
   */
  datatype Seen = Other | Unreadable | NoTime | Cached(entry: Entry)

  predicate Expired(e: Entry, now: int) {
    now - e.mtime > MAX_AGE
  }

  function KeptOne(seen: Seen, now: int): seq<Entry> {
    if seen.Cached? && !Expired(seen.entry, now) then [seen.entry] else []
  }

  function AgedOne(seen: Seen, now: int): set<Name> {
    if seen.Cached? && Expired(seen.entry, now) then {seen.entry.name} else {}
  }

  /** The entries that the scan keeps for the size limit. */
  function Kept(listing: seq<Seen>, now: int): seq<Entry> {
    if listing == [] || listing[0].Unreadable? then []
    else KeptOne(listing[0], now) + Kept(listing[1..], now)
  }

  /** The names that the scan removes. */
  function Aged(listing: seq<Seen>, now: int): set<Name> {
    if listing == [] || listing[0].Unreadable? then {}
    else AgedOne(listing[0], now) + Aged(listing[1..], now)
  }

  function Sum(es: seq<Entry>): nat {
    if es == [] then 0 else es[0].size + Sum(es[1..])
  }

  function Names(es: seq<Entry>): set<Name> {
    set e <- es :: e.name
  }

  predicate ByTime(es: seq<Entry>) {
    forall i, j | 0 <= i < j < |es| :: es[i].mtime <= es[j].mtime
  }

  /** The entries whose removal succeeds. */
  function Removable(es: seq<Entry>, stuck: set<Name>): seq<Entry> {
    if es == [] then []
    else (if es[0].name in stuck then [] else [es[0]]) + Removable(es[1..], stuck)
  }

  /** The running total after one attempted removal. */
  function Charge(e: Entry, total: nat, stuck: set<Name>): nat {
    if e.name in stuck then total else if e.size > total then 0 else total - e.size
  }

  /** How many of the entries the loop tries to remove. */
  function Tried(es: seq<Entry>, total: nat, stuck: set<Name>): (k: nat)
    ensures k <= |es|
  {
    if es == [] || total <= CAP then 0 else 1 + Tried(es[1..], Charge(es[0], total, stuck), stuck)
  }

  // ---- sums ----

  lemma {:induction false} SumAppend(xs: seq<Entry>, ys: seq<Entry>)
    ensures Sum(xs + ys) == Sum(xs) + Sum(ys)
  {
    if xs == [] {
      assert xs + ys == ys;
    } else {
      SumAppend(xs[1..], ys);
      assert (xs + ys)[1..] == xs[1..] + ys;
    }
  }

  lemma {:induction false} SumRemove(xs: seq<Entry>, i: nat)
    requires i < |xs|
    ensures Sum(xs) == xs[i].size + Sum(xs[..i] + xs[i + 1..])
  {
    SumAppend(xs[..i], xs[i..]);
    SumAppend(xs[..i], xs[i + 1..]);
    assert xs == xs[..i] + xs[i..];
  }

  lemma {:induction false} SumOfPermutation(xs: seq<Entry>, ys: seq<Entry>)
    requires multiset(xs) == multiset(ys)
    ensures Sum(xs) == Sum(ys) && |xs| == |ys|
    decreases |xs|
  {
    assert |multiset(xs)| == |xs| && |multiset(ys)| == |ys|;
    if xs == [] {
    } else {
      assert xs[0] in multiset(xs);
      var i :| 0 <= i < |ys| && ys[i] == xs[0];
      RestIsPermutation(xs, ys, i);
      SumOfPermutation(xs[1..], ys[..i] + ys[i + 1..]);
      SumRemove(ys, i);
    }
  }

  lemma RestIsPermutation(xs: seq<Entry>, ys: seq<Entry>, i: nat)
    requires multiset(xs) == multiset(ys) && xs != [] && i < |ys| && ys[i] == xs[0]
    ensures multiset(xs[1..]) == multiset(ys[..i] + ys[i + 1..])
  {
    assert ys == ys[..i] + [ys[i]] + ys[i + 1..];
    assert xs == [xs[0]] + xs[1..];
    assert multiset(ys) == multiset(ys[..i] + ys[i + 1..]) + multiset{ys[i]};
    assert multiset(xs) == multiset{xs[0]} + multiset(xs[1..]);
    assert multiset(xs[1..]) == multiset(xs) - multiset{xs[0]};
    assert multiset(ys[..i] + ys[i + 1..]) == multiset(ys) - multiset{ys[i]};
  }

  lemma {:induction false} RemovableSum(es: seq<Entry>, stuck: set<Name>)
    ensures Sum(Removable(es, stuck)) <= Sum(es)
    ensures Names(es) !! stuck ==> Removable(es, stuck) == es
  {
    if es == [] {
    } else {
      RemovableSum(es[1..], stuck);
      assert es[0] in es;
      assert forall e <- es[1..] :: e in es;
      SumAppend(if es[0].name in stuck then [] else [es[0]], Removable(es[1..], stuck));
    }
  }

  // ---- the eviction loop ----

  /** The total after the first k attempts, when nothing is clamped. */
  function Remaining(es: seq<Entry>, k: nat, total: int, stuck: set<Name>): int
    requires k <= |es|
  {
    total - Sum(Removable(es[..k], stuck))
  }

  /**
   * With a total of at least the sizes listed, the loop tries a prefix of the list.  It goes on exactly while
   * the exact remaining size is over the limit, so the prefix is the shortest that will do.
   */
  lemma {:induction false} TriedIsShortest(es: seq<Entry>, total: nat, stuck: set<Name>)
    requires Sum(es) <= total
    ensures var k := Tried(es, total, stuck);
            && (k < |es| ==> Remaining(es, k, total, stuck) <= CAP)
            && (forall j | 0 <= j < k :: Remaining(es, j, total, stuck) > CAP)
  {
    if es == [] || total <= CAP {
    } else {
      var rest := Charge(es[0], total, stuck);
      TriedIsShortest(es[1..], rest, stuck);
      var k := Tried(es, total, stuck);
      forall j | 1 <= j <= k
        ensures Remaining(es, j, total, stuck) == Remaining(es[1..], j - 1, rest, stuck)
      {
        RemainingStep(es, j, total, stuck);
      }
      assert Remaining(es, 0, total, stuck) == total;
    }
  }

  lemma RemainingStep(es: seq<Entry>, j: nat, total: nat, stuck: set<Name>)
    requires 1 <= j <= |es| && Sum(es) <= total
    ensures Remaining(es, j, total, stuck) == Remaining(es[1..], j - 1, Charge(es[0], total, stuck), stuck)
  {
    assert es[..j][1..] == es[1..][..j - 1];
    SumAppend(if es[0].name in stuck then [] else [es[0]], Removable(es[..j][1..], stuck));
  }

  /** What the loop removes from a total: nothing within the limit, and otherwise less than an
      entry more than what is over it. */
  lemma {:induction false} RemovedBound(es: seq<Entry>, total: nat, stuck: set<Name>)
    ensures Sum(Removable(es[..Tried(es, total, stuck)], stuck))
         <= if total > CAP then total - CAP - 1 + WORD - 1 else 0
  {
    var k := Tried(es, total, stuck);
    if k == 0 {
      assert es[..0] == [];
    } else {
      RemovedBound(es[1..], Charge(es[0], total, stuck), stuck);
      assert es[..k][1..] == es[1..][..k - 1];
      SumAppend(if es[0].name in stuck then [] else [es[0]], Removable(es[..k][1..], stuck));
    }
  }

  /** Where the sizes add up to a word or more, more than the limit is left whatever fails. */
  lemma WrappedLeavesTooMuch(es: seq<Entry>, stuck: set<Name>)
    requires Sum(es) >= WORD
    ensures Remaining(es, Tried(es, Sum(es) % WORD, stuck), Sum(es), stuck) > CAP
  {
    Unwrap(Sum(es));
    RemovedBound(es, Sum(es) % WORD, stuck);
  }

  lemma Unwrap(n: nat)
    requires n >= WORD
    ensures n >= n % WORD + WORD
  {
    assert n == n / WORD * WORD + n % WORD;
  }

  lemma {:induction false} RemovableMonotone(es: seq<Entry>, j: nat, k: nat, stuck: set<Name>)
    requires j <= k <= |es|
    ensures Sum(Removable(es[..j], stuck)) <= Sum(Removable(es[..k], stuck))
    decreases j
  {
    if j == 0 {
      assert es[..0] == [];
    } else {
      RemovableMonotone(es[1..], j - 1, k - 1, stuck);
      assert es[..j][1..] == es[1..][..j - 1] && es[..k][1..] == es[1..][..k - 1];
      var first := if es[0].name in stuck then [] else [es[0]];
      SumAppend(first, Removable(es[..j][1..], stuck));
      SumAppend(first, Removable(es[..k][1..], stuck));
    }
  }

  /**
   * The loop over the sorted entries, from the total the scan holds: it spares whatever was written
   * after what it tries, and before each attempt too much was left.  If it stops early or no removal
   * fails, what is left is within the limit if and only if the sizes add up to less than a word.
   */
  lemma EvictionIsExact(es: seq<Entry>, stuck: set<Name>)
    requires ByTime(es)
    ensures var k := Tried(es, Sum(es) % WORD, stuck);
            && Spares(es, k)
            && (forall j | 0 <= j < k :: Remaining(es, j, Sum(es), stuck) > CAP)
            && (k < |es| || Names(es) !! stuck ==> (Remaining(es, k, Sum(es), stuck) <= CAP <==> Sum(es) < WORD))
  {
    var k := Tried(es, Sum(es) % WORD, stuck);
    SplitByTime(es, k);
    if Sum(es) < WORD {
      NoWrap(Sum(es));
      TriedIsShortest(es, Sum(es), stuck);
      if Names(es) !! stuck && k == |es| {
        RemovableSum(es, stuck);
        assert es[..|es|] == es;
      }
    } else {
      WrappedLeavesTooMuch(es, stuck);
      forall j | 0 <= j < k ensures Remaining(es, j, Sum(es), stuck) > CAP {
        RemovableMonotone(es, j, k, stuck);
      }
    }
  }

  /** The first k entries were written no later than the others. */
  predicate Spares(es: seq<Entry>, k: nat)
    requires k <= |es|
  {
    forall e <- es[..k], s <- es[k..] :: e.mtime <= s.mtime
  }

  lemma SplitByTime(es: seq<Entry>, k: nat)
    requires ByTime(es) && k <= |es|
    ensures Spares(es, k)
  {
    forall e, s | e in es[..k] && s in es[k..] ensures e.mtime <= s.mtime {
      var i :| 0 <= i < k && es[i] == e;
      var j :| k <= j < |es| && es[j] == s;
    }
  }

  /** The loop's running total after j attempts, clamped at zero as the loop does. */
  function TotalAfter(es: seq<Entry>, j: nat, total: nat, stuck: set<Name>): nat
    requires j <= |es|
  {
    if j == 0 then total else TotalAfter(es[1..], j - 1, Charge(es[0], total, stuck), stuck)
  }

  /** Starting from the sum of the sizes or more, the clamp never takes effect. */
  lemma {:induction false} NeverClamped(es: seq<Entry>, j: nat, total: nat, stuck: set<Name>)
    requires j <= |es| && Sum(es) <= total
    ensures TotalAfter(es, j, total, stuck) == Remaining(es, j, total, stuck)
    decreases j
  {
    if j == 0 {
      assert es[..0] == [];
    } else {
      NeverClamped(es[1..], j - 1, Charge(es[0], total, stuck), stuck);
      RemainingStep(es, j, total, stuck);
    }
  }

  /** While every removal succeeds, the running total is the sum of the sizes of what is left. */
  lemma SurvivorsAddUp(es: seq<Entry>, k: nat)
    requires k <= |es|
    ensures TotalAfter(es, k, Sum(es), {}) == Remaining(es, k, Sum(es), {}) == Sum(es[k..])
  {
    NeverClamped(es, k, Sum(es), {});
    RemainingIsSum(es, k);
  }

  lemma RemainingIsSum(es: seq<Entry>, k: nat)
    requires k <= |es|
    ensures Remaining(es, k, Sum(es), {}) == Sum(es[k..])
  {
    RemovableSum(es[..k], {});
    SumAppend(es[..k], es[k..]);
    assert es[..k] + es[k..] == es;
  }

  // ---- the directory ----

  /** The names gone after a pruning in which the kept entries were sorted as es. */
  function Pruned(listing: seq<Seen>, now: int, es: seq<Entry>, stuck: set<Name>): set<Name> {
    (Aged(listing, now) - stuck)
    + Names(Removable(es[..Tried(es, Sum(es) % WORD, stuck)], stuck))
  }

  /** The i-th directory entry is a cached file of this name, written more than thirty days ago, and
      the scan gets to it. */
  predicate OldAt(listing: seq<Seen>, now: int, name: Name, i: nat) {
    && i < |listing| && listing[i].Cached? && listing[i].entry.name == name
    && now - listing[i].entry.mtime > 2_592_000_000_000_000
    && forall j | 0 <= j < i :: !listing[j].Unreadable?
  }

  /** Exactly the old files the scan gets to go by age. */
  lemma {:induction false} AgedIff(listing: seq<Seen>, now: int, name: Name)
    ensures name in Aged(listing, now) <==> exists i: nat :: OldAt(listing, now, name, i)
  {
    if listing == [] {
    } else if listing[0].Unreadable? {
      assert forall i: nat :: !OldAt(listing, now, name, i);
    } else {
      AgedIff(listing[1..], now, name);
      assert OldAt(listing, now, name, 0) <==> name in AgedOne(listing[0], now);
      forall i: nat | i > 0 ensures OldAt(listing, now, name, i) <==> OldAt(listing[1..], now, name, i - 1) {
        assert i < |listing| ==> listing[i] == listing[1..][i - 1];
        assert forall j | 0 < j < |listing| :: listing[j] == listing[1..][j - 1];
      }
      forall i: nat | OldAt(listing[1..], now, name, i) ensures OldAt(listing, now, name, i + 1) {
      }
    }
  }

  /** Something is evicted for its size if and only if the total the scan holds is more than a
      gibibyte. */
  lemma EvictsIff(es: seq<Entry>, stuck: set<Name>)
    ensures Tried(es, Sum(es) % WORD, stuck) > 0 <==> Sum(es) % WORD > 1_073_741_824
  {
  }

  /** So a cache with no old file, of no more than a gibibyte, is left alone. */
  lemma SmallStays(listing: seq<Seen>, now: int, es: seq<Entry>, stuck: set<Name>)
    requires multiset(es) == multiset(Kept(listing, now)) && Sum(es) <= 1_073_741_824
    requires forall name, i: nat :: !OldAt(listing, now, name, i)
    ensures Pruned(listing, now, es, stuck) == {}
  {
    forall name ensures name !in Aged(listing, now) {
      AgedIff(listing, now, name);
    }
    NoWrap(Sum(es));
    EvictsIff(es, stuck);
    assert es[..0] == [];
  }

  lemma Accumulate(es: seq<Entry>, e: Entry)
    ensures (Sum(es) % WORD + e.size) % WORD == Sum(es + [e]) % WORD
  {
    SumAppend(es, [e]);
    var q := Sum(es) / WORD;
    assert Sum(es) + e.size == Sum(es) % WORD + e.size + q * WORD;
    Wrap(Sum(es) % WORD + e.size, q);
  }

  lemma NoWrap(n: nat)
    requires n < WORD
    ensures n % WORD == n
  {
  }

  lemma {:induction false} Wrap(n: nat, q: nat)
    ensures (n + q * WORD) % WORD == n % WORD
  {
    if q == 0 {
    } else {
      Wrap(n, q - 1);
      assert n + q * WORD == n + (q - 1) * WORD + WORD;
    }
  }

  /** The running total, in a machine word. */
  predicate Totals(es: seq<Entry>, total: nat) {
    total == Sum(es) % WORD
  }

  lemma EvictStep(es: seq<Entry>, i: nat, total: nat, stuck: set<Name>)
    requires i < |es| && total > CAP
    ensures Tried(es[i..], total, stuck) == 1 + Tried(es[i + 1..], Charge(es[i], total, stuck), stuck)
    ensures Names(Removable(es[..i + 1], stuck))
         == Names(Removable(es[..i], stuck)) + (if es[i].name in stuck then {} else {es[i].name})
  {
    assert es[i..][1..] == es[i + 1..];
    RemovableSnoc(es[..i], es[i], stuck);
    assert es[..i + 1] == es[..i] + [es[i]];
    NamesAppend(Removable(es[..i], stuck), if es[i].name in stuck then [] else [es[i]]);
  }

  lemma NamesAppend(xs: seq<Entry>, ys: seq<Entry>)
    ensures Names(xs + ys) == Names(xs) + Names(ys)
  {
    assert forall e <- xs :: e in xs + ys;
    assert forall e <- ys :: e in xs + ys;
  }

  lemma ScanStep(listing: seq<Seen>, i: nat, now: int, kept: seq<Entry>, present: set<Name>, stuck: set<Name>)
    requires i < |listing| && !listing[i].Unreadable?
    ensures kept + Kept(listing[i..], now) == kept + KeptOne(listing[i], now) + Kept(listing[i + 1..], now)
    ensures present - (Aged(listing[i..], now) - stuck)
         == present - (AgedOne(listing[i], now) - stuck) - (Aged(listing[i + 1..], now) - stuck)
  {
    assert listing[i..][1..] == listing[i + 1..];
  }

  class CacheDirectory {
    var present: set<Name>

    /** Whether the file was there and is gone; the removal of a name in stuck fails. */
    method Remove(name: Name, stuck: set<Name>) returns (gone: bool)
      modifies this
      ensures gone <==> name !in stuck
      ensures present == old(present) - (if gone then {name} else {})
    {
      gone := name !in stuck;
      if gone { present := present - {name}; }
    }

    method Scan(listing: seq<Seen>, now: int, stuck: set<Name>) returns (entries: seq<Entry>, total: nat)
      modifies this
      ensures entries == Kept(listing, now) && Totals(entries, total)
      ensures present == old(present) - (Aged(listing, now) - stuck)
    {
      entries, total := [], 0;
      var i := 0;
      assert listing[0..] == listing;
      while i < |listing| && !listing[i].Unreadable?
        invariant 0 <= i <= |listing|
        invariant entries + Kept(listing[i..], now) == Kept(listing, now)
        invariant Totals(entries, total)
        invariant present - (Aged(listing[i..], now) - stuck) == old(present) - (Aged(listing, now) - stuck)
      {
        ghost var kept := entries;
        ghost var before := present;
        entries, total := Consider(listing[i], now, stuck, entries, total);
        ScanStep(listing, i, now, kept, before, stuck);
        i := i + 1;
      }
    }

    /** One turn of the scan. */
    method Consider(seen: Seen, now: int, stuck: set<Name>, kept: seq<Entry>, size: nat)
      returns (entries: seq<Entry>, total: nat)
      requires Totals(kept, size)
      modifies this
      ensures entries == kept + KeptOne(seen, now) && Totals(entries, total)
      ensures present == old(present) - (AgedOne(seen, now) - stuck)
    {
      entries, total := kept, size;
      if seen.Cached? {
        if Expired(seen.entry, now) {
          var _ := Remove(seen.entry.name, stuck);
        } else {
          Accumulate(kept, seen.entry);
          total := (total + seen.entry.size) % WORD;
          entries := entries + [seen.entry];
        }
      }
    }

    /** The removal of the sorted entries while the total is over the limit. */
    method Evict(entries: seq<Entry>, total0: nat, stuck: set<Name>)
      modifies this
      ensures present == old(present) - Names(Removable(entries[..Tried(entries, total0, stuck)], stuck))
    {
      var total: nat, i := total0, 0;
      assert entries[0..] == entries;
      while i < |entries| && total > CAP
        invariant 0 <= i <= |entries|
        invariant Tried(entries, total0, stuck) == i + Tried(entries[i..], total, stuck)
        invariant present == old(present) - Names(Removable(entries[..i], stuck))
      {
        var entry := entries[i];
        EvictStep(entries, i, total, stuck);
        var gone := Remove(entry.name, stuck);
        if gone { total := if entry.size > total then 0 else total - entry.size; }
        i := i + 1;
      }
    }

    /** es is the order in which the kept entries were considered. */
    method Prune(listing: seq<Seen>, now: int, stuck: set<Name>) returns (es: seq<Entry>)
      modifies this
      ensures multiset(es) == multiset(Kept(listing, now)) && Sum(es) == Sum(Kept(listing, now))
      ensures Sum(es) % WORD > CAP ==> ByTime(es)
      ensures present == old(present) - Pruned(listing, now, es, stuck)
      ensures Spares(es, Tried(es, Sum(es) % WORD, stuck))
      ensures stuck == {} ==> (Sum(es[Tried(es, Sum(es) % WORD, stuck)..]) <= CAP <==> Sum(es) < WORD)
    {
      var total;
      es, total := Scan(listing, now, stuck);
      if total > CAP {
        var entries := SortByTime(es);
        SumOfPermutation(entries, es);
        Evict(entries, total, stuck);
        es := entries;
        SplitByTime(es, Tried(es, Sum(es) % WORD, stuck));
      }
      FitsIff(es);
    }
  }

  lemma {:induction false} RemovableSnoc(es: seq<Entry>, e: Entry, stuck: set<Name>)
    ensures Removable(es + [e], stuck) == Removable(es, stuck) + (if e.name in stuck then [] else [e])
  {
    if es == [] {
    } else {
      RemovableSnoc(es[1..], e, stuck);
      assert (es + [e])[1..] == es[1..] + [e];
    }
  }

  /** The library's sort, as an insertion sort. */
  method SortByTime(es: seq<Entry>) returns (sorted: seq<Entry>)
    ensures multiset(sorted) == multiset(es) && ByTime(sorted)
  {
    sorted := [];
    for i := 0 to |es|
      invariant multiset(sorted) == multiset(es[..i]) && ByTime(sorted)
    {
      sorted := Insert(sorted, es[i]);
      assert es[..i + 1] == es[..i] + [es[i]];
    }
    assert es[..|es|] == es;
  }

  method Insert(es: seq<Entry>, e: Entry) returns (r: seq<Entry>)
    requires ByTime(es)
    ensures ByTime(r) && multiset(r) == multiset(es) + multiset{e}
  {
    var k := 0;
    while k < |es| && es[k].mtime <= e.mtime
      invariant 0 <= k <= |es|
      invariant forall i | 0 <= i < k :: es[i].mtime <= e.mtime
    {
      k := k + 1;
    }
    assert es == es[..k] + es[k..];
    r := es[..k] + [e] + es[k..];
  }

  // ---- the whole pruning ----

  /**
   * A pruning in which every removal succeeds evicts the entries written before the ones it leaves,
   * and sparing the last one evicted would have left too much.  What it leaves is within the limit
   * if and only if the sizes add up to less than a machine word.
   */
  lemma PrunedFits(listing: seq<Seen>, now: int, es: seq<Entry>)
    requires multiset(es) == multiset(Kept(listing, now)) && ByTime(es)
    ensures var k := Tried(es, Sum(es) % WORD, {});
            && Pruned(listing, now, es, {}) == Aged(listing, now) + Names(es[..k])
            && (Sum(es[k..]) <= CAP <==> Sum(es) < WORD)
            && Spares(es, k)
            && (k > 0 ==> Sum(es[k - 1..]) > CAP)
  {
    var k := Tried(es, Sum(es) % WORD, {});
    FitsIff(es);
    SplitByTime(es, k);
    RemovableSum(es[..k], {});
    assert Aged(listing, now) - {} == Aged(listing, now);
    if k > 0 {
      NoneTooMany(es, k);
    }
  }

  /** Where the scan saw every current entry, the same holds of all of them: what is left of the
      current entries is within the limit if and only if their sizes add up to less than a word. */
  lemma AllCurrentFit(listing: seq<Seen>, now: int, es: seq<Entry>)
    requires multiset(es) == multiset(Kept(listing, now))
    requires forall i, j | 0 <= i < j < |listing| && listing[i].Unreadable? :: KeptOne(listing[j], now) == []
    ensures var evicted := es[..Tried(es, Sum(es) % WORD, {})];
            var all := Current(listing, now);
            multiset(evicted) <= multiset(all) && (Sum(all) - Sum(evicted) <= CAP <==> Sum(all) < WORD)
  {
    KeptIff(listing, now);
    SumOfPermutation(es, Current(listing, now));
    FitsIff(es);
    PrefixOf(es, Tried(es, Sum(es) % WORD, {}));
  }

  lemma PrefixOf(es: seq<Entry>, k: nat)
    requires k <= |es|
    ensures multiset(es[..k]) <= multiset(es) && Sum(es[k..]) == Sum(es) - Sum(es[..k])
  {
    SumAppend(es[..k], es[k..]);
    assert es == es[..k] + es[k..];
  }

  lemma NoneTooMany(es: seq<Entry>, k: nat)
    requires 0 < k == Tried(es, Sum(es) % WORD, {})
    ensures Sum(es[k - 1..]) > CAP
  {
    if Sum(es) < WORD {
      NoWrap(Sum(es));
      TriedIsShortest(es, Sum(es), {});
      SurvivorsAddUp(es, k - 1);
    } else {
      FitsIff(es);
      assert es[k - 1..] == [es[k - 1]] + es[k..];
    }
  }

  /** From the total the scan holds, the running total is the sum of what is left, however many
      entries were removed, if and only if the sizes add up to less than a word. */
  lemma RunningTotalIff(es: seq<Entry>)
    ensures (forall k | 0 <= k <= |es| :: TotalAfter(es, k, Sum(es) % WORD, {}) == Sum(es[k..])) <==> Sum(es) < WORD
  {
    if Sum(es) < WORD {
      NoWrap(Sum(es));
      forall k | 0 <= k <= |es| ensures TotalAfter(es, k, Sum(es) % WORD, {}) == Sum(es[k..]) {
        SurvivorsAddUp(es, k);
      }
    } else {
      Unwrap(Sum(es));
      assert es[0..] == es;
      assert TotalAfter(es, 0, Sum(es) % WORD, {}) != Sum(es[0..]);
    }
  }

  /** The j-th removal takes a size from a smaller running total, so the guard sets it to zero. */
  predicate GuardedAt(es: seq<Entry>, total: nat, stuck: set<Name>, j: nat)
    requires j < |es|
  {
    es[j].name !in stuck && es[j].size > TotalAfter(es, j, total, stuck)
  }

  ghost predicate Guarded(es: seq<Entry>, total: nat, stuck: set<Name>) {
    exists j | 0 <= j < Tried(es, total, stuck) :: GuardedAt(es, total, stuck, j)
  }

  /** The first k removals bring the total to within the limit without passing zero. */
  predicate Lands(es: seq<Entry>, total: nat, stuck: set<Name>, k: nat)
    requires k <= |es|
  {
    total - CAP <= Sum(Removable(es[..k], stuck)) <= total
  }

  /** The total is over the limit, the sizes exceed it, and no prefix of them lands. */
  ghost predicate Overshoots(es: seq<Entry>, total: nat, stuck: set<Name>) {
    && total > CAP && Sum(Removable(es, stuck)) > total
    && forall k | 0 <= k <= |es| :: !Lands(es, total, stuck, k)
  }

  lemma GuardedStep(es: seq<Entry>, total: nat, stuck: set<Name>)
    requires es != [] && total > CAP
    ensures Guarded(es, total, stuck) <==>
            GuardedAt(es, total, stuck, 0) || Guarded(es[1..], Charge(es[0], total, stuck), stuck)
  {
    var rest := Charge(es[0], total, stuck);
    var k := Tried(es, total, stuck);
    forall j | 1 <= j < k ensures GuardedAt(es, total, stuck, j) <==> GuardedAt(es[1..], rest, stuck, j - 1) {
      assert es[j] == es[1..][j - 1];
    }
    if Guarded(es[1..], rest, stuck) {
      var j :| 0 <= j < Tried(es[1..], rest, stuck) && GuardedAt(es[1..], rest, stuck, j);
      assert GuardedAt(es, total, stuck, j + 1);
    }
  }

  lemma RemovableFirst(es: seq<Entry>, stuck: set<Name>, k: nat)
    requires 1 <= k <= |es|
    ensures Sum(Removable(es[..k], stuck))
         == (if es[0].name in stuck then 0 else es[0].size) + Sum(Removable(es[1..][..k - 1], stuck))
  {
    assert es[..k][1..] == es[1..][..k - 1];
    SumAppend(if es[0].name in stuck then [] else [es[0]], Removable(es[..k][1..], stuck));
  }

  lemma LandsStep(es: seq<Entry>, total: nat, stuck: set<Name>)
    requires es != [] && total > CAP && (es[0].name in stuck || es[0].size <= total)
    ensures Overshoots(es, total, stuck) <==> Overshoots(es[1..], Charge(es[0], total, stuck), stuck)
  {
    var rest := Charge(es[0], total, stuck);
    RemovableFirst(es, stuck, |es|);
    assert es[..|es|] == es && es[1..][..|es| - 1] == es[1..];
    forall k | 1 <= k <= |es| ensures Lands(es, total, stuck, k) <==> Lands(es[1..], rest, stuck, k - 1) {
      RemovableFirst(es, stuck, k);
    }
    assert es[..0] == [] && !Lands(es, total, stuck, 0);
    assert rest <= CAP ==> Lands(es[1..], rest, stuck, 0) by {
      assert es[1..][..0] == [];
    }
    if Overshoots(es, total, stuck) {
      forall k | 0 <= k <= |es[1..]| ensures !Lands(es[1..], rest, stuck, k) {
        assert !Lands(es, total, stuck, k + 1);
      }
    }
    if Overshoots(es[1..], rest, stuck) {
      forall k | 1 <= k <= |es| ensures !Lands(es, total, stuck, k) {
        assert !Lands(es[1..], rest, stuck, k - 1);
      }
    }
  }

  lemma FirstOvershoots(es: seq<Entry>, total: nat, stuck: set<Name>)
    requires es != [] && total > CAP && es[0].name !in stuck && es[0].size > total
    ensures Overshoots(es, total, stuck)
  {
    forall k | 0 <= k <= |es| ensures !Lands(es, total, stuck, k) {
      if k == 0 {
        assert es[..0] == [];
      } else {
        RemovableFirst(es, stuck, k);
      }
    }
    RemovableFirst(es, stuck, |es|);
    assert es[..|es|] == es;
  }

  /** The guard against underflow takes effect in the loop if and only if the total is over the
      limit, the removable sizes exceed it, and none of their prefixes lands between zero and the
      limit. */
  lemma {:induction false} GuardIff(es: seq<Entry>, total: nat, stuck: set<Name>)
    ensures Guarded(es, total, stuck) <==> Overshoots(es, total, stuck)
  {
    if es == [] || total <= CAP {
      assert Tried(es, total, stuck) == 0;
    } else {
      GuardedStep(es, total, stuck);
      if es[0].name !in stuck && es[0].size > total {
        FirstOvershoots(es, total, stuck);
        assert GuardedAt(es, total, stuck, 0);
      } else {
        LandsStep(es, total, stuck);
        GuardIff(es[1..], Charge(es[0], total, stuck), stuck);
      }
    }
  }

  /** So it never does where the sizes add up to less than a word. */
  lemma NeverUnderflows(es: seq<Entry>, stuck: set<Name>)
    requires Sum(es) < WORD
    ensures !Guarded(es, Sum(es) % WORD, stuck)
  {
    NoWrap(Sum(es));
    RemovableSum(es, stuck);
    GuardIff(es, Sum(es), stuck);
  }

  /** An unread size in front of an oversized entry: the guard sets the total to zero, and the
      entry stays although no removal failed. */
  lemma GuardTakesEffect(time: int)
    ensures var es := [Entry("a", WORD - 1, time), Entry("b", CAP + 3, time)];
            Guarded(es, Sum(es) % WORD, {}) && Tried(es, Sum(es) % WORD, {}) == 1 && Sum(es[1..]) > CAP
  {
    var a, b := Entry("a", WORD - 1, time), Entry("b", CAP + 3, time);
    assert [a, b][1..] == [b] && [b][1..] == [];
    assert Sum([b]) == CAP + 3 && Sum([a, b]) == CAP + 2 + 1 * WORD;
    Wrap(CAP + 2, 1);
    assert Tried([b], 0, {}) == 0 && Tried([a, b], CAP + 2, {}) == 1;
    assert GuardedAt([a, b], CAP + 2, {}, 0);
  }

  /** Where the sizes add up to a word or more, the eviction stops too early: an evicted prefix
      would have to pass the wrap in one entry. */
  lemma {:induction false} WrappedStopsEarly(es: seq<Entry>, total: nat)
    requires Sum(es) >= total + WORD
    ensures Sum(es[Tried(es, total, {})..]) > CAP
  {
    if total <= CAP {
      assert es[0..] == es;
    } else {
      var rest := Charge(es[0], total, {});
      var k := Tried(es[1..], rest, {});
      assert es[1 + k..] == es[1..][k..];
      if es[0].size > total {
        assert es[1..][0..] == es[1..];
      } else {
        WrappedStopsEarly(es[1..], rest);
      }
    }
  }

  /** What is left of the kept entries when every removal succeeds is within the limit if and
      only if their sizes add up to less than a machine word. */
  lemma FitsIff(es: seq<Entry>)
    ensures Sum(es[Tried(es, Sum(es) % WORD, {})..]) <= CAP <==> Sum(es) < WORD
  {
    if Sum(es) < WORD {
      NoWrap(Sum(es));
      Fits(es);
    } else {
      Unwrap(Sum(es));
      WrappedStopsEarly(es, Sum(es) % WORD);
    }
  }

  lemma Fits(es: seq<Entry>)
    ensures Sum(es[Tried(es, Sum(es), {})..]) <= CAP
  {
    var k := Tried(es, Sum(es), {});
    TriedIsShortest(es, Sum(es), {});
    SurvivorsAddUp(es, k);
    assert k == |es| ==> es[k..] == [];
  }

  // ---- the end of the scan ----

  /** Every cached entry that is not too old. */
  function Current(listing: seq<Seen>, now: int): seq<Entry> {
    if listing == [] then [] else KeptOne(listing[0], now) + Current(listing[1..], now)
  }

  /** The scan keeps all current entries if and only if none stands behind an entry whose kind
      could not be read. */
  lemma {:induction false} KeptIff(listing: seq<Seen>, now: int)
    ensures Kept(listing, now) == Current(listing, now) <==>
            forall i, j | 0 <= i < j < |listing| && listing[i].Unreadable? :: KeptOne(listing[j], now) == []
  {
    if listing == [] {
    } else {
      if listing[0].Unreadable? {
        CurrentIsNone(listing[1..], now);
        assert KeptOne(listing[0], now) == [];
        NoneBehind(listing, now);
      } else {
        KeptIff(listing[1..], now);
        SameTail(KeptOne(listing[0], now), Kept(listing[1..], now), Current(listing[1..], now));
        NoneBehindTail(listing, now);
      }
    }
  }

  /** A failed look at one entry hides an oversized one behind it. */
  lemma UnreadableHidesTheRest(e: Entry)
    requires e.size > CAP
    ensures var listing := [Unreadable, Cached(e)];
            && Current(listing, e.mtime) == [e] && Kept(listing, e.mtime) == []
            && Pruned(listing, e.mtime, [], {}) == {}
  {
    var listing := [Unreadable, Cached(e)];
    assert listing[1..] == [Cached(e)] && [Cached(e)][1..] == [];
    assert Current([Cached(e)], e.mtime) == [e] + Current([], e.mtime);
  }

  lemma {:induction false} CurrentIsNone(listing: seq<Seen>, now: int)
    ensures Current(listing, now) == [] <==> forall j | 0 <= j < |listing| :: KeptOne(listing[j], now) == []
  {
    if listing == [] {
    } else {
      CurrentIsNone(listing[1..], now);
      assert forall j | 1 <= j < |listing| :: listing[j] == listing[1..][j - 1];
      assert forall j | 0 <= j < |listing[1..]| :: listing[1..][j] == listing[j + 1];
    }
  }

  lemma NoneBehind(listing: seq<Seen>, now: int)
    requires listing != [] && listing[0].Unreadable?
    ensures (forall i, j | 0 <= i < j < |listing| && listing[i].Unreadable? :: KeptOne(listing[j], now) == [])
       <==> (forall j | 0 <= j < |listing[1..]| :: KeptOne(listing[1..][j], now) == [])
  {
    assert forall j | 1 <= j < |listing| :: listing[j] == listing[1..][j - 1];
    assert forall j | 0 <= j < |listing[1..]| :: listing[1..][j] == listing[j + 1];
  }

  lemma NoneBehindTail(listing: seq<Seen>, now: int)
    requires listing != [] && !listing[0].Unreadable?
    ensures (forall i, j | 0 <= i < j < |listing| && listing[i].Unreadable? :: KeptOne(listing[j], now) == [])
       <==> (forall i, j | 0 <= i < j < |listing[1..]| && listing[1..][i].Unreadable? ::
               KeptOne(listing[1..][j], now) == [])
  {
    assert forall j | 1 <= j < |listing| :: listing[j] == listing[1..][j - 1];
    assert forall j | 0 <= j < |listing[1..]| :: listing[1..][j] == listing[j + 1];
  }

  lemma SameTail(a: seq<Entry>, x: seq<Entry>, y: seq<Entry>)
    ensures a + x == a + y <==> x == y
  {
    assert (a + x)[|a|..] == x && (a + y)[|a|..] == y;
  }

  /** A size that could not be read counts as the largest word, and the total wraps to within the limit. */
  lemma UnreadSizeHidesTheRest(listing: seq<Seen>, now: int)
    requires listing == [Cached(Entry("a", WORD - 1, now)), Cached(Entry("b", CAP + 1, now))]
    ensures var es := Kept(listing, now);
            Sum(es[1..]) > CAP && Pruned(listing, now, es, {}) == {}
  {
    var a, b := Entry("a", WORD - 1, now), Entry("b", CAP + 1, now);
    assert listing[1..] == [Cached(b)];
    assert Kept(listing[1..], now) == [b];
    assert Kept(listing, now) == [a, b];
    assert [a, b][1..] == [b] && Sum([b]) == CAP + 1;
    assert Sum([a, b]) == CAP + 1 * WORD;
    Wrap(CAP, 1);
    assert Tried([a, b], CAP, {}) == 0;
    assert [a, b][..0] == [];
    assert Expired(a, now) == Expired(b, now) == false;
    assert Aged(listing[1..], now) == {};
  }
}
