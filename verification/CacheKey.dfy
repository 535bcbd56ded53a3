/** What the run-cache key is the digest of: labelled fields, each part ended by a NUL. */
module CacheKey {

  const NUL := '\0'

  datatype Field = Field(tag: string, value: string)

  function Frame(f: Field): string {
    f.tag + [NUL] + (f.value + [NUL])
  }

  function Encode(fs: seq<Field>): string {
    if fs == [] then "" else Frame(fs[0]) + Encode(fs[1..])
  }

  predicate NulFree(f: Field) {
    NUL !in f.tag && NUL !in f.value
  }

  /** What a NUL ends is told apart from what follows. */
  lemma {:induction false} SplitAtNul(a: string, x: string, b: string, y: string)
    requires NUL !in a && NUL !in b
    requires a + [NUL] + x == b + [NUL] + y
    ensures a == b && x == y
    decreases |a|
  {
    var s, t := a + [NUL] + x, b + [NUL] + y;
    assert s[0] == t[0] && s[1..] == t[1..];
    assert a != "" ==> a[0] in a;
    assert b != "" ==> b[0] in b;
    if a == "" {
      assert s[1..] == x && t[1..] == y;
    } else {
      assert s[1..] == a[1..] + [NUL] + x && t[1..] == b[1..] + [NUL] + y;
      SplitAtNul(a[1..], x, b[1..], y);
    }
  }

  lemma FrameSplits(f: Field, x: string, g: Field, y: string)
    requires NulFree(f) && NulFree(g) && Frame(f) + x == Frame(g) + y
    ensures f == g && x == y
  {
    assert Frame(f) + x == f.tag + [NUL] + (f.value + [NUL] + x);
    assert Frame(g) + y == g.tag + [NUL] + (g.value + [NUL] + y);
    SplitAtNul(f.tag, f.value + [NUL] + x, g.tag, g.value + [NUL] + y);
    SplitAtNul(f.value, x, g.value, y);
  }

  /** The encoding of NUL-free fields determines them. */
  lemma {:induction false} EncodeInjective(fs: seq<Field>, gs: seq<Field>)
    requires forall f | f in fs :: NulFree(f)
    requires forall g | g in gs :: NulFree(g)
    requires Encode(fs) == Encode(gs)
    ensures fs == gs
  {
    if fs == [] || gs == [] {
    } else {
      FrameSplits(fs[0], Encode(fs[1..]), gs[0], Encode(gs[1..]));
      EncodeInjective(fs[1..], gs[1..]);
    }
  }

  // ---- The digest of the dependencies ----

  /** A file the program depends on; its bytes are whatever the file holds. */
  datatype Dependency = Dependency(path: string, bytes: string)

  function DependencyFields(ds: seq<Dependency>): seq<Field> {
    if ds == [] then []
    else [Field("dep-path", ds[0].path), Field("dep-bytes", ds[0].bytes)] + DependencyFields(ds[1..])
  }

  /** What the dependency digest absorbs. */
  function DependencyInput(ds: seq<Dependency>): string {
    Encode(DependencyFields(ds))
  }

  predicate PlainPaths(ds: seq<Dependency>) {
    forall d | d in ds :: NUL !in d.path
  }

  /** What stands between the bytes of one dependency and those of the next. */
  function Between(path: string): string {
    [NUL] + "dep-path" + [NUL] + path + [NUL] + "dep-bytes" + [NUL]
  }

  /** The order of a sorted map's keys: character by character, a prefix first. */
  predicate Less(a: string, b: string) {
    b != "" && (a == "" || a[0] < b[0] || (a[0] == b[0] && Less(a[1..], b[1..])))
  }

  /** The lists a map from paths to bytes is read as: strictly increasing in path. */
  predicate Sorted(ds: seq<Dependency>) {
    forall i, j | 0 <= i < j < |ds| :: Less(ds[i].path, ds[j].path)
  }

  ghost predicate SplitsAt(bytes: string, x: string, path: string, y: string) {
    NUL !in path && bytes == x + Between(path) + y
  }

  /** The bytes of the dependency hold what could stand between it and one that comes later. */
  ghost predicate Splits(d: Dependency) {
    exists x, path, y :: SplitsAt(d.bytes, x, path, y) && Less(d.path, path)
  }

  lemma DependencyStep(d: Dependency, ds: seq<Dependency>)
    ensures DependencyInput([d] + ds) ==
            "dep-path" + [NUL] + (d.path + [NUL] + ("dep-bytes" + [NUL] + (d.bytes + [NUL] + DependencyInput(ds))))
  {
    var f, g := Field("dep-path", d.path), Field("dep-bytes", d.bytes);
    assert ([d] + ds)[1..] == ds;
    assert ([f, g] + DependencyFields(ds))[1..] == [g] + DependencyFields(ds);
    assert ([g] + DependencyFields(ds))[1..] == DependencyFields(ds);
    assert Encode([g] + DependencyFields(ds)) == Frame(g) + DependencyInput(ds);
    FrameThen(g, DependencyInput(ds));
    FrameThen(f, Frame(g) + DependencyInput(ds));
  }

  /** Two dependencies and the one whose bytes are theirs with the labels between them have the
      same digest input. */
  lemma Merges(path: string, x: string, other: string, y: string, ds: seq<Dependency>)
    ensures DependencyInput([Dependency(path, x)] + ([Dependency(other, y)] + ds))
         == DependencyInput([Dependency(path, x + Between(other) + y)] + ds)
  {
    var rest := DependencyInput(ds);
    DependencyStep(Dependency(path, x), [Dependency(other, y)] + ds);
    DependencyStep(Dependency(other, y), ds);
    DependencyStep(Dependency(path, x + Between(other) + y), ds);
    BetweenThen(x, other, y, rest);
  }

  lemma BetweenThen(x: string, path: string, y: string, rest: string)
    ensures x + [NUL] + ("dep-path" + [NUL] + (path + [NUL] + ("dep-bytes" + [NUL] + (y + [NUL] + rest))))
         == x + Between(path) + y + [NUL] + rest
  {
    RegroupAll(x, [NUL], "dep-path", path, "dep-bytes", y, rest);
  }

  lemma RegroupAll(x: string, z: string, p: string, path: string, b: string, y: string, rest: string)
    ensures x + z + (p + z + (path + z + (b + z + (y + z + rest))))
         == x + (z + p + z + path + z + b + z) + y + z + rest
  {
  }

  /** Among the lists a sorted map can yield, a list of dependencies is the only one with its
      digest input if and only if it is empty, or has one entry whose bytes hold nothing that could
      separate it from a later one. */
  lemma DependenciesUniqueIff(ds: seq<Dependency>)
    requires PlainPaths(ds) && Sorted(ds)
    ensures (forall es | PlainPaths(es) && Sorted(es) && DependencyInput(es) == DependencyInput(ds) :: es == ds)
       <==> ds == [] || (|ds| == 1 && !Splits(ds[0]))
  {
    if ds == [] || (|ds| == 1 && !Splits(ds[0])) {
      forall es | PlainPaths(es) && Sorted(es) && DependencyInput(es) == DependencyInput(ds) ensures es == ds {
        OnlyList(ds, es);
      }
    } else {
      var es := AnotherList(ds);
    }
  }

  lemma OnlyList(ds: seq<Dependency>, es: seq<Dependency>)
    requires PlainPaths(ds) && PlainPaths(es) && Sorted(es) && DependencyInput(es) == DependencyInput(ds)
    requires ds == [] || (|ds| == 1 && !Splits(ds[0]))
    ensures es == ds
  {
    if es != [] {
      DependencyStep(es[0], es[1..]);
      assert es == [es[0]] + es[1..];
    }
    if ds != [] {
      DependencyStep(ds[0], []);
      assert ds == [ds[0]] + [] == [ds[0]];
      assert es != [];
      SameFirst(ds[0], es[0], es[1..]);
      if es[1..] != [] {
        var d := es[1];
        DependencyStep(d, es[2..]);
        assert es[1..] == [d] + es[2..];
        SplitByNext(ds[0], es[0].bytes, d, DependencyInput(es[2..]));
      } else {
        assert ds[0].bytes + [NUL] == es[0].bytes + [NUL];
        assert (ds[0].bytes + [NUL])[..|ds[0].bytes|] == ds[0].bytes;
      }
    }
  }

  lemma SameFirst(d: Dependency, e: Dependency, es: seq<Dependency>)
    requires NUL !in d.path && NUL !in e.path && DependencyInput([d]) == DependencyInput([e] + es)
    ensures d.path == e.path && d.bytes + [NUL] == e.bytes + [NUL] + DependencyInput(es)
  {
    DependencyStep(d, []);
    DependencyStep(e, es);
    assert [d] + [] == [d];
    var x, y := d.bytes + [NUL] + "", e.bytes + [NUL] + DependencyInput(es);
    SplitAtNul("dep-path", d.path + [NUL] + ("dep-bytes" + [NUL] + x),
               "dep-path", e.path + [NUL] + ("dep-bytes" + [NUL] + y));
    SplitAtNul(d.path, "dep-bytes" + [NUL] + x, e.path, "dep-bytes" + [NUL] + y);
    SplitAtNul("dep-bytes", x, "dep-bytes", y);
    assert x == d.bytes + [NUL];
  }

  lemma SplitByNext(first: Dependency, x: string, d: Dependency, rest: string)
    requires NUL !in d.path && Less(first.path, d.path)
    requires first.bytes + [NUL] ==
             x + [NUL] + ("dep-path" + [NUL] + (d.path + [NUL] + ("dep-bytes" + [NUL] + (d.bytes + [NUL] + rest))))
    ensures Splits(first)
  {
    BetweenThen(x, d.path, d.bytes, rest);
    var bytes, head, tail := first.bytes, x + Between(d.path), d.bytes + [NUL] + rest;
    assert bytes + [NUL] == head + tail;
    assert bytes == (bytes + [NUL])[..|bytes|];
    assert tail != "" && |bytes| == |head| + |tail| - 1;
    assert (head + tail)[..|bytes|] == head + tail[..|tail| - 1];
    assert SplitsAt(bytes, x, d.path, tail[..|tail| - 1]);
  }

  /** Any other list has a different one with its digest input: its first two entries merged, or
      its only one split. */
  lemma AnotherList(ds: seq<Dependency>) returns (es: seq<Dependency>)
    requires PlainPaths(ds) && Sorted(ds) && ds != [] && (|ds| == 1 ==> Splits(ds[0]))
    ensures PlainPaths(es) && Sorted(es) && es != ds && DependencyInput(es) == DependencyInput(ds)
  {
    if |ds| >= 2 {
      es := [Dependency(ds[0].path, ds[0].bytes + Between(ds[1].path) + ds[1].bytes)] + ds[2..];
      Merges(ds[0].path, ds[0].bytes, ds[1].path, ds[1].bytes, ds[2..]);
      assert ds == [ds[0]] + ([ds[1]] + ds[2..]);
      assert forall i | 1 <= i < |es| :: es[i] == ds[i + 1];
    } else {
      var x, path, y :| SplitsAt(ds[0].bytes, x, path, y) && Less(ds[0].path, path);
      es := [Dependency(ds[0].path, x)] + ([Dependency(path, y)] + []);
      Merges(ds[0].path, x, path, y, []);
      assert ds == [ds[0]] + [];
    }
  }

  // ---- The run-cache key ----

  /** Everything a run depends on, numbers already written out. */
  datatype RunConfig = RunConfig(
    sourcePath: string, sourceBytes: string, transitiveDeps: string, version: string, llvmVersion: string,
    objectAbi: string, self: string, noStdlib: string, strictTypes: string, unsafeMode: string, optLevel: string,
    targetTriple: string, stdlibBitcode: string, stdlibObject: string,
    includePaths: seq<string>, libPaths: seq<string>, linkedLibs: seq<string>)

  function Labelled(tag: string, values: seq<string>): (r: seq<Field>)
    ensures |r| == |values| && forall i | 0 <= i < |values| :: r[i] == Field(tag, values[i])
  {
    seq(|values|, i requires 0 <= i < |values| => Field(tag, values[i]))
  }

  function Scalars(c: RunConfig): seq<Field> {
    [ Field("schema", "eshkol-run-cache-v1"),
      Field("source-path", c.sourcePath),
      Field("source-bytes", c.sourceBytes),
      Field("transitive-deps", c.transitiveDeps),
      Field("eshkol-version", c.version),
      Field("llvm-version", c.llvmVersion),
      Field("object-abi", c.objectAbi),
      Field("self", c.self),
      Field("no-stdlib", c.noStdlib),
      Field("strict-types", c.strictTypes),
      Field("unsafe", c.unsafeMode),
      Field("opt-level", c.optLevel),
      Field("target-triple", c.targetTriple),
      Field("stdlib.bc", c.stdlibBitcode),
      Field("stdlib.o", c.stdlibObject) ]
  }

  function Lists(c: RunConfig): seq<Field> {
    Labelled("include-path", c.includePaths) + Labelled("lib-path", c.libPaths) + Labelled("linked-lib", c.linkedLibs)
  }

  function Fields(c: RunConfig): seq<Field> {
    Scalars(c) + Lists(c)
  }

  /** The field lists determine the configuration. */
  lemma FieldsInjective(c: RunConfig, d: RunConfig)
    requires Fields(c) == Fields(d)
    ensures c == d
  {
    var m := |Scalars(c)|;
    assert Scalars(c) == Fields(c)[..m] == Fields(d)[..m] == Scalars(d);
    assert Lists(c) == Fields(c)[m..] == Fields(d)[m..] == Lists(d);
    ScalarsInjective(c, d);
    ListsInjective(c, d);
  }

  lemma ScalarsInjective(c: RunConfig, d: RunConfig)
    requires Scalars(c) == Scalars(d)
    ensures d.(includePaths := c.includePaths, libPaths := c.libPaths, linkedLibs := c.linkedLibs) == c
  {
    assert Scalars(c)[1].value == Scalars(d)[1].value && Scalars(c)[2].value == Scalars(d)[2].value;
    assert Scalars(c)[3].value == Scalars(d)[3].value && Scalars(c)[4].value == Scalars(d)[4].value;
    assert Scalars(c)[5].value == Scalars(d)[5].value && Scalars(c)[6].value == Scalars(d)[6].value;
    assert Scalars(c)[7].value == Scalars(d)[7].value && Scalars(c)[8].value == Scalars(d)[8].value;
    assert Scalars(c)[9].value == Scalars(d)[9].value && Scalars(c)[10].value == Scalars(d)[10].value;
    assert Scalars(c)[11].value == Scalars(d)[11].value && Scalars(c)[12].value == Scalars(d)[12].value;
    assert Scalars(c)[13].value == Scalars(d)[13].value && Scalars(c)[14].value == Scalars(d)[14].value;
  }

  lemma ListsInjective(c: RunConfig, d: RunConfig)
    requires Lists(c) == Lists(d)
    ensures c.includePaths == d.includePaths && c.libPaths == d.libPaths && c.linkedLibs == d.linkedLibs
  {
    assert "include-path" != "lib-path" by { assert "include-path"[0] != "lib-path"[0]; }
    assert "include-path" != "linked-lib" by { assert "include-path"[0] != "linked-lib"[0]; }
    assert "lib-path" != "linked-lib" by { assert "lib-path"[2] != "linked-lib"[2]; }
    assert Lists(c) == Labelled("include-path", c.includePaths) +
           (Labelled("lib-path", c.libPaths) + Labelled("linked-lib", c.linkedLibs));
    assert Lists(d) == Labelled("include-path", d.includePaths) +
           (Labelled("lib-path", d.libPaths) + Labelled("linked-lib", d.linkedLibs));
    GroupsInjective(Labelled("include-path", c.includePaths),
                    Labelled("lib-path", c.libPaths) + Labelled("linked-lib", c.linkedLibs),
                    Labelled("include-path", d.includePaths),
                    Labelled("lib-path", d.libPaths) + Labelled("linked-lib", d.linkedLibs),
                    "include-path");
    GroupsInjective(Labelled("lib-path", c.libPaths), Labelled("linked-lib", c.linkedLibs),
                    Labelled("lib-path", d.libPaths), Labelled("linked-lib", d.linkedLibs), "lib-path");
    LabelledInjective("include-path", c.includePaths, d.includePaths);
    LabelledInjective("lib-path", c.libPaths, d.libPaths);
    LabelledInjective("linked-lib", c.linkedLibs, d.linkedLibs);
  }

  /** A run of fields of one tag is told apart from fields of other labels after it. */
  lemma {:induction false} GroupsInjective(a: seq<Field>, x: seq<Field>, b: seq<Field>, y: seq<Field>, tag: string)
    requires a + x == b + y
    requires forall f | f in a || f in b :: f.tag == tag
    requires forall f | f in x || f in y :: f.tag != tag
    ensures a == b && x == y
    decreases |a|
  {
    assert a != [] ==> a[0] in a && (a + x)[0] == a[0] && (a + x)[1..] == a[1..] + x;
    assert b != [] ==> b[0] in b && (b + y)[0] == b[0] && (b + y)[1..] == b[1..] + y;
    assert a == [] ==> a + x == x;
    assert b == [] ==> b + y == y;
    assert x != [] ==> x[0] in x;
    assert y != [] ==> y[0] in y;
    if a == [] || b == [] {
    } else {
      GroupsInjective(a[1..], x, b[1..], y, tag);
    }
  }

  lemma LabelledInjective(tag: string, s: seq<string>, t: seq<string>)
    requires Labelled(tag, s) == Labelled(tag, t)
    ensures s == t
  {
    assert |s| == |t|;
    forall i | 0 <= i < |s| ensures s[i] == t[i] {
      assert Labelled(tag, s)[i] == Labelled(tag, t)[i];
    }
  }

  // ---- The source bytes may hold NULs ----

  /** Every field but the source bytes is NUL-free. */
  predicate CleanConfig(c: RunConfig) {
    forall f | f in Before(c) + Behind(c) :: NulFree(f)
  }

  /** The fields ahead of the source bytes, and those behind them. */
  function Before(c: RunConfig): seq<Field> {
    Scalars(c)[..2]
  }

  function Behind(c: RunConfig): seq<Field> {
    Scalars(c)[3..] + Lists(c)
  }

  lemma Regroup(a: string, b: string, c: string)
    ensures a + b + c == a + (b + c)
  {
  }

  lemma {:induction false} EncodeAppend(fs: seq<Field>, gs: seq<Field>)
    ensures Encode(fs + gs) == Encode(fs) + Encode(gs)
  {
    if fs == [] {
      assert fs + gs == gs;
    } else {
      EncodeAppend(fs[1..], gs);
      assert (fs + gs)[1..] == fs[1..] + gs;
      Regroup(Frame(fs[0]), Encode(fs[1..]), Encode(gs));
    }
  }

  /** The encoding of NUL-free fields holds two NULs for each of them. */
  lemma {:induction false} EncodeNuls(fs: seq<Field>)
    requires forall f | f in fs :: NulFree(f)
    ensures multiset(Encode(fs))[NUL] == 2 * |fs|
  {
    if fs == [] {
    } else {
      EncodeNuls(fs[1..]);
      FrameNuls(fs[0]);
      assert multiset(Encode(fs)) == multiset(Frame(fs[0])) + multiset(Encode(fs[1..]));
    }
  }

  lemma FrameNuls(f: Field)
    requires NulFree(f)
    ensures multiset(Frame(f))[NUL] == 2
  {
    NoNuls(f.tag);
    NoNuls(f.value);
    assert multiset(Frame(f)) == multiset(f.tag) + multiset{NUL} + (multiset(f.value) + multiset{NUL});
  }

  lemma NoNuls(s: string)
    requires NUL !in s
    ensures multiset(s)[NUL] == 0
  {
    assert NUL !in multiset(s);
  }

  /** The text up to the first NUL, and what follows it. */
  lemma {:induction false} FirstNul(s: string) returns (a: string, b: string)
    requires NUL in s
    ensures s == a + [NUL] + b && NUL !in a
  {
    if s[0] == NUL {
      a, b := "", s[1..];
    } else {
      var rest;
      rest, b := FirstNul(s[1..]);
      a := [s[0]] + rest;
      assert s == [s[0]] + s[1..];
    }
  }

  /** An encoding that starts behind a NUL of another one starts at a field of it. */
  lemma {:induction false} Aligned(fs: seq<Field>, u: string, gs: seq<Field>) returns (k: nat)
    requires forall f | f in fs :: NulFree(f)
    requires forall g | g in gs :: NulFree(g)
    requires fs != [] && Encode(fs) == u + [NUL] + Encode(gs)
    ensures 1 <= k <= |fs| && fs[k..] == gs
    decreases |fs|
  {
    var f, rest := fs[0], Encode(fs[1..]);
    assert f in fs && NulFree(f);
    FrameThen(f, rest);
    NotInTag(fs, u, gs);
    var a, b := FirstNul(u);
    assert u + [NUL] + Encode(gs) == a + [NUL] + (b + [NUL] + Encode(gs));
    SplitAtNul(f.tag, f.value + [NUL] + rest, a, b + [NUL] + Encode(gs));
    if NUL !in b {
      SplitAtNul(f.value, rest, b, Encode(gs));
      EncodeInjective(fs[1..], gs);
      k := 1;
    } else {
      var v, w := FirstNul(b);
      assert b + [NUL] + Encode(gs) == v + [NUL] + (w + [NUL] + Encode(gs));
      SplitAtNul(f.value, rest, v, w + [NUL] + Encode(gs));
      assert fs[1..] != [];
      var j := Aligned(fs[1..], w, gs);
      k := j + 1;
      assert fs[k..] == fs[1..][j..];
    }
  }

  /** The cut cannot lie between a label and its value, where an odd number of NULs follows. */
  lemma NotInTag(fs: seq<Field>, u: string, gs: seq<Field>)
    requires forall f | f in fs :: NulFree(f)
    requires forall g | g in gs :: NulFree(g)
    requires fs != [] && Encode(fs) == u + [NUL] + Encode(gs)
    ensures NUL in u
  {
    EncodeNuls(fs);
    EncodeNuls(gs);
    OddNuls(Encode(fs), |fs|, u, Encode(gs), |gs|);
  }

  lemma OddNuls(s: string, m: nat, u: string, t: string, n: nat)
    requires s == u + [NUL] + t && multiset(s)[NUL] == 2 * m && multiset(t)[NUL] == 2 * n
    ensures NUL in u
  {
    assert multiset(s) == multiset(u) + multiset{NUL} + multiset(t);
    assert multiset(u)[NUL] == 2 * (m - n) - 1;
    assert NUL in multiset(u);
  }

  /** The label of the first field behind the source bytes, told apart by its first letters. */
  predicate Opens(f: Field) {
    |f.tag| >= 2 && f.tag[0] == 't' && f.tag[1] == 'r'
  }

  predicate OpensOnce(fs: seq<Field>) {
    fs != [] && Opens(fs[0]) && forall i | 1 <= i < |fs| :: !Opens(fs[i])
  }

  lemma NotLonger(x: string, fs: seq<Field>, y: string, gs: seq<Field>)
    requires forall f | f in fs :: NulFree(f)
    requires forall g | g in gs :: NulFree(g)
    requires OpensOnce(fs) && OpensOnce(gs)
    requires x + [NUL] + Encode(fs) == y + [NUL] + Encode(gs)
    ensures |y| <= |x|
  {
    if |x| < |y| {
      var s, t := x + [NUL] + Encode(fs), y + [NUL] + Encode(gs);
      var u := y[|x| + 1..];
      assert t[|x| + 1..] == u + [NUL] + Encode(gs);
      assert s[|x| + 1..] == Encode(fs);
      var k := Aligned(fs, u, gs);
      OpensNowhereElse(fs, k, gs);
      assert false;
    }
  }

  lemma OpensNowhereElse(fs: seq<Field>, k: nat, gs: seq<Field>)
    requires OpensOnce(fs) && OpensOnce(gs) && 1 <= k <= |fs|
    ensures fs[k..] != gs
  {
    assert k < |fs| ==> fs[k..][0] == fs[k];
  }

  /** Whatever the bytes in front hold, fields that open once determine where they start. */
  lemma BytesSplit(x: string, fs: seq<Field>, y: string, gs: seq<Field>)
    requires forall f | f in fs :: NulFree(f)
    requires forall g | g in gs :: NulFree(g)
    requires OpensOnce(fs) && OpensOnce(gs)
    requires x + [NUL] + Encode(fs) == y + [NUL] + Encode(gs)
    ensures x == y && fs == gs
  {
    NotLonger(x, fs, y, gs);
    NotLonger(y, gs, x, fs);
    var s, t := x + [NUL] + Encode(fs), y + [NUL] + Encode(gs);
    assert s[..|x|] == x && t[..|x|] == y;
    assert s[|x| + 1..] == Encode(fs) && t[|x| + 1..] == Encode(gs);
    EncodeInjective(fs, gs);
  }

  lemma BehindOpensOnce(c: RunConfig)
    ensures OpensOnce(Behind(c))
  {
    var scalars := Scalars(c)[3..];
    assert forall i | 1 <= i < |scalars| :: !Opens(scalars[i]);
    forall f | f in Lists(c) ensures !Opens(f) {
    }
    assert forall i | |scalars| <= i < |Behind(c)| :: Behind(c)[i] in Lists(c);
  }

  lemma FieldsAround(c: RunConfig)
    ensures Fields(c) == Before(c) + ([Field("source-bytes", c.sourceBytes)] + Behind(c))
  {
  }

  lemma InputAround(c: RunConfig)
    ensures Encode(Fields(c)) ==
            Encode(Before(c)) + ("source-bytes" + [NUL] + (c.sourceBytes + [NUL] + Encode(Behind(c))))
  {
    var bytes := Field("source-bytes", c.sourceBytes);
    FieldsAround(c);
    EncodeAppend(Before(c), [bytes] + Behind(c));
    EncodeAppend([bytes], Behind(c));
    assert [bytes][1..] == [];
    assert Encode([bytes]) == Frame(bytes);
    FrameThen(bytes, Encode(Behind(c)));
  }

  lemma FrameThen(f: Field, rest: string)
    ensures Frame(f) + rest == f.tag + [NUL] + (f.value + [NUL] + rest)
  {
  }

  /** Encodings of as many NUL-free fields with something behind them. */
  lemma {:induction false} PrefixInjective(fs: seq<Field>, x: string, gs: seq<Field>, y: string)
    requires forall f | f in fs :: NulFree(f)
    requires forall g | g in gs :: NulFree(g)
    requires |fs| == |gs| && Encode(fs) + x == Encode(gs) + y
    ensures fs == gs && x == y
  {
    if fs == [] {
      assert Encode(fs) + x == x && Encode(gs) + y == y;
    } else {
      assert Encode(fs) + x == Frame(fs[0]) + (Encode(fs[1..]) + x);
      assert Encode(gs) + y == Frame(gs[0]) + (Encode(gs[1..]) + y);
      FrameSplits(fs[0], Encode(fs[1..]) + x, gs[0], Encode(gs[1..]) + y);
      PrefixInjective(fs[1..], x, gs[1..], y);
    }
  }

  /** Two configurations with the same digest input are the same, down to the order of the include
      paths, library paths and libraries. Only the source bytes may hold NULs. */
  lemma SameInputSameConfig(c: RunConfig, d: RunConfig)
    requires CleanConfig(c) && CleanConfig(d)
    requires Encode(Fields(c)) == Encode(Fields(d))
    ensures c == d
  {
    InputAround(c);
    InputAround(d);
    var x, y := c.sourceBytes + [NUL] + Encode(Behind(c)), d.sourceBytes + [NUL] + Encode(Behind(d));
    PrefixInjective(Before(c), "source-bytes" + [NUL] + x, Before(d), "source-bytes" + [NUL] + y);
    assert ("source-bytes" + [NUL] + x)[13..] == x && ("source-bytes" + [NUL] + y)[13..] == y;
    BehindOpensOnce(c);
    BehindOpensOnce(d);
    BytesSplit(c.sourceBytes, Behind(c), d.sourceBytes, Behind(d));
    FieldsAround(c);
    FieldsAround(d);
    FieldsInjective(c, d);
  }

  /** The bytes a digest has absorbed. */
  class HashInput {
    var absorbed: string

    constructor ()
      ensures absorbed == ""
    {
      absorbed := "";
    }

    method Update(tag: string, value: string)
      modifies this
      ensures absorbed == old(absorbed) + Frame(Field(tag, value))
    {
      absorbed := absorbed + tag;
      absorbed := absorbed + [NUL];
      absorbed := absorbed + value;
      absorbed := absorbed + [NUL];
    }

    method UpdateAll(fs: seq<Field>)
      modifies this
      ensures absorbed == old(absorbed) + Encode(fs)
    {
      for i := 0 to |fs|
        invariant absorbed + Encode(fs[i..]) == old(absorbed) + Encode(fs)
      {
        ghost var before := absorbed;
        Update(fs[i].tag, fs[i].value);
        assert fs[i..][1..] == fs[i + 1..];
        assert Encode(fs[i..]) == Frame(fs[i]) + Encode(fs[i + 1..]);
        assert absorbed + Encode(fs[i + 1..]) == before + Encode(fs[i..]);
      }
    }
  }

  /** What the key of a configuration is the digest of. */
  method KeyInput(c: RunConfig) returns (input: string)
    ensures input == Encode(Fields(c))
  {
    var hash := new HashInput();
    hash.UpdateAll(Fields(c));
    input := hash.absorbed;
  }
}
