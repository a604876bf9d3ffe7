/** Merging the filters a consumer brings into the running chain, in the middle
    of DecodeHeaders. */
module ConsumerMerge {
  import opened Orders
  import opened Chain

  /** A consumer's filters, by plugin name (`FilterConfigs`). */
  type FilterConfigs = map<string, Filter>

  function ByName(reg: Registry): (Filter, Filter) -> bool {
    (a: Filter, b: Filter) => ComparePluginOrder(reg, a.name, b.name)
  }

  function Wrap(name: string, f: Filter): Filter { f.(name := name) }

  function Wrappers(cfg: FilterConfigs): set<Filter> {
    set n | n in cfg :: Wrap(n, cfg[n])
  }

  /** The filters of the chain that the consumer does not redefine, in order. */
  function Survivors(fs: seq<Filter>, cfg: FilterConfigs): seq<Filter> {
    if fs == [] then []
    else
      var last := fs[|fs| - 1];
      if last.name in cfg then Survivors(fs[..|fs| - 1], cfg) else Survivors(fs[..|fs| - 1], cfg) + [last]
  }

  /** All that is known of a merged chain: it is made of the survivors and the
      consumer's filters, and sorted if plugin order is an order on them. */
  ghost predicate IsMerge(t: seq<Filter>, fs: seq<Filter>, cfg: FilterConfigs, reg: Registry) {
    && multiset(t) == multiset(Survivors(fs, cfg)) + multiset(Wrappers(cfg))
    && (StrictTotalOn(ByName(reg), Elems(t)) ==> SortedBy(ByName(reg), t))
  }

  /** `FilterNames`: the keys, in whatever order the map yields them. */
  method FilterNames(cfg: FilterConfigs) returns (names: seq<string>)
    ensures Distinct(names) && Elems(names) == cfg.Keys
  {
    names := AnyOrder(cfg.Keys);
  }

  /** The consumer's filters as instances, in whatever order. */
  method WrapAll(cfg: FilterConfigs) returns (wrappers: seq<Filter>)
    ensures multiset(wrappers) == multiset(Wrappers(cfg)) && Elems(wrappers) == Wrappers(cfg)
  {
    var names := FilterNames(cfg);
    wrappers := [];
    for i := 0 to |names|
      invariant |wrappers| == i
      invariant forall k | 0 <= k < i :: names[k] in cfg && wrappers[k] == Wrap(names[k], cfg[names[k]])
    {
      assert names[i] in Elems(names);
      wrappers := wrappers + [Wrap(names[i], cfg[names[i]])];
    }
    WrappersAsMultiset(names, wrappers, cfg);
    forall f ensures f in wrappers <==> f in Wrappers(cfg) {
      assert f in wrappers <==> f in multiset(wrappers);
    }
  }

  /** Compact the chain in place, append the consumer's filters, sort. */
  method Merge(fs: seq<Filter>, wrappers: seq<Filter>, cfg: FilterConfigs, reg: Registry) returns (t: seq<Filter>)
    requires multiset(wrappers) == multiset(Wrappers(cfg))
    ensures IsMerge(t, fs, cfg, reg)
  {
    t := fs;
    var i := 0;
    for j := 0 to |fs|
      invariant 0 <= i <= j && |t| == |fs|
      invariant t[..i] == Survivors(fs[..j], cfg)
      invariant t[j..] == fs[j..]
    {
      var f := t[j];
      assert f == fs[j];
      assert fs[..j + 1][..j] == fs[..j];
      if f.name !in cfg {
        ghost var before := t;
        t := t[i := f];
        assert t[..i + 1] == before[..i] + [f];
        i := i + 1;
      }
      assert t[j + 1..] == fs[j + 1..];
    }
    assert fs[..|fs|] == fs;
    ghost var kept := t[..i];
    var all := t[..i] + wrappers;
    t := SortSlice(all, ByName(reg));
    ElemsOfPermutation(t, all);
    assert multiset(all) == multiset(kept) + multiset(wrappers);
  }

  lemma {:induction false} WrappersAsMultiset(names: seq<string>, wrappers: seq<Filter>, cfg: FilterConfigs)
    requires Distinct(names) && Elems(names) == cfg.Keys
    requires |wrappers| == |names|
    requires forall k | 0 <= k < |names| :: names[k] in cfg && wrappers[k] == Wrap(names[k], cfg[names[k]])
    ensures multiset(wrappers) == multiset(Wrappers(cfg))
  {
    assert Distinct(wrappers);
    DistinctIffMultiset(wrappers);
    forall f ensures multiset(wrappers)[f] == multiset(Wrappers(cfg))[f] {
      if f in Wrappers(cfg) {
        var n :| n in cfg && f == Wrap(n, cfg[n]);
        assert n in Elems(names);
        var k :| 0 <= k < |names| && names[k] == n;
        assert wrappers[k] == f;
        assert f in multiset(wrappers);
      } else {
        assert f !in wrappers;
      }
    }
  }

  // ------------------------------------------------------------ consequences

  ghost predicate DistinctNames(fs: seq<Filter>) {
    forall i, j | 0 <= i < j < |fs| :: fs[i].name != fs[j].name
  }

  ghost predicate Registered(fs: seq<Filter>, reg: Registry) {
    forall i | 0 <= i < |fs| :: fs[i].name in reg
  }

  /** A chain as the configuration delivers it: registered plugins, each once, in order. */
  ghost predicate WellFormedChain(fs: seq<Filter>, reg: Registry) {
    DistinctNames(fs) && Registered(fs, reg) && SortedBy(ByName(reg), fs)
  }

  /** What the Consumer validation admits: registered plugins positioned after Authn. */
  ghost predicate WellFormedConsumer(cfg: FilterConfigs, reg: Registry) {
    forall n | n in cfg :: n in reg && reg[n].position > POSITION_AUTHN
  }

  lemma {:induction false} SurvivorsMembers(fs: seq<Filter>, cfg: FilterConfigs)
    ensures forall f :: f in Survivors(fs, cfg) <==> f in fs && f.name !in cfg
  {
    if fs != [] {
      var n := |fs| - 1;
      SurvivorsMembers(fs[..n], cfg);
      assert fs == fs[..n] + [fs[n]];
    }
  }

  lemma {:induction false} SurvivorsConcat(a: seq<Filter>, b: seq<Filter>, cfg: FilterConfigs)
    ensures Survivors(a + b, cfg) == Survivors(a, cfg) + Survivors(b, cfg)
  {
    if b == [] {
      assert a + b == a;
    } else {
      var n := |b| - 1;
      assert (a + b)[..|a| + n] == a + b[..n];
      SurvivorsConcat(a, b[..n], cfg);
    }
  }

  lemma {:induction false} SurvivorsAll(a: seq<Filter>, cfg: FilterConfigs)
    requires forall i | 0 <= i < |a| :: a[i].name !in cfg
    ensures Survivors(a, cfg) == a
  {
    if a != [] {
      SurvivorsAll(a[..|a| - 1], cfg);
      assert a == a[..|a| - 1] + [a[|a| - 1]];
    }
  }

  lemma {:induction false} SurvivorsDistinct(fs: seq<Filter>, cfg: FilterConfigs)
    requires DistinctNames(fs)
    ensures DistinctNames(Survivors(fs, cfg))
  {
    if fs != [] {
      var n := |fs| - 1;
      SurvivorsDistinct(fs[..n], cfg);
      SurvivorsMembers(fs[..n], cfg);
    }
  }

  /** Members of a merged chain: survivors and the consumer's own, and nothing
      else; so a consumer filter replaces the route filter of the same name. */
  lemma MergeMembers(t: seq<Filter>, fs: seq<Filter>, cfg: FilterConfigs, reg: Registry)
    requires IsMerge(t, fs, cfg, reg)
    ensures forall f :: f in t <==> (f in fs && f.name !in cfg) || f in Wrappers(cfg)
    ensures forall n | n in cfg :: Wrap(n, cfg[n]) in t
  {
    SurvivorsMembers(fs, cfg);
    forall f ensures f in t <==> (f in fs && f.name !in cfg) || f in Wrappers(cfg) {
      assert f in t <==> f in multiset(t);
      assert f in Survivors(fs, cfg) <==> f in multiset(Survivors(fs, cfg));
    }
  }

  /** Each name occurs once in the merged chain. */
  lemma MergeDistinct(t: seq<Filter>, fs: seq<Filter>, cfg: FilterConfigs, reg: Registry)
    requires IsMerge(t, fs, cfg, reg)
    requires DistinctNames(fs)
    ensures DistinctNames(t)
  {
    MergeMembers(t, fs, cfg, reg);
    SurvivorsDistinct(fs, cfg);
    SurvivorsMembers(fs, cfg);
    var s := Survivors(fs, cfg);
    DistinctIffMultiset(s);
    assert Distinct(s);
    forall f ensures multiset(t)[f] <= 1 {
      if f in Wrappers(cfg) { assert f.name in cfg; assert f !in s; }
    }
    DistinctIffMultiset(t);
    forall i, j | 0 <= i < j < |t| ensures t[i].name != t[j].name {
      assert t[i] in t && t[j] in t && t[i] != t[j];
    }
  }

  lemma NamesGiveTotalOrder(s: set<Filter>, reg: Registry)
    requires forall f | f in s :: f.name in reg
    requires forall f, g | f in s && g in s && f != g :: f.name != g.name
    ensures StrictTotalOn(ByName(reg), s)
  {
    var names := set f | f in s :: f.name;
    RegisteredNamesAreTotallyOrdered(reg, names);
    var less := PluginLess(reg);
    forall f | f in s ensures !ByName(reg)(f, f) { assert !less(f.name, f.name); }
    forall f, g | f in s && g in s && f != g ensures ByName(reg)(f, g) || ByName(reg)(g, f) {
      assert less(f.name, g.name) || less(g.name, f.name);
    }
    forall f, g, h | f in s && g in s && h in s && ByName(reg)(f, g) && ByName(reg)(g, h) ensures ByName(reg)(f, h) {
      assert less(f.name, g.name) && less(g.name, h.name);
    }
  }

  /** The merged chain is sorted, and does not depend on the order in which
      the consumer's map was walked. */
  lemma MergeIsCanonical(t: seq<Filter>, u: seq<Filter>, fs: seq<Filter>, cfg: FilterConfigs, reg: Registry)
    requires IsMerge(t, fs, cfg, reg) && IsMerge(u, fs, cfg, reg)
    requires WellFormedChain(fs, reg) && cfg.Keys <= reg.Keys
    ensures SortedBy(ByName(reg), t) && t == u
  {
    MergeOrdered(t, fs, cfg, reg);
    MergeOrdered(u, fs, cfg, reg);
    SortIsCanonical(t, u, ByName(reg));
  }

  lemma MergeOrdered(t: seq<Filter>, fs: seq<Filter>, cfg: FilterConfigs, reg: Registry)
    requires IsMerge(t, fs, cfg, reg)
    requires WellFormedChain(fs, reg) && cfg.Keys <= reg.Keys
    ensures StrictTotalOn(ByName(reg), Elems(t)) && SortedBy(ByName(reg), t)
    ensures DistinctNames(t) && Registered(t, reg)
  {
    MergeMembers(t, fs, cfg, reg);
    MergeDistinct(t, fs, cfg, reg);
    forall f, g | f in Elems(t) && g in Elems(t) && f != g ensures f.name != g.name {
      var i :| 0 <= i < |t| && t[i] == f;
      var j :| 0 <= j < |t| && t[j] == g;
    }
    forall i | 0 <= i < |t| ensures t[i].name in reg { assert t[i] in t; }
    NamesGiveTotalOrder(Elems(t), reg);
  }

  /** The filters that already ran keep their places: if the executed prefix
      ends with a consumer plugin (so at Authn), merging moves none of it. */
  lemma MergeKeepsPrefix(t: seq<Filter>, fs: seq<Filter>, cfg: FilterConfigs, reg: Registry, k: nat)
    requires IsMerge(t, fs, cfg, reg)
    requires WellFormedChain(fs, reg) && WellFormedConsumer(cfg, reg)
    requires k <= |fs|
    requires k > 0 ==> reg[fs[k - 1].name].position == POSITION_AUTHN
    ensures k <= |t| && t[..k] == fs[..k]
  {
    PrefixSurvives(fs, cfg, reg, k);
    MergeOrdered(t, fs, cfg, reg);
    var rest := Survivors(fs[k..], cfg) + SetToSeq(Wrappers(cfg));
    assert multiset(fs[..k] + rest) == multiset(t);
    ElemsOfPermutation(fs[..k] + rest, t);
    ElemsConcat(fs[..k], rest);
    SortedTail(fs, cfg, reg, k, t, rest);
  }

  lemma SortedTail(fs: seq<Filter>, cfg: FilterConfigs, reg: Registry, k: nat, t: seq<Filter>, rest: seq<Filter>)
    requires WellFormedChain(fs, reg) && WellFormedConsumer(cfg, reg) && k <= |fs|
    requires forall i | 0 <= i < k :: reg[fs[i].name].position <= POSITION_AUTHN
    requires rest == Survivors(fs[k..], cfg) + SetToSeq(Wrappers(cfg))
    requires multiset(t) == multiset(fs[..k] + rest) && Elems(rest) <= Elems(t)
    requires StrictTotalOn(ByName(reg), Elems(t)) && SortedBy(ByName(reg), t)
    ensures k <= |t| && t[..k] == fs[..k]
  {
    var less := ByName(reg);
    var r := InsertionSort(rest, less);
    InsertionSortSorted(rest, less);
    ElemsOfPermutation(r, rest);
    forall f | f in Elems(r) ensures f in fs[k..] || f in Wrappers(cfg) {
      SurvivorsMembers(fs[k..], cfg);
      assert f in SetToSeq(Wrappers(cfg)) ==> f in multiset(SetToSeq(Wrappers(cfg)));
    }
    PrefixStaysBelow(fs, cfg, reg, k, r);
    assert multiset(fs[..k] + r) == multiset(fs[..k]) + multiset(r) == multiset(fs[..k] + rest);
    SortIsCanonical(t, fs[..k] + r, less);
  }

  lemma PrefixSurvives(fs: seq<Filter>, cfg: FilterConfigs, reg: Registry, k: nat)
    requires WellFormedChain(fs, reg) && WellFormedConsumer(cfg, reg)
    requires k <= |fs|
    requires k > 0 ==> reg[fs[k - 1].name].position == POSITION_AUTHN
    ensures forall i | 0 <= i < k :: reg[fs[i].name].position <= POSITION_AUTHN
    ensures Survivors(fs, cfg) == fs[..k] + Survivors(fs[k..], cfg)
  {
    forall i | 0 <= i < k ensures reg[fs[i].name].position <= POSITION_AUTHN {
      assert i == k - 1 || !ByName(reg)(fs[k - 1], fs[i]);
    }
    SurvivorsConcat(fs[..k], fs[k..], cfg);
    SurvivorsAll(fs[..k], cfg);
    assert fs[..k] + fs[k..] == fs;
  }

  lemma PrefixStaysBelow(fs: seq<Filter>, cfg: FilterConfigs, reg: Registry, k: nat, r: seq<Filter>)
    requires WellFormedChain(fs, reg) && WellFormedConsumer(cfg, reg) && k <= |fs|
    requires forall i | 0 <= i < k :: reg[fs[i].name].position <= POSITION_AUTHN
    requires forall f | f in Elems(r) :: f in fs[k..] || f in Wrappers(cfg)
    requires SortedBy(ByName(reg), r)
    ensures SortedBy(ByName(reg), fs[..k] + r)
  {
    forall i, j | 0 <= i < k && 0 <= j < |r| ensures !ByName(reg)(r[j], fs[i]) {
      assert r[j] in Elems(r);
      if r[j] in fs[k..] {
        var x :| 0 <= x < |fs[k..]| && fs[k..][x] == r[j];
        assert r[j] == fs[k + x];
      }
    }
  }

  ghost function SetToSeq<T>(s: set<T>): (q: seq<T>)
    ensures multiset(q) == multiset(s)
  {
    if s == {} then []
    else
      var x :| x in s;
      assert s == (s - {x}) + {x};
      SetToSeq(s - {x}) + [x]
  }
}
