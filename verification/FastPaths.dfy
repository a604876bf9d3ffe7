/** The two shortcuts of the filter manager: not running a phase at all because
    no plugin overrides it, and running it on Envoy's own thread because no
    plugin blocks in it. */
module FastPaths {
  import opened Orders
  import opened Chain
  import opened Options
  import opened ConsumerMerge

  // ------------------------------------------------------------ method tables

  /** `canSkipMethods` or `canSyncRunMethods`. */
  type Table = map<Callback, bool>

  const ALL_METHODS: set<Callback> := {
    DecodeHeaders, DecodeData, DecodeTrailers, DecodeRequest,
    EncodeHeaders, EncodeData, EncodeTrailers, EncodeResponse, OnLog
  }

  lemma AllMethods(m: Callback)
    ensures m in ALL_METHODS
  {
    match m
    case DecodeHeaders => case DecodeData => case DecodeTrailers => case DecodeRequest =>
    case EncodeHeaders => case EncodeData => case EncodeTrailers => case EncodeResponse =>
    case OnLog =>
  }

  predicate NoneOverrides(fs: seq<Filter>, m: Callback) {
    forall f | f in fs :: m !in f.overridden
  }

  predicate NoneBlocks(fs: seq<Filter>, m: Callback) {
    forall f | f in fs :: m in f.overridden ==> m in f.nonBlocking
  }

  ghost predicate IsSkipTable(t: Table, fs: seq<Filter>) {
    forall m: Callback :: m in t && t[m] == NoneOverrides(fs, m)
  }

  ghost predicate IsSyncTable(t: Table, fs: seq<Filter>) {
    forall m: Callback :: m in t && t[m] == NoneBlocks(fs, m)
  }

  /** The tables as FilterManagerFactory fills them, filter by filter. */
  method ComputeTables(fs: seq<Filter>) returns (skip: Table, sync: Table)
    ensures IsSkipTable(skip, fs) && IsSyncTable(sync, fs)
  {
    skip := map m: Callback | m in ALL_METHODS :: true;
    sync := skip;
    forall m: Callback ensures m in ALL_METHODS { AllMethods(m); }
    for i := 0 to |fs|
      invariant IsSkipTable(skip, fs[..i]) && IsSyncTable(sync, fs[..i])
    {
      skip, sync := AddFilter(fs[i], skip, sync);
      assert fs[..i + 1] == fs[..i] + [fs[i]];
    }
    assert fs[..|fs|] == fs;
  }

  method AddFilter(f: Filter, skip0: Table, sync0: Table) returns (skip: Table, sync: Table)
    requires forall m: Callback :: m in skip0 && m in sync0
    ensures forall m: Callback :: m in skip && skip[m] == (skip0[m] && m !in f.overridden)
    ensures forall m: Callback :: m in sync && sync[m] == (sync0[m] && (m in f.overridden ==> m in f.nonBlocking))
  {
    skip, sync := skip0, sync0;
    var todo := ALL_METHODS;
    forall m: Callback ensures m in todo { AllMethods(m); }
    while todo != {}
      invariant forall m: Callback :: m in skip && m in sync
      invariant forall m: Callback | m in todo :: skip[m] == skip0[m] && sync[m] == sync0[m]
      invariant forall m: Callback | m !in todo :: skip[m] == (skip0[m] && m !in f.overridden)
      invariant forall m: Callback | m !in todo :: sync[m] == (sync0[m] && (m in f.overridden ==> m in f.nonBlocking))
      decreases todo
    {
      skip, sync, todo := AddMethod(f, skip, sync, todo);
    }
  }

  method AddMethod(f: Filter, skip0: Table, sync0: Table, todo: set<Callback>)
    returns (skip: Table, sync: Table, rest: set<Callback>)
    requires todo != {} && forall m: Callback :: m in skip0 && m in sync0
    ensures exists m | m in todo ::
      && rest == todo - {m}
      && skip == skip0[m := skip0[m] && m !in f.overridden]
      && sync == sync0[m := sync0[m] && (m in f.overridden ==> m in f.nonBlocking)]
  {
    var m :| m in todo;
    var overridden := m in f.overridden;
    skip := skip0[m := skip0[m] && !overridden];
    sync := sync0;
    if overridden {
      sync := sync0[m := sync0[m] && m in f.nonBlocking];
    }
    assert sync == sync0[m := sync0[m] && (m in f.overridden ==> m in f.nonBlocking)];
    rest := todo - {m};
  }

  // -------------------------------------------------------------------- flags

  datatype SkipFlags = SkipFlags(decodeHeaders: bool, decodeData: bool, decodeTrailers: bool,
                                 encodeHeaders: bool, encodeData: bool, encodeTrailers: bool, onLog: bool)

  datatype SyncFlags = SyncFlags(decodeHeaders: bool, decodeData: bool, decodeTrailers: bool,
                                 encodeHeaders: bool, encodeData: bool, encodeTrailers: bool)

  function DeriveSkip(t: Table, initNeeded: bool): SkipFlags
    requires t.Keys == ALL_METHODS
  {
    SkipFlags(
      t[DecodeHeaders] && t[DecodeRequest] && !initNeeded,
      t[DecodeData] && t[DecodeRequest],
      t[DecodeTrailers] && t[DecodeRequest],
      t[EncodeHeaders],
      t[EncodeData] && t[EncodeResponse],
      t[EncodeTrailers] && t[EncodeResponse],
      t[OnLog])
  }

  function DeriveSync(t: Table, initNeeded: bool): SyncFlags
    requires t.Keys == ALL_METHODS
  {
    SyncFlags(
      t[DecodeHeaders] && t[DecodeRequest] && !initNeeded,
      t[DecodeData],
      t[DecodeTrailers],
      t[EncodeHeaders] && t[EncodeResponse],
      t[EncodeData],
      t[EncodeTrailers])
  }

  /** Skip flags once a consumer's filters are merged. Whoever joins,
      encodeHeaders is derived from the old encodeData flag. */
  function MergeSkip(s: SkipFlags, c: Table): SkipFlags
    requires c.Keys == ALL_METHODS
  {
    SkipFlags(
      s.decodeHeaders,
      s.decodeData && c[DecodeData] && c[DecodeRequest],
      s.decodeTrailers && c[DecodeTrailers] && c[DecodeRequest],
      s.encodeData && c[EncodeHeaders],
      s.encodeData && c[EncodeData] && c[EncodeResponse],
      s.encodeTrailers && c[EncodeTrailers] && c[EncodeResponse],
      s.onLog && c[OnLog])
  }

  function MergeSync(s: SyncFlags, c: Table): SyncFlags
    requires c.Keys == ALL_METHODS
  {
    SyncFlags(
      s.decodeHeaders && c[DecodeHeaders] && c[DecodeRequest],
      s.decodeData && c[DecodeData],
      s.decodeTrailers && c[DecodeTrailers],
      s.encodeHeaders && c[EncodeHeaders] && c[EncodeResponse],
      s.encodeData && c[EncodeData],
      s.encodeTrailers && c[EncodeTrailers])
  }

  lemma TableKeys(t: Table, fs: seq<Filter>)
    requires IsSkipTable(t, fs) || IsSyncTable(t, fs)
    ensures t.Keys == ALL_METHODS
  {
    forall m: Callback ensures m in ALL_METHODS { AllMethods(m); }
  }

  // ---------------------------------------------------------- what flags promise

  /** Everything but the headers flag of the response. */
  ghost predicate SkipSoundButEncodeHeaders(s: SkipFlags, fs: seq<Filter>) {
    && (s.decodeData ==> NoneOverrides(fs, DecodeData) && NoneOverrides(fs, DecodeRequest))
    && (s.decodeTrailers ==> NoneOverrides(fs, DecodeTrailers) && NoneOverrides(fs, DecodeRequest))
    && (s.encodeData ==> NoneOverrides(fs, EncodeData) && NoneOverrides(fs, EncodeResponse))
    && (s.encodeTrailers ==> NoneOverrides(fs, EncodeTrailers) && NoneOverrides(fs, EncodeResponse))
    && (s.onLog ==> NoneOverrides(fs, OnLog))
  }

  ghost predicate SkipSound(s: SkipFlags, fs: seq<Filter>) {
    && SkipSoundButEncodeHeaders(s, fs)
    && (s.decodeHeaders ==> NoneOverrides(fs, DecodeHeaders) && NoneOverrides(fs, DecodeRequest))
    && (s.encodeHeaders ==> NoneOverrides(fs, EncodeHeaders))
  }

  ghost predicate SyncSound(s: SyncFlags, fs: seq<Filter>) {
    && (s.decodeHeaders ==> NoneBlocks(fs, DecodeHeaders) && NoneBlocks(fs, DecodeRequest))
    && (s.decodeData ==> NoneBlocks(fs, DecodeData))
    && (s.decodeTrailers ==> NoneBlocks(fs, DecodeTrailers))
    && (s.encodeHeaders ==> NoneBlocks(fs, EncodeHeaders) && NoneBlocks(fs, EncodeResponse))
    && (s.encodeData ==> NoneBlocks(fs, EncodeData))
    && (s.encodeTrailers ==> NoneBlocks(fs, EncodeTrailers))
  }

  lemma FactoryFlagsAreSound(fs: seq<Filter>, skip: Table, sync: Table, initNeeded: bool)
    requires IsSkipTable(skip, fs) && IsSyncTable(sync, fs)
    ensures skip.Keys == sync.Keys == ALL_METHODS
    ensures SkipSound(DeriveSkip(skip, initNeeded), fs)
    ensures SyncSound(DeriveSync(sync, initNeeded), fs)
  {
    TableKeys(skip, fs);
    TableKeys(sync, fs);
  }

  ghost predicate NobodyOverrides(fs: set<Filter>, ms: set<Callback>) {
    forall f | f in fs :: f.overridden !! ms
  }

  ghost predicate NobodyBlocks(fs: set<Filter>, ms: set<Callback>) {
    forall f | f in fs :: f.overridden * ms <= f.nonBlocking
  }

  /** What each flag of a fresh request says of the configured plugins. */
  ghost predicate FactoryFlags(s: SkipFlags, y: SyncFlags, fs: set<Filter>, initNeeded: bool) {
    && (s.decodeHeaders <==> !initNeeded && NobodyOverrides(fs, {DecodeHeaders, DecodeRequest}))
    && (s.decodeData <==> NobodyOverrides(fs, {DecodeData, DecodeRequest}))
    && (s.decodeTrailers <==> NobodyOverrides(fs, {DecodeTrailers, DecodeRequest}))
    && (s.encodeHeaders <==> NobodyOverrides(fs, {EncodeHeaders}))
    && (s.encodeData <==> NobodyOverrides(fs, {EncodeData, EncodeResponse}))
    && (s.encodeTrailers <==> NobodyOverrides(fs, {EncodeTrailers, EncodeResponse}))
    && (s.onLog <==> NobodyOverrides(fs, {OnLog}))
    && (y.decodeHeaders <==> !initNeeded && NobodyBlocks(fs, {DecodeHeaders, DecodeRequest}))
    && (y.decodeData <==> NobodyBlocks(fs, {DecodeData}))
    && (y.decodeTrailers <==> NobodyBlocks(fs, {DecodeTrailers}))
    && (y.encodeHeaders <==> NobodyBlocks(fs, {EncodeHeaders, EncodeResponse}))
    && (y.encodeData <==> NobodyBlocks(fs, {EncodeData}))
    && (y.encodeTrailers <==> NobodyBlocks(fs, {EncodeTrailers}))
  }

  /** What becomes of the flags when these filters join. */
  ghost predicate JoinedFlags(s: SkipFlags, y: SyncFlags, s0: SkipFlags, y0: SyncFlags, cs: set<Filter>) {
    && s.decodeHeaders == s0.decodeHeaders
    && (s.decodeData <==> s0.decodeData && NobodyOverrides(cs, {DecodeData, DecodeRequest}))
    && (s.decodeTrailers <==> s0.decodeTrailers && NobodyOverrides(cs, {DecodeTrailers, DecodeRequest}))
    && (s.encodeHeaders <==> s0.encodeData && NobodyOverrides(cs, {EncodeHeaders}))
    && (s.encodeData <==> s0.encodeData && NobodyOverrides(cs, {EncodeData, EncodeResponse}))
    && (s.encodeTrailers <==> s0.encodeTrailers && NobodyOverrides(cs, {EncodeTrailers, EncodeResponse}))
    && (s.onLog <==> s0.onLog && NobodyOverrides(cs, {OnLog}))
    && (y.decodeHeaders <==> y0.decodeHeaders && NobodyBlocks(cs, {DecodeHeaders, DecodeRequest}))
    && (y.decodeData <==> y0.decodeData && NobodyBlocks(cs, {DecodeData}))
    && (y.decodeTrailers <==> y0.decodeTrailers && NobodyBlocks(cs, {DecodeTrailers}))
    && (y.encodeHeaders <==> y0.encodeHeaders && NobodyBlocks(cs, {EncodeHeaders, EncodeResponse}))
    && (y.encodeData <==> y0.encodeData && NobodyBlocks(cs, {EncodeData}))
    && (y.encodeTrailers <==> y0.encodeTrailers && NobodyBlocks(cs, {EncodeTrailers}))
  }

  lemma OneOrTwo(fs: seq<Filter>, a: Callback, b: Callback)
    ensures NobodyOverrides(Elems(fs), {a}) <==> NoneOverrides(fs, a)
    ensures NobodyOverrides(Elems(fs), {a, b}) <==> NoneOverrides(fs, a) && NoneOverrides(fs, b)
    ensures NobodyBlocks(Elems(fs), {a}) <==> NoneBlocks(fs, a)
    ensures NobodyBlocks(Elems(fs), {a, b}) <==> NoneBlocks(fs, a) && NoneBlocks(fs, b)
  {
    assert forall f :: f in Elems(fs) <==> f in fs;
    forall f | f in fs
      ensures f.overridden !! {a} <==> a !in f.overridden
      ensures f.overridden !! {a, b} <==> a !in f.overridden && b !in f.overridden
      ensures f.overridden * {a} <= f.nonBlocking <==> (a in f.overridden ==> a in f.nonBlocking)
      ensures f.overridden * {a, b} <= f.nonBlocking <==>
        (a in f.overridden ==> a in f.nonBlocking) && (b in f.overridden ==> b in f.nonBlocking)
    {
      var both := f.overridden * {a, b};
      assert a in f.overridden ==> a in both && a in f.overridden * {a};
      assert b in f.overridden ==> b in both;
    }
  }

  lemma SkipFlagsAreExact(fs: seq<Filter>)
    ensures forall a, b :: NobodyOverrides(Elems(fs), {a, b}) <==> NoneOverrides(fs, a) && NoneOverrides(fs, b)
    ensures forall a :: NobodyOverrides(Elems(fs), {a}) <==> NoneOverrides(fs, a)
    ensures forall a, b :: NobodyBlocks(Elems(fs), {a, b}) <==> NoneBlocks(fs, a) && NoneBlocks(fs, b)
    ensures forall a :: NobodyBlocks(Elems(fs), {a}) <==> NoneBlocks(fs, a)
  {
    forall a, b
      ensures NobodyOverrides(Elems(fs), {a, b}) <==> NoneOverrides(fs, a) && NoneOverrides(fs, b)
      ensures NobodyOverrides(Elems(fs), {a}) <==> NoneOverrides(fs, a)
      ensures NobodyBlocks(Elems(fs), {a, b}) <==> NoneBlocks(fs, a) && NoneBlocks(fs, b)
      ensures NobodyBlocks(Elems(fs), {a}) <==> NoneBlocks(fs, a)
    {
      OneOrTwo(fs, a, b);
    }
  }

  /** The factory's flags say exactly that: a phase is skipped, or run inline,
      whenever it may be. */
  lemma FactoryFlagsAreExact(fs: seq<Filter>, skip: Table, sync: Table, initNeeded: bool)
    requires IsSkipTable(skip, fs) && IsSyncTable(sync, fs) && skip.Keys == sync.Keys == ALL_METHODS
    ensures FactoryFlags(DeriveSkip(skip, initNeeded), DeriveSync(sync, initNeeded), Elems(fs), initNeeded)
  {
    SkipFlagsAreExact(fs);
    hide NobodyOverrides;
    hide NobodyBlocks;
    hide NoneOverrides;
    hide NoneBlocks;
  }

  lemma JoinedFlagsAreExact(cs: seq<Filter>, s0: SkipFlags, y0: SyncFlags, t: Table, y: Table)
    requires IsSkipTable(t, cs) && IsSyncTable(y, cs) && t.Keys == y.Keys == ALL_METHODS
    ensures JoinedFlags(MergeSkip(s0, t), MergeSync(y0, y), s0, y0, Elems(cs))
  {
    SkipFlagsAreExact(cs);
    hide NobodyOverrides;
    hide NobodyBlocks;
    hide NoneOverrides;
    hide NoneBlocks;
  }

  /** The merged chain inherits a property of all route and consumer filters. */
  lemma MergedChainInherits(t: seq<Filter>, fs: seq<Filter>, cfg: FilterConfigs, reg: Registry, m: Callback,
                            cs: seq<Filter>)
    requires IsMerge(t, fs, cfg, reg) && Elems(cs) == Wrappers(cfg)
    ensures NoneOverrides(fs, m) && NoneOverrides(cs, m) ==> NoneOverrides(t, m)
    ensures NoneBlocks(fs, m) && NoneBlocks(cs, m) ==> NoneBlocks(t, m)
    ensures NoneOverrides(t, m) ==> NoneOverrides(cs, m)
  {
    MergeMembers(t, fs, cfg, reg);
    forall f ensures f in Wrappers(cfg) <==> f in cs { assert f in Elems(cs) <==> f in cs; }
  }

  /** Sync flags stay sound across a merge; and so do all skip flags but the
      response-headers one, which is unsound exactly when nothing in the old
      chain overrides EncodeData or EncodeResponse, no consumer filter overrides
      EncodeHeaders, and yet a filter that stays in the chain does. */
  lemma MergedFlagsAreSoundIff(t: seq<Filter>, fs: seq<Filter>, cfg: FilterConfigs, reg: Registry, cs: seq<Filter>,
                               skip: Table, sync: Table, cskip: Table, csync: Table, initNeeded: bool)
    requires IsMerge(t, fs, cfg, reg) && Elems(cs) == Wrappers(cfg)
    requires IsSkipTable(skip, fs) && IsSyncTable(sync, fs) && IsSkipTable(cskip, cs) && IsSyncTable(csync, cs)
    ensures skip.Keys == sync.Keys == cskip.Keys == csync.Keys == ALL_METHODS
    ensures SyncSound(MergeSync(DeriveSync(sync, initNeeded), csync), t)
    ensures var s := MergeSkip(DeriveSkip(skip, initNeeded), cskip);
            && SkipSoundButEncodeHeaders(s, t)
            && ((s.encodeHeaders ==> NoneOverrides(t, EncodeHeaders)) <==>
                !(&& skip[EncodeData] && skip[EncodeResponse] && cskip[EncodeHeaders]
                  && exists f | f in fs :: f.name !in cfg && EncodeHeaders in f.overridden))
  {
    TableKeys(skip, fs);
    TableKeys(sync, fs);
    TableKeys(cskip, cs);
    TableKeys(csync, cs);
    forall m ensures NoneOverrides(fs, m) && NoneOverrides(cs, m) ==> NoneOverrides(t, m) {
      MergedChainInherits(t, fs, cfg, reg, m, cs);
    }
    forall m ensures NoneBlocks(fs, m) && NoneBlocks(cs, m) ==> NoneBlocks(t, m) {
      MergedChainInherits(t, fs, cfg, reg, m, cs);
    }
    MergeMembers(t, fs, cfg, reg);
    forall f | f in t ensures f in fs || f in cs { assert f in Wrappers(cfg) ==> f in Elems(cs); }
    if f :| f in fs && f.name !in cfg && EncodeHeaders in f.overridden {
      assert f in t;
    }
    if NoneOverrides(cs, EncodeHeaders) && !NoneOverrides(t, EncodeHeaders) {
      var f :| f in t && EncodeHeaders in f.overridden;
      assert f in fs && f.name !in cfg by { assert f in Wrappers(cfg) ==> f in Elems(cs); }
    }
  }

  /** A chain where the merge sets the flag wrongly: an access filter that edits
      response headers, ahead of a consumer plugin, and a consumer that brings an
      unrelated filter. */
  lemma MergedEncodeHeadersFlagCanLie()
    returns (fs: seq<Filter>, cfg: FilterConfigs, reg: Registry, t: seq<Filter>, skip: Table, cskip: Table)
    ensures |fs| == 2 && fs[1].name == "auth" && fs[1].overridden == {DecodeHeaders}
    ensures reg.Keys == {"cors", "auth", "limit"} && reg["auth"].position == POSITION_AUTHN
    ensures WellFormedChain(fs, reg) && WellFormedConsumer(cfg, reg) && IsMerge(t, fs, cfg, reg)
    ensures IsSkipTable(skip, fs) && exists cs :: Elems(cs) == Wrappers(cfg) && IsSkipTable(cskip, cs)
    ensures skip.Keys == cskip.Keys == ALL_METHODS
    ensures MergeSkip(DeriveSkip(skip, false), cskip).encodeHeaders && !NoneOverrides(t, EncodeHeaders)
  {
    var cors := Filter("cors", {EncodeHeaders}, {});
    var auth := Filter("auth", {DecodeHeaders}, {});
    var limit := Filter("limit", {DecodeHeaders}, {});
    fs, cfg := [cors, auth], map["limit" := limit];
    reg := map["cors" := PluginOrder(POSITION_ACCESS, 0), "auth" := PluginOrder(POSITION_AUTHN, 0),
               "limit" := PluginOrder(POSITION_AUTHN + 1, 0)];
    t := fs + [limit];
    skip := map m: Callback | m in ALL_METHODS :: m != EncodeHeaders && m != DecodeHeaders;
    cskip := map m: Callback | m in ALL_METHODS :: m != DecodeHeaders;
    hide ComparePluginOrder;
    hide WellFormedChain;
    hide IsMerge;
    hide Wrappers;
    hide IsSkipTable;
    assert "cors" != "auth" && "cors" != "limit" && "auth" != "limit";
    AppendInOrder(cors, auth, limit, reg);
    forall m: Callback ensures m in ALL_METHODS { AllMethods(m); }
    OverridersOfTwo(cors, auth, skip);
    OverriderOfOne(limit, cskip);
    AppendWrappers(limit);
    assert Elems([limit]) == Wrappers(cfg);
    assert t[0] in t;
  }

  /** A chain of two filters in plugin order, and a third of a later group. */
  lemma AppendInOrder(a: Filter, b: Filter, c: Filter, reg: Registry)
    requires a.name in reg && b.name in reg && c.name in reg
    requires reg[a.name].position < reg[b.name].position < reg[c.name].position
    ensures WellFormedChain([a, b], reg)
    ensures IsMerge([a, b] + [c], [a, b], map[c.name := c], reg)
  {
    hide IsMerge;
    EarlierPosition(reg, a, b);
    EarlierPosition(reg, b, c);
    EarlierPosition(reg, a, c);
    hide ComparePluginOrder;
    AppendMerge([a, b], c, reg);
  }

  lemma EarlierPosition(reg: Registry, a: Filter, b: Filter)
    requires a.name in reg && b.name in reg && reg[a.name].position < reg[b.name].position
    ensures !ByName(reg)(b, a) && a.name != b.name
  {
  }

  lemma OverridersOfTwo(a: Filter, b: Filter, t: Table)
    requires forall m: Callback :: m in t && (t[m] <==> m !in a.overridden && m !in b.overridden)
    ensures IsSkipTable(t, [a, b])
  {
    assert forall f :: f in [a, b] <==> f == a || f == b;
  }

  lemma OverriderOfOne(a: Filter, t: Table)
    requires forall m: Callback :: m in t && (t[m] <==> m !in a.overridden)
    ensures IsSkipTable(t, [a])
  {
    assert forall f :: f in [a] <==> f == a;
  }

  lemma AppendWrappers(b: Filter)
    ensures Wrappers(map[b.name := b]) == {b}
  {
    var cfg := map[b.name := b];
    assert Wrap(b.name, b) == b;
    forall f ensures f in Wrappers(cfg) <==> f == b { assert b.name in cfg; }
  }

  /** A consumer filter that sorts behind the whole chain is appended. */
  lemma AppendMerge(fs: seq<Filter>, b: Filter, reg: Registry)
    requires SortedBy(ByName(reg), fs)
    requires forall i | 0 <= i < |fs| :: fs[i].name != b.name && !ByName(reg)(b, fs[i])
    ensures IsMerge(fs + [b], fs, map[b.name := b], reg)
  {
    hide ComparePluginOrder;
    hide StrictTotalOn;
    hide Wrappers;
    hide Survivors;
    SurvivorsAll(fs, map[b.name := b]);
    AppendWrappers(b);
    SortedAppend(fs, b, ByName(reg));
    assert multiset(fs + [b]) == multiset(fs) + multiset({b});
  }

  lemma SortedAppend(fs: seq<Filter>, b: Filter, less: (Filter, Filter) -> bool)
    requires SortedBy(less, fs) && forall i | 0 <= i < |fs| :: !less(b, fs[i])
    ensures SortedBy(less, fs + [b])
  {
  }

  // ----------------------------------------------------- what a schedule touches

  /** The schedule calls only filters of fs, and only callbacks of the given kinds. */
  ghost predicate Within(plan: seq<Call>, fs: seq<Filter>, kinds: set<Callback>) {
    forall i | 0 <= i < |plan| :: plan[i].filter in fs && plan[i].cb in kinds
  }

  function BodyKinds(d: Direction, body: Option<nat>, trailers: bool): set<Callback> {
    (if body.Some? then {d.Data()} else {}) + (if trailers then {d.Trailers()} else {})
  }

  lemma TailWithin(d: Direction, fs: seq<Filter>, lo: nat, hi: nat, body: Option<nat>, trailers: bool)
    requires hi <= |fs|
    ensures Within(Tail(d, fs, lo, hi, body, trailers), fs, BodyKinds(d, body, trailers))
  {
  }

  lemma WithinConcat(a: seq<Call>, b: seq<Call>, fs: seq<Filter>, k: set<Callback>, l: set<Callback>)
    requires Within(a, fs, k) && Within(b, fs, l)
    ensures Within(a + b, fs, k + l)
  {
  }

  lemma SegmentWithin(d: Direction, fs: seq<Filter>, lo: nat, w: nat, endStream: bool, body: Option<nat>,
                      trailers: bool)
    requires w <= |fs|
    ensures Within(Segment(d, fs, lo, w, endStream, body, trailers), fs,
                   {d.Headers(), d.Whole()} + BodyKinds(d, body, trailers))
  {
    TailWithin(d, fs, lo, w, body, trailers);
    hide Tail;
    WithinConcat(HeadersUpTo(d, fs, lo, w, endStream), Tail(d, fs, lo, w, body, trailers), fs, {d.Headers()},
                 BodyKinds(d, body, trailers));
  }

  lemma {:induction false} PlanWithin(d: Direction, fs: seq<Filter>, ws: seq<bool>, lo: nat, endStream: bool,
                                      body: Option<nat>, trailers: bool)
    requires |ws| == |fs|
    ensures Within(Plan(d, fs, ws, lo, endStream, body, trailers), fs,
                   {d.Headers(), d.Whole()} + BodyKinds(d, body, trailers))
    decreases |fs| - lo
  {
    hide Segment;
    PlanUnfold(d, fs, ws, lo, endStream, body, trailers);
    hide Plan;
    if lo < |fs| {
      SegmentWithin(d, fs, lo, NextWait(ws, lo), endStream, body, trailers);
      PlanWithin(d, fs, ws, NextWait(ws, lo) + 1, endStream, body, trailers);
      var kinds := {d.Headers(), d.Whole()} + BodyKinds(d, body, trailers);
      WithinConcat(Segment(d, fs, lo, NextWait(ws, lo), endStream, body, trailers),
                   Plan(d, fs, ws, NextWait(ws, lo) + 1, endStream, body, trailers), fs, kinds, kinds);
      assert kinds + kinds == kinds;
    }
  }

  /** Resuming a buffered message reaches headers, the whole-body callback,
      and data and trailers as far as they exist. */
  lemma ResumeWithin(d: Direction, fs: seq<Filter>, ws: seq<bool>, w: nat, body: Option<nat>, trailers: bool)
    requires |ws| == |fs| && w < |fs|
    ensures Within(Resume(d, fs, ws, w, body, trailers), fs, {d.Headers(), d.Whole()} + BodyKinds(d, body, trailers))
  {
    hide Plan;
    PlanWithin(d, fs, ws, w + 1, false, body, trailers);
    TailWithin(d, fs, 0, w, body, trailers);
    hide Tail;
  }

  // ----------------------------------------------------------- running in place

  /** No callback in the schedule blocks: each is non-blocking or not overridden. */
  ghost predicate NonBlocking(plan: seq<Call>) {
    forall i | 0 <= i < |plan| :: plan[i].cb in plan[i].filter.overridden ==> plan[i].cb in plan[i].filter.nonBlocking
  }

  lemma NothingBlocks()
    ensures NonBlocking([])
  {
  }

  lemma WithinNonBlocking(plan: seq<Call>, fs: seq<Filter>, kinds: set<Callback>)
    requires Within(plan, fs, kinds)
    requires forall m | m in kinds :: NoneBlocks(fs, m)
    ensures NonBlocking(plan)
  {
  }

  predicate InlineDecodeData(s: SyncFlags, decodeIdx: int) {
    s.decodeData && (decodeIdx == -1 || (s.decodeHeaders && s.decodeTrailers))
  }

  /** decodeTrailers is tested twice and decodeData never. */
  predicate InlineDecodeTrailers(s: SyncFlags, decodeIdx: int) {
    s.decodeTrailers && (decodeIdx == -1 || (s.decodeHeaders && s.decodeTrailers))
  }

  predicate InlineEncodeData(s: SyncFlags, encodeIdx: int) {
    s.encodeData && (encodeIdx == -1 || (s.encodeHeaders && s.encodeTrailers))
  }

  predicate InlineEncodeTrailers(s: SyncFlags, encodeIdx: int) {
    s.encodeTrailers && (encodeIdx == -1 || (s.encodeHeaders && s.encodeData))
  }

  /** A data callback run on the caller's thread blocks nowhere, the whole
      resumed chain included. */
  lemma InlineDataIsSound(d: Direction, s: SyncFlags, fs: seq<Filter>, ws: seq<bool>, w: int, buf: nat, endStream: bool)
    requires SyncSound(s, fs) && |ws| == |fs| && -1 <= w < |fs|
    requires if d.Decode? then InlineDecodeData(s, w) else InlineEncodeData(s, w)
    ensures NonBlocking(if w == -1 then Sweep(fs, 0, |fs|, d.Data(), Some(buf), endStream)
                        else Resume(d, fs, ws, w, Some(buf), false))
  {
    if w == -1 {
      WithinNonBlocking(Sweep(fs, 0, |fs|, d.Data(), Some(buf), endStream), fs, {d.Data()});
    } else {
      ResumeWithin(d, fs, ws, w, Some(buf), false);
      WithinNonBlocking(Resume(d, fs, ws, w, Some(buf), false), fs, {d.Headers(), d.Whole(), d.Data()});
    }
  }

  /** Headers on the caller's thread: no callback of the chain they were
      decided for blocks, header-only messages included. */
  lemma InlineHeadersAreSound(d: Direction, s: SyncFlags, fs: seq<Filter>, ws: seq<bool>, lo: nat, endStream: bool)
    requires SyncSound(s, fs) && |ws| == |fs| && lo <= |fs|
    requires if d.Decode? then s.decodeHeaders else s.encodeHeaders
    ensures NonBlocking(Plan(d, fs, ws, lo, endStream, None, false))
    ensures NonBlocking(HeadersUpTo(d, fs, lo, NextWait(ws, lo), endStream))
  {
    PlanWithin(d, fs, ws, lo, endStream, None, false);
    WithinNonBlocking(Plan(d, fs, ws, lo, endStream, None, false), fs, {d.Headers(), d.Whole()});
    hide Plan;
    WithinNonBlocking(HeadersUpTo(d, fs, lo, NextWait(ws, lo), endStream), fs, {d.Headers()});
  }

  /** Streamed response trailers on the caller's thread block nowhere. */
  lemma InlineEncodeTrailersIsSound(s: SyncFlags, fs: seq<Filter>)
    requires SyncSound(s, fs) && InlineEncodeTrailers(s, -1)
    ensures NonBlocking(Sweep(fs, 0, |fs|, EncodeTrailers, None, false))
  {
    WithinNonBlocking(Sweep(fs, 0, |fs|, EncodeTrailers, None, false), fs, {EncodeTrailers});
  }

  lemma InlineDecodeStreamedTrailersAreSound(s: SyncFlags, fs: seq<Filter>)
    requires SyncSound(s, fs) && InlineDecodeTrailers(s, -1)
    ensures NonBlocking(Sweep(fs, 0, |fs|, DecodeTrailers, None, false))
  {
    WithinNonBlocking(Sweep(fs, 0, |fs|, DecodeTrailers, None, false), fs, {DecodeTrailers});
  }

  /** The callbacks one filter receives when a buffered message is resumed. */
  lemma ResumeServesEveryFilter(d: Direction, fs: seq<Filter>, ws: seq<bool>, w: nat, body: Option<nat>,
                                trailers: bool, i: nat)
    requires |ws| == |fs| && w < |fs| && i < |fs| && DistinctFilters(fs)
    ensures Of(Resume(d, fs, ws, w, body, trailers), fs[i]) ==
            if i < w then BodyLog(d, fs[i], body, trailers)
            else if i == w then [d.WholeCall(fs[w], body, trailers)]
            else FilterLog(d, fs[i], ws[i], false, body, trailers)
  {
    hide Plan;
    hide FilterLog;
    hide BodyLog;
    hide Of;
    var a := Tail(d, fs, 0, w, body, trailers);
    var b := WholeAt(d, fs, w, body, trailers);
    var c := Plan(d, fs, ws, w + 1, false, body, trailers);
    OfTail(d, fs, 0, w, body, trailers, i);
    hide Tail;
    OfOne(d.WholeCall(fs[w], body, trailers), fs[i]);
    PlanServesEveryFilter(d, fs, ws, w + 1, false, body, trailers, i);
    OfConcat(a, b, fs[i]);
    OfConcat(a + b, c, fs[i]);
    assert fs[w] == fs[i] <==> w == i;
  }

  /** Request trailers that complete a buffered request: once let through on the
      caller's thread they are non-blocking exactly when there is no body, or no
      filter that is handed the body blocks in DecodeData. */
  lemma InlineDecodeTrailersSoundIff(s: SyncFlags, fs: seq<Filter>, ws: seq<bool>, w: nat, body: Option<nat>)
    requires SyncSound(s, fs) && |ws| == |fs| && w < |fs| && DistinctFilters(fs)
    requires InlineDecodeTrailers(s, w)
    ensures NonBlocking(Resume(Decode, fs, ws, w, body, true)) <==>
            (body.None? || forall i | 0 <= i < |fs| && (i < w || (i > w && !ws[i])) :: NoneBlocks([fs[i]], DecodeData))
  {
    var plan := Resume(Decode, fs, ws, w, body, true);
    ResumeWithin(Decode, fs, ws, w, body, true);
    hide Resume;
    hide NonBlocking;
    hide Within;
    if body.Some? {
      forall i | 0 <= i < |fs| ensures
        Decode.DataCall(fs[i], body.value, false) in plan <==> (i < w || (i > w && !ws[i])) {
        ResumeGivesBodyTo(fs, ws, w, body.value, i);
      }
    }
    if body.None? {
      WithinNonBlocking(plan, fs, {DecodeHeaders, DecodeRequest, DecodeTrailers});
    } else {
      DataCallsDecide(s, fs, ws, w, body.value, plan);
    }
  }

  lemma ResumeGivesBodyTo(fs: seq<Filter>, ws: seq<bool>, w: nat, buf: nat, i: nat)
    requires |ws| == |fs| && w < |fs| && i < |fs| && DistinctFilters(fs)
    ensures Decode.DataCall(fs[i], buf, false) in Resume(Decode, fs, ws, w, Some(buf), true) <==>
        (i < w || (i > w && !ws[i]))
  {
    ResumeServesEveryFilter(Decode, fs, ws, w, Some(buf), true, i);
    hide Resume;
    OfMembers(Resume(Decode, fs, ws, w, Some(buf), true), Decode.DataCall(fs[i], buf, false));
  }

  lemma DataCallsDecide(s: SyncFlags, fs: seq<Filter>, ws: seq<bool>, w: nat, buf: nat, plan: seq<Call>)
    requires SyncSound(s, fs) && s.decodeHeaders && s.decodeTrailers && |ws| == |fs|
    requires w < |fs| && DistinctFilters(fs) && plan == Resume(Decode, fs, ws, w, Some(buf), true)
    requires Within(plan, fs, {DecodeHeaders, DecodeRequest, DecodeData, DecodeTrailers})
    requires forall i | 0 <= i < |fs| :: Decode.DataCall(fs[i], buf, false) in plan <==> (i < w || (i > w && !ws[i]))
    ensures NonBlocking(plan) <==>
            forall i | 0 <= i < |fs| && (i < w || (i > w && !ws[i])) :: NoneBlocks([fs[i]], DecodeData)
  {
    hide Resume;
    forall i | 0 <= i < |fs| ensures NoneBlocks([fs[i]], DecodeData) <==>
        (DecodeData in fs[i].overridden ==> DecodeData in fs[i].nonBlocking) {
      assert fs[i] in [fs[i]];
    }
    if NonBlocking(plan) {
      forall i | 0 <= i < |fs| && (i < w || (i > w && !ws[i])) ensures NoneBlocks([fs[i]], DecodeData) {
        assert Decode.DataCall(fs[i], buf, false) in plan;
      }
    } else {
      var p :| 0 <= p < |plan| && plan[p].cb in plan[p].filter.overridden && plan[p].cb !in plan[p].filter.nonBlocking;
      assert plan[p].cb == DecodeData;
      var i :| 0 <= i < |fs| && fs[i] == plan[p].filter;
      ResumeDataCalls(fs, ws, w, buf, i, plan[p]);
      assert plan[p] in plan;
    }
  }

  lemma LogDataCalls(f: Filter, waits: bool, buf: nat, c: Call)
    requires c.cb == DecodeData
    requires c in FilterLog(Decode, f, waits, false, Some(buf), true) || c in BodyLog(Decode, f, Some(buf), true)
    ensures c == Decode.DataCall(f, buf, false)
  {
  }

  lemma ResumeDataCalls(fs: seq<Filter>, ws: seq<bool>, w: nat, buf: nat, i: nat, c: Call)
    requires |ws| == |fs| && w < |fs| && i < |fs| && DistinctFilters(fs)
    requires c in Resume(Decode, fs, ws, w, Some(buf), true) && c.filter == fs[i] && c.cb == DecodeData
    ensures c == Decode.DataCall(fs[i], buf, false)
  {
    ResumeServesEveryFilter(Decode, fs, ws, w, Some(buf), true, i);
    hide Resume;
    hide FilterLog;
    hide BodyLog;
    OfMembers(Resume(Decode, fs, ws, w, Some(buf), true), c);
    if i != w {
      LogDataCalls(fs[i], ws[i], buf, c);
    }
  }

  /** A plugin that blocks in DecodeData, ahead of one that reads the whole
      request: the factory's flags let trailers through on the caller's thread,
      and the blocking callback with them. */
  lemma InlineDecodeTrailersCanBlock(buf: nat) returns (fs: seq<Filter>, sync: Table, s: SyncFlags)
    ensures |fs| == 2 && DistinctFilters(fs) && IsSyncTable(sync, fs) && sync.Keys == ALL_METHODS
    ensures s == DeriveSync(sync, false) && SyncSound(s, fs) && InlineDecodeTrailers(s, 1)
    ensures !NonBlocking(Resume(Decode, fs, [false, true], 1, Some(buf), true))
  {
    var audit := Filter("audit", {DecodeData}, {});
    var sign := Filter("sign", {DecodeHeaders, DecodeRequest}, {DecodeHeaders, DecodeRequest});
    fs := [audit, sign];
    sync := map m: Callback | m in ALL_METHODS :: m != DecodeData;
    forall m: Callback ensures m in ALL_METHODS { AllMethods(m); }
    assert forall f :: f in fs <==> f == audit || f == sign;
    s := DeriveSync(sync, false);
    InlineDecodeTrailersSoundIff(s, fs, [false, true], 1, Some(buf));
    assert fs[0] in [fs[0]];
    assert !NoneBlocks([fs[0]], DecodeData);
  }

  /** With the missing test of decodeData the gate would be sound. */
  lemma InlineDecodeTrailersNeedsDataFlag(s: SyncFlags, fs: seq<Filter>, ws: seq<bool>, w: nat, body: Option<nat>)
    requires SyncSound(s, fs) && |ws| == |fs| && w < |fs|
    requires InlineDecodeTrailers(s, w) && s.decodeData
    ensures NonBlocking(Resume(Decode, fs, ws, w, body, true))
  {
    ResumeWithin(Decode, fs, ws, w, body, true);
    WithinNonBlocking(Resume(Decode, fs, ws, w, body, true), fs,
                      {DecodeHeaders, DecodeRequest, DecodeData, DecodeTrailers});
  }

  // ------------------------------------------------------------------- skipping

  /** Plugins inherit PassThroughFilter: what they do not override returns Continue. */
  ghost predicate PassThrough(oracle: Oracle) {
    forall c: Call | c.cb !in c.filter.overridden :: oracle(c).Continue?
  }

  /** WaitAllData is returned only by filters that override the whole-body callback. */
  ghost predicate WaitsOnlyWithWhole(d: Direction, oracle: Oracle) {
    forall c: Call | c.cb == d.Headers() && oracle(c).WaitAllData? :: d.Whole() in c.filter.overridden
  }

  /** What a plugin author can observe: overridden callbacks and local replies. */
  function Visible(t: seq<Event>): seq<Event> {
    if t == [] then []
    else
      var rest := Visible(t[..|t| - 1]);
      var e := t[|t| - 1];
      if e.Called? && e.call.cb !in e.call.filter.overridden then rest else rest + [e]
  }

  lemma {:induction false} VisibleUnchanged(t0: seq<Event>, t: seq<Event>)
    requires forall i | 0 <= i < |t| :: t[i].Called? && t[i].call.cb !in t[i].call.filter.overridden
    ensures Visible(t0 + t) == Visible(t0)
  {
    if t == [] {
      assert t0 + t == t0;
    } else {
      assert (t0 + t)[..|t0 + t| - 1] == t0 + t[..|t| - 1];
      VisibleUnchanged(t0, t[..|t| - 1]);
    }
  }

  /** Running a schedule in which nothing is overridden shows nothing and stops nowhere. */
  lemma RunningNothing(t0: seq<Event>, plan: seq<Call>, fs: seq<Filter>, kinds: set<Callback>, oracle: Oracle,
                       t: seq<Event>, ok: bool)
    requires Outcome(t0, plan, oracle, t, ok) && PassThrough(oracle)
    requires Within(plan, fs, kinds) && forall m | m in kinds :: NoneOverrides(fs, m)
    ensures ok && Visible(t) == Visible(t0)
  {
    CutShape(plan, oracle);
    VisibleUnchanged(t0, Events(plan));
  }

  lemma {:induction false} VisibleConcat(a: seq<Event>, b: seq<Event>)
    ensures Visible(a + b) == Visible(a) + Visible(b)
  {
    if b == [] {
      assert a + b == a;
    } else {
      assert (a + b)[..|a + b| - 1] == a + b[..|b| - 1];
      VisibleConcat(a, b[..|b| - 1]);
    }
  }

  /** Running the same schedule from traces that look alike keeps them alike. */
  lemma RunningAlike(t0: seq<Event>, u0: seq<Event>, plan: seq<Call>, oracle: Oracle, t: seq<Event>, u: seq<Event>,
                     ok: bool)
    requires Visible(t0) == Visible(u0)
    requires Outcome(t0, plan, oracle, t, ok) && u == u0 + Cut(plan, oracle)
    ensures Outcome(u0, plan, oracle, u, ok) && Visible(t) == Visible(u)
    ensures t0 == u0 ==> t == u
  {
    VisibleConcat(t0, Cut(plan, oracle));
    VisibleConcat(u0, Cut(plan, oracle));
  }

  /** If headers are skipped, or the body or the trailers are, nobody waits. */
  lemma SkippingMeansNobodyWaits(d: Direction, s: SkipFlags, fs: seq<Filter>, oracle: Oracle, endStream: bool)
    requires PassThrough(oracle) && WaitsOnlyWithWhole(d, oracle)
    requires var headers := if d.Decode? then s.decodeHeaders else s.encodeHeaders;
             var data := if d.Decode? then s.decodeData else s.encodeData;
             var trailers := if d.Decode? then s.decodeTrailers else s.encodeTrailers;
             (headers && SkipSound(s, fs)) || (SkipSoundButEncodeHeaders(s, fs) && (data || trailers))
    ensures forall i | 0 <= i < |fs| :: !Waits(d, fs, oracle, endStream)[i]
  {
    forall i | 0 <= i < |fs| ensures !Waits(d, fs, oracle, endStream)[i] {
      assert fs[i] in fs;
      assert d.HeadersCall(fs[i], endStream).filter == fs[i];
    }
  }

  /** Skipping data or trailers: the streamed full run would show nothing and finish. */
  lemma SkippingBodyRefines(d: Direction, s: SkipFlags, fs: seq<Filter>, oracle: Oracle, m: Callback,
                            body: Option<nat>, flag: bool, t0: seq<Event>, t: seq<Event>, ok: bool)
    requires SkipSoundButEncodeHeaders(s, fs) && PassThrough(oracle)
    requires || (d.Decode? && m == DecodeData && s.decodeData) || (d.Decode? && m == DecodeTrailers && s.decodeTrailers)
             || (d.Encode? && m == EncodeData && s.encodeData) || (d.Encode? && m == EncodeTrailers && s.encodeTrailers)
    requires Outcome(t0, Sweep(fs, 0, |fs|, m, body, flag), oracle, t, ok)
    ensures ok && Visible(t) == Visible(t0)
  {
    RunningNothing(t0, Sweep(fs, 0, |fs|, m, body, flag), fs, {m}, oracle, t, ok);
  }

  /** Skipping headers: a full run in which nobody waits would show nothing and finish. */
  lemma SkippingHeadersRefines(d: Direction, fs: seq<Filter>, oracle: Oracle, endStream: bool,
                               t0: seq<Event>, t: seq<Event>, ok: bool)
    requires NoneOverrides(fs, d.Headers()) && PassThrough(oracle)
    requires Outcome(t0, Sweep(fs, 0, |fs|, d.Headers(), None, endStream), oracle, t, ok)
    ensures ok && Visible(t) == Visible(t0)
  {
    RunningNothing(t0, Sweep(fs, 0, |fs|, d.Headers(), None, endStream), fs, {d.Headers()}, oracle, t, ok);
  }

  /** Flags stay sound when a consumer's filters join. */
  lemma MergeKeepsFlagsSound(t: seq<Filter>, fs: seq<Filter>, cfg: FilterConfigs, reg: Registry, cs: seq<Filter>,
                             s: SkipFlags, y: SyncFlags, cskip: Table, csync: Table)
    requires IsMerge(t, fs, cfg, reg) && Elems(cs) == Wrappers(cfg)
    requires IsSkipTable(cskip, cs) && IsSyncTable(csync, cs)
    ensures cskip.Keys == csync.Keys == ALL_METHODS
    ensures SkipSoundButEncodeHeaders(s, fs) ==> SkipSoundButEncodeHeaders(MergeSkip(s, cskip), t)
    ensures SyncSound(y, fs) ==> SyncSound(MergeSync(y, csync), t)
  {
    TableKeys(cskip, cs);
    TableKeys(csync, cs);
    forall m ensures NoneOverrides(fs, m) && NoneOverrides(cs, m) ==> NoneOverrides(t, m) {
      MergedChainInherits(t, fs, cfg, reg, m, cs);
    }
    forall m ensures NoneBlocks(fs, m) && NoneBlocks(cs, m) ==> NoneBlocks(t, m) {
      MergedChainInherits(t, fs, cfg, reg, m, cs);
    }
  }
}
