/** Merging the policies that apply to one route or listener: which policy wins
    for each plugin, and what is recorded about it. */
module PolicyMerge {
  import opened Orders
  import Strings

  /** `FilterPolicyWrapper`: a smaller scope is more specific; `filters` maps a
      plugin to its (opaque) configuration. */
  datatype Policy = Policy(scope: int, created: int, ns: string, name: string, filters: map<string, int>)

  function NsName(p: Policy): string { p.ns + "/" + p.name }

  predicate PolicyLess(a: Policy, b: Policy) {
    if a.scope != b.scope then a.scope < b.scope
    else if a.created != b.created then a.created < b.created
    else StrLess(NsName(a), NsName(b))
  }

  function Before(): (Policy, Policy) -> bool {
    (a: Policy, b: Policy) => PolicyLess(a, b)
  }

  /** No two different policies have the same scope, age and name. */
  ghost predicate KeysDistinct(s: set<Policy>) {
    forall p, q | p in s && q in s && p != q ::
      p.scope != q.scope || p.created != q.created || NsName(p) != NsName(q)
  }

  /** The sort of the policies is an order exactly when their keys are distinct. */
  lemma PolicyOrderIsTotalIff(s: set<Policy>)
    ensures StrictTotalOn(Before(), s) <==> KeysDistinct(s)
  {
    var less := Before();
    forall p | p in s ensures !less(p, p) { StrLessIrreflexive(NsName(p)); }
    forall p, q, r | p in s && q in s && r in s && less(p, q) && less(q, r) ensures less(p, r) {
      if StrLess(NsName(p), NsName(q)) && StrLess(NsName(q), NsName(r)) {
        StrLessTransitive(NsName(p), NsName(q), NsName(r));
      }
    }
    if KeysDistinct(s) {
      forall p, q | p in s && q in s && p != q ensures less(p, q) || less(q, p) {
        StrLessConnected(NsName(p), NsName(q));
      }
    } else {
      var p, q :| p in s && q in s && p != q && p.scope == q.scope && p.created == q.created && NsName(p) == NsName(q);
      StrLessIrreflexive(NsName(p));
      assert !less(p, q) && !less(q, p);
    }
  }

  /** `namespace/name` identifies a policy: a namespace has no slash. */
  lemma NsNameInjective(p: Policy, q: Policy)
    requires '/' !in p.ns && '/' !in q.ns && NsName(p) == NsName(q)
    ensures p.ns == q.ns && p.name == q.name
  {
    Strings.SplitUnique(p.ns, '/', p.name, q.ns, q.name);
  }

  // ---------------------------------------------------------- what is promised

  /** w is the policy that decides plugin n: least by scope, then age, then name. */
  ghost predicate Winner(s: set<Policy>, n: string, w: Policy) {
    && w in s && n in w.filters
    && forall q | q in s && n in q.filters && q != w :: PolicyLess(w, q)
  }

  ghost predicate Contributes(s: set<Policy>, w: Policy) {
    exists n :: Winner(s, n, w)
  }

  datatype FilterConfig = FilterConfig(name: string, config: int)

  datatype Merged = Merged(filters: map<string, int>, info: seq<string>, plugins: seq<FilterConfig>)

  function NameLess(reg: Registry): (FilterConfig, FilterConfig) -> bool {
    (a: FilterConfig, b: FilterConfig) => ComparePluginOrder(reg, a.name, b.name)
  }

  ghost predicate Decides(s: set<Policy>, n: string, w: Policy, config: int) {
    Winner(s, n, w) && w.filters[n] == config
  }

  /** Every plugin some policy configures, as its winner configures it. */
  ghost predicate FiltersOk(filters: map<string, int>, s: set<Policy>) {
    && (forall n :: n in filters <==> exists p :: p in s && n in p.filters)
    && (forall n | n in filters :: exists w :: Decides(s, n, w, filters[n]))
  }

  /** The policies that won some plugin, sorted, each once. */
  ghost predicate InfoOk(info: seq<string>, s: set<Policy>) {
    && Distinct(info) && SortedBy(StrLess, info)
    && forall x :: x in info <==> exists w :: Contributes(s, w) && x == w.ns + "/" + w.name
  }

  /** One entry per plugin, in plugin order. */
  ghost predicate PluginsOk(plugins: seq<FilterConfig>, filters: map<string, int>, reg: Registry) {
    && (forall c :: c in plugins <==> c.name in filters && c.config == filters[c.name])
    && Distinct(plugins)
    && (NoStraddle(reg, filters.Keys) ==>
          forall i, j | 0 <= i < j < |plugins| :: !ComparePluginOrder(reg, plugins[j].name, plugins[i].name))
  }

  /** The result for a set of policies. */
  ghost predicate IsMerged(m: Merged, s: set<Policy>, reg: Registry) {
    FiltersOk(m.filters, s) && InfoOk(m.info, s) && PluginsOk(m.plugins, m.filters, reg)
  }

  // ------------------------------------------------------------ the algorithm

  function FirstWins(s: seq<Policy>): map<string, int> {
    if s == [] then map[] else s[|s| - 1].filters + FirstWins(s[..|s| - 1])
  }

  function Used(s: seq<Policy>): set<string> {
    if s == [] then {}
    else
      var earlier := s[..|s| - 1];
      var last := s[|s| - 1];
      Used(earlier) + (if last.filters.Keys <= FirstWins(earlier).Keys then {} else {NsName(last)})
  }

  /** `toMergedPolicy`, up to the translation of the plugins' configuration. The
      maps are walked in any order. Even if policies cannot be told apart, every
      configured plugin is there, as some policy has it. */
  method ToMergedPolicy(policies: seq<Policy>, reg: Registry) returns (m: Merged)
    ensures KeysDistinct(Elems(policies)) ==> IsMerged(m, Elems(policies), reg)
    ensures forall n :: n in m.filters <==> exists p :: p in policies && n in p.filters
    ensures forall n | n in m.filters :: exists p :: p in policies && n in p.filters && m.filters[n] == p.filters[n]
    ensures PluginsOk(m.plugins, m.filters, reg)
  {
    hide IsMerged;
    hide PluginsOk;
    hide KeysDistinct;
    hide StrictTotalOn;
    hide SortedBy;
    hide FirstWins;
    hide Used;
    var sorted := SortSlice(policies, Before());
    PolicyOrderIsTotalIff(Elems(policies));
    ElemsOfPermutation(sorted, policies);
    NothingMerged();

    var filters: map<string, int> := map[];
    var usedFP: set<string> := {};
    for i := 0 to |sorted|
      invariant filters == FirstWins(sorted[..i])
      invariant usedFP == Used(sorted[..i])
    {
      var policy := sorted[i];
      MergeSnoc(sorted, i);
      var used;
      filters, used := AddFilters(filters, policy);
      if used {
        usedFP := usedFP + {NsName(policy)};
      }
    }
    assert sorted[..|sorted|] == sorted;
    var info := SortedStrings(usedFP);
    var plugins := ToPlugins(filters, reg);
    m := Merged(filters, info, plugins);
    if KeysDistinct(Elems(policies)) {
      MergedAsPromised(m, sorted, reg);
    }
    forall n
      ensures n in filters <==> exists p :: p in policies && n in p.filters
      ensures n in filters ==> exists p :: p in policies && n in p.filters && filters[n] == p.filters[n]
    {
      FromSomePolicy(sorted, policies, n);
    }
  }

  lemma NothingMerged()
    ensures FirstWins([]) == map[] && Used([]) == {}
  {
  }

  lemma MergeSnoc(s: seq<Policy>, i: nat)
    requires i < |s|
    ensures FirstWins(s[..i + 1]) == s[i].filters + FirstWins(s[..i])
    ensures Used(s[..i + 1]) == Used(s[..i]) +
        (if s[i].filters.Keys <= FirstWins(s[..i]).Keys then {} else {NsName(s[i])})
  {
    assert s[..i + 1][..i] == s[..i];
  }

  lemma FromSomePolicy(sorted: seq<Policy>, policies: seq<Policy>, n: string)
    requires Elems(sorted) == Elems(policies)
    ensures n in FirstWins(sorted) <==> exists p :: p in policies && n in p.filters
    ensures n in FirstWins(sorted) ==>
        exists p :: p in policies && n in p.filters && FirstWins(sorted)[n] == p.filters[n]
  {
    FirstWinsIsFirst(sorted, n);
    assert forall p :: p in sorted <==> p in Elems(sorted);
    assert forall p :: p in policies <==> p in Elems(policies);
    if n in FirstWins(sorted) {
      var i :| FirstAt(sorted, n, i) && FirstWins(sorted)[n] == sorted[i].filters[n];
      assert sorted[i] in sorted;
    }
  }

  /** One policy: its filters in any order, those already present are skipped. */
  method AddFilters(before: map<string, int>, policy: Policy) returns (filters: map<string, int>, used: bool)
    ensures filters == policy.filters + before
    ensures used <==> !(policy.filters.Keys <= before.Keys)
  {
    filters := before;
    used := false;
    var todo := policy.filters.Keys;
    while todo != {}
      invariant todo <= policy.filters.Keys
      invariant filters.Keys == before.Keys + (policy.filters.Keys - todo)
      invariant forall n | n in filters :: filters[n] == if n in before then before[n] else policy.filters[n]
      invariant used <==> exists n :: n in policy.filters.Keys - todo && n !in before
      decreases todo
    {
      var name :| name in todo;
      if name !in filters {
        filters := filters[name := policy.filters[name]];
        used := true;
      }
      todo := todo - {name};
    }
  }

  method SortedStrings(s: set<string>) returns (t: seq<string>)
    ensures Elems(t) == s && Distinct(t) && SortedBy(StrLess, t)
  {
    var u := AnyOrder(s);
    t := SortSlice(u, StrLess);
    StrLessIsStrictTotal(Elems(u));
    ElemsOfPermutation(t, u);
    DistinctPermutation(t, u);
  }

  /** `translateFilterPolicyToFilterManagerConfig` and `sortPlugins`. */
  method ToPlugins(filters: map<string, int>, reg: Registry) returns (ps: seq<FilterConfig>)
    ensures PluginsOk(ps, filters, reg)
  {
    var u: seq<FilterConfig> := [];
    var todo := filters.Keys;
    while todo != {}
      invariant todo <= filters.Keys && Distinct(u)
      invariant forall c :: c in u <==> c.name in filters.Keys - todo && c.config == filters[c.name]
      decreases todo
    {
      var x :| x in todo;
      u := u + [FilterConfig(x, filters[x])];
      todo := todo - {x};
    }
    ps := SortSlice(u, NameLess(reg));
    ElemsOfPermutation(ps, u);
    DistinctPermutation(ps, u);
    forall c ensures c in ps <==> c in u {
      assert c in ps <==> c in Elems(ps);
      assert c in u <==> c in Elems(u);
    }
    if NoStraddle(reg, filters.Keys) {
      OrderedPlugins(u, filters.Keys, reg);
    }
  }

  lemma OrderedPlugins(u: seq<FilterConfig>, names: set<string>, reg: Registry)
    requires NoStraddle(reg, names)
    requires forall c | c in u :: c.name in names
    requires forall c, d | c in u && d in u && c.name == d.name :: c == d
    ensures StrictTotalOn(NameLess(reg), Elems(u))
  {
    ComparePluginOrderIsStrictTotalIff(reg, names);
    var byName := PluginLess(reg);
    var less := NameLess(reg);
    forall p | p in Elems(u) ensures !less(p, p) { assert !byName(p.name, p.name); }
    forall p, q | p in Elems(u) && q in Elems(u) && p != q ensures less(p, q) || less(q, p) {
      assert byName(p.name, q.name) || byName(q.name, p.name);
    }
    forall p, q, r | p in Elems(u) && q in Elems(u) && r in Elems(u) && less(p, q) && less(q, r) ensures less(p, r) {
      assert byName(p.name, q.name) && byName(q.name, r.name);
    }
  }

  // ------------------------------------------------------------------- proofs

  /** The first policy of the list that configures n. */
  ghost predicate FirstAt(s: seq<Policy>, n: string, i: int) {
    && 0 <= i < |s| && n in s[i].filters
    && forall j | 0 <= j < i :: n !in s[j].filters
  }

  lemma {:induction false} FirstWinsIsFirst(s: seq<Policy>, n: string)
    ensures n in FirstWins(s) <==> exists p :: p in s && n in p.filters
    ensures n in FirstWins(s) ==> exists i :: FirstAt(s, n, i) && FirstWins(s)[n] == s[i].filters[n]
  {
    if s != [] {
      var k := |s| - 1;
      var earlier := s[..k];
      FirstWinsIsFirst(earlier, n);
      assert s == earlier + [s[k]];
      if n in FirstWins(earlier) {
        var i :| FirstAt(earlier, n, i) && FirstWins(earlier)[n] == earlier[i].filters[n];
        assert FirstAt(s, n, i);
      } else if n in s[k].filters {
        forall j | 0 <= j < k ensures n !in s[j].filters { assert s[j] in earlier; }
        assert FirstAt(s, n, k);
      }
    }
  }

  lemma {:induction false} UsedIsFirst(s: seq<Policy>, x: string)
    ensures x in Used(s) <==> exists n, i :: FirstAt(s, n, i) && NsName(s[i]) == x
  {
    if s != [] {
      var k := |s| - 1;
      var earlier := s[..k];
      UsedIsFirst(earlier, x);
      if x in Used(earlier) {
        var n, i :| FirstAt(earlier, n, i) && NsName(earlier[i]) == x;
        assert FirstAt(s, n, i) && s[i] == earlier[i];
      } else if x in Used(s) {
        var n :| n in s[k].filters && n !in FirstWins(earlier);
        FirstWinsIsFirst(earlier, n);
        forall j | 0 <= j < k ensures n !in s[j].filters { assert s[j] in earlier; }
        assert FirstAt(s, n, k);
      } else {
        forall n, i | FirstAt(s, n, i) ensures NsName(s[i]) != x {
          if i < k {
            assert FirstAt(earlier, n, i) && earlier[i] == s[i];
          } else {
            FirstWinsIsFirst(earlier, n);
            assert n !in FirstWins(earlier);
          }
        }
      }
    }
  }

  /** In a sorted list, first means winning. */
  lemma FirstIsWinner(s: seq<Policy>, n: string, i: int)
    requires StrictTotalOn(Before(), Elems(s)) && SortedBy(Before(), s)
    requires FirstAt(s, n, i)
    ensures Winner(Elems(s), n, s[i])
  {
    forall q | q in Elems(s) && n in q.filters && q != s[i] ensures PolicyLess(s[i], q) {
      var j :| 0 <= j < |s| && s[j] == q;
      assert i < j;
      assert !Before()(s[j], s[i]);
      assert Before()(s[i], s[j]);
    }
  }

  lemma WinnerIsUnique(s: set<Policy>, n: string, v: Policy, w: Policy)
    requires KeysDistinct(s) && Winner(s, n, v) && Winner(s, n, w)
    ensures v == w
  {
    PolicyOrderIsTotalIff(s);
    assert v != w ==> Before()(v, w) && Before()(w, v);
    assert v != w ==> Before()(v, v);
  }

  lemma WinnerIsFirst(s: seq<Policy>, n: string, w: Policy)
    requires StrictTotalOn(Before(), Elems(s)) && SortedBy(Before(), s)
    requires Winner(Elems(s), n, w)
    ensures exists i :: FirstAt(s, n, i) && s[i] == w
  {
    FirstWinsIsFirst(s, n);
    var i :| FirstAt(s, n, i) && FirstWins(s)[n] == s[i].filters[n];
    FirstIsWinner(s, n, i);
    PolicyOrderIsTotalIff(Elems(s));
    WinnerIsUnique(Elems(s), n, w, s[i]);
  }

  lemma FiltersAsPromised(sorted: seq<Policy>, n: string)
    requires StrictTotalOn(Before(), Elems(sorted)) && SortedBy(Before(), sorted)
    ensures n in FirstWins(sorted) <==> exists p :: p in Elems(sorted) && n in p.filters
    ensures n in FirstWins(sorted) ==> exists w :: Decides(Elems(sorted), n, w, FirstWins(sorted)[n])
  {
    FirstWinsIsFirst(sorted, n);
    if n in FirstWins(sorted) {
      var i :| FirstAt(sorted, n, i) && FirstWins(sorted)[n] == sorted[i].filters[n];
      FirstIsWinner(sorted, n, i);
      assert sorted[i] in Elems(sorted) && Decides(Elems(sorted), n, sorted[i], FirstWins(sorted)[n]);
    } else {
      forall p | p in Elems(sorted) ensures n !in p.filters { assert p in sorted; }
    }
  }

  lemma InfoAsPromised(sorted: seq<Policy>, x: string)
    requires StrictTotalOn(Before(), Elems(sorted)) && SortedBy(Before(), sorted)
    ensures x in Used(sorted) <==> exists w :: Contributes(Elems(sorted), w) && x == NsName(w)
  {
    UsedIsFirst(sorted, x);
    if x in Used(sorted) {
      var n, i :| FirstAt(sorted, n, i) && NsName(sorted[i]) == x;
      FirstIsWinner(sorted, n, i);
      assert Contributes(Elems(sorted), sorted[i]);
    } else {
      forall w | Contributes(Elems(sorted), w) ensures x != NsName(w) {
        var n :| Winner(Elems(sorted), n, w);
        WinnerIsFirst(sorted, n, w);
      }
    }
  }

  lemma MergedAsPromised(m: Merged, sorted: seq<Policy>, reg: Registry)
    requires StrictTotalOn(Before(), Elems(sorted)) && SortedBy(Before(), sorted)
    requires m.filters == FirstWins(sorted)
    requires Elems(m.info) == Used(sorted) && Distinct(m.info) && SortedBy(StrLess, m.info)
    requires PluginsOk(m.plugins, m.filters, reg)
    ensures IsMerged(m, Elems(sorted), reg)
  {
    hide Decides;
    hide Contributes;
    hide FirstWins;
    hide Used;
    hide SortedBy;
    hide StrictTotalOn;
    hide Distinct;
    hide PluginsOk;
    forall n
      ensures n in m.filters <==> exists p :: p in Elems(sorted) && n in p.filters
      ensures n in m.filters ==> exists w :: Decides(Elems(sorted), n, w, m.filters[n])
    {
      FiltersAsPromised(sorted, n);
    }
    forall x ensures x in m.info <==> exists w :: Contributes(Elems(sorted), w) && x == NsName(w) {
      InfoAsPromised(sorted, x);
      assert x in m.info <==> x in Elems(m.info);
    }
  }

  // ------------------------------------------------------------- consequences

  /** The outcome depends only on which policies win: not on the order in which
      policies arrive, nor on the order in which any map is walked. (With an
      unregistered plugin straddling two registered ones, only the plugin
      list's order may vary.) */
  lemma SameWinnersSameOutcome(m: Merged, k: Merged, s: set<Policy>, u: set<Policy>, reg: Registry)
    requires KeysDistinct(u)
    requires forall n, w :: Winner(u, n, w) <==> Winner(s, n, w)
    requires IsMerged(m, s, reg) && IsMerged(k, u, reg)
    ensures m.filters == k.filters && m.info == k.info
    ensures NoStraddle(reg, m.filters.Keys) ==> m == k
  {
    hide Winner;
    hide KeysDistinct;
    hide FiltersOk;
    hide InfoOk;
    hide PluginsOk;
    hide NoStraddle;
    SameFilters(m.filters, k.filters, s, u);
    SameInfo(m.info, k.info, s, u);
    if NoStraddle(reg, m.filters.Keys) {
      SamePlugins(m.plugins, k.plugins, m.filters, reg);
    }
  }

  lemma SameFilters(f: map<string, int>, g: map<string, int>, s: set<Policy>, u: set<Policy>)
    requires KeysDistinct(u) && FiltersOk(f, s) && FiltersOk(g, u)
    requires forall n, w :: Winner(u, n, w) <==> Winner(s, n, w)
    ensures f == g
  {
    hide KeysDistinct;
    hide FiltersOk;
    forall n | n in f ensures n in g && g[n] == f[n] {
      SameFilter(f, g, s, u, n);
    }
    forall n | n in g ensures n in f {
      Decided(f, g, s, u, n);
    }
  }

  lemma Decided(f: map<string, int>, g: map<string, int>, s: set<Policy>, u: set<Policy>, n: string)
    requires FiltersOk(f, s) && FiltersOk(g, u) && n in g
    requires forall n, w :: Winner(u, n, w) <==> Winner(s, n, w)
    ensures n in f
  {
    var w :| Decides(u, n, w, g[n]);
    assert Winner(s, n, w);
  }

  lemma SameFilter(f: map<string, int>, g: map<string, int>, s: set<Policy>, u: set<Policy>, n: string)
    requires KeysDistinct(u) && FiltersOk(f, s) && FiltersOk(g, u) && n in f
    requires forall n, w :: Winner(u, n, w) <==> Winner(s, n, w)
    ensures n in g && g[n] == f[n]
  {
    hide KeysDistinct;
    var v :| Decides(s, n, v, f[n]);
    assert Winner(u, n, v);
    var w :| Decides(u, n, w, g[n]);
    WinnerIsUnique(u, n, v, w);
  }

  lemma SameInfo(i: seq<string>, j: seq<string>, s: set<Policy>, u: set<Policy>)
    requires InfoOk(i, s) && InfoOk(j, u)
    requires forall n, w :: Winner(u, n, w) <==> Winner(s, n, w)
    ensures i == j
  {
    hide Winner;
    hide Distinct;
    hide SortedBy;
    forall w ensures Contributes(u, w) <==> Contributes(s, w) {
      if Contributes(s, w) {
        var n :| Winner(s, n, w);
        assert Winner(u, n, w);
      }
      if Contributes(u, w) {
        var n :| Winner(u, n, w);
        assert Winner(s, n, w);
      }
    }
    StrLessIsStrictTotal(Elems(i));
    SameMembersSameSort(i, j, StrLess);
  }

  lemma SamePlugins(p: seq<FilterConfig>, q: seq<FilterConfig>, filters: map<string, int>, reg: Registry)
    requires PluginsOk(p, filters, reg) && PluginsOk(q, filters, reg) && NoStraddle(reg, filters.Keys)
    ensures p == q
  {
    OrderedPlugins(p, filters.Keys, reg);
    SameMembersSameSort(p, q, NameLess(reg));
  }

  /** The more specific policy wins whatever its age, the older one among
      equally specific ones, the alphabetically first among equally old ones. */
  lemma WinnerOutranksEveryRival(s: set<Policy>, n: string, w: Policy, q: Policy)
    requires Winner(s, n, w) && q in s && n in q.filters && q != w
    ensures w.scope <= q.scope
    ensures w.scope == q.scope ==> w.created <= q.created
    ensures w.scope == q.scope && w.created == q.created ==> StrLess(w.ns + "/" + w.name, q.ns + "/" + q.name)
  {
    assert PolicyLess(w, q);
  }

  /** A policy all of whose plugins are decided elsewhere leaves no trace. */
  lemma OutrankedPolicyChangesNothing(m: Merged, k: Merged, s: set<Policy>, p: Policy, reg: Registry)
    requires p !in s && KeysDistinct(s + {p})
    requires forall n | n in p.filters :: exists q :: q in s && n in q.filters && PolicyLess(q, p)
    requires IsMerged(m, s, reg) && IsMerged(k, s + {p}, reg)
    ensures m.filters == k.filters && m.info == k.info
  {
    hide IsMerged;
    hide KeysDistinct;
    hide Winner;
    forall n, w ensures Winner(s + {p}, n, w) <==> Winner(s, n, w) {
      SameWinner(s, p, n, w);
    }
    SameWinnersSameOutcome(m, k, s, s + {p}, reg);
  }

  lemma SameWinner(s: set<Policy>, p: Policy, n: string, w: Policy)
    requires p !in s && KeysDistinct(s + {p})
    requires n in p.filters ==> exists q :: q in s && n in q.filters && PolicyLess(q, p)
    ensures Winner(s + {p}, n, w) <==> Winner(s, n, w)
  {
    PolicyOrderIsTotalIff(s + {p});
    hide KeysDistinct;
    hide PolicyLess;
    var less := Before();
    if n in p.filters {
      var q :| q in s && n in q.filters && PolicyLess(q, p);
      assert less(q, p) && !less(p, q) by { assert less(p, q) ==> less(p, p); }
      assert Winner(s, n, w) ==> (w == q || less(w, q)) && less(w, p);
    }
  }
}
