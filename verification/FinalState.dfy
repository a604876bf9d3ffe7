/** The last stage of the translation: from merged policies to EnvoyFilters. A
    patch is its place and an opaque configuration; maps are walked in any order. */
module FinalState {
  import opened Options
  import opened Orders
  import opened EnvoyFilterNames

  datatype Key = Key(ns: string, name: string)

  datatype Patch = RoutePatch(vhost: string, route: string, config: int) | ListenerPatch(config: int)

  datatype Route = Route(config: int, info: seq<string>)

  /** A virtual host is filed under its name; `ns` and `resource` say where it comes from. */
  datatype Host = Host(ns: string, resource: string, routes: map<string, Route>)

  /** A listener's patches, in filter order; without a policy there is no info. */
  datatype Gateway = Gateway(patches: seq<Patch>, info: Option<seq<string>>)

  datatype ProxyConfig = ProxyConfig(hosts: map<string, Host>, gateways: map<string, Gateway>)

  type MergedState = map<string, ProxyConfig>

  datatype EnvoyFilter = EnvoyFilter(patches: seq<Patch>, info: Option<seq<string>>)

  /** One thing the state asks for: a route of a host, or a listener. */
  datatype Item = RouteItem(proxy: string, host: string, route: string) | LdsItem(proxy: string, lds: string)

  predicate InState(state: MergedState, i: Item) {
    && i.proxy in state
    && match i
       case RouteItem(p, h, r) => h in state[p].hosts && r in state[p].hosts[h].routes
       case LdsItem(p, l) => l in state[p].gateways
  }

  function KeyOf(state: MergedState, ascii: ToAscii, i: Item): Key
    requires InState(state, i)
  {
    match i
    case RouteItem(p, h, _) =>
      Key(p, FromVirtualHost(VirtualHost(h, state[p].hosts[h].ns, state[p].hosts[h].resource), ascii))
    case LdsItem(p, l) => Key(p, FromLds(l))
  }

  function PatchesOf(state: MergedState, i: Item): seq<Patch>
    requires InState(state, i)
  {
    match i
    case RouteItem(p, h, r) => [RoutePatch(h, r, state[p].hosts[h].routes[r].config)]
    case LdsItem(p, l) => state[p].gateways[l].patches
  }

  function InfoOf(state: MergedState, i: Item): Option<seq<string>>
    requires InState(state, i)
  {
    match i
    case RouteItem(p, h, r) => Some(state[p].hosts[h].routes[r].info)
    case LdsItem(p, l) => state[p].gateways[l].info
  }

  // ------------------------------------------------------------- Info.Merge

  ghost predicate StrictlySorted(s: seq<string>) {
    forall i, j | 0 <= i < j < |s| :: StrLess(s[i], s[j])
  }

  /** `sort.Search`: the least index at which the list is not below x. */
  method Search(s: seq<string>, x: string) returns (k: nat)
    requires StrictlySorted(s)
    ensures k <= |s|
    ensures forall i | 0 <= i < k :: StrLess(s[i], x)
    ensures forall i | k <= i < |s| :: !StrLess(s[i], x)
  {
    var i, j := 0, |s|;
    while i < j
      invariant 0 <= i <= j <= |s|
      invariant forall m | 0 <= m < i :: StrLess(s[m], x)
      invariant forall m | j <= m < |s| :: !StrLess(s[m], x)
    {
      var h := (i + j) / 2;
      if StrLess(s[h], x) {
        forall m | 0 <= m <= h ensures StrLess(s[m], x) {
          if m < h { StrLessTransitive(s[m], s[h], x); }
        }
        i := h + 1;
      } else {
        forall m | h <= m < |s| ensures !StrLess(s[m], x) {
          if m > h && StrLess(s[m], x) { StrLessTransitive(s[h], s[m], x); }
        }
        j := h;
      }
    }
    k := i;
  }

  /** `Info.Merge`: insert each policy that is not there yet, keeping the order. */
  method MergeInfo(mine: seq<string>, other: seq<string>) returns (r: seq<string>)
    requires StrictlySorted(mine)
    ensures StrictlySorted(r) && Elems(r) == Elems(mine) + Elems(other)
  {
    r := mine;
    for n := 0 to |other|
      invariant StrictlySorted(r) && Elems(r) == Elems(mine) + Elems(other[..n])
    {
      var policy := other[n];
      assert other[..n + 1] == other[..n] + [policy];
      ElemsConcat(other[..n], [policy]);
      var index := Search(r, policy);
      if index < |r| && r[index] == policy {
        assert policy in Elems(r);
      } else {
        InsertKeepsSorted(r, index, policy);
        r := r[..index] + [policy] + r[index..];
      }
    }
    assert other[..|other|] == other;
  }

  lemma InsertKeepsSorted(r: seq<string>, k: nat, x: string)
    requires StrictlySorted(r) && k <= |r|
    requires forall i | 0 <= i < k :: StrLess(r[i], x)
    requires forall i | k <= i < |r| :: !StrLess(r[i], x)
    requires k < |r| ==> r[k] != x
    ensures StrictlySorted(r[..k] + [x] + r[k..])
    ensures Elems(r[..k] + [x] + r[k..]) == Elems(r) + {x}
  {
    var t := r[..k] + [x] + r[k..];
    forall j | k <= j < |r| ensures StrLess(x, r[j]) {
      StrLessConnected(x, r[k]);
      if j > k { StrLessTransitive(x, r[k], r[j]); }
    }
    forall i, j | 0 <= i < j < |t| ensures StrLess(t[i], t[j]) {
      if i < k < j { StrLessTransitive(r[i], x, r[j - 1]); }
    }
    assert r == r[..k] + r[k..];
    forall y ensures y in t <==> y in r || y == x {
      assert y in t <==> y in r[..k] || y == x || y in r[k..];
      assert y in r <==> y in r[..k] || y in r[k..];
    }
  }

  // -------------------------------------------------------- generating filters

  /** `toFinalState`'s first part: every route and listener, in whatever order. */
  method Generate(state: MergedState) returns (items: seq<Item>)
    ensures Distinct(items)
    ensures forall i :: i in items <==> InState(state, i)
  {
    items := [];
    var proxies := AnyOrder(state.Keys);
    for a := 0 to |proxies|
      invariant Distinct(items)
      invariant forall i :: i in items <==> InState(state, i) && i.proxy in proxies[..a]
    {
      var p := proxies[a];
      assert p in Elems(proxies);
      var more := GenerateProxy(state, p);
      assert proxies[..a + 1] == proxies[..a] + [p];
      assert p !in proxies[..a];
      DistinctConcat(items, more);
      items := items + more;
    }
    assert proxies[..|proxies|] == proxies;
    forall i | InState(state, i) ensures i in items { assert i.proxy in Elems(proxies); }
  }

  method GenerateProxy(state: MergedState, p: string) returns (items: seq<Item>)
    requires p in state
    ensures Distinct(items)
    ensures forall i :: i in items <==> InState(state, i) && i.proxy == p
  {
    items := [];
    var hosts := AnyOrder(state[p].hosts.Keys);
    for a := 0 to |hosts|
      invariant Distinct(items)
      invariant forall i :: i in items <==> InState(state, i) && i.proxy == p && i.RouteItem? && i.host in hosts[..a]
    {
      assert hosts[a] in Elems(hosts);
      var more := GenerateHost(state, p, hosts[a]);
      assert hosts[..a + 1] == hosts[..a] + [hosts[a]];
      assert hosts[a] !in hosts[..a];
      DistinctConcat(items, more);
      items := items + more;
    }
    assert hosts[..|hosts|] == hosts;
    forall i | InState(state, i) && i.proxy == p && i.RouteItem? ensures i in items { assert i.host in Elems(hosts); }
    ghost var routes := items;
    var names := AnyOrder(state[p].gateways.Keys);
    for a := 0 to |names|
      invariant Distinct(items)
      invariant forall i :: i in items <==> i in routes || (i.LdsItem? && i.proxy == p && i.lds in names[..a])
    {
      assert names[..a + 1] == names[..a] + [names[a]];
      assert names[a] !in names[..a];
      items := items + [LdsItem(p, names[a])];
    }
    assert names[..|names|] == names;
    forall x ensures x in names <==> x in state[p].gateways { assert x in names <==> x in Elems(names); }
  }

  method GenerateHost(state: MergedState, p: string, h: string) returns (items: seq<Item>)
    requires p in state && h in state[p].hosts
    ensures Distinct(items)
    ensures forall i :: i in items <==> InState(state, i) && i.proxy == p && i.RouteItem? && i.host == h
  {
    var names := AnyOrder(state[p].hosts[h].routes.Keys);
    items := [];
    for a := 0 to |names|
      invariant Distinct(items)
      invariant forall i :: i in items <==> i.RouteItem? && i.proxy == p && i.host == h && i.route in names[..a]
    {
      assert names[..a + 1] == names[..a] + [names[a]];
      assert names[a] !in names[..a];
      items := items + [RouteItem(p, h, names[a])];
    }
    assert names[..|names|] == names;
    forall x ensures x in names <==> x in state[p].hosts[h].routes { assert x in names <==> x in Elems(names); }
  }

  // ------------------------------------------------------------------ grouping

  ghost predicate AllIn(state: MergedState, items: seq<Item>) {
    forall i | i in items :: InState(state, i)
  }

  /** The items that go into one EnvoyFilter, in list order. */
  ghost function Under(state: MergedState, ascii: ToAscii, items: seq<Item>, k: Key): (u: seq<Item>)
    requires AllIn(state, items)
    ensures forall i :: i in u <==> i in items && KeyOf(state, ascii, i) == k
  {
    if items == [] then []
    else
      var last := items[|items| - 1];
      var u := Under(state, ascii, items[..|items| - 1], k);
      assert items == items[..|items| - 1] + [last];
      if KeyOf(state, ascii, last) == k then u + [last] else u
  }

  ghost function AllPatches(state: MergedState, items: seq<Item>): seq<Patch>
    requires AllIn(state, items)
  {
    if items == [] then []
    else AllPatches(state, items[..|items| - 1]) + PatchesOf(state, items[|items| - 1])
  }

  /** The union of what is known about a set of items; nothing if nothing is. */
  ghost predicate IsUnion(info: Option<seq<string>>, state: MergedState, items: seq<Item>)
    requires AllIn(state, items)
  {
    && (info.None? <==> forall i | i in items :: InfoOf(state, i).None?)
    && (info.Some? ==> StrictlySorted(info.value))
    && (info.Some? ==> forall x :: x in info.value <==>
          exists i :: i in items && InfoOf(state, i).Some? && x in InfoOf(state, i).value)
  }

  /** Every recorded info is sorted without repetitions, as merging policies leaves it. */
  ghost predicate InfosSorted(state: MergedState) {
    forall i | InState(state, i) && InfoOf(state, i).Some? :: StrictlySorted(InfoOf(state, i).value)
  }

  lemma UnionOfOne(state: MergedState, i: Item)
    requires InState(state, i) && InfosSorted(state)
    ensures IsUnion(InfoOf(state, i), state, [i])
  {
  }

  ghost predicate Joins(merged: Option<seq<string>>, a: Option<seq<string>>, b: Option<seq<string>>) {
    if b.None? then merged == a
    else if a.None? then merged == b
    else merged.Some? && StrictlySorted(merged.value) && Elems(merged.value) == Elems(a.value) + Elems(b.value)
  }

  lemma UnionSnoc(merged: Option<seq<string>>, info: Option<seq<string>>, state: MergedState, items: seq<Item>, i: Item)
    requires AllIn(state, items) && InState(state, i) && InfosSorted(state)
    requires IsUnion(info, state, items) && Joins(merged, info, InfoOf(state, i))
    ensures IsUnion(merged, state, items + [i])
  {
    if merged.Some? {
      forall x ensures x in merged.value <==>
        exists j :: j in items + [i] && InfoOf(state, j).Some? && x in InfoOf(state, j).value
      {
        if info.Some? && InfoOf(state, i).Some? {
          assert x in merged.value <==> x in Elems(merged.value);
          assert x in info.value <==> x in Elems(info.value);
          assert x in InfoOf(state, i).value <==> x in Elems(InfoOf(state, i).value);
        }
        assert i in items + [i];
        if info.Some? && x in info.value {
          var j :| j in items && InfoOf(state, j).Some? && x in InfoOf(state, j).value;
          assert j in items + [i];
        }
      }
    }
  }

  method JoinInfo(a: Option<seq<string>>, b: Option<seq<string>>) returns (r: Option<seq<string>>)
    requires a.Some? ==> StrictlySorted(a.value)
    ensures Joins(r, a, b)
  {
    if b.None? {
      return a;
    }
    if a.None? {
      return b;
    }
    var v := MergeInfo(a.value, b.value);
    r := Some(v);
  }

  /** What the filters collected so far contain. */
  ghost predicate Grouped(state: MergedState, ascii: ToAscii, items: seq<Item>, efws: map<Key, EnvoyFilter>)
    requires AllIn(state, items)
  {
    && (forall k :: k in efws <==> exists i :: i in items && KeyOf(state, ascii, i) == k)
    && (forall k | k in efws :: GroupOk(state, ascii, items, efws[k], k))
  }

  ghost predicate GroupOk(state: MergedState, ascii: ToAscii, items: seq<Item>, ef: EnvoyFilter, k: Key)
    requires AllIn(state, items)
  {
    var u := Under(state, ascii, items, k);
    ef.patches == AllPatches(state, u) && IsUnion(ef.info, state, u)
  }

  /** `toFinalState`'s second part: merge the filters of the same name. */
  method Group(state: MergedState, ascii: ToAscii, items: seq<Item>) returns (efws: map<Key, EnvoyFilter>)
    requires AllIn(state, items) && InfosSorted(state)
    ensures Grouped(state, ascii, items, efws)
  {
    hide Grouped;
    hide InfosSorted;
    hide GroupOk;
    efws := map[];
    NothingGrouped(state, ascii);
    assert items[..0] == [];
    for n := 0 to |items|
      invariant AllIn(state, items[..n]) && Grouped(state, ascii, items[..n], efws)
    {
      var i := items[n];
      var key := KeyOf(state, ascii, i);
      assert items[..n + 1] == items[..n] + [i];
      GroupedSorted(state, ascii, items[..n], efws);
      ghost var before := efws;
      if key in efws {
        var curr := efws[key];
        var info := JoinInfo(curr.info, InfoOf(state, i));
        efws := efws[key := EnvoyFilter(curr.patches + PatchesOf(state, i), info)];
        GroupMore(state, ascii, items[..n], i, before, info);
      } else {
        efws := efws[key := EnvoyFilter(PatchesOf(state, i), InfoOf(state, i))];
        GroupNew(state, ascii, items[..n], i, before);
      }
    }
    assert items[..|items|] == items;
  }

  lemma NothingGrouped(state: MergedState, ascii: ToAscii)
    ensures AllIn(state, []) && Grouped(state, ascii, [], map[])
  {
  }

  lemma GroupedSorted(state: MergedState, ascii: ToAscii, items: seq<Item>, efws: map<Key, EnvoyFilter>)
    requires AllIn(state, items) && Grouped(state, ascii, items, efws)
    ensures forall k | k in efws && efws[k].info.Some? :: StrictlySorted(efws[k].info.value)
  {
    forall k | k in efws && efws[k].info.Some? ensures StrictlySorted(efws[k].info.value) {
      assert GroupOk(state, ascii, items, efws[k], k);
    }
  }

  lemma UnderSnoc(state: MergedState, ascii: ToAscii, items: seq<Item>, i: Item, k: Key)
    requires AllIn(state, items) && InState(state, i)
    ensures AllIn(state, items + [i])
    ensures Under(state, ascii, items + [i], k) ==
            Under(state, ascii, items, k) + (if KeyOf(state, ascii, i) == k then [i] else [])
  {
    assert (items + [i])[..|items|] == items;
  }

  lemma OthersUnchanged(state: MergedState, ascii: ToAscii, items: seq<Item>, i: Item, k: Key, ef: EnvoyFilter)
    requires AllIn(state, items) && InState(state, i) && AllIn(state, items + [i])
    requires GroupOk(state, ascii, items, ef, k) && KeyOf(state, ascii, i) != k
    ensures GroupOk(state, ascii, items + [i], ef, k)
  {
    UnderSnoc(state, ascii, items, i, k);
    assert Under(state, ascii, items, k) + [] == Under(state, ascii, items, k);
  }

  lemma PatchesSnoc(state: MergedState, items: seq<Item>, i: Item)
    requires AllIn(state, items) && AllIn(state, items + [i])
    ensures AllPatches(state, items + [i]) == AllPatches(state, items) + PatchesOf(state, i)
  {
    assert (items + [i])[..|items|] == items;
  }

  lemma GroupMore(state: MergedState, ascii: ToAscii, items: seq<Item>, i: Item, efws: map<Key, EnvoyFilter>,
      info: Option<seq<string>>)
    requires AllIn(state, items) && InState(state, i) && InfosSorted(state) && AllIn(state, items + [i])
    requires Grouped(state, ascii, items, efws) && KeyOf(state, ascii, i) in efws
    requires Joins(info, efws[KeyOf(state, ascii, i)].info, InfoOf(state, i))
    ensures var key := KeyOf(state, ascii, i);
      Grouped(state, ascii, items + [i],
        efws[key := EnvoyFilter(efws[key].patches + PatchesOf(state, i), info)])
  {
    hide GroupOk;
    hide InfosSorted;
    var key := KeyOf(state, ascii, i);
    var ef := EnvoyFilter(efws[key].patches + PatchesOf(state, i), info);
    assert GroupOk(state, ascii, items, efws[key], key);
    MoreOk(state, ascii, items, i, efws[key], info);
    forall k | k in efws && k != key ensures GroupOk(state, ascii, items + [i], efws[k], k) {
      OthersUnchanged(state, ascii, items, i, k, efws[k]);
    }
    KeysSnoc(state, ascii, items, i, efws, ef);
  }

  lemma MoreOk(state: MergedState, ascii: ToAscii, items: seq<Item>, i: Item, ef: EnvoyFilter,
               info: Option<seq<string>>)
    requires AllIn(state, items) && InState(state, i) && InfosSorted(state) && AllIn(state, items + [i])
    requires GroupOk(state, ascii, items, ef, KeyOf(state, ascii, i)) && Joins(info, ef.info, InfoOf(state, i))
    ensures GroupOk(state, ascii, items + [i], EnvoyFilter(ef.patches + PatchesOf(state, i), info),
                    KeyOf(state, ascii, i))
  {
    hide IsUnion;
    hide Joins;
    hide InfosSorted;
    hide AllPatches;
    var key := KeyOf(state, ascii, i);
    var u := Under(state, ascii, items, key);
    UnderSnoc(state, ascii, items, i, key);
    PatchesSnoc(state, u, i);
    UnionSnoc(info, ef.info, state, u, i);
  }

  lemma KeysSnoc(state: MergedState, ascii: ToAscii, items: seq<Item>, i: Item, efws: map<Key, EnvoyFilter>,
                 ef: EnvoyFilter)
    requires AllIn(state, items) && InState(state, i) && AllIn(state, items + [i])
    requires forall k :: k in efws <==> exists j :: j in items && KeyOf(state, ascii, j) == k
    ensures var e := efws[KeyOf(state, ascii, i) := ef];
      forall k :: k in e <==> exists j :: j in items + [i] && KeyOf(state, ascii, j) == k
  {
    var e := efws[KeyOf(state, ascii, i) := ef];
    forall k ensures k in e <==> exists j :: j in items + [i] && KeyOf(state, ascii, j) == k {
      assert i in items + [i];
      if k in efws {
        var j :| j in items && KeyOf(state, ascii, j) == k;
        assert j in items + [i];
      }
    }
  }

  lemma GroupNew(state: MergedState, ascii: ToAscii, items: seq<Item>, i: Item, efws: map<Key, EnvoyFilter>)
    requires AllIn(state, items) && InState(state, i) && InfosSorted(state) && AllIn(state, items + [i])
    requires Grouped(state, ascii, items, efws) && KeyOf(state, ascii, i) !in efws
    ensures Grouped(state, ascii, items + [i],
        efws[KeyOf(state, ascii, i) := EnvoyFilter(PatchesOf(state, i), InfoOf(state, i))])
  {
    hide GroupOk;
    hide InfosSorted;
    var key := KeyOf(state, ascii, i);
    var ef := EnvoyFilter(PatchesOf(state, i), InfoOf(state, i));
    NewOk(state, ascii, items, i);
    forall k | k in efws && k != key ensures GroupOk(state, ascii, items + [i], efws[k], k) {
      OthersUnchanged(state, ascii, items, i, k, efws[k]);
    }
    KeysSnoc(state, ascii, items, i, efws, ef);
  }

  lemma {:induction false} NothingUnder(state: MergedState, ascii: ToAscii, items: seq<Item>, k: Key)
    requires AllIn(state, items) && forall j | j in items :: KeyOf(state, ascii, j) != k
    ensures Under(state, ascii, items, k) == []
  {
    if items != [] {
      NothingUnder(state, ascii, items[..|items| - 1], k);
    }
  }

  lemma PatchesOfOne(state: MergedState, i: Item)
    requires InState(state, i)
    ensures AllPatches(state, [i]) == PatchesOf(state, i)
  {
    assert [i][..0] == [];
  }

  lemma NewOk(state: MergedState, ascii: ToAscii, items: seq<Item>, i: Item)
    requires AllIn(state, items) && InState(state, i) && InfosSorted(state) && AllIn(state, items + [i])
    requires forall j | j in items :: KeyOf(state, ascii, j) != KeyOf(state, ascii, i)
    ensures GroupOk(state, ascii, items + [i], EnvoyFilter(PatchesOf(state, i), InfoOf(state, i)),
                    KeyOf(state, ascii, i))
  {
    hide IsUnion;
    hide InfosSorted;
    hide AllPatches;
    hide Under;
    hide KeyOf;
    hide PatchesOf;
    hide InfoOf;
    var key := KeyOf(state, ascii, i);
    var u := Under(state, ascii, items, key);
    NothingUnder(state, ascii, items, key);
    UnderSnoc(state, ascii, items, i, key);
    assert u + [i] == [i];
    UnionOfOne(state, i);
    PatchesOfOne(state, i);
  }

  // ------------------------------------------------------------- the final map

  predicate PatchLess(a: Patch, b: Patch) {
    match (a, b)
    case (RoutePatch(v, r, _), RoutePatch(w, q, _)) => if v != w then StrLess(v, w) else StrLess(r, q)
    case _ => false
  }

  /** The state's items of one EnvoyFilter. */
  predicate Belongs(state: MergedState, ascii: ToAscii, k: Key, i: Item) {
    InState(state, i) && KeyOf(state, ascii, i) == k
  }

  ghost predicate Listing(order: seq<Item>, state: MergedState, ascii: ToAscii, k: Key) {
    Distinct(order) && forall i :: i in order <==> Belongs(state, ascii, k, i)
  }

  /** One generated EnvoyFilter. A route filter has one patch for each of its
      items, sorted; a listener filter has its listeners' patches, each
      listener's in its own order; the info is the union of the items'. */
  ghost predicate FilterOk(ef: EnvoyFilter, state: MergedState, ascii: ToAscii, k: Key) {
    exists order :: Listing(order, state, ascii, k) && MadeOf(ef, order, state, k)
  }

  ghost predicate MadeOf(ef: EnvoyFilter, order: seq<Item>, state: MergedState, k: Key) {
    && AllIn(state, order)
    && IsUnion(ef.info, state, order)
    && (if ROUTE_PREFIX <= k.name then
          multiset(ef.patches) == multiset(AllPatches(state, order)) && SortedBy(PatchLess, ef.patches)
        else ef.patches == AllPatches(state, order))
  }

  /** Nothing lost, nothing invented, the defaults untouched. */
  ghost predicate IsFinal(efs: map<Key, EnvoyFilter>, state: MergedState, ascii: ToAscii,
                          defaults: map<Key, EnvoyFilter>) {
    && (forall k :: k in efs <==> k in defaults || exists i :: Belongs(state, ascii, k, i))
    && (forall k | k in defaults :: efs[k] == defaults[k])
    && (forall k | k in efs && k !in defaults :: FilterOk(efs[k], state, ascii, k))
  }

  method ToFinalState(state: MergedState, ascii: ToAscii, defaults: map<Key, EnvoyFilter>)
    returns (efs: map<Key, EnvoyFilter>)
    requires InfosSorted(state)
    requires forall k | k in defaults :: k.name == DEFAULT_HTTP_FILTER
    ensures IsFinal(efs, state, ascii, defaults)
  {
    hide Grouped;
    hide InfosSorted;
    hide FilterOk;
    hide Belongs;
    hide KeyOf;
    hide InState;
    var items := Generate(state);
    var efws := Group(state, ascii, items);
    efs := defaults;
    var keys := AnyOrder(efws.Keys);
    for n := 0 to |keys|
      invariant efs.Keys == defaults.Keys + Elems(keys[..n])
      invariant forall k | k in defaults :: efs[k] == defaults[k]
      invariant forall k | k in Elems(keys[..n]) :: FilterOk(efs[k], state, ascii, k)
    {
      var key := keys[n];
      assert key in Elems(keys);
      assert keys[..n + 1] == keys[..n] + [key];
      ElemsConcat(keys[..n], [key]);
      assert Elems(keys[..n + 1]) == Elems(keys[..n]) + {key};
      var ef := Finish(state, ascii, items, efws, key);
      efs := efs[key := ef];
    }
    assert keys[..|keys|] == keys;
    KeysCovered(state, ascii, items, efws, keys);
  }

  /** One EnvoyFilter: the patches of a route filter are sorted. */
  method Finish(state: MergedState, ascii: ToAscii, items: seq<Item>, efws: map<Key, EnvoyFilter>, key: Key)
    returns (ef: EnvoyFilter)
    requires AllIn(state, items) && Distinct(items) && Grouped(state, ascii, items, efws) && key in efws
    requires forall i :: i in items <==> InState(state, i)
    ensures FilterOk(ef, state, ascii, key) && key.name != DEFAULT_HTTP_FILTER
  {
    hide Grouped;
    hide FilterOk;
    hide InState;
    NotADefault(state, ascii, items, efws, key);
    ef := efws[key];
    if ROUTE_PREFIX <= key.name {
      var sorted := SortSlice(ef.patches, PatchLess);
      RouteFilterOk(state, ascii, items, efws, key, sorted);
      ef := EnvoyFilter(sorted, ef.info);
    } else {
      ListenerFilterOk(state, ascii, items, efws, key);
    }
  }

  lemma KeysCovered(state: MergedState, ascii: ToAscii, items: seq<Item>, efws: map<Key, EnvoyFilter>, keys: seq<Key>)
    requires AllIn(state, items) && Grouped(state, ascii, items, efws)
    requires forall i :: i in items <==> InState(state, i)
    requires Elems(keys) == efws.Keys
    ensures forall k :: k in Elems(keys) <==> exists i :: Belongs(state, ascii, k, i)
  {
    forall k ensures k in efws <==> exists i :: Belongs(state, ascii, k, i) {
      if k in efws {
        var i :| i in items && KeyOf(state, ascii, i) == k;
        assert Belongs(state, ascii, k, i);
      } else {
        forall i ensures !Belongs(state, ascii, k, i) {
          assert i in items <==> InState(state, i);
        }
      }
    }
  }

  lemma NotADefault(state: MergedState, ascii: ToAscii, items: seq<Item>, efws: map<Key, EnvoyFilter>, k: Key)
    requires AllIn(state, items) && Grouped(state, ascii, items, efws) && k in efws
    ensures k.name != DEFAULT_HTTP_FILTER
  {
    var i :| i in items && KeyOf(state, ascii, i) == k;
    KeyKind(state, ascii, i);
  }

  /** Routes and listeners never share an EnvoyFilter. */
  lemma KeyKind(state: MergedState, ascii: ToAscii, i: Item)
    requires InState(state, i)
    ensures i.RouteItem? <==> ROUTE_PREFIX <= KeyOf(state, ascii, i).name
    ensures KeyOf(state, ascii, i).name != DEFAULT_HTTP_FILTER
  {
    match i
    case RouteItem(p, h, _) =>
      NamesApart(VirtualHost(h, state[p].hosts[h].ns, state[p].hosts[h].resource), "", ascii);
    case LdsItem(_, l) => NamesApart(VirtualHost("", "", ""), l, ascii);
  }

  lemma UnderIsListing(state: MergedState, ascii: ToAscii, items: seq<Item>, k: Key)
    requires AllIn(state, items) && Distinct(items)
    requires forall i :: i in items <==> InState(state, i)
    ensures Listing(Under(state, ascii, items, k), state, ascii, k)
    ensures AllIn(state, Under(state, ascii, items, k))
  {
    UnderDistinct(state, ascii, items, k);
  }

  lemma {:induction false} UnderDistinct(state: MergedState, ascii: ToAscii, items: seq<Item>, k: Key)
    requires AllIn(state, items) && Distinct(items)
    ensures Distinct(Under(state, ascii, items, k))
  {
    if items != [] {
      var n := |items| - 1;
      UnderDistinct(state, ascii, items[..n], k);
      assert items[n] !in items[..n];
    }
  }

  lemma ListenerFilterOk(state: MergedState, ascii: ToAscii, items: seq<Item>, efws: map<Key, EnvoyFilter>, k: Key)
    requires AllIn(state, items) && Distinct(items) && Grouped(state, ascii, items, efws) && k in efws
    requires forall i :: i in items <==> InState(state, i)
    requires !(ROUTE_PREFIX <= k.name)
    ensures FilterOk(efws[k], state, ascii, k)
  {
    var order := Under(state, ascii, items, k);
    assert GroupOk(state, ascii, items, efws[k], k);
    UnderIsListing(state, ascii, items, k);
    hide IsUnion;
    hide Listing;
    hide AllPatches;
    assert MadeOf(efws[k], order, state, k);
  }

  lemma RouteFilterOk(state: MergedState, ascii: ToAscii, items: seq<Item>, efws: map<Key, EnvoyFilter>, k: Key,
      sorted: seq<Patch>)
    requires AllIn(state, items) && Distinct(items) && Grouped(state, ascii, items, efws) && k in efws
    requires forall i :: i in items <==> InState(state, i)
    requires ROUTE_PREFIX <= k.name
    requires IsSortOf(sorted, efws[k].patches, PatchLess)
    ensures FilterOk(EnvoyFilter(sorted, efws[k].info), state, ascii, k)
  {
    var order := Under(state, ascii, items, k);
    assert GroupOk(state, ascii, items, efws[k], k);
    UnderIsListing(state, ascii, items, k);
    ListingIsOfRoutes(order, state, ascii, k);
    RoutePatchesOrdered(state, order, k);
    hide IsUnion;
    hide Listing;
    hide AllPatches;
    hide StrictTotalOn;
    assert MadeOf(EnvoyFilter(sorted, efws[k].info), order, state, k);
  }

  lemma ListingIsOfRoutes(order: seq<Item>, state: MergedState, ascii: ToAscii, k: Key)
    requires Listing(order, state, ascii, k) && ROUTE_PREFIX <= k.name
    ensures forall i | i in order :: InState(state, i) && i.RouteItem? && i.proxy == k.ns
  {
    forall i | i in order ensures InState(state, i) && i.RouteItem? && i.proxy == k.ns {
      assert Belongs(state, ascii, k, i);
      KeyKind(state, ascii, i);
    }
  }

  /** The patches of distinct routes of one proxy differ in (vhost, route), so
      sorting them is unambiguous. */
  lemma RoutePatchesOrdered(state: MergedState, order: seq<Item>, k: Key)
    requires Distinct(order)
    requires forall i | i in order :: InState(state, i) && i.RouteItem? && i.proxy == k.ns
    ensures AllIn(state, order)
    ensures StrictTotalOn(PatchLess, Elems(AllPatches(state, order)))
    ensures Distinct(AllPatches(state, order))
    ensures forall p :: p in AllPatches(state, order) <==> exists i :: i in order && p == PatchesOf(state, i)[0]
  {
    OnePatchEach(state, order);
    var ps := AllPatches(state, order);
    forall a, b | 0 <= a < b < |ps| ensures ps[a] != ps[b] {
      assert order[a] in order && order[b] in order && order[a] != order[b];
    }
    forall p | p in ps ensures exists i :: i in order && p == PatchesOf(state, i)[0] {
      var a :| 0 <= a < |ps| && ps[a] == p;
      assert order[a] in order;
    }
    forall p, q | p in ps && q in ps ensures p.RoutePatch? && (p == q || p.vhost != q.vhost || p.route != q.route) {
    }
    PatchLessTotal(Elems(ps));
  }

  lemma PatchLessTotal(s: set<Patch>)
    requires forall p, q | p in s && q in s ::
        p.RoutePatch? && q.RoutePatch? && (p == q || p.vhost != q.vhost || p.route != q.route)
    ensures StrictTotalOn(PatchLess, s)
  {
    forall p | p in s ensures !PatchLess(p, p) { StrLessIrreflexive(p.route); }
    forall p, q | p in s && q in s && p != q ensures PatchLess(p, q) || PatchLess(q, p) {
      StrLessConnected(p.vhost, q.vhost);
      StrLessConnected(p.route, q.route);
    }
    forall p, q, r | p in s && q in s && r in s && PatchLess(p, q) && PatchLess(q, r) ensures PatchLess(p, r) {
      PatchLessTransitive(p, q, r);
    }
  }

  lemma PatchLessTransitive(p: Patch, q: Patch, r: Patch)
    requires PatchLess(p, q) && PatchLess(q, r)
    ensures PatchLess(p, r)
  {
    if p.vhost != q.vhost && q.vhost != r.vhost {
      StrLessTransitive(p.vhost, q.vhost, r.vhost);
      if p.vhost == r.vhost { StrLessIrreflexive(p.vhost); }
    } else if p.vhost == q.vhost == r.vhost {
      StrLessTransitive(p.route, q.route, r.route);
    }
  }

  lemma {:induction false} OnePatchEach(state: MergedState, order: seq<Item>)
    requires forall i | i in order :: InState(state, i) && i.RouteItem?
    ensures AllIn(state, order) && |AllPatches(state, order)| == |order|
    ensures forall a | 0 <= a < |order| ::
        InState(state, order[a]) && AllPatches(state, order)[a] == PatchesOf(state, order[a])[0]
  {
    if order != [] {
      OnePatchEach(state, order[..|order| - 1]);
    }
  }

  // -------------------------------------------------------------- consequences

  /** Route r of virtual host h goes into EnvoyFilter k: that of the proxy's
      namespace and the host's name. */
  ghost predicate RouteGoesTo(state: MergedState, ascii: ToAscii, k: Key, h: string, r: string) {
    && k.ns in state && h in state[k.ns].hosts && r in state[k.ns].hosts[h].routes
    && var host := state[k.ns].hosts[h]; k.name == FromVirtualHost(VirtualHost(h, host.ns, host.resource), ascii)
  }

  ghost predicate ListenerGoesTo(state: MergedState, k: Key, l: string) {
    k.ns in state && l in state[k.ns].gateways && k.name == FromLds(l)
  }

  lemma WhatBelongs(state: MergedState, ascii: ToAscii, k: Key)
    ensures forall h, r :: RouteGoesTo(state, ascii, k, h, r) <==> Belongs(state, ascii, k, RouteItem(k.ns, h, r))
    ensures forall l :: ListenerGoesTo(state, k, l) <==> Belongs(state, ascii, k, LdsItem(k.ns, l))
    ensures forall i | Belongs(state, ascii, k, i) ::
      if i.RouteItem? then i == RouteItem(k.ns, i.host, i.route) && RouteGoesTo(state, ascii, k, i.host, i.route)
      else i == LdsItem(k.ns, i.lds) && ListenerGoesTo(state, k, i.lds)
  {
    hide FromVirtualHost;
    hide FromLds;
  }

  lemma ListingOf(efs: map<Key, EnvoyFilter>, state: MergedState, ascii: ToAscii, defaults: map<Key, EnvoyFilter>,
                  k: Key)
    returns (order: seq<Item>)
    requires IsFinal(efs, state, ascii, defaults) && k in efs && k !in defaults
    ensures Listing(order, state, ascii, k) && MadeOf(efs[k], order, state, k)
  {
    hide Listing;
    hide MadeOf;
    assert FilterOk(efs[k], state, ascii, k);
    order :| Listing(order, state, ascii, k) && MadeOf(efs[k], order, state, k);
  }

  lemma RouteItemsPatch(state: MergedState, i: Item)
    requires InState(state, i) && i.RouteItem?
    ensures PatchesOf(state, i) == [RoutePatch(i.host, i.route, state[i.proxy].hosts[i.host].routes[i.route].config)]
  {
  }

  /** Each route of each host has exactly one patch, with its configuration, in
      the EnvoyFilter of its host; and no other patch there is for that route. */
  lemma EveryRouteHasItsPatch(efs: map<Key, EnvoyFilter>, state: MergedState, ascii: ToAscii,
                              defaults: map<Key, EnvoyFilter>, k: Key, h: string, r: string)
    requires IsFinal(efs, state, ascii, defaults) && RouteGoesTo(state, ascii, k, h, r)
    requires forall k | k in defaults :: k.name == DEFAULT_HTTP_FILTER
    ensures k in efs
    ensures multiset(efs[k].patches)[RoutePatch(h, r, state[k.ns].hosts[h].routes[r].config)] == 1
    ensures forall p | p in efs[k].patches && p.RoutePatch? && p.vhost == h && p.route == r ::
      p.config == state[k.ns].hosts[h].routes[r].config
  {
    var i := RouteItem(k.ns, h, r);
    var patch := RoutePatch(h, r, state[k.ns].hosts[h].routes[r].config);
    WhatBelongs(state, ascii, k);
    KeyKind(state, ascii, i);
    var order := ListingOf(efs, state, ascii, defaults, k);
    RoutePatches(efs[k], order, state, ascii, k);
    DistinctIffMultiset(efs[k].patches);
    forall j | j in order ensures PatchesOf(state, j) ==
      [RoutePatch(j.host, j.route, state[j.proxy].hosts[j.host].routes[j.route].config)]
    {
      RouteItemsPatch(state, j);
    }
    hide PatchesOf;
    assert i in order;
    assert patch in efs[k].patches && patch in multiset(efs[k].patches);
    forall p | p in efs[k].patches && p.RoutePatch? && p.vhost == h && p.route == r ensures p == patch {
      var j :| j in order && p == PatchesOf(state, j)[0];
      assert Belongs(state, ascii, k, j);
    }
  }

  /** Each listener's patches are there in one piece, in their own order. */
  lemma EveryListenerHasItsPatches(efs: map<Key, EnvoyFilter>, state: MergedState, ascii: ToAscii,
                                   defaults: map<Key, EnvoyFilter>, k: Key, l: string)
    returns (before: seq<Patch>, after: seq<Patch>)
    requires IsFinal(efs, state, ascii, defaults) && ListenerGoesTo(state, k, l)
    requires forall k | k in defaults :: k.name == DEFAULT_HTTP_FILTER
    ensures k in efs && efs[k].patches == before + state[k.ns].gateways[l].patches + after
  {
    var i := LdsItem(k.ns, l);
    WhatBelongs(state, ascii, k);
    KeyKind(state, ascii, i);
    var order := ListingOf(efs, state, ascii, defaults, k);
    assert i in order;
    before, after := PatchesAround(state, order, i);
  }

  lemma {:induction false} PatchesAround(state: MergedState, order: seq<Item>, i: Item)
    returns (before: seq<Patch>, after: seq<Patch>)
    requires AllIn(state, order) && i in order && InState(state, i)
    ensures AllPatches(state, order) == before + PatchesOf(state, i) + after
  {
    hide PatchesOf;
    var n := |order| - 1;
    assert order == order[..n] + [order[n]];
    if order[n] == i {
      before, after := AllPatches(state, order[..n]), [];
    } else {
      before, after := PatchesAround(state, order[..n], i);
      after := after + PatchesOf(state, order[n]);
    }
  }

  /** Every EnvoyFilter that is not a default is there for some route or
      listener, and every patch in it is one of theirs. */
  lemma NothingIsInvented(efs: map<Key, EnvoyFilter>, state: MergedState, ascii: ToAscii,
                          defaults: map<Key, EnvoyFilter>, k: Key, p: Patch)
    requires IsFinal(efs, state, ascii, defaults) && k in efs && k !in defaults
    ensures (exists h, r :: RouteGoesTo(state, ascii, k, h, r)) || exists l :: ListenerGoesTo(state, k, l)
    ensures p in efs[k].patches ==>
      || (exists h, r :: RouteGoesTo(state, ascii, k, h, r)
            && p == RoutePatch(h, r, state[k.ns].hosts[h].routes[r].config))
      || (exists l :: ListenerGoesTo(state, k, l) && p in state[k.ns].gateways[l].patches)
  {
    WhatBelongs(state, ascii, k);
    var i :| Belongs(state, ascii, k, i);
    var order := ListingOf(efs, state, ascii, defaults, k);
    if p in efs[k].patches {
      assert p in AllPatches(state, order) by {
        assert p in multiset(efs[k].patches);
      }
      var j := PatchComesFrom(state, order, p);
      assert Belongs(state, ascii, k, j);
      hide RouteGoesTo;
      if j.RouteItem? {
        assert RouteGoesTo(state, ascii, k, j.host, j.route);
      } else {
        assert ListenerGoesTo(state, k, j.lds);
      }
    }
  }

  lemma {:induction false} PatchComesFrom(state: MergedState, order: seq<Item>, p: Patch) returns (i: Item)
    requires AllIn(state, order) && p in AllPatches(state, order)
    ensures i in order && InState(state, i) && p in PatchesOf(state, i)
  {
    hide PatchesOf;
    var n := |order| - 1;
    assert order == order[..n] + [order[n]];
    if p in PatchesOf(state, order[n]) {
      i := order[n];
    } else {
      i := PatchComesFrom(state, order[..n], p);
    }
  }

  predicate InRoute(state: MergedState, k: Key, h: string, r: string, x: string) {
    && k.ns in state && h in state[k.ns].hosts && r in state[k.ns].hosts[h].routes
    && x in state[k.ns].hosts[h].routes[r].info
  }

  predicate HasInfo(state: MergedState, k: Key, l: string) {
    k.ns in state && l in state[k.ns].gateways && state[k.ns].gateways[l].info.Some?
  }

  predicate InListener(state: MergedState, k: Key, l: string, x: string) {
    HasInfo(state, k, l) && x in state[k.ns].gateways[l].info.value
  }

  /** The info of an EnvoyFilter names exactly the policies behind its routes and
      listeners, sorted, each once; listeners without policies add nothing. */
  lemma InfoNamesThePolicies(efs: map<Key, EnvoyFilter>, state: MergedState, ascii: ToAscii,
                             defaults: map<Key, EnvoyFilter>, k: Key)
    requires IsFinal(efs, state, ascii, defaults) && k in efs && k !in defaults
    ensures efs[k].info.Some? <==>
      || (exists h, r :: RouteGoesTo(state, ascii, k, h, r))
      || (exists l :: ListenerGoesTo(state, k, l) && HasInfo(state, k, l))
    ensures efs[k].info.Some? ==> StrictlySorted(efs[k].info.value)
    ensures efs[k].info.Some? ==> forall x :: x in efs[k].info.value <==>
      || (exists h, r :: RouteGoesTo(state, ascii, k, h, r) && InRoute(state, k, h, r, x))
      || (exists l :: ListenerGoesTo(state, k, l) && InListener(state, k, l, x))
  {
    var order := ListingOf(efs, state, ascii, defaults, k);
    hide IsFinal;
    hide Listing;
    hide IsUnion;
    hide Lists;
    hide RouteGoesTo;
    hide ListenerGoesTo;
    hide InRoute;
    hide InListener;
    hide HasInfo;
    WhatIsListed(state, ascii, k, order);
    InfoSpelled(efs[k].info, state, ascii, k, order);
  }

  /** The items of the list are the routes and listeners that go to k. */
  ghost predicate Lists(order: seq<Item>, state: MergedState, ascii: ToAscii, k: Key) {
    && (forall h, r :: RouteGoesTo(state, ascii, k, h, r) <==> RouteItem(k.ns, h, r) in order)
    && (forall l :: ListenerGoesTo(state, k, l) <==> LdsItem(k.ns, l) in order)
    && (forall i: Item | i in order ::
          i == if i.RouteItem? then RouteItem(k.ns, i.host, i.route) else LdsItem(k.ns, i.lds))
  }

  lemma SomeInfo(info: Option<seq<string>>, state: MergedState, ascii: ToAscii, k: Key, order: seq<Item>)
    requires AllIn(state, order) && IsUnion(info, state, order) && Lists(order, state, ascii, k)
    ensures info.Some? <==>
      || (exists h, r :: RouteGoesTo(state, ascii, k, h, r))
      || (exists l :: ListenerGoesTo(state, k, l) && HasInfo(state, k, l))
  {
    hide RouteGoesTo;
    hide ListenerGoesTo;
    if info.Some? {
      var i :| i in order && InfoOf(state, i).Some?;
      assert i.RouteItem? ==> RouteGoesTo(state, ascii, k, i.host, i.route);
      assert i.LdsItem? ==> ListenerGoesTo(state, k, i.lds) && HasInfo(state, k, i.lds);
    }
    if h, r :| RouteGoesTo(state, ascii, k, h, r) {
      var i := RouteItem(k.ns, h, r);
      assert i in order && InfoOf(state, i).Some?;
    }
    if l :| ListenerGoesTo(state, k, l) && HasInfo(state, k, l) {
      var i := LdsItem(k.ns, l);
      assert i in order && InfoOf(state, i).Some?;
    }
  }

  lemma InfoSpelled(info: Option<seq<string>>, state: MergedState, ascii: ToAscii, k: Key, order: seq<Item>)
    requires AllIn(state, order) && IsUnion(info, state, order) && Lists(order, state, ascii, k)
    ensures info.Some? <==>
      || (exists h, r :: RouteGoesTo(state, ascii, k, h, r))
      || (exists l :: ListenerGoesTo(state, k, l) && HasInfo(state, k, l))
    ensures info.Some? ==> StrictlySorted(info.value)
    ensures info.Some? ==> forall x :: x in info.value <==>
      || (exists h, r :: RouteGoesTo(state, ascii, k, h, r) && InRoute(state, k, h, r, x))
      || (exists l :: ListenerGoesTo(state, k, l) && InListener(state, k, l, x))
  {
    SomeInfo(info, state, ascii, k, order);
    hide RouteGoesTo;
    hide ListenerGoesTo;
    hide InRoute;
    hide InListener;
    hide HasInfo;
    hide Lists;
    if info.Some? {
      forall x ensures x in info.value <==>
        || (exists h, r :: RouteGoesTo(state, ascii, k, h, r) && InRoute(state, k, h, r, x))
        || (exists l :: ListenerGoesTo(state, k, l) && InListener(state, k, l, x))
      {
        InfoNamesOne(info.value, state, ascii, k, order, x);
      }
    }
  }

  lemma InfoNamesOne(info: seq<string>, state: MergedState, ascii: ToAscii, k: Key, order: seq<Item>, x: string)
    requires AllIn(state, order) && IsUnion(Some(info), state, order) && Lists(order, state, ascii, k)
    ensures x in info <==>
      || (exists h, r :: RouteGoesTo(state, ascii, k, h, r) && InRoute(state, k, h, r, x))
      || (exists l :: ListenerGoesTo(state, k, l) && InListener(state, k, l, x))
  {
    hide RouteGoesTo;
    hide ListenerGoesTo;
    if x in info {
      var i :| i in order && InfoOf(state, i).Some? && x in InfoOf(state, i).value;
      assert InState(state, i);
      assert i.RouteItem? ==> RouteGoesTo(state, ascii, k, i.host, i.route) && InRoute(state, k, i.host, i.route, x);
      assert i.LdsItem? ==> ListenerGoesTo(state, k, i.lds) && InListener(state, k, i.lds, x);
    }
    if h, r :| RouteGoesTo(state, ascii, k, h, r) && InRoute(state, k, h, r, x) {
      assert RouteItem(k.ns, h, r) in order;
    }
    if l :| ListenerGoesTo(state, k, l) && InListener(state, k, l, x) {
      assert LdsItem(k.ns, l) in order;
    }
  }

  lemma WhatIsListed(state: MergedState, ascii: ToAscii, k: Key, order: seq<Item>)
    requires Listing(order, state, ascii, k)
    ensures Lists(order, state, ascii, k)
  {
    WhatBelongs(state, ascii, k);
    hide RouteGoesTo;
    hide ListenerGoesTo;
    forall i: Item | i in order
      ensures i == if i.RouteItem? then RouteItem(k.ns, i.host, i.route) else LdsItem(k.ns, i.lds)
    {
      assert Belongs(state, ascii, k, i);
    }
  }

  /** Patches of routes are in order: by virtual host, then by route name. */
  lemma RoutePatchesSorted(efs: map<Key, EnvoyFilter>, state: MergedState, ascii: ToAscii,
                           defaults: map<Key, EnvoyFilter>, k: Key, a: nat, b: nat)
    requires IsFinal(efs, state, ascii, defaults) && k in efs && k !in defaults && ROUTE_PREFIX <= k.name
    requires a < b < |efs[k].patches|
    ensures var p, q := efs[k].patches[a], efs[k].patches[b];
      p.RoutePatch? && q.RoutePatch? && (StrLess(p.vhost, q.vhost) || (p.vhost == q.vhost && StrLess(p.route, q.route)))
  {
    var order := ListingOf(efs, state, ascii, defaults, k);
    RoutePatches(efs[k], order, state, ascii, k);
    hide IsFinal;
    hide MadeOf;
    hide Listing;
    var ps := efs[k].patches;
    var p, q := ps[a], ps[b];
    assert p in Elems(ps) && q in Elems(ps) && p != q && !PatchLess(q, p);
  }

  /** No two listeners of a proxy are renamed to the same EnvoyFilter. */
  ghost predicate NoCollision(state: MergedState, ascii: ToAscii) {
    forall i, j | InState(state, i) && InState(state, j) && i.LdsItem? && j.LdsItem? ::
      KeyOf(state, ascii, i) == KeyOf(state, ascii, j) ==> i == j
  }

  /** The outcome is a function of the state: no map order shows. */
  lemma FinalStateIsCanonical(a: map<Key, EnvoyFilter>, b: map<Key, EnvoyFilter>, state: MergedState, ascii: ToAscii,
      defaults: map<Key, EnvoyFilter>)
    requires IsFinal(a, state, ascii, defaults) && IsFinal(b, state, ascii, defaults)
    requires NoCollision(state, ascii)
    ensures a == b
  {
    hide FilterOk;
    hide NoCollision;
    assert a.Keys == b.Keys by {
      forall k ensures k in a <==> k in b {}
    }
    forall k | k in a ensures a[k] == b[k] {
      if k !in defaults {
        SameFilter(a[k], b[k], state, ascii, k);
      }
    }
  }

  lemma SameFilter(e: EnvoyFilter, f: EnvoyFilter, state: MergedState, ascii: ToAscii, k: Key)
    requires FilterOk(e, state, ascii, k) && FilterOk(f, state, ascii, k) && NoCollision(state, ascii)
    ensures e == f
  {
    hide Listing;
    hide MadeOf;
    hide NoCollision;
    var o :| Listing(o, state, ascii, k) && MadeOf(e, o, state, k);
    var q :| Listing(q, state, ascii, k) && MadeOf(f, q, state, k);
    SameInfo(e, f, o, q, state, ascii, k);
    if ROUTE_PREFIX <= k.name {
      SameRoutePatches(e, f, o, q, state, ascii, k);
    } else {
      OneListener(o, q, state, ascii, k);
      assert e.patches == f.patches by { SamePatches(e, f, o, state, k); }
    }
  }

  lemma SamePatches(e: EnvoyFilter, f: EnvoyFilter, o: seq<Item>, state: MergedState, k: Key)
    requires MadeOf(e, o, state, k) && MadeOf(f, o, state, k) && !(ROUTE_PREFIX <= k.name)
    ensures e.patches == f.patches
  {
  }

  lemma SameInfo(e: EnvoyFilter, f: EnvoyFilter, o: seq<Item>, q: seq<Item>, state: MergedState, ascii: ToAscii, k: Key)
    requires Listing(o, state, ascii, k) && MadeOf(e, o, state, k)
    requires Listing(q, state, ascii, k) && MadeOf(f, q, state, k)
    ensures e.info == f.info
  {
    hide AllPatches;
    assert forall i :: i in o <==> i in q;
    if e.info.Some? && f.info.Some? {
      forall x ensures x in e.info.value <==> x in f.info.value {}
      SameStrings(e.info.value, f.info.value);
    }
  }

  lemma SameStrings(s: seq<string>, t: seq<string>)
    requires StrictlySorted(s) && StrictlySorted(t) && forall x :: x in s <==> x in t
    ensures s == t
  {
    StrictIsDistinct(s);
    StrictIsDistinct(t);
    StrLessIsStrictTotal(Elems(s));
    SameMembersSameSort(s, t, StrLess);
  }

  lemma StrictIsDistinct(s: seq<string>)
    requires StrictlySorted(s)
    ensures Distinct(s) && SortedBy(StrLess, s)
  {
    forall i, j | 0 <= i < j < |s| ensures s[i] != s[j] && !StrLess(s[j], s[i]) {
      StrLessIrreflexive(s[i]);
      if StrLess(s[j], s[i]) { StrLessTransitive(s[i], s[j], s[i]); }
    }
  }

  lemma SameRoutePatches(e: EnvoyFilter, f: EnvoyFilter, o: seq<Item>, q: seq<Item>, state: MergedState,
                         ascii: ToAscii, k: Key)
    requires Listing(o, state, ascii, k) && MadeOf(e, o, state, k)
    requires Listing(q, state, ascii, k) && MadeOf(f, q, state, k)
    requires ROUTE_PREFIX <= k.name
    ensures e.patches == f.patches
  {
    hide IsUnion;
    RoutePatches(e, o, state, ascii, k);
    RoutePatches(f, q, state, ascii, k);
    assert forall i :: i in o <==> i in q;
    SameMembersSameSort(e.patches, f.patches, PatchLess);
  }

  lemma RoutePatches(e: EnvoyFilter, o: seq<Item>, state: MergedState, ascii: ToAscii, k: Key)
    requires Listing(o, state, ascii, k) && MadeOf(e, o, state, k) && ROUTE_PREFIX <= k.name
    ensures Distinct(e.patches) && StrictTotalOn(PatchLess, Elems(e.patches)) && SortedBy(PatchLess, e.patches)
    ensures forall i | i in o :: InState(state, i) && i.RouteItem?
    ensures forall p :: p in e.patches <==> exists i :: i in o && p == PatchesOf(state, i)[0]
  {
    hide IsUnion;
    ListingIsOfRoutes(o, state, ascii, k);
    RoutePatchesOrdered(state, o, k);
    var ps := AllPatches(state, o);
    DistinctPermutation(e.patches, ps);
    ElemsOfPermutation(e.patches, ps);
    forall p ensures p in e.patches <==> p in ps {
      assert p in e.patches <==> p in Elems(e.patches);
      assert p in ps <==> p in Elems(ps);
    }
  }

  lemma OneListener(o: seq<Item>, q: seq<Item>, state: MergedState, ascii: ToAscii, k: Key)
    requires Listing(o, state, ascii, k) && Listing(q, state, ascii, k)
    requires NoCollision(state, ascii) && !(ROUTE_PREFIX <= k.name)
    ensures o == q && |o| <= 1
  {
    forall i, j | i in o && j in o ensures i == j {
      OnlyListener(state, ascii, k, i, j);
    }
    assert forall i :: i in q <==> i in o;
    AtMostOne(o);
    AtMostOne(q);
    assert |q| > 0 ==> q[0] in o;
    assert |o| > 0 ==> o[0] in q;
  }

  lemma AtMostOne(s: seq<Item>)
    requires Distinct(s) && forall i, j | i in s && j in s :: i == j
    ensures |s| <= 1
  {
    if s != [] {
      assert s[0] in s && s[|s| - 1] in s;
    }
  }

  lemma OnlyListener(state: MergedState, ascii: ToAscii, k: Key, i: Item, j: Item)
    requires Belongs(state, ascii, k, i) && Belongs(state, ascii, k, j)
    requires NoCollision(state, ascii) && !(ROUTE_PREFIX <= k.name)
    ensures i == j
  {
    KeyKind(state, ascii, i);
    KeyKind(state, ascii, j);
  }

  /** Two listeners are renamed to k. */
  ghost predicate CollidesAt(state: MergedState, ascii: ToAscii, k: Key) {
    exists i, j :: Belongs(state, ascii, k, i) && Belongs(state, ascii, k, j) && i.LdsItem? && j.LdsItem? && i != j
  }

  /** Whatever the map order: the same EnvoyFilters with the same info and the same
      patches; and each the very same, unless two listeners are renamed to it. */
  lemma FinalStatesAgree(a: map<Key, EnvoyFilter>, b: map<Key, EnvoyFilter>, state: MergedState, ascii: ToAscii,
      defaults: map<Key, EnvoyFilter>, k: Key)
    requires IsFinal(a, state, ascii, defaults) && IsFinal(b, state, ascii, defaults)
    ensures k in a <==> k in b
    ensures k in a ==> a[k].info == b[k].info && multiset(a[k].patches) == multiset(b[k].patches)
    ensures k in a && !CollidesAt(state, ascii, k) ==> a[k] == b[k]
  {
    hide FilterOk;
    hide CollidesAt;
    if k in a && k !in defaults {
      FiltersAgree(a[k], b[k], state, ascii, k);
    }
  }

  lemma FiltersAgree(e: EnvoyFilter, f: EnvoyFilter, state: MergedState, ascii: ToAscii, k: Key)
    requires FilterOk(e, state, ascii, k) && FilterOk(f, state, ascii, k)
    ensures e.info == f.info && multiset(e.patches) == multiset(f.patches)
    ensures !CollidesAt(state, ascii, k) ==> e == f
  {
    hide Listing;
    hide MadeOf;
    hide CollidesAt;
    var o :| Listing(o, state, ascii, k) && MadeOf(e, o, state, k);
    var q :| Listing(q, state, ascii, k) && MadeOf(f, q, state, k);
    SameInfo(e, f, o, q, state, ascii, k);
    if ROUTE_PREFIX <= k.name {
      SameRoutePatches(e, f, o, q, state, ascii, k);
    } else {
      ListenersAgree(e, f, o, q, state, ascii, k);
    }
  }

  lemma ListenersAgree(e: EnvoyFilter, f: EnvoyFilter, o: seq<Item>, q: seq<Item>, state: MergedState, ascii: ToAscii,
                       k: Key)
    requires Listing(o, state, ascii, k) && MadeOf(e, o, state, k)
    requires Listing(q, state, ascii, k) && MadeOf(f, q, state, k)
    requires !(ROUTE_PREFIX <= k.name)
    ensures multiset(e.patches) == multiset(f.patches)
    ensures !CollidesAt(state, ascii, k) ==> e.patches == f.patches
  {
    hide IsUnion;
    hide AllPatches;
    assert forall i :: i in o <==> i in q;
    PatchesPermute(state, o, q);
    if !CollidesAt(state, ascii, k) {
      forall i, j | i in o && j in o ensures i == j {
        assert Belongs(state, ascii, k, i) && Belongs(state, ascii, k, j);
        KeyKind(state, ascii, i);
        KeyKind(state, ascii, j);
      }
      AtMostOne(o);
      AtMostOne(q);
      SameShortList(o, q);
    }
  }

  lemma SameShortList(o: seq<Item>, q: seq<Item>)
    requires |o| <= 1 && |q| <= 1 && forall i :: i in o <==> i in q
    ensures o == q
  {
    assert |o| > 0 ==> o[0] in q;
    assert |q| > 0 ==> q[0] in o;
  }

  lemma AllInParts(state: MergedState, a: seq<Item>, b: seq<Item>)
    ensures AllIn(state, a + b) <==> AllIn(state, a) && AllIn(state, b)
  {
    forall i | i in a ensures i in a + b {}
    forall i | i in b ensures i in a + b {}
  }

  lemma {:induction false} PatchesConcat(state: MergedState, a: seq<Item>, b: seq<Item>)
    requires AllIn(state, a) && AllIn(state, b) && AllIn(state, a + b)
    ensures AllPatches(state, a + b) == AllPatches(state, a) + AllPatches(state, b)
  {
    hide AllPatches;
    hide PatchesOf;
    hide AllIn;
    if b == [] {
      assert a + b == a;
      NoPatches(state);
    } else {
      var n := |b| - 1;
      assert b == b[..n] + [b[n]] && a + b == (a + b[..n]) + [b[n]];
      AllInParts(state, b[..n], [b[n]]);
      AllInParts(state, a, b[..n]);
      AllInParts(state, a + b[..n], [b[n]]);
      InStateOne(state, b[n]);
      PatchesConcat(state, a, b[..n]);
      PatchesSnoc(state, b[..n], b[n]);
      PatchesSnoc(state, a + b[..n], b[n]);
    }
  }

  lemma NoPatches(state: MergedState)
    ensures AllIn(state, []) && AllPatches(state, []) == []
  {
  }

  lemma InStateOne(state: MergedState, i: Item)
    requires AllIn(state, [i])
    ensures InState(state, i)
  {
    assert i in [i];
  }

  /** The order of the items does not change which patches there are, or how often. */
  lemma {:induction false} PatchesPermute(state: MergedState, o: seq<Item>, q: seq<Item>)
    requires AllIn(state, o) && AllIn(state, q) && Distinct(o) && Distinct(q)
    requires forall i :: i in o <==> i in q
    ensures multiset(AllPatches(state, o)) == multiset(AllPatches(state, q))
    decreases |o|
  {
    hide AllPatches;
    hide PatchesOf;
    hide InState;
    if o == [] {
      NoMembers(q);
    } else {
      var n := |o| - 1;
      assert o[n] in q;
      var j :| 0 <= j < |q| && q[j] == o[n];
      RemovePatches(state, q, j);
      RemovePatches(state, o, n);
      assert o[..n] + o[n + 1..] == o[..n];
      PatchesPermute(state, o[..n], q[..j] + q[j + 1..]);
    }
  }

  lemma RemovePatches(state: MergedState, q: seq<Item>, j: nat)
    requires AllIn(state, q) && Distinct(q) && j < |q|
    ensures var rest := q[..j] + q[j + 1..];
      && AllIn(state, rest) && Distinct(rest)
      && (forall i :: i in rest <==> i in q && i != q[j])
      && multiset(AllPatches(state, q)) == multiset(AllPatches(state, rest)) + multiset(PatchesOf(state, q[j]))
  {
    hide AllPatches;
    hide PatchesOf;
    hide AllIn;
    var a, b := q[..j], q[j + 1..];
    assert q == (a + [q[j]]) + b;
    Without(q, j);
    AllInParts(state, a + [q[j]], b);
    AllInParts(state, a, [q[j]]);
    AllInParts(state, a, b);
    InStateOne(state, q[j]);
    PatchesConcat(state, a, b);
    PatchesSnoc(state, a, q[j]);
    PatchesConcat(state, a + [q[j]], b);
  }

  lemma NoMembers(q: seq<Item>)
    requires forall i :: i !in q
    ensures q == []
  {
    forall i ensures multiset(q)[i] == 0 {
      assert i in q <==> i in multiset(q);
    }
    assert multiset(q) == multiset{};
    assert |multiset(q)| == |q|;
  }

  lemma Without(q: seq<Item>, j: nat)
    requires Distinct(q) && j < |q|
    ensures Distinct(q[..j] + q[j + 1..])
    ensures forall i :: i in q[..j] + q[j + 1..] <==> i in q && i != q[j]
  {
    var rest := q[..j] + q[j + 1..];
    forall i ensures i in rest <==> i in q && i != q[j] {
      if i in q && i != q[j] {
        var k :| 0 <= k < |q| && q[k] == i;
        assert if k < j then rest[k] == i else rest[k - 1] == i;
      }
      if i in rest {
        var k :| 0 <= k < |rest| && rest[k] == i;
        assert i == q[if k < j then k else k + 1];
      }
    }
  }

  ghost predicate IsListenerName(lds: string) {
    exists bind, port :: IsAddress(bind) && IsNumber(port) && lds == LdsName(bind, port)
  }

  /** Listeners on IP addresses do not collide, whatever the proxies hold. */
  lemma AddressesDoNotCollide(state: MergedState, ascii: ToAscii)
    requires forall i | InState(state, i) && i.LdsItem? :: IsListenerName(i.lds)
    ensures NoCollision(state, ascii)
  {
    forall i, j | InState(state, i) && InState(state, j) && i.LdsItem? && j.LdsItem?
      && KeyOf(state, ascii, i) == KeyOf(state, ascii, j) ensures i == j
    {
      var a, p :| IsAddress(a) && IsNumber(p) && i.lds == LdsName(a, p);
      var b, q :| IsAddress(b) && IsNumber(q) && j.lds == LdsName(b, q);
      LdsNamesDoNotCollide(a, p, b, q);
      assert i == LdsItem(i.proxy, i.lds) && j == LdsItem(j.proxy, j.lds);
    }
  }
}
