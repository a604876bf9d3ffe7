/** The data plane's index of consumers: kept up to date incrementally by
    generation, and looked up by the key a request presents. */
module ConsumerIndex {
  import opened Options
  import opened Orders

  /** A consumer: `configs` maps each of its plugins to the index (the key) it uses there. */
  datatype Consumer = Consumer(ns: string, name: string, generation: int, configs: map<string, string>)

  /** What the control plane sends about one consumer: a generation and its data. */
  datatype Resource = Resource(v: int, d: string)

  type Namespace = map<string, Resource>

  type Update = map<string, Namespace>

  /** Unmarshalling and InitConfigs, which may fail. */
  type Parser = string -> Option<map<string, string>>

  type Index = map<string, Consumer>

  type ResourceIndex = map<string, Index>

  /** plugin, then key, then consumer */
  type Scope = map<string, map<string, Consumer>>

  function Parsed(parse: Parser, ns: string, name: string, r: Resource): Option<Consumer> {
    match parse(r.d)
    case None => None
    case Some(configs) => Some(Consumer(ns, name, r.v, configs))
  }

  /** The index of a namespace built from nothing. */
  function Rebuild(parse: Parser, ns: string, fields: Namespace): Index {
    map name | name in fields && Parsed(parse, ns, name, fields[name]).Some? ::
        Parsed(parse, ns, name, fields[name]).value
  }

  predicate Reused(curr: Index, fields: Namespace, name: string) {
    name in fields && name in curr && curr[name].generation == fields[name].v
  }

  /** The index of a namespace built upon the previous one: consumers of an
      unchanged generation are kept, the others parsed; failures are dropped. */
  function Incremental(parse: Parser, ns: string, curr: Index, fields: Namespace): Index {
    map name | name in fields && (Reused(curr, fields, name) || Parsed(parse, ns, name, fields[name]).Some?) ::
      if Reused(curr, fields, name) then curr[name] else Parsed(parse, ns, name, fields[name]).value
  }

  function At(index: ResourceIndex, ns: string): Index {
    if ns in index then index[ns] else map[]
  }

  function Step(parse: Parser, index: ResourceIndex, u: Update): ResourceIndex {
    map ns | ns in index.Keys + u.Keys ::
      if ns in u then Incremental(parse, ns, At(index, ns), u[ns]) else index[ns]
  }

  // ----------------------------------------------------------- the two indexes

  ghost predicate ScopeSound(scope: Scope, index: Index) {
    forall p, k | p in scope && k in scope[p] ::
      && scope[p][k].name in index && index[scope[p][k].name] == scope[p][k]
      && p in scope[p][k].configs && scope[p][k].configs[p] == k
  }

  predicate Found(scope: Scope, p: string, k: string) { p in scope && k in scope[p] }

  ghost predicate ScopeComplete(scope: Scope, index: Index) {
    forall name, p | name in index && p in index[name].configs :: Found(scope, p, index[name].configs[p])
  }

  ghost predicate NamesRight(ns: string, index: Index) {
    forall name | name in index :: index[name].name == name && index[name].ns == ns
  }

  ghost predicate ScopeOk(ns: string, scope: Scope, index: Index) {
    NamesRight(ns, index) && ScopeSound(scope, index) && ScopeComplete(scope, index)
  }

  class ConsumerManager {
    const parse: Parser
    var resourceIndex: ResourceIndex
    var scopeIndex: map<string, Scope>

    /** The index for matching covers exactly the index for syncing. */
    ghost predicate Valid()
      reads this
    {
      && scopeIndex.Keys == resourceIndex.Keys
      && forall ns | ns in resourceIndex :: ScopeOk(ns, scopeIndex[ns], resourceIndex[ns])
    }

    constructor (parse: Parser)
      ensures Valid() && this.parse == parse && resourceIndex == map[]
    {
      this.parse := parse;
      resourceIndex, scopeIndex := map[], map[];
    }

    /** A namespace missing from the update keeps its consumers. */
    method UpdateConsumers(u: Update)
      requires Valid()
      modifies this
      ensures Valid()
      ensures resourceIndex == Step(parse, old(resourceIndex), u)
      ensures forall ns, name :: TakenIn(old(resourceIndex), u, ns, name)
    {
      hide Step;
      hide TakenIn;
      ghost var index0 := resourceIndex;
      UpdateResources(u);
      StepNamesRight(parse, index0, u);
      BuildScopes();
      forall ns, name ensures TakenIn(index0, u, ns, name) {
        StepTakesIn(index0, u, ns, name);
      }
    }

    /** What an update leaves of a name: a consumer it no longer mentions is gone,
        one of the same generation stays, any other is what its data parse to. */
    ghost predicate TakenIn(before: ResourceIndex, u: Update, ns: string, name: string)
      reads this
    {
      var known := ns in before && name in before[ns];
      var now := ns in resourceIndex && name in resourceIndex[ns];
      if ns !in u then now == known && (now ==> resourceIndex[ns][name] == before[ns][name])
      else if name !in u[ns] then !now
      else if known && before[ns][name].generation == u[ns][name].v then
        now && resourceIndex[ns][name] == before[ns][name]
      else
        match parse(u[ns][name].d)
        case None => !now
        case Some(configs) => now && resourceIndex[ns][name] == Consumer(ns, name, u[ns][name].v, configs)
    }

    lemma StepTakesIn(before: ResourceIndex, u: Update, ns: string, name: string)
      requires resourceIndex == Step(parse, before, u)
      ensures TakenIn(before, u, ns, name)
    {
    }

    /** Every key of a consumer that an update brings is found, for the plugin it is meant for. */
    lemma ConfiguredIsFound(before: ResourceIndex, u: Update, ns: string, name: string, configs: map<string, string>,
                            p: string)
      requires Valid() && TakenIn(before, u, ns, name)
      requires ns in u && name in u[ns] && parse(u[ns][name].d) == Some(configs) && p in configs
      requires !(ns in before && name in before[ns] && before[ns][name].generation == u[ns][name].v)
      ensures ns in scopeIndex && p in scopeIndex[ns] && configs[p] in scopeIndex[ns][p]
      ensures var c := scopeIndex[ns][p][configs[p]];
        c.ns == ns && p in c.configs && c.configs[p] == configs[p]
    {
      assert ScopeOk(ns, scopeIndex[ns], resourceIndex[ns]);
      assert Found(scopeIndex[ns], p, resourceIndex[ns][name].configs[p]);
    }

    method UpdateResources(u: Update)
      modifies `resourceIndex
      ensures resourceIndex == Step(parse, old(resourceIndex), u)
    {
      hide Incremental;
      hide Elems;
      hide Distinct;
      ghost var index0 := resourceIndex;
      var namespaces := AnyOrder(u.Keys);
      WalkEnds(namespaces);
      for i := 0 to |namespaces|
        invariant resourceIndex.Keys == index0.Keys + Elems(namespaces[..i])
        invariant forall ns | ns in resourceIndex ::
            resourceIndex[ns] == NextIndex(index0, u, Elems(namespaces[..i]), ns)
      {
        var ns := namespaces[i];
        Walk(namespaces, i);
        var newIdx := IndexNamespace(parse, ns, At(resourceIndex, ns), u[ns]);
        resourceIndex := resourceIndex[ns := newIdx];
      }
    }

    ghost function NextIndex(index: ResourceIndex, u: Update, done: set<string>, ns: string): Index {
      if ns in done && ns in u then Incremental(parse, ns, At(index, ns), u[ns]) else At(index, ns)
    }

    method BuildScopes()
      requires forall ns | ns in resourceIndex :: NamesRight(ns, resourceIndex[ns])
      modifies `scopeIndex
      ensures Valid()
    {
      hide ScopeSound;
      hide ScopeComplete;
      hide NamesRight;
      scopeIndex := map[];
      var namespaces := AnyOrder(resourceIndex.Keys);
      for i := 0 to |namespaces|
        invariant scopeIndex.Keys == Elems(namespaces[..i])
        invariant forall ns | ns in scopeIndex :: ns in resourceIndex && ScopeOk(ns, scopeIndex[ns], resourceIndex[ns])
      {
        var ns := namespaces[i];
        assert ns in Elems(namespaces);
        assert namespaces[..i + 1] == namespaces[..i] + [ns];
        ElemsSnoc(namespaces[..i], ns);
        var scope, _ := BuildScope(ns, resourceIndex[ns]);
        scopeIndex := scopeIndex[ns := scope];
      }
      assert namespaces[..|namespaces|] == namespaces;
    }

    /** Only consumers of the namespace that use this key for this plugin are
        found, and whenever one exists, one is found. */
    method LookupConsumer(ns: string, pluginName: string, key: string) returns (r: Option<Consumer>)
      requires Valid()
      ensures r.Some? ==> Uses(ns, r.value, pluginName, key)
      ensures r.None? ==> forall c :: !Uses(ns, c, pluginName, key)
    {
      if ns in scopeIndex {
        if pluginName in scopeIndex[ns] {
          if key in scopeIndex[ns][pluginName] {
            return Some(scopeIndex[ns][pluginName][key]);
          }
        }
      }
      forall c ensures !Uses(ns, c, pluginName, key) {
        assert Uses(ns, c, pluginName, key) ==> Found(scopeIndex[ns], pluginName, key);
      }
      return None;
    }

    ghost predicate Uses(ns: string, c: Consumer, pluginName: string, key: string)
      reads this
    {
      && ns in resourceIndex && c.name in resourceIndex[ns] && resourceIndex[ns][c.name] == c
      && pluginName in c.configs && c.configs[pluginName] == key
    }
  }

  method IndexNamespace(parse: Parser, ns: string, currIdx: Index, fields: Namespace) returns (newIdx: Index)
    ensures newIdx == Incremental(parse, ns, currIdx, fields)
  {
    newIdx := map[];
    var names := AnyOrder(fields.Keys);
    for i := 0 to |names|
      invariant forall name :: name in newIdx <==> name in names[..i] && name in Incremental(parse, ns, currIdx, fields)
      invariant forall name | name in newIdx :: newIdx[name] == Incremental(parse, ns, currIdx, fields)[name]
    {
      var name := names[i];
      assert name in Elems(names);
      assert names[..i + 1] == names[..i] + [name];
      if name !in currIdx || currIdx[name].generation != fields[name].v {
        match Parsed(parse, ns, name, fields[name]) {
          case None =>
          case Some(c) => newIdx := newIdx[name := c];
        }
      } else {
        newIdx := newIdx[name := currIdx[name]];
      }
    }
    assert names[..|names|] == names;
    forall name | name in fields ensures name in names { assert name in Elems(names); }
  }

  /** First come, first served: a key that is already taken is left alone, so
      whoever has it came first in the order in which the map was walked. */
  method BuildScope(ghost ns: string, index: Index) returns (scope: Scope, ghost order: seq<string>)
    requires NamesRight(ns, index)
    ensures ScopeSound(scope, index) && ScopeComplete(scope, index)
    ensures Distinct(order) && Elems(order) == index.Keys && EarliestHave(scope, index, order, |order|)
  {
    hide ScopeSound;
    hide Covers;
    hide NamesRight;
    hide EarliestHave;
    scope := map[];
    EmptyScope(index);
    var names := AnyOrder(index.Keys);
    order := names;
    for i := 0 to |names|
      invariant ScopeSound(scope, index) && EarliestHave(scope, index, names, i)
      invariant forall n | n in names[..i] :: n in index && Covers(scope, index[n], index[n].configs.Keys)
    {
      var name := names[i];
      assert name in Elems(names);
      assert names[..i + 1] == names[..i] + [name];
      var value := index[name];
      var plugins := AnyOrder(value.configs.Keys);
      assert Elems(plugins[..0]) == {};
      CoversNothing(scope, value);
      EarliestGoOn(scope, index, names, i);
      for j := 0 to |plugins|
        invariant ScopeSound(scope, index) && EarliestHave(scope, index, names, i + 1)
        invariant forall n | n in names[..i] :: n in index && Covers(scope, index[n], index[n].configs.Keys)
        invariant Covers(scope, value, Elems(plugins[..j]))
      {
        var pluginName := plugins[j];
        assert pluginName in Elems(plugins);
        assert plugins[..j + 1] == plugins[..j] + [pluginName];
        ElemsSnoc(plugins[..j], pluginName);
        ghost var before := scope;
        scope := Claim(scope, value, pluginName);
        ClaimSound(ns, before, index, value, pluginName);
        ClaimIsEarliest(before, index, names, i, pluginName);
        forall n | n in names[..i] ensures n in index && Covers(scope, index[n], index[n].configs.Keys) {
          ClaimKeeps(before, value, pluginName, index[n], index[n].configs.Keys);
        }
        ClaimKeeps(before, value, pluginName, value, Elems(plugins[..j]));
        ClaimCovers(before, value, pluginName, Elems(plugins[..j]));
      }
      assert plugins[..|plugins|] == plugins;
    }
    assert names[..|names|] == names;
    AllCovered(scope, index, names);
  }

  function Claim(scope: Scope, c: Consumer, p: string): Scope
    requires p in c.configs
  {
    var keys := if p in scope then scope[p] else map[];
    if c.configs[p] in keys then scope else scope[p := keys[c.configs[p] := c]]
  }

  predicate Covers(scope: Scope, c: Consumer, plugins: set<string>) {
    forall p | p in plugins && p in c.configs :: Found(scope, p, c.configs[p])
  }

  predicate UsesKey(index: Index, name: string, p: string, k: string) {
    name in index && p in index[name].configs && index[name].configs[p] == k
  }

  /** The first of the list, and among the first n, to use this key for this plugin. */
  predicate Earliest(index: Index, order: seq<string>, n: nat, i: int, p: string, k: string) {
    && 0 <= i < n <= |order| && UsesKey(index, order[i], p, k)
    && forall j | 0 <= j < i :: !UsesKey(index, order[j], p, k)
  }

  ghost predicate EarliestHave(scope: Scope, index: Index, order: seq<string>, n: nat) {
    forall p, k | Found(scope, p, k) :: exists i :: Earliest(index, order, n, i, p, k) && scope[p][k] == index[order[i]]
  }

  lemma EarliestGoOn(scope: Scope, index: Index, order: seq<string>, n: nat)
    requires n < |order| && EarliestHave(scope, index, order, n)
    ensures EarliestHave(scope, index, order, n + 1)
  {
    forall p, k | Found(scope, p, k)
      ensures exists i :: Earliest(index, order, n + 1, i, p, k) && scope[p][k] == index[order[i]]
    {
      var i :| Earliest(index, order, n, i, p, k) && scope[p][k] == index[order[i]];
      assert Earliest(index, order, n + 1, i, p, k);
    }
  }

  lemma ClaimIsEarliest(scope: Scope, index: Index, order: seq<string>, n: nat, p: string)
    requires n < |order| && order[n] in index && p in index[order[n]].configs
    requires EarliestHave(scope, index, order, n + 1)
    requires forall m | m in order[..n] :: m in index && Covers(scope, index[m], index[m].configs.Keys)
    ensures EarliestHave(Claim(scope, index[order[n]], p), index, order, n + 1)
  {
    var c := index[order[n]];
    var r := Claim(scope, c, p);
    forall q, k | Found(r, q, k)
      ensures exists i :: Earliest(index, order, n + 1, i, q, k) && r[q][k] == index[order[i]]
    {
      if Found(scope, q, k) {
        var i :| Earliest(index, order, n + 1, i, q, k) && scope[q][k] == index[order[i]];
        assert r[q][k] == scope[q][k];
      } else {
        assert q == p && k == c.configs[p];
        forall j | 0 <= j < n ensures !UsesKey(index, order[j], p, k) {
          assert order[j] in order[..n];
          assert UsesKey(index, order[j], p, k) ==> Found(scope, p, k);
        }
        assert Earliest(index, order, n + 1, n, q, k);
      }
    }
  }

  lemma EmptyScope(index: Index)
    ensures ScopeSound(map[], index) && forall order: seq<string> :: EarliestHave(map[], index, order, 0)
  {
  }

  lemma CoversNothing(scope: Scope, c: Consumer)
    ensures Covers(scope, c, {})
  {
  }

  lemma ClaimSound(ns: string, scope: Scope, index: Index, c: Consumer, p: string)
    requires ScopeSound(scope, index) && NamesRight(ns, index)
    requires exists name :: name in index && index[name] == c
    requires p in c.configs
    ensures ScopeSound(Claim(scope, c, p), index)
  {
  }

  lemma ClaimKeeps(scope: Scope, c: Consumer, p: string, other: Consumer, plugins: set<string>)
    requires p in c.configs && Covers(scope, other, plugins)
    ensures Covers(Claim(scope, c, p), other, plugins)
  {
  }

  lemma ClaimCovers(scope: Scope, c: Consumer, p: string, plugins: set<string>)
    requires p in c.configs && Covers(scope, c, plugins)
    ensures Covers(Claim(scope, c, p), c, plugins + {p})
  {
  }

  lemma AllCovered(scope: Scope, index: Index, names: seq<string>)
    requires Elems(names) == index.Keys
    requires forall n | n in names :: n in index && Covers(scope, index[n], index[n].configs.Keys)
    ensures ScopeComplete(scope, index)
  {
    forall name, p | name in index && p in index[name].configs ensures Found(scope, p, index[name].configs[p]) {
      assert name in Elems(names);
    }
  }

  lemma StepNamesRight(parse: Parser, index: ResourceIndex, u: Update)
    requires forall ns | ns in index :: NamesRight(ns, index[ns])
    ensures forall ns | ns in Step(parse, index, u) :: NamesRight(ns, Step(parse, index, u)[ns])
  {
    forall ns | ns in Step(parse, index, u) ensures NamesRight(ns, Step(parse, index, u)[ns]) {
      assert ns in index ==> NamesRight(ns, index[ns]);
    }
  }

  // --------------------------------------------- incremental equals from scratch

  function IndexAfter(parse: Parser, history: seq<Update>): ResourceIndex {
    if history == [] then map[]
    else Step(parse, IndexAfter(parse, history[..|history| - 1]), history[|history| - 1])
  }

  /** Where a namespace was last mentioned; -1 if never. */
  function LastMention(history: seq<Update>, ns: string): (i: int)
    ensures -1 <= i < |history|
    ensures i >= 0 ==> ns in history[i]
    ensures forall j | i < j < |history| :: ns !in history[j]
  {
    if history == [] then -1
    else if ns in history[|history| - 1] then |history| - 1
    else LastMention(history[..|history| - 1], ns)
  }

  predicate Says(u: Update, ns: string, name: string, r: Resource) {
    ns in u && name in u[ns] && u[ns][name] == r
  }

  /** A consumer's generation determines its content, as Kubernetes promises. */
  ghost predicate GenerationsTell(history: seq<Update>) {
    forall i, j, ns, name, r, q | 0 <= i < |history| && 0 <= j < |history|
      && Says(history[i], ns, name, r) && Says(history[j], ns, name, q) && r.v == q.v :: r == q
  }

  /** After any history, the index of a namespace is what a rebuild from the last
      update that mentions it would give; other namespaces are not there. */
  lemma {:induction false} IncrementalIsRebuild(parse: Parser, history: seq<Update>, ns: string)
    requires GenerationsTell(history)
    ensures var i := LastMention(history, ns);
      if i < 0 then ns !in IndexAfter(parse, history)
      else ns in IndexAfter(parse, history) && IndexAfter(parse, history)[ns] == Rebuild(parse, ns, history[i][ns])
  {
    if history != [] {
      var n := |history| - 1;
      var earlier := history[..n];
      assert GenerationsTell(earlier) by {
        forall i, j, name, ns', r, q | 0 <= i < n && 0 <= j < n
          && Says(earlier[i], ns', name, r) && Says(earlier[j], ns', name, q) && r.v == q.v ensures r == q
        {
          assert Says(history[i], ns', name, r) && Says(history[j], ns', name, q);
        }
      }
      IncrementalIsRebuild(parse, earlier, ns);
      if ns in history[n] {
        var i := LastMention(earlier, ns);
        var prev := if i < 0 then map[] else earlier[i][ns];
        forall name | name in prev && name in history[n][ns] && prev[name].v == history[n][ns][name].v
          ensures prev[name] == history[n][ns][name]
        {
          assert Says(history[i], ns, name, prev[name]) && Says(history[n], ns, name, history[n][ns][name]);
        }
        StepIsRebuild(parse, ns, prev, history[n][ns]);
        assert At(IndexAfter(parse, earlier), ns) == Rebuild(parse, ns, prev);
      }
    }
  }

  lemma StepIsRebuild(parse: Parser, ns: string, prev: Namespace, fields: Namespace)
    requires forall name | name in prev && name in fields && prev[name].v == fields[name].v ::
        prev[name] == fields[name]
    ensures Incremental(parse, ns, Rebuild(parse, ns, prev), fields) == Rebuild(parse, ns, fields)
  {
  }

  /** Reusing a consumer is right exactly when re-parsing would give it again. */
  lemma ReuseIsRightIff(parse: Parser, ns: string, curr: Index, fields: Namespace)
    ensures Incremental(parse, ns, curr, fields) == Rebuild(parse, ns, fields) <==>
      forall name | Reused(curr, fields, name) :: Parsed(parse, ns, name, fields[name]) == Some(curr[name])
  {
    var inc, re := Incremental(parse, ns, curr, fields), Rebuild(parse, ns, fields);
    if inc == re {
      forall name | Reused(curr, fields, name) ensures Parsed(parse, ns, name, fields[name]) == Some(curr[name]) {
        assert name in inc && inc[name] == curr[name] && name in re;
      }
    }
  }

  /** Consumers of a namespace that an update leaves out are never dropped. */
  lemma AbsentNamespaceStays(parse: Parser, history: seq<Update>, u: Update, ns: string)
    requires ns !in u
    ensures ns in IndexAfter(parse, history + [u]) <==> ns in IndexAfter(parse, history)
    ensures ns in IndexAfter(parse, history) ==>
      IndexAfter(parse, history + [u])[ns] == IndexAfter(parse, history)[ns]
  {
    assert (history + [u])[..|history|] == history;
  }
}
