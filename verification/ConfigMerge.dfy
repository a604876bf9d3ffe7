/** The data plane's configuration: parsing a list of plugins, and merging the
    configuration of a route with that of the HTTP filter. */
module ConfigMerge {
  import opened Orders

  /** One plugin of a configuration. `ok` is false when the plugin rejected its
      own configuration and the internal-error factory stands in for it. */
  datatype Parsed = Parsed(name: string, config: int, ok: bool)

  datatype Config = Config(
    namespace: string,
    consumerFiltersEndAt: nat,
    needInit: bool,
    parsed: seq<Parsed>,
    debug: bool)

  /** What the plugin tables say: the order, and which plugins are ConsumerPlugins. */
  datatype Tables = Tables(order: Registry, consumers: set<string>)

  function NameLess(reg: Registry): (Parsed, Parsed) -> bool {
    (a: Parsed, b: Parsed) => ComparePluginOrder(reg, a.name, b.name)
  }

  function Names(s: seq<Parsed>): set<string> {
    set p | p in s :: p.name
  }

  /** The filters of b that a does not have. */
  function Added(a: seq<Parsed>, b: seq<Parsed>): seq<Parsed> {
    if b == [] then []
    else
      var last := b[|b| - 1];
      if last.name in Names(a) then Added(a, b[..|b| - 1]) else Added(a, b[..|b| - 1]) + [last]
  }

  /** How many consumer plugins lead the list. */
  function LeadingRun(s: seq<Parsed>, consumers: set<string>): (n: nat)
    ensures n <= |s|
    ensures forall i | 0 <= i < n :: s[i].name in consumers
    ensures n < |s| ==> s[n].name !in consumers
  {
    if s == [] || s[0].name !in consumers then 0 else 1 + LeadingRun(s[1..], consumers)
  }

  ghost predicate IsMerge(m: Config, a: Config, b: Config, t: Tables) {
    && m.namespace == (if a.namespace == "" then b.namespace else a.namespace)
    && m.needInit == (a.needInit || b.needInit)
    && m.debug == (a.debug || b.debug)
    && IsSortOf(m.parsed, a.parsed + Added(a.parsed, b.parsed), NameLess(t.order))
    && m.consumerFiltersEndAt == LeadingRun(m.parsed, t.consumers)
  }

  /** `filterManagerConfig.Merge`: the receiver's filters win. */
  method Merge(conf: Config, another: Config, t: Tables) returns (cp: Config)
    ensures IsMerge(cp, conf, another, t)
  {
    var parsed := conf.parsed;
    for i := 0 to |another.parsed|
      invariant parsed == conf.parsed + Added(conf.parsed, another.parsed[..i])
    {
      var toAdd := another.parsed[i];
      var needAdd := true;
      for j := 0 to |conf.parsed|
        invariant needAdd <==> forall k | 0 <= k < j :: conf.parsed[k].name != toAdd.name
      {
        if conf.parsed[j].name == toAdd.name {
          needAdd := false;
        }
      }
      assert another.parsed[..i + 1][..i] == another.parsed[..i];
      assert needAdd <==> toAdd.name !in Names(conf.parsed);
      if needAdd {
        parsed := parsed + [toAdd];
      }
    }
    assert another.parsed[..|another.parsed|] == another.parsed;
    parsed := SortSlice(parsed, NameLess(t.order));
    var endAt := CountLeading(parsed, t.consumers);
    cp := Config(if conf.namespace == "" then another.namespace else conf.namespace,
                 endAt, conf.needInit || another.needInit, parsed, conf.debug || another.debug);
  }

  method CountLeading(parsed: seq<Parsed>, consumers: set<string>) returns (endAt: nat)
    ensures endAt == LeadingRun(parsed, consumers)
  {
    endAt := |parsed|;
    for i := 0 to |parsed|
      invariant endAt == |parsed|
      invariant forall k | 0 <= k < i :: parsed[k].name in consumers
    {
      if parsed[i].name !in consumers {
        endAt := i;
        LeadingRunIs(parsed, consumers, i);
        return;
      }
    }
    LeadingRunIs(parsed, consumers, |parsed|);
  }

  lemma {:induction false} LeadingRunIs(s: seq<Parsed>, consumers: set<string>, n: nat)
    requires n <= |s| && forall i | 0 <= i < n :: s[i].name in consumers
    requires n < |s| ==> s[n].name !in consumers
    ensures LeadingRun(s, consumers) == n
  {
    if n > 0 {
      LeadingRunIs(s[1..], consumers, n - 1);
    }
  }

  // ---------------------------------------------------- what a merge contains

  ghost predicate DistinctNames(s: seq<Parsed>) {
    forall i, j | 0 <= i < j < |s| :: s[i].name != s[j].name
  }

  /** Each plugin once, all of them registered. */
  ghost predicate WellFormed(c: Config, t: Tables) {
    DistinctNames(c.parsed) && Names(c.parsed) <= t.order.Keys
  }

  predicate Holds(c: Config, p: Parsed) { p in c.parsed }

  predicate Has(c: Config, name: string) { name in Names(c.parsed) }

  lemma {:induction false} AddedMembers(a: seq<Parsed>, b: seq<Parsed>)
    ensures forall p :: p in Added(a, b) <==> p in b && p.name !in Names(a)
    ensures DistinctNames(b) ==> DistinctNames(Added(a, b))
  {
    if b != [] {
      var n := |b| - 1;
      AddedMembers(a, b[..n]);
      assert b == b[..n] + [b[n]];
    }
  }

  /** A left-biased union: everything of the receiver, and of the other what
      the receiver does not name; each name once; in plugin order. */
  lemma MergeIsLeftBiasedUnion(m: Config, a: Config, b: Config, t: Tables)
    requires IsMerge(m, a, b, t) && WellFormed(a, t) && WellFormed(b, t)
    ensures forall p :: Holds(m, p) <==> Holds(a, p) || (Holds(b, p) && !Has(a, p.name))
    ensures Names(m.parsed) == Names(a.parsed) + Names(b.parsed)
    ensures WellFormed(m, t)
    ensures SortedBy(NameLess(t.order), m.parsed)
  {
    var u := a.parsed + Added(a.parsed, b.parsed);
    AddedMembers(a.parsed, b.parsed);
    ElemsOfPermutation(m.parsed, u);
    forall p ensures Holds(m, p) <==> Holds(a, p) || (Holds(b, p) && !Has(a, p.name)) {
      assert p in m.parsed <==> p in Elems(m.parsed);
      assert p in u <==> p in Elems(u);
    }
    forall n | n in Names(a.parsed) + Names(b.parsed) ensures n in Names(m.parsed) {
      if n in Names(a.parsed) {
        var p :| p in a.parsed && p.name == n;
        assert Holds(m, p);
      } else {
        var p :| p in b.parsed && p.name == n;
        assert Holds(m, p);
      }
    }
    assert DistinctNames(u) by {
      forall i, j | 0 <= i < j < |u| ensures u[i].name != u[j].name {
        UnionDistinct(a.parsed, b.parsed, i, j);
      }
    }
    DistinctNamesAnyOrder(m.parsed, u);
    OrderedByName(m.parsed, t.order);
    assert Elems(u) == Elems(m.parsed);
  }

  /** A merged list is strictly in plugin order. */
  lemma MergeIsInPluginOrder(m: Config, a: Config, b: Config, t: Tables, i: nat, j: nat)
    requires IsMerge(m, a, b, t) && WellFormed(a, t) && WellFormed(b, t) && i < j < |m.parsed|
    ensures ComparePluginOrder(t.order, m.parsed[i].name, m.parsed[j].name)
  {
    MergeIsLeftBiasedUnion(m, a, b, t);
    ComparePluginOrderConnected(t.order, m.parsed[i].name, m.parsed[j].name);
    assert !NameLess(t.order)(m.parsed[j], m.parsed[i]);
  }

  lemma UnionDistinct(a: seq<Parsed>, b: seq<Parsed>, i: nat, j: nat)
    requires DistinctNames(a) && DistinctNames(b)
    requires i < j < |a + Added(a, b)|
    ensures (a + Added(a, b))[i].name != (a + Added(a, b))[j].name
  {
    AddedMembers(a, b);
    var u := a + Added(a, b);
    if i < |a| <= j {
      assert u[j] == Added(a, b)[j - |a|] && u[j] in Added(a, b);
      assert u[i] == a[i] && u[i] in a;
    } else if |a| <= i {
      assert u[i] == Added(a, b)[i - |a|] && u[j] == Added(a, b)[j - |a|];
    }
  }

  lemma DistinctNamesAnyOrder(s: seq<Parsed>, u: seq<Parsed>)
    requires multiset(s) == multiset(u) && DistinctNames(u)
    ensures DistinctNames(s)
  {
    assert Distinct(u);
    DistinctPermutation(s, u);
    ElemsOfPermutation(s, u);
    forall i, j | 0 <= i < j < |s| ensures s[i].name != s[j].name {
      assert s[i] in Elems(u) && s[j] in Elems(u) && s[i] != s[j];
      var x :| 0 <= x < |u| && u[x] == s[i];
      var y :| 0 <= y < |u| && u[y] == s[j];
      assert x < y || y < x;
    }
  }

  /** Distinct registered names: plugin order is an order on the filters. */
  lemma OrderedByName(s: seq<Parsed>, reg: Registry)
    requires DistinctNames(s) && Names(s) <= reg.Keys
    ensures StrictTotalOn(NameLess(reg), Elems(s))
  {
    RegisteredNamesAreTotallyOrdered(reg, Names(s));
    var byName := PluginLess(reg);
    var less := NameLess(reg);
    forall p | p in Elems(s) ensures p.name in Names(s) && !less(p, p) {
      assert p.name in Names(s) && !byName(p.name, p.name);
    }
    forall p, q | p in Elems(s) && q in Elems(s) && p != q ensures less(p, q) || less(q, p) {
      assert p.name in Names(s) && q.name in Names(s);
      var x :| 0 <= x < |s| && s[x] == p;
      var y :| 0 <= y < |s| && s[y] == q;
      assert p.name != q.name;
      assert byName(p.name, q.name) || byName(q.name, p.name);
    }
    forall p, q, r | p in Elems(s) && q in Elems(s) && r in Elems(s) && less(p, q) && less(q, r)
      ensures less(p, r)
    {
      assert p.name in Names(s) && q.name in Names(s) && r.name in Names(s);
      assert byName(p.name, q.name) && byName(q.name, r.name);
    }
  }

  /** Two well-formed sorted lists with the same filters are the same list. */
  lemma SameFiltersSameList(s: seq<Parsed>, u: seq<Parsed>, reg: Registry)
    requires DistinctNames(s) && DistinctNames(u) && Names(s) <= reg.Keys
    requires SortedBy(NameLess(reg), s) && SortedBy(NameLess(reg), u)
    requires forall p :: p in s <==> p in u
    ensures s == u
  {
    OrderedByName(s, reg);
    SameMembersSameSort(s, u, NameLess(reg));
  }

  /** Merging is associative, in every field of the result. */
  lemma MergeIsAssociative(a: Config, b: Config, c: Config, ab: Config, bc: Config, l: Config, r: Config, t: Tables)
    requires WellFormed(a, t) && WellFormed(b, t) && WellFormed(c, t)
    requires IsMerge(ab, a, b, t) && IsMerge(l, ab, c, t)
    requires IsMerge(bc, b, c, t) && IsMerge(r, a, bc, t)
    ensures l == r
  {
    hide WellFormed;
    MergeIsLeftBiasedUnion(ab, a, b, t);
    MergeIsLeftBiasedUnion(l, ab, c, t);
    MergeIsLeftBiasedUnion(bc, b, c, t);
    MergeIsLeftBiasedUnion(r, a, bc, t);
    forall p ensures p in l.parsed <==> p in r.parsed {
      assert p in l.parsed <==> Holds(l, p);
      assert p in r.parsed <==> Holds(r, p);
      assert Has(ab, p.name) <==> Has(a, p.name) || Has(b, p.name);
    }
    WellFormedParts(l, t);
    WellFormedParts(r, t);
    SameFiltersSameList(l.parsed, r.parsed, t.order);
  }

  lemma WellFormedParts(c: Config, t: Tables)
    requires WellFormed(c, t)
    ensures DistinctNames(c.parsed) && Names(c.parsed) <= t.order.Keys
  {
  }

  // ------------------------------------------------------------------ parsing

  /** What happens to one plugin of the incoming list. */
  datatype Outcome =
    | Unknown                                         // no such plugin, skipped
    | Rejected                                        // its ConfigParser.Parse fails
    | Accepted(config: int, needsInit: bool, parserFails: bool)

  datatype Proto = Proto(name: string, outcome: Outcome)

  datatype ParseResult = Success(conf: Config) | Failure

  /** The filters of the list, in its order: unknown plugins are skipped. */
  function ParsedOf(protos: seq<Proto>): seq<Parsed> {
    if protos == [] then []
    else ParsedOf(protos[..|protos| - 1]) + ParsedOne(protos[|protos| - 1])
  }

  /** One past the last consumer plugin that accepted its configuration. */
  function EndOfLast(s: seq<Parsed>, consumers: set<string>): (n: nat)
    ensures n <= |s|
    ensures n > 0 ==> s[n - 1].ok && s[n - 1].name in consumers
    ensures forall i | n <= i < |s| :: !(s[i].ok && s[i].name in consumers)
  {
    if s == [] then 0
    else if s[|s| - 1].ok && s[|s| - 1].name in consumers then |s|
    else EndOfLast(s[..|s| - 1], consumers)
  }

  predicate ParserFails(p: Proto) { p.outcome.Accepted? && p.outcome.parserFails }

  predicate NeedsInit(p: Proto) { p.outcome.Accepted? && p.outcome.needsInit }

  predicate TurnsDebugOn(p: Proto) { p.outcome.Accepted? && p.name == "debugMode" }

  function ParsedOne(p: Proto): seq<Parsed> {
    match p.outcome
    case Unknown => []
    case Rejected => [Parsed(p.name, 0, false)]
    case Accepted(config, _, _) => [Parsed(p.name, config, true)]
  }

  /** How many of the first j plugins there are. */
  function KnownBefore(protos: seq<Proto>, j: nat): nat
    requires j <= |protos|
  {
    if j == 0 then 0 else KnownBefore(protos, j - 1) + (if protos[j - 1].outcome == Unknown then 0 else 1)
  }

  /** Every known plugin has its place in the list, in order: one that accepts its
      configuration with that, one that rejects it as a stand-in. */
  lemma {:induction false} KnownPluginsStay(protos: seq<Proto>, j: nat)
    requires j < |protos| && protos[j].outcome != Unknown
    ensures |ParsedOf(protos)| == KnownBefore(protos, |protos|) && KnownBefore(protos, j) < |ParsedOf(protos)|
    ensures var p := ParsedOf(protos)[KnownBefore(protos, j)];
      && p.name == protos[j].name
      && (protos[j].outcome == Rejected ==> !p.ok)
      && (protos[j].outcome.Accepted? ==> p.ok && p.config == protos[j].outcome.config)
    decreases |protos|
  {
    hide ParsedOf;
    var n := |protos| - 1;
    CountIsLength(protos, n);
    CountIsLength(protos, |protos|);
    ParsedSnoc(protos, n);
    assert protos[..n + 1] == protos;
    if j < n {
      CountAlike(protos, n, j);
      CountAlike(protos, n, n);
      KnownPluginsStay(protos[..n], j);
    }
  }

  lemma {:induction false} CountIsLength(protos: seq<Proto>, j: nat)
    requires j <= |protos|
    ensures |ParsedOf(protos[..j])| == KnownBefore(protos, j)
  {
    if j > 0 {
      CountIsLength(protos, j - 1);
      assert protos[..j][..j - 1] == protos[..j - 1];
    }
  }

  lemma {:induction false} CountAlike(protos: seq<Proto>, n: nat, j: nat)
    requires j <= n <= |protos|
    ensures KnownBefore(protos[..n], j) == KnownBefore(protos, j)
  {
    if j > 0 {
      CountAlike(protos, n, j - 1);
    }
  }

  lemma ParseNothing(protos: seq<Proto>, consumers: set<string>)
    ensures ParsedOf(protos[..0]) == [] && EndOfLast([], consumers) == 0
  {
  }

  lemma ParsedSnoc(protos: seq<Proto>, k: nat)
    requires k < |protos|
    ensures ParsedOf(protos[..k + 1]) == ParsedOf(protos[..k]) + ParsedOne(protos[k])
  {
    assert protos[..k + 1][..k] == protos[..k];
  }

  lemma EndSnoc(s: seq<Parsed>, p: Parsed, consumers: set<string>)
    ensures EndOfLast(s + [p], consumers) == if p.ok && p.name in consumers then |s| + 1 else EndOfLast(s, consumers)
  {
    assert (s + [p])[..|s|] == s;
  }

  /** `FilterManagerConfigParser.Parse`, after the JSON has been decoded. */
  method Parse(namespace: string, protos: seq<Proto>, consumers: set<string>) returns (r: ParseResult)
    ensures r.Failure? <==> exists i :: 0 <= i < |protos| && ParserFails(protos[i])
    ensures r.Success? ==>
      && r.conf.namespace == namespace
      && r.conf.parsed == ParsedOf(protos)
      && r.conf.consumerFiltersEndAt == EndOfLast(ParsedOf(protos), consumers)
      && (r.conf.needInit <==> exists i :: 0 <= i < |protos| && NeedsInit(protos[i]))
      && (r.conf.debug <==> exists i :: 0 <= i < |protos| && TurnsDebugOn(protos[i]))
  {
    hide ParsedOf;
    hide EndOfLast;
    ParseNothing(protos, consumers);
    var parsed := [];
    var consumerFiltersEndAt, i := 0, 0;
    var needInit, debug := false, false;
    for k := 0 to |protos|
      invariant i == |parsed| && parsed == ParsedOf(protos[..k])
      invariant consumerFiltersEndAt == EndOfLast(parsed, consumers)
      invariant forall j | 0 <= j < k :: !ParserFails(protos[j])
      invariant needInit <==> exists j :: 0 <= j < k && NeedsInit(protos[j])
      invariant debug <==> exists j :: 0 <= j < k && TurnsDebugOn(protos[j])
    {
      var proto := protos[k];
      ParsedSnoc(protos, k);
      match proto.outcome {
        case Unknown =>
        case Rejected =>
          EndSnoc(parsed, Parsed(proto.name, 0, false), consumers);
          parsed := parsed + [Parsed(proto.name, 0, false)];
          i := i + 1;
        case Accepted(config, needsInit, parserFails) =>
          EndSnoc(parsed, Parsed(proto.name, config, true), consumers);
          parsed := parsed + [Parsed(proto.name, config, true)];
          if proto.name in consumers {
            consumerFiltersEndAt := i + 1;
          }
          if parserFails {
            assert ParserFails(protos[k]);
            return Failure;
          }
          if needsInit {
            needInit := true;
          }
          if proto.name == "debugMode" {
            debug := true;
          }
          i := i + 1;
      }
    }
    assert protos[..|protos|] == protos;
    r := Success(Config(namespace, consumerFiltersEndAt, needInit, parsed, debug));
  }

  // ------------------------------------- two definitions of the executed prefix

  /** Every filter before an accepted consumer plugin is a consumer plugin, and
      the run of consumer plugins does not end with one that was rejected. */
  ghost predicate ConsumersLead(s: seq<Parsed>, consumers: set<string>) {
    && (forall i, j | 0 <= i < j < |s| && s[j].ok && s[j].name in consumers :: s[i].name in consumers)
    && var n := LeadingRun(s, consumers); n > 0 ==> s[n - 1].ok
  }

  lemma RunReaches(s: seq<Parsed>, consumers: set<string>, j: nat)
    requires ConsumersLead(s, consumers)
    requires j < |s| && s[j].ok && s[j].name in consumers
    ensures j < LeadingRun(s, consumers)
  {
  }

  /** Parse takes the last consumer plugin, Merge the leading run: they agree
      exactly when the consumer plugins lead the list. */
  lemma EndsAgreeIff(s: seq<Parsed>, consumers: set<string>)
    ensures EndOfLast(s, consumers) == LeadingRun(s, consumers) <==> ConsumersLead(s, consumers)
  {
    var last := EndOfLast(s, consumers);
    var run := LeadingRun(s, consumers);
    if ConsumersLead(s, consumers) {
      assert run > 0 ==> s[run - 1].ok && s[run - 1].name in consumers;
      if last > 0 {
        RunReaches(s, consumers, last - 1);
      }
    }
  }

  lemma PositionDecides(reg: Registry, a: string, b: string)
    requires a in reg && b in reg && reg[a].position < reg[b].position
    ensures !ComparePluginOrder(reg, b, a) && a != b
  {
  }

  /** With any plugin sorted ahead of a consumer plugin (cors before keyAuth,
      say), merging in a third from the HTTP filter forgets that the chain has a
      consumer plugin: `consumerFiltersEndAt` drops from two to zero, and with it
      the merging of consumer filters. */
  lemma MergeForgetsConsumers(t: Tables, early: Parsed, consumer: Parsed, late: Parsed)
    requires early.name in t.order && consumer.name in t.order && late.name in t.order
    requires t.order[early.name].position < t.order[consumer.name].position < t.order[late.name].position
    requires early.name !in t.consumers && consumer.name in t.consumers && consumer.ok
    ensures EndOfLast([early, consumer], t.consumers) == 2
    ensures IsMerge(Config("ns", 0, false, [early, consumer, late], false),
                    Config("ns", 2, false, [early, consumer], false),
                    Config("ns", 0, false, [late], false), t)
  {
    hide StrictTotalOn;
    hide ComparePluginOrder;
    PositionDecides(t.order, early.name, consumer.name);
    PositionDecides(t.order, consumer.name, late.name);
    PositionDecides(t.order, early.name, late.name);
    assert Names([early, consumer]) == {early.name, consumer.name};
    assert Added([early, consumer], [late][..0]) == [];
    assert [early, consumer] + [late] == [early, consumer, late];
  }

  /** Under either definition the prefix ends with a plugin at Authn, as the
      consumer merge needs: RegisterPlugin lets consumer plugins be nowhere else. */
  lemma PrefixEndsAtAuthn(s: seq<Parsed>, t: Tables, n: nat)
    requires t.consumers <= t.order.Keys
    requires forall c | c in t.consumers :: t.order[c].position == POSITION_AUTHN
    requires n == EndOfLast(s, t.consumers) || n == LeadingRun(s, t.consumers)
    requires n > 0
    ensures s[n - 1].name in t.order && t.order[s[n - 1].name].position == POSITION_AUTHN
  {
    assert s[n - 1].name in t.consumers;
  }

  // ------------------------------------------------------- the parser's Merge

  /** `FilterManagerConfigParser.Merge`: a parent without filters changes nothing. */
  method MergeParentChild(parent: Config, child: Config, t: Tables) returns (c: Config)
    ensures parent.parsed == [] ==> c == child
    ensures parent.parsed != [] ==> IsMerge(c, child, parent, t)
  {
    if |parent.parsed| == 0 {
      return child;
    }
    c := Merge(child, parent, t);
  }

  /** The shortcut is a merge with the empty parent exactly when the parent adds
      no namespace, and the child's filters are in order and led by its consumers. */
  lemma ShortcutIsMergeIff(parent: Config, child: Config, t: Tables)
    requires parent.parsed == [] && !parent.needInit && !parent.debug
    requires WellFormed(child, t)
    ensures IsMerge(child, child, parent, t) <==>
      && (child.namespace != "" || parent.namespace == "")
      && SortedBy(NameLess(t.order), child.parsed)
      && child.consumerFiltersEndAt == LeadingRun(child.parsed, t.consumers)
  {
    assert Added(child.parsed, parent.parsed) == [];
    assert child.parsed + [] == child.parsed;
    OrderedByName(child.parsed, t.order);
  }
}
