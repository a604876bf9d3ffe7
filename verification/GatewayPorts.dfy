/** Which gateway section owns a server port, and what becomes of its policies
    on the way to the listener configuration. */
module GatewayPorts {
  import opened Options
  import opened Orders
  import opened Strings
  import opened EnvoyFilterNames

  datatype Section = Section(ns: string, gateway: string, name: string)

  datatype ServerPort = ServerPort(bind: string, number: nat, protocol: string)

  datatype PortKey = PortKey(ns: string, port: ServerPort)

  const SCOPE_PORT := 2
  const SCOPE_GATEWAY := 3

  datatype Wrapper = Wrapper(policy: int, scope: int)

  datatype Bearing = Bearing(port: ServerPort, policies: seq<Wrapper>)

  /** The gateway half of the init state. */
  datatype Ports = Ports(policies: map<Section, Bearing>, without: map<Section, ServerPort>,
                         owner: map<PortKey, Section>)

  const EMPTY := Ports(map[], map[], map[])

  /** One section seen, for one policy or for none. */
  datatype Add = Add(policy: Option<Wrapper>, section: Section, port: ServerPort) {
    function Key(): PortKey { PortKey(section.ns, port) }
  }

  function AddTo(s: Ports, a: Add): Ports {
    if a.Key() in s.owner && s.owner[a.Key()] != a.section then s
    else
      var owner := s.owner[a.Key() := a.section];
      match a.policy
      case None =>
        Ports(s.policies, if a.section in s.without then s.without else s.without[a.section := a.port], owner)
      case Some(w) =>
        var before := if a.section in s.policies then s.policies[a.section] else Bearing(a.port, []);
        Ports(s.policies[a.section := Bearing(before.port, before.policies + [w])], s.without, owner)
  }

  function After(adds: seq<Add>): Ports {
    if adds == [] then EMPTY else AddTo(After(adds[..|adds| - 1]), adds[|adds| - 1])
  }

  // ------------------------------------------------------------- the init state

  datatype Server = Server(name: string, bind: string, number: nat, protocol: string)

  datatype Gateway = Gateway(ns: string, name: string, servers: seq<Server>)

  /** A policy aimed at a whole gateway, or at one of its sections. */
  datatype Policy = Policy(id: int, section: Option<string>)

  predicate Aims(policy: Option<Policy>, svr: Server) {
    policy.None? || policy.value.section.None? || policy.value.section.value == svr.name
  }

  function SectionOf(gw: Gateway, svr: Server): Section {
    Section(gw.ns, gw.name, if svr.name == "" then Decimal(svr.number) else svr.name)
  }

  function AddOf(policy: Option<Policy>, gw: Gateway, svr: Server): Add {
    Add(match policy
        case None => None
        case Some(p) => Some(Wrapper(p.id, if p.section.Some? then SCOPE_PORT else SCOPE_GATEWAY)),
        SectionOf(gw, svr), ServerPort(svr.bind, svr.number, svr.protocol))
  }

  function AddsOf(policy: Option<Policy>, gw: Gateway, n: nat): seq<Add>
    requires n <= |gw.servers|
  {
    if n == 0 then []
    else
      var added := if Aims(policy, gw.servers[n - 1]) then [AddOf(policy, gw, gw.servers[n - 1])] else [];
      AddsOf(policy, gw, n - 1) + added
  }

  /** A policy for a section reaches the server of that name alone, at the scope of
      its port; one for the gateway, or none at all, reaches every server. */
  ghost predicate Reaches(policy: Option<Policy>, gw: Gateway, i: nat, a: Add)
    requires i < |gw.servers|
  {
    var svr := gw.servers[i];
    && (policy.Some? && policy.value.section.Some? ==> svr.name == policy.value.section.value)
    && a.section.ns == gw.ns && a.section.gateway == gw.name
    && a.section.name == (if svr.name != "" then svr.name else Decimal(svr.number))
    && a.port == ServerPort(svr.bind, svr.number, svr.protocol)
    && (policy.None? ==> a.policy == None)
    && (policy.Some? && policy.value.section.None? ==> a.policy == Some(Wrapper(policy.value.id, SCOPE_GATEWAY)))
    && (policy.Some? && policy.value.section.Some? ==> a.policy == Some(Wrapper(policy.value.id, SCOPE_PORT)))
  }

  lemma {:induction false} PoliciesReachTheirServers(policy: Option<Policy>, gw: Gateway, n: nat, a: Add)
    requires n <= |gw.servers|
    ensures a in AddsOf(policy, gw, n) <==> exists i: nat :: i < n && Reaches(policy, gw, i, a)
    ensures SCOPE_PORT < SCOPE_GATEWAY // the smaller scope outranks the larger
  {
    if n > 0 {
      PoliciesReachTheirServers(policy, gw, n - 1, a);
      var svr := gw.servers[n - 1];
      assert Reaches(policy, gw, n - 1, a) <==> Aims(policy, svr) && a == AddOf(policy, gw, svr);
    }
  }

  class InitState {
    var policies: map<Section, Bearing>
    var without: map<Section, ServerPort>
    var owner: map<PortKey, Section>

    /** Everything that was added, in order. */
    ghost var adds: seq<Add>

    ghost predicate Valid()
      reads this
    {
      Ports(policies, without, owner) == After(adds)
    }

    constructor ()
      ensures Valid() && adds == []
    {
      policies, without, owner := map[], map[], map[];
      adds := [];
    }

    /** `addPolicyForGateway` */
    method AddPolicyForGateway(policy: Option<Wrapper>, gs: Section, port: ServerPort)
      requires Valid()
      modifies this
      ensures Valid() && adds == old(adds) + [Add(policy, gs, port)]
    {
      ghost var a := Add(policy, gs, port);
      assert (adds + [a])[..|adds|] == adds;
      adds := adds + [a];
      var k := PortKey(gs.ns, port);
      if k in owner && owner[k] != gs {
        return;
      }
      owner := owner[k := gs];
      if policy.None? {
        if gs !in without {
          without := without[gs := port];
        }
        return;
      }
      if gs !in policies {
        policies := policies[gs := Bearing(port, [])];
      }
      policies := policies[gs := Bearing(policies[gs].port, policies[gs].policies + [policy.value])];
    }

    /** `AddPolicyForIstioGateway`; without a policy it is `AddIstioGateway`. The
        listeners of a k8s gateway are servers with a name and without a bind address. */
    method AddPolicyForIstioGateway(policy: Option<Policy>, gw: Gateway)
      requires Valid()
      modifies this
      ensures Valid() && adds == old(adds) + AddsOf(policy, gw, |gw.servers|)
    {
      for n := 0 to |gw.servers|
        invariant Valid() && adds == old(adds) + AddsOf(policy, gw, n)
      {
        var svr := gw.servers[n];
        var scope := SCOPE_GATEWAY;
        var aims := true;
        if policy.Some? && policy.value.section.Some? {
          aims := svr.name == policy.value.section.value;
          scope := SCOPE_PORT;
        }
        if aims {
          var name := svr.name;
          if name == "" {
            name := Decimal(svr.number);
          }
          var wrapper := if policy.None? then None else Some(Wrapper(policy.value.id, scope));
          AddPolicyForGateway(wrapper, Section(gw.ns, gw.name, name), ServerPort(svr.bind, svr.number, svr.protocol));
        }
      }
    }
  }

  // ---------------------------------------------------------------- ownership

  /** Stored ports lead back to their section. */
  ghost predicate WellOwned(s: Ports) {
    && (forall gs | gs in s.policies ::
          PortKey(gs.ns, s.policies[gs].port) in s.owner && s.owner[PortKey(gs.ns, s.policies[gs].port)] == gs)
    && (forall gs | gs in s.without ::
          PortKey(gs.ns, s.without[gs]) in s.owner && s.owner[PortKey(gs.ns, s.without[gs])] == gs)
    && (forall gs | gs in s.policies :: s.policies[gs].policies != [])
  }

  lemma {:induction false} AlwaysWellOwned(adds: seq<Add>)
    ensures WellOwned(After(adds))
  {
    if adds != [] {
      AlwaysWellOwned(adds[..|adds| - 1]);
    }
  }

  /** What is stored for a section: its port, with or without policies. */
  ghost predicate Stores(s: Ports, gs: Section, port: ServerPort) {
    (gs in s.policies && s.policies[gs].port == port) || (gs in s.without && s.without[gs] == port)
  }

  /** In every reachable state no two sections of a namespace have the same port. */
  lemma PortsNeverShared(adds: seq<Add>, a: Section, b: Section, port: ServerPort)
    requires Stores(After(adds), a, port) && Stores(After(adds), b, port) && a.ns == b.ns
    ensures a == b
  {
    AlwaysWellOwned(adds);
  }

  /** An owner never changes. */
  lemma {:induction false} OwnersStay(adds: seq<Add>, more: seq<Add>, k: PortKey)
    requires k in After(adds).owner
    ensures k in After(adds + more).owner && After(adds + more).owner[k] == After(adds).owner[k]
  {
    if more == [] {
      assert adds + more == adds;
    } else {
      OwnersStay(adds, more[..|more| - 1], k);
      assert (adds + more)[..|adds + more| - 1] == adds + more[..|more| - 1];
    }
  }

  ghost predicate FirstWith(adds: seq<Add>, k: PortKey, i: int) {
    0 <= i < |adds| && adds[i].Key() == k && forall j | 0 <= j < i :: adds[j].Key() != k
  }

  /** First come, first served: the owner is the first section seen with the port. */
  lemma {:induction false} OwnerIsFirst(adds: seq<Add>, k: PortKey, i: int)
    requires FirstWith(adds, k, i)
    ensures k in After(adds).owner && After(adds).owner[k] == adds[i].section
  {
    var upTo := adds[..i + 1];
    NobodyYet(adds[..i], k);
    assert upTo[..i] == adds[..i];
    OwnersStay(upTo, adds[i + 1..], k);
    assert upTo + adds[i + 1..] == adds;
  }

  lemma {:induction false} NobodyYet(adds: seq<Add>, k: PortKey)
    requires forall j | 0 <= j < |adds| :: adds[j].Key() != k
    ensures k !in After(adds).owner
  {
    if adds != [] {
      NobodyYet(adds[..|adds| - 1], k);
    }
  }

  /** The policies for a section that came with a port the section owns. */
  function Kept(adds: seq<Add>, owner: map<PortKey, Section>, gs: Section): seq<Wrapper> {
    if adds == [] then []
    else
      var a := adds[|adds| - 1];
      var rest := Kept(adds[..|adds| - 1], owner, gs);
      if a.section == gs && a.policy.Some? && a.Key() in owner && owner[a.Key()] == gs then rest + [a.policy.value]
          else rest
  }

  lemma {:induction false} KeptStable(adds: seq<Add>, before: map<PortKey, Section>, later: map<PortKey, Section>,
                                      gs: Section)
    requires forall j | 0 <= j < |adds| :: adds[j].Key() in before
    requires forall k | k in before :: k in later && later[k] == before[k]
    ensures Kept(adds, later, gs) == Kept(adds, before, gs)
  {
    if adds != [] {
      KeptStable(adds[..|adds| - 1], before, later, gs);
      assert adds[|adds| - 1].Key() in before;
    }
  }

  lemma {:induction false} KeysOwned(adds: seq<Add>)
    ensures forall j | 0 <= j < |adds| :: adds[j].Key() in After(adds).owner
  {
    if adds != [] {
      KeysOwned(adds[..|adds| - 1]);
    }
  }

  /** A section collects, in order, exactly the policies aimed at ports it owns:
      none is lost, none is taken from a section that came later. */
  lemma {:induction false} SectionsKeepTheirPolicies(adds: seq<Add>, gs: Section)
    ensures var s := After(adds); var kept := Kept(adds, s.owner, gs);
      (gs in s.policies <==> kept != []) && (gs in s.policies ==> s.policies[gs].policies == kept)
  {
    if adds != [] {
      var n := |adds| - 1;
      var earlier := adds[..n];
      var s, t := After(earlier), After(adds);
      SectionsKeepTheirPolicies(earlier, gs);
      KeysOwned(earlier);
      forall k | k in s.owner ensures k in t.owner && t.owner[k] == s.owner[k] {
        OwnersStay(earlier, [adds[n]], k);
        assert earlier + [adds[n]] == adds;
      }
      KeptStable(earlier, s.owner, t.owner, gs);
    }
  }

  // -------------------------------------------------------------- LDS tables

  /** A listener of the data plane: the section it was taken from, whether an
      HTTP connection manager is there, and the policies. */
  datatype Listener = Listener(section: Section, hasHCM: bool, policies: seq<Wrapper>)

  datatype ListenerKey = ListenerKey(ns: string, lds: string)

  type Listeners = map<ListenerKey, Listener>

  function LdsNameOf(port: ServerPort, ipv6: bool): string {
    LdsName(if port.bind != "" then port.bind else if ipv6 then "::" else "0.0.0.0", Decimal(port.number))
  }

  function ListenerOf(gs: Section, port: ServerPort, ipv6: bool): ListenerKey {
    ListenerKey(gs.ns, LdsNameOf(port, ipv6))
  }

  predicate SpeaksHttp(port: ServerPort) { port.protocol in {"HTTP", "HTTPS", "GRPC", "GRPC-WEB", "HTTP2"} }

  /** `addServerPortToProxy`: a listener already there is left alone. */
  method AddServerPortToProxy(gs: Section, port: ServerPort, ls: Listeners, policies: seq<Wrapper>, ipv6: bool)
    returns (r: Listeners)
    ensures var k := ListenerOf(gs, port, ipv6);
      r == if k in ls then ls else ls[k := Listener(gs, SpeaksHttp(port), policies)]
  {
    var k := ListenerOf(gs, port, ipv6);
    if k in ls {
      return ls;
    }
    r := ls[k := Listener(gs, SpeaksHttp(port), policies)];
  }

  /** gs is one of the sections that a listener stands for. */
  predicate Bears(s: Ports, ipv6: bool, gs: Section, k: ListenerKey) {
    gs in s.policies && ListenerOf(gs, s.policies[gs].port, ipv6) == k
  }

  predicate Plain(s: Ports, ipv6: bool, gs: Section, k: ListenerKey) {
    gs in s.without && ListenerOf(gs, s.without[gs], ipv6) == k
  }

  /** One of the policy-bearing sections is represented with all its policies, if
      there is one; otherwise one of the others, without policies. */
  ghost predicate ListenerOk(l: Listener, s: Ports, ipv6: bool, k: ListenerKey) {
    if exists gs :: Bears(s, ipv6, gs, k) then
      && Bears(s, ipv6, l.section, k)
      && l == Listener(l.section, SpeaksHttp(s.policies[l.section].port), s.policies[l.section].policies)
    else
      && Plain(s, ipv6, l.section, k)
      && l == Listener(l.section, SpeaksHttp(s.without[l.section]), [])
  }

  /** What the listeners are once these sections were seen. */
  ghost predicate Seen(ls: Listeners, s: Ports, ipv6: bool, bearing: set<Section>, others: set<Section>) {
    && (forall k :: k in ls <==>
          exists gs :: (gs in bearing && Bears(s, ipv6, gs, k)) || (gs in others && Plain(s, ipv6, gs, k)))
    && (forall k | k in ls :: ListenerOk(ls[k], s, ipv6, k))
  }

  lemma SeesBearing(ls: Listeners, r: Listeners, s: Ports, ipv6: bool, bearing: set<Section>, gs: Section)
    requires Seen(ls, s, ipv6, bearing, {}) && gs in s.policies
    requires var b := s.policies[gs]; var k := ListenerOf(gs, b.port, ipv6);
      r == if k in ls then ls else ls[k := Listener(gs, SpeaksHttp(b.port), b.policies)]
    ensures Seen(r, s, ipv6, bearing + {gs}, {})
  {
    hide ListenerOf;
    hide SpeaksHttp;
    var k := ListenerOf(gs, s.policies[gs].port, ipv6);
    assert Bears(s, ipv6, gs, k);
    forall l ensures l in r <==> l in ls || l == k {}
  }

  lemma SeesPlain(ls: Listeners, r: Listeners, s: Ports, ipv6: bool, others: set<Section>, gs: Section)
    requires Seen(ls, s, ipv6, s.policies.Keys, others) && gs in s.without
    requires var k := ListenerOf(gs, s.without[gs], ipv6);
      r == if k in ls then ls else ls[k := Listener(gs, SpeaksHttp(s.without[gs]), [])]
    ensures Seen(r, s, ipv6, s.policies.Keys, others + {gs})
  {
    hide ListenerOf;
    hide SpeaksHttp;
    var k := ListenerOf(gs, s.without[gs], ipv6);
    assert Plain(s, ipv6, gs, k);
    forall l ensures l in r <==> l in ls || l == k {}
    if k !in ls {
      assert forall g :: !Bears(s, ipv6, g, k);
    }
  }

  lemma AllSeen(ls: Listeners, s: Ports, ipv6: bool)
    requires Seen(ls, s, ipv6, s.policies.Keys, s.without.Keys)
    ensures forall k :: k in ls <==> exists gs :: Bears(s, ipv6, gs, k) || Plain(s, ipv6, gs, k)
    ensures forall k | k in ls :: ListenerOk(ls[k], s, ipv6, k)
  {
    hide ListenerOk;
  }

  /** The gateway part of `toDataPlaneState`; the maps are walked in any order. */
  method ToListeners(s: Ports, ipv6: bool) returns (ls: Listeners)
    ensures forall k :: k in ls <==> exists gs :: Bears(s, ipv6, gs, k) || Plain(s, ipv6, gs, k)
    ensures forall k | k in ls :: ListenerOk(ls[k], s, ipv6, k)
  {
    hide ListenerOf;
    hide SpeaksHttp;
    hide Elems;
    hide Distinct;
    ls := map[];
    assert Seen(ls, s, ipv6, {}, {});
    hide Seen;
    hide Bears;
    hide Plain;
    hide ListenerOk;
    var bearing := AnyOrder(s.policies.Keys);
    WalkEnds(bearing);
    for i := 0 to |bearing|
      invariant Seen(ls, s, ipv6, Elems(bearing[..i]), {})
    {
      var gs := bearing[i];
      Walk(bearing, i);
      ghost var before := ls;
      ls := AddServerPortToProxy(gs, s.policies[gs].port, ls, s.policies[gs].policies, ipv6);
      SeesBearing(before, ls, s, ipv6, Elems(bearing[..i]), gs);
    }
    var others := AnyOrder(s.without.Keys);
    WalkEnds(others);
    for i := 0 to |others|
      invariant Seen(ls, s, ipv6, s.policies.Keys, Elems(others[..i]))
    {
      var gs := others[i];
      Walk(others, i);
      ghost var before := ls;
      ls := AddServerPortToProxy(gs, s.without[gs], ls, [], ipv6);
      SeesPlain(before, ls, s, ipv6, Elems(others[..i]), gs);
    }
    AllSeen(ls, s, ipv6);
  }

  /** Every policy aimed at a port its section owns reaches a listener with a
      non-empty policy list; the listener is its own unless another
      policy-bearing section has the same address and port number. */
  lemma PoliciesReachAListener(adds: seq<Add>, ls: Listeners, ipv6: bool, gs: Section)
    requires forall k :: k in ls <==> exists g :: Bears(After(adds), ipv6, g, k) || Plain(After(adds), ipv6, g, k)
    requires forall k | k in ls :: ListenerOk(ls[k], After(adds), ipv6, k)
    requires gs in After(adds).policies
    ensures var s := After(adds); var k := ListenerOf(gs, s.policies[gs].port, ipv6);
      && k in ls && ls[k].policies != []
      && ls[k].policies == Kept(adds, s.owner, ls[k].section)
      && ((forall g | Bears(s, ipv6, g, k) :: g == gs) ==> ls[k].section == gs)
  {
    var s := After(adds);
    var k := ListenerOf(gs, s.policies[gs].port, ipv6);
    assert Bears(s, ipv6, gs, k);
    AlwaysWellOwned(adds);
    SectionsKeepTheirPolicies(adds, ls[k].section);
  }

  /** A listener has an HTTP connection manager exactly if the port it was taken
      from speaks one of the HTTP protocols. */
  lemma HttpListeners(l: Listener, s: Ports, ipv6: bool, k: ListenerKey)
    requires ListenerOk(l, s, ipv6, k)
    ensures exists port ::
      Stores(s, l.section, port)
      && (l.hasHCM <==> port.protocol in {"HTTP", "HTTPS", "GRPC", "GRPC-WEB", "HTTP2"})
  {
    if exists gs :: Bears(s, ipv6, gs, k) {
      assert Stores(s, l.section, s.policies[l.section].port);
    } else {
      assert Stores(s, l.section, s.without[l.section]);
    }
  }

  /** The address a port is bound to, with the wildcard spelled out. */
  function BindOf(port: ServerPort, ipv6: bool): string {
    if port.bind != "" then port.bind else if ipv6 then "::" else "0.0.0.0"
  }

  /** A listener is named after address and port number, and two sections fall on
      one exactly if they agree on namespace, address and number. */
  lemma SameListenerIff(a: Section, p: ServerPort, b: Section, q: ServerPort, ipv6: bool)
    ensures ListenerOf(a, p, ipv6) == ListenerKey(a.ns, BindOf(p, ipv6) + "_" + Decimal(p.number))
    ensures ListenerOf(a, p, ipv6) == ListenerOf(b, q, ipv6) <==>
      a.ns == b.ns && BindOf(p, ipv6) == BindOf(q, ipv6) && p.number == q.number
  {
    var x, y := BindOf(p, ipv6), BindOf(q, ipv6);
    var m, n := Decimal(p.number), Decimal(q.number);
    if x + "_" + m == y + "_" + n {
      LastUnderscore(x, m, y, n);
      DecimalInjective(p.number, q.number);
    }
  }

  /** Digits hold no underscore, so the last one ends the address. */
  lemma LastUnderscore(a: string, m: string, b: string, n: string)
    requires IsNumber(m) && IsNumber(n) && a + "_" + m == b + "_" + n
    ensures a == b && m == n
  {
    var s := a + "_" + m;
    assert s[|a|] == '_' && s[|b|] == '_';
    if |a| < |b| {
      NoUnderscoreBehind(a, m, |b|);
    } else if |b| < |a| {
      NoUnderscoreBehind(b, n, |a|);
    }
    assert s[..|a|] == a && s[|a| + 1..] == m;
    assert s[..|b|] == b && s[|b| + 1..] == n;
  }

  lemma NoUnderscoreBehind(a: string, m: string, k: nat)
    requires IsNumber(m) && |a| < k < |a + "_" + m|
    ensures (a + "_" + m)[k] != '_'
  {
    assert (a + "_" + m)[k] == m[k - |a| - 1];
  }

  /** The protocol is not part of a listener's name: two sections that differ
      only there own their ports both, and fall on the same listener. */
  lemma ListenersIgnoreTheProtocol(gs: Section, other: Section, port: ServerPort, protocol: string, ipv6: bool)
    requires gs.ns == other.ns && port.protocol != protocol
    ensures PortKey(gs.ns, port) != PortKey(other.ns, port.(protocol := protocol))
    ensures ListenerOf(gs, port, ipv6) == ListenerOf(other, port.(protocol := protocol), ipv6)
  {
  }
}
