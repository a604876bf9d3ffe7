/** From VirtualServices and gateways to the virtual hosts of the data plane. */
module DataPlane {
  import opened Orders
  import opened Strings
  import Envoy = EnvoyFilterNames

  // ------------------------------------------------------------- host matching

  predicate IsWildCarded(s: string) { |s| > 0 && s[0] == '*' }

  predicate HasSuffix(s: string, suffix: string) {
    |suffix| <= |s| && s[|s| - |suffix|..] == suffix
  }

  predicate HostMatch(gwHost: string, host: string) {
    if IsWildCarded(gwHost) then
      if IsWildCarded(host) then
        if |gwHost| < |host| then HasSuffix(host[1..], gwHost[1..]) else HasSuffix(gwHost[1..], host[1..])
      else HasSuffix(host, gwHost[1..])
    else if IsWildCarded(host) then HasSuffix(gwHost, host[1..])
    else gwHost == host
  }

  /** The host names a pattern stands for. */
  predicate Names(pattern: string, name: string) {
    !IsWildCarded(name) && if IsWildCarded(pattern) then HasSuffix(name, pattern[1..]) else name == pattern
  }

  /** "*" and a suffix stand for the names that end so; any other pattern for itself. */
  lemma PatternsStandFor(suffix: string, name: string)
    requires name == "" || name[0] != '*'
    ensures Names("*" + suffix, name) <==> exists head: string :: name == head + suffix
    ensures suffix == "" || suffix[0] != '*' ==> (Names(suffix, name) <==> name == suffix)
  {
    var pattern := "*" + suffix;
    assert pattern[1..] == suffix;
    if HasSuffix(name, suffix) {
      assert name == name[..|name| - |suffix|] + suffix;
    }
    if head: string :| name == head + suffix {
      assert name[|name| - |suffix|..] == suffix;
    }
  }

  /** Two patterns match exactly when some host name is covered by both. */
  lemma HostMatchIffCommonName(g: string, h: string)
    ensures HostMatch(g, h) <==> exists name :: Names(g, name) && Names(h, name)
  {
    if name :| Names(g, name) && Names(h, name) {
      if IsWildCarded(g) && IsWildCarded(h) {
        if |g| < |h| {
          SuffixesOfOne(name, g[1..], h[1..]);
        } else {
          SuffixesOfOne(name, h[1..], g[1..]);
        }
      }
    }
    if HostMatch(g, h) {
      var name := CommonName(g, h);
      assert Names(g, name) && Names(h, name) by { CommonNameIsCommon(g, h); }
    }
  }

  function CommonName(g: string, h: string): string {
    if !IsWildCarded(g) then g
    else if !IsWildCarded(h) then h
    else "a" + (if |g| < |h| then h[1..] else g[1..])
  }

  lemma CommonNameIsCommon(g: string, h: string)
    requires HostMatch(g, h)
    ensures Names(g, CommonName(g, h)) && Names(h, CommonName(g, h))
  {
    if IsWildCarded(g) && IsWildCarded(h) {
      var long, short := if |g| < |h| then h[1..] else g[1..], if |g| < |h| then g[1..] else h[1..];
      var name := "a" + long;
      assert name[|name| - |long|..] == long;
      assert name[|name| - |short|..] == long[|long| - |short|..];
    }
  }

  lemma SuffixesOfOne(s: string, short: string, long: string)
    requires HasSuffix(s, short) && HasSuffix(s, long) && |short| <= |long|
    ensures HasSuffix(long, short)
  {
    assert long[|long| - |short|..] == s[|s| - |short|..];
  }

  lemma HostMatchSymmetric(g: string, h: string)
    ensures HostMatch(g, h) <==> HostMatch(h, g)
  {
    HostMatchIffCommonName(g, h);
    HostMatchIffCommonName(h, g);
    if name :| Names(g, name) && Names(h, name) {
      assert Names(h, name) && Names(g, name);
    }
    if name :| Names(h, name) && Names(g, name) {
      assert Names(g, name) && Names(h, name);
    }
  }

  // -------------------------------------------------------------- virtual hosts

  datatype Server = Server(name: string, bind: string, port: nat, hosts: seq<string>)

  datatype Gateway = Gateway(ns: string, name: string, servers: seq<Server>)

  datatype VirtualHost = VirtualHost(ns: string, gateway: string, section: string, name: string)

  /** Where a virtual host is filed: the proxy's namespace and "host:port". */
  datatype HostKey = HostKey(ns: string, name: string)

  function KeyOf(vh: VirtualHost): HostKey { HostKey(vh.ns, vh.name) }

  function VirtualHostFor(host: string, gw: Gateway, svr: Server): VirtualHost {
    VirtualHost(gw.ns, gw.name, svr.name, Envoy.JoinHostPort(host, Decimal(svr.port)))
  }

  predicate Serves(gw: Gateway, svr: Server, h: string, host: string) {
    svr in gw.servers && h in svr.hosts && HostMatch(h, host)
  }

  /** vh comes from a server of one of the gateways with an overlapping host. */
  ghost predicate Overlaps(host: string, gws: seq<Gateway>, vh: VirtualHost) {
    exists gw, svr, h :: gw in gws && Serves(gw, svr, h, host) && vh == VirtualHostFor(host, gw, svr)
  }

  /** A virtual host says which server it is on, and is named after host and port. */
  lemma VirtualHostsSayWhere(host: string, gws: seq<Gateway>, vh: VirtualHost)
    ensures Overlaps(host, gws, vh) <==> exists gw, svr, h ::
      && gw in gws && svr in gw.servers && h in svr.hosts && HostMatch(h, host)
      && vh.ns == gw.ns && vh.gateway == gw.name && vh.section == svr.name
      && vh.name == Envoy.JoinHostPort(host, Decimal(svr.port))
  {
    if Overlaps(host, gws, vh) {
      var gw, svr, h :| gw in gws && Serves(gw, svr, h, host) && vh == VirtualHostFor(host, gw, svr);
    }
    if gw, svr, h :|
      && gw in gws && svr in gw.servers && h in svr.hosts && HostMatch(h, host)
      && vh.ns == gw.ns && vh.gateway == gw.name && vh.section == svr.name
      && vh.name == Envoy.JoinHostPort(host, Decimal(svr.port))
    {
      assert Serves(gw, svr, h, host) && vh == VirtualHostFor(host, gw, svr);
    }
  }

  method BuildVirtualHosts(host: string, gws: seq<Gateway>) returns (vhs: seq<VirtualHost>)
    ensures forall vh :: vh in vhs <==> Overlaps(host, gws, vh)
  {
    vhs := [];
    for a := 0 to |gws|
      invariant forall vh :: vh in vhs <==> Overlaps(host, gws[..a], vh)
    {
      var more := BuildForGateway(host, gws[a]);
      OverlapsSnoc(host, gws, a);
      vhs := vhs + more;
    }
    assert gws[..|gws|] == gws;
  }

  ghost predicate OfGateway(host: string, gw: Gateway, vh: VirtualHost) {
    exists svr, h :: Serves(gw, svr, h, host) && vh == VirtualHostFor(host, gw, svr)
  }

  lemma OverlapsSnoc(host: string, gws: seq<Gateway>, a: nat)
    requires a < |gws|
    ensures forall vh :: Overlaps(host, gws[..a + 1], vh) <==>
        Overlaps(host, gws[..a], vh) || OfGateway(host, gws[a], vh)
  {
    assert gws[..a + 1] == gws[..a] + [gws[a]];
    forall vh ensures Overlaps(host, gws[..a + 1], vh) <==>
        Overlaps(host, gws[..a], vh) || OfGateway(host, gws[a], vh) {
      if Overlaps(host, gws[..a], vh) {
        var gw, svr, h :| gw in gws[..a] && Serves(gw, svr, h, host) && vh == VirtualHostFor(host, gw, svr);
        assert gw in gws[..a + 1];
      } else if OfGateway(host, gws[a], vh) {
        var svr, h :| Serves(gws[a], svr, h, host) && vh == VirtualHostFor(host, gws[a], svr);
        assert gws[a] in gws[..a + 1];
      }
    }
  }

  ghost predicate OfServer(host: string, gw: Gateway, svr: Server, vh: VirtualHost) {
    vh == VirtualHostFor(host, gw, svr) && exists h :: h in svr.hosts && HostMatch(h, host)
  }

  method BuildForGateway(host: string, gw: Gateway) returns (vhs: seq<VirtualHost>)
    ensures forall vh :: vh in vhs <==> OfGateway(host, gw, vh)
  {
    hide OfServer;
    hide OfGateway;
    vhs := [];
    for b := 0 to |gw.servers|
      invariant forall vh :: vh in vhs <==> exists n :: 0 <= n < b && OfServer(host, gw, gw.servers[n], vh)
    {
      var more := BuildForServer(host, gw, gw.servers[b]);
      vhs := vhs + more;
    }
    forall vh ensures vh in vhs <==> OfGateway(host, gw, vh) {
      OfSomeServer(host, gw, vh);
    }
  }

  lemma OfSomeServer(host: string, gw: Gateway, vh: VirtualHost)
    ensures OfGateway(host, gw, vh) <==> exists n :: 0 <= n < |gw.servers| && OfServer(host, gw, gw.servers[n], vh)
  {
    if OfGateway(host, gw, vh) {
      var svr, h :| Serves(gw, svr, h, host) && vh == VirtualHostFor(host, gw, svr);
      var n :| 0 <= n < |gw.servers| && gw.servers[n] == svr;
      assert OfServer(host, gw, gw.servers[n], vh);
    }
    if n :| 0 <= n < |gw.servers| && OfServer(host, gw, gw.servers[n], vh) {
      var h :| h in gw.servers[n].hosts && HostMatch(h, host);
      assert Serves(gw, gw.servers[n], h, host);
    }
  }

  method BuildForServer(host: string, gw: Gateway, svr: Server) returns (vhs: seq<VirtualHost>)
    ensures forall vh :: vh in vhs <==> OfServer(host, gw, svr, vh)
  {
    vhs := [];
    for c := 0 to |svr.hosts|
      invariant forall vh :: vh in vhs <==>
          vh == VirtualHostFor(host, gw, svr) && exists n :: 0 <= n < c && HostMatch(svr.hosts[n], host)
    {
      if HostMatch(svr.hosts[c], host) {
        vhs := vhs + [VirtualHostFor(host, gw, svr)];
      }
    }
    forall h | h in svr.hosts ensures exists n :: 0 <= n < |svr.hosts| && svr.hosts[n] == h {
    }
  }

  // ------------------------------------------------------------ filing the hosts

  /** The policies of one route, and the VirtualService they are for. */
  datatype RoutePolicy = RoutePolicy(vs: string, policies: seq<int>)

  type RouteTable = map<string, RoutePolicy>

  /** Hosts refer to route tables; a table is named after the VirtualService it
      was made for, and all hosts that VirtualService files share it. */
  datatype Proxies = Proxies(hosts: map<HostKey, string>, tables: map<string, RouteTable>) {
    predicate Valid() { forall k | k in hosts :: hosts[k] in tables }

    function RoutesAt(k: HostKey): RouteTable
      requires Valid() && k in hosts
    {
      tables[hosts[k]]
    }
  }

  /** `addVirtualHostToProxy`: a host met again has the routes copied into its
      table, whoever else shares that table. */
  method AddVirtualHostToProxy(vh: VirtualHost, p: Proxies, table: string) returns (r: Proxies)
    requires p.Valid() && table in p.tables
    ensures r.Valid() && KeyOf(vh) in r.hosts
    ensures KeyOf(vh) in p.hosts ==>
        r == Proxies(p.hosts, p.tables[p.hosts[KeyOf(vh)] := p.RoutesAt(KeyOf(vh)) + p.tables[table]])
    ensures KeyOf(vh) !in p.hosts ==> r == Proxies(p.hosts[KeyOf(vh) := table], p.tables)
  {
    var k := KeyOf(vh);
    if k in p.hosts {
      return p.(tables := p.tables[p.hosts[k] := p.RoutesAt(k) + p.tables[table]]);
    }
    r := p.(hosts := p.hosts[k := table]);
  }

  datatype VirtualService = VirtualService(hosts: seq<string>, gateways: seq<Gateway>, routes: map<string, seq<int>>)

  type Services = map<string, VirtualService>

  function RoutesOf(id: string, vs: VirtualService): RouteTable {
    map n | n in vs.routes :: RoutePolicy(id, vs.routes[n])
  }

  /** Where a VirtualService is filed: under every port of every server it overlaps with. */
  function KeysOf(vs: VirtualService): set<HostKey> {
    set host, gw, svr, h | host in vs.hosts && gw in vs.gateways && svr in gw.servers
                           && h in svr.hosts && HostMatch(h, host) ::
      KeyOf(VirtualHostFor(host, gw, svr))
  }

  lemma KeysAreOverlaps(vs: VirtualService, host: string, vh: VirtualHost)
    requires host in vs.hosts && Overlaps(host, vs.gateways, vh)
    ensures KeyOf(vh) in KeysOf(vs)
  {
    var gw, svr, h :| gw in vs.gateways && Serves(gw, svr, h, host) && vh == VirtualHostFor(host, gw, svr);
  }

  lemma KeyHasOverlap(vs: VirtualService, k: HostKey)
    requires k in KeysOf(vs)
    ensures exists host, vh :: host in vs.hosts && Overlaps(host, vs.gateways, vh) && KeyOf(vh) == k
  {
    var host, gw, svr, h :| host in vs.hosts && gw in vs.gateways && svr in gw.servers && h in svr.hosts
      && HostMatch(h, host)
      && k == KeyOf(VirtualHostFor(host, gw, svr));
    assert Serves(gw, svr, h, host);
    assert Overlaps(host, vs.gateways, VirtualHostFor(host, gw, svr));
  }

  // ------------------------------------------- what filing one VirtualService does

  /** One of the hosts to be filed is there already, in table t. */
  predicate Touches(p: Proxies, keys: set<HostKey>, t: string) {
    exists k :: k in keys && k in p.hosts && p.hosts[k] == t
  }

  /** New hosts share the new table; tables of hosts met again get the routes. */
  function Filed(p: Proxies, id: string, routes: RouteTable, keys: set<HostKey>): Proxies {
    Proxies(
      map k | k in p.hosts.Keys + keys :: if k in p.hosts then p.hosts[k] else id,
      map t | t in p.tables.Keys + {id} :: FiledTable(p, id, routes, keys, t))
  }

  function FiledTable(p: Proxies, id: string, routes: RouteTable, keys: set<HostKey>, t: string): RouteTable
    requires t in p.tables || t == id
  {
    if t == id then routes else if Touches(p, keys, t) then p.tables[t] + routes else p.tables[t]
  }

  lemma FileNothing(p: Proxies, id: string, routes: RouteTable)
    requires p.Valid() && id !in p.tables
    ensures Filed(p, id, routes, {}) == p.(tables := p.tables[id := routes])
    ensures Filed(p, id, routes, {}).Valid()
  {
  }

  /** One more host: the same whether or not it, or its table, was met before. */
  lemma FileOneMore(p: Proxies, id: string, routes: RouteTable, keys: set<HostKey>, k: HostKey)
    requires p.Valid() && id !in p.tables
    ensures var r, q := Filed(p, id, routes, keys), Filed(p, id, routes, keys + {k});
      && r.Valid() && q.Valid() && id in r.tables && r.tables[id] == routes
      && (k in r.hosts ==> q == Proxies(r.hosts, r.tables[r.hosts[k] := r.RoutesAt(k) + routes]))
      && (k !in r.hosts ==> q == Proxies(r.hosts[k := id], r.tables))
  {
    FiledIsValid(p, id, routes, keys);
    FiledIsValid(p, id, routes, keys + {k});
    if k in p.hosts.Keys + keys {
      FileKnownHost(p, id, routes, keys, k);
    } else {
      FileNewHost(p, id, routes, keys, k);
    }
  }

  lemma FiledIsValid(p: Proxies, id: string, routes: RouteTable, keys: set<HostKey>)
    requires p.Valid()
    ensures var r := Filed(p, id, routes, keys); r.Valid() && id in r.tables && r.tables[id] == routes
  {
  }

  lemma FileNewHost(p: Proxies, id: string, routes: RouteTable, keys: set<HostKey>, k: HostKey)
    requires p.Valid() && id !in p.tables && k !in p.hosts.Keys + keys
    ensures var r, q := Filed(p, id, routes, keys), Filed(p, id, routes, keys + {k});
      k !in r.hosts && q == Proxies(r.hosts[k := id], r.tables)
  {
    hide FiledTable;
    var r, q := Filed(p, id, routes, keys), Filed(p, id, routes, keys + {k});
    assert q.hosts == r.hosts[k := id];
    forall t | t in r.tables ensures q.tables[t] == r.tables[t] {
      FileOneTable(p, id, routes, keys, k, t);
    }
    assert q.tables == r.tables;
  }

  lemma FileKnownHost(p: Proxies, id: string, routes: RouteTable, keys: set<HostKey>, k: HostKey)
    requires p.Valid() && id !in p.tables && k in p.hosts.Keys + keys
    requires Filed(p, id, routes, keys).Valid()
    ensures var r, q := Filed(p, id, routes, keys), Filed(p, id, routes, keys + {k});
      k in r.hosts && q == Proxies(r.hosts, r.tables[r.hosts[k] := r.RoutesAt(k) + routes])
  {
    hide FiledTable;
    var r, q := Filed(p, id, routes, keys), Filed(p, id, routes, keys + {k});
    assert q.hosts == r.hosts;
    forall t | t in r.tables ensures q.tables[t] == (if t == r.hosts[k] then r.tables[t] + routes else r.tables[t]) {
      FileOneTable(p, id, routes, keys, k, t);
      assert r.hosts[k] == if k in p.hosts then p.hosts[k] else id;
    }
    assert q.tables == r.tables[r.hosts[k] := r.RoutesAt(k) + routes];
  }

  lemma FileOneTable(p: Proxies, id: string, routes: RouteTable, keys: set<HostKey>, k: HostKey, t: string)
    requires p.Valid() && id !in p.tables && (t in p.tables || t == id)
    ensures var before := FiledTable(p, id, routes, keys, t);
      FiledTable(p, id, routes, keys + {k}, t) ==
      if (k in p.hosts && p.hosts[k] == t) || (k in keys && k !in p.hosts && t == id) then before + routes else before
  {
    assert Touches(p, keys + {k}, t) <==> Touches(p, keys, t) || (k in p.hosts && p.hosts[k] == t);
    if t in p.tables {
      assert (p.tables[t] + routes) + routes == p.tables[t] + routes;
    }
    assert routes + routes == routes;
  }

  /** The virtual hosts of one host name. */
  method AddHost(vhs: seq<VirtualHost>, id: string, p: Proxies, ghost p0: Proxies, ghost routes: RouteTable,
                 ghost keys: set<HostKey>)
    returns (r: Proxies)
    requires p0.Valid() && id !in p0.tables && p == Filed(p0, id, routes, keys) && p.Valid()
    ensures r == Filed(p0, id, routes, keys + KeysIn(vhs, |vhs|)) && r.Valid()
  {
    hide Filed;
    r := p;
    ghost var done := keys;
    assert keys + KeysIn(vhs, 0) == keys;
    for i := 0 to |vhs|
      invariant done == keys + KeysIn(vhs, i)
      invariant r == Filed(p0, id, routes, done) && r.Valid()
    {
      FileOneMore(p0, id, routes, done, KeyOf(vhs[i]));
      r := AddVirtualHostToProxy(vhs[i], r, id);
      done := done + {KeyOf(vhs[i])};
    }
  }

  function KeysIn(vhs: seq<VirtualHost>, n: nat): set<HostKey>
    requires n <= |vhs|
  {
    set i | 0 <= i < n :: KeyOf(vhs[i])
  }

  /** The keys of the first n host names. */
  function KeysUpTo(vs: VirtualService, n: nat): set<HostKey>
    requires n <= |vs.hosts|
  {
    KeysOf(vs.(hosts := vs.hosts[..n]))
  }

  lemma KeysOfNextHost(vs: VirtualService, n: nat, vhs: seq<VirtualHost>)
    requires n < |vs.hosts| && forall vh :: vh in vhs <==> Overlaps(vs.hosts[n], vs.gateways, vh)
    ensures KeysUpTo(vs, n + 1) == KeysUpTo(vs, n) + KeysIn(vhs, |vhs|)
  {
    var before, now := vs.(hosts := vs.hosts[..n]), vs.(hosts := vs.hosts[..n + 1]);
    assert now.hosts == before.hosts + [vs.hosts[n]];
    forall k | k in KeysOf(now) ensures k in KeysOf(before) + KeysIn(vhs, |vhs|) {
      KeyHasOverlap(now, k);
      var host, vh :| host in now.hosts && Overlaps(host, vs.gateways, vh) && KeyOf(vh) == k;
      if host in before.hosts {
        KeysAreOverlaps(before, host, vh);
      } else {
        var i :| 0 <= i < |vhs| && vhs[i] == vh;
      }
    }
    forall k | k in KeysOf(before) ensures k in KeysOf(now) {
      KeyHasOverlap(before, k);
      var host, vh :| host in before.hosts && Overlaps(host, vs.gateways, vh) && KeyOf(vh) == k;
      KeysAreOverlaps(now, host, vh);
    }
    forall k | k in KeysIn(vhs, |vhs|) ensures k in KeysOf(now) {
      var i :| 0 <= i < |vhs| && KeyOf(vhs[i]) == k;
      assert vhs[i] in vhs;
      KeysAreOverlaps(now, vs.hosts[n], vhs[i]);
    }
  }

  /** One VirtualService: a new table, filed under all its virtual hosts. */
  method AddService(id: string, vs: VirtualService, p: Proxies) returns (r: Proxies)
    requires p.Valid() && id !in p.tables
    ensures r == Filed(p, id, RoutesOf(id, vs), KeysOf(vs)) && r.Valid()
  {
    hide Filed;
    hide KeysOf;
    hide Overlaps;
    r := p.(tables := p.tables[id := RoutesOf(id, vs)]);
    FileNothing(p, id, RoutesOf(id, vs));
    NoKeysYet(vs);
    for i := 0 to |vs.hosts|
      invariant r == Filed(p, id, RoutesOf(id, vs), KeysUpTo(vs, i)) && r.Valid()
    {
      var vhs := BuildVirtualHosts(vs.hosts[i], vs.gateways);
      r := AddHost(vhs, id, r, p, RoutesOf(id, vs), KeysUpTo(vs, i));
      KeysOfNextHost(vs, i, vhs);
    }
    assert vs.hosts[..|vs.hosts|] == vs.hosts;
  }

  lemma NoKeysYet(vs: VirtualService)
    ensures KeysUpTo(vs, 0) == {}
  {
  }

  // --------------------------------------------------------------- whole walks

  ghost predicate Known(order: seq<string>, services: Services) {
    forall id | id in order :: id in services
  }

  /** The proxies after the VirtualServices were filed in this order. */
  function Walked(services: Services, order: seq<string>): Proxies
    requires Known(order, services)
  {
    if order == [] then Proxies(map[], map[])
    else
      var last := order[|order| - 1];
      Filed(Walked(services, order[..|order| - 1]), last, RoutesOf(last, services[last]), KeysOf(services[last]))
  }

  /** A walk over the map of VirtualServices, in some order. */
  ghost predicate IsWalk(order: seq<string>, services: Services) {
    Distinct(order) && Elems(order) == services.Keys
  }

  lemma WalkKnown(order: seq<string>, services: Services)
    requires Elems(order) <= services.Keys
    ensures Known(order, services)
  {
    forall id | id in order ensures id in services { assert id in Elems(order); }
  }

  /** Two VirtualServices are filed under a common host. */
  predicate Meet(a: VirtualService, b: VirtualService) {
    exists h :: h in KeysOf(a) && h in KeysOf(b)
  }

  /** The entry came from a VirtualService that has it, and that was filed under
      a host of the table's VirtualService, or is that one. */
  ghost predicate Explained(entry: RoutePolicy, n: string, t: string, services: Services) {
    && HonestEntry(entry, n, services)
    && t in services && (entry.vs == t || Meet(services[t], services[entry.vs]))
  }

  predicate HonestEntry(entry: RoutePolicy, n: string, services: Services) {
    entry.vs in services && n in services[entry.vs].routes && entry.policies == services[entry.vs].routes[n]
  }

  /** A host is filed exactly if some VirtualService asks for it; it belongs to
      the table of one that does, and every entry there is explained. */
  ghost predicate Sound(p: Proxies, order: seq<string>, services: Services) {
    && p.Valid() && p.tables.Keys == Elems(order)
    && (forall k :: k in p.hosts <==> exists id :: id in order && id in services && k in KeysOf(services[id]))
    && (forall k | k in p.hosts :: p.hosts[k] in services && k in KeysOf(services[p.hosts[k]]))
    && (forall t, n | t in p.tables && n in p.tables[t] :: Explained(p.tables[t][n], n, t, services))
  }

  lemma {:induction false} WalkIsSound(services: Services, order: seq<string>)
    requires Known(order, services)
    ensures Sound(Walked(services, order), order, services)
  {
    hide KeysOf;
    if order != [] {
      var n := |order| - 1;
      WalkIsSound(services, order[..n]);
      assert order == order[..n] + [order[n]];
      FiledIsSound(Walked(services, order[..n]), services, order[..n], order[n]);
    }
  }

  lemma FiledIsSound(p: Proxies, services: Services, order: seq<string>, id: string)
    requires Known(order, services) && id in services && Sound(p, order, services)
    ensures Sound(Filed(p, id, RoutesOf(id, services[id]), KeysOf(services[id])), order + [id], services)
  {
    hide KeysOf;
    hide Explained;
    hide FiledTable;
    var r := Filed(p, id, RoutesOf(id, services[id]), KeysOf(services[id]));
    ElemsSnoc(order, id);
    FiledHostsSound(p, services, order, id);
    forall t, n | t in r.tables && n in r.tables[t] ensures Explained(r.tables[t][n], n, t, services) {
      FiledEntryExplained(p, services, order, id, t, n);
    }
  }

  lemma FiledHostsSound(p: Proxies, services: Services, order: seq<string>, id: string)
    requires Known(order, services) && id in services && Sound(p, order, services)
    ensures var r := Filed(p, id, RoutesOf(id, services[id]), KeysOf(services[id]));
      && r.Valid() && r.tables.Keys == p.tables.Keys + {id}
      && (forall k :: k in r.hosts <==> exists x :: x in order + [id] && x in services && k in KeysOf(services[x]))
      && (forall k | k in r.hosts :: r.hosts[k] in services && k in KeysOf(services[r.hosts[k]]))
  {
    hide KeysOf;
    hide Explained;
    hide FiledTable;
    var r := Filed(p, id, RoutesOf(id, services[id]), KeysOf(services[id]));
    forall k ensures k in r.hosts <==> exists x :: x in order + [id] && x in services && k in KeysOf(services[x]) {
      assert id in order + [id];
      if k in p.hosts {
        var x :| x in order && x in services && k in KeysOf(services[x]);
        assert x in order + [id];
      }
    }
  }

  lemma FiledEntryExplained(p: Proxies, services: Services, order: seq<string>, id: string, t: string, n: string)
    requires Known(order, services) && id in services && Sound(p, order, services)
    requires var r := Filed(p, id, RoutesOf(id, services[id]), KeysOf(services[id])); t in r.tables && n in r.tables[t]
    ensures Explained(Filed(p, id, RoutesOf(id, services[id]), KeysOf(services[id])).tables[t][n], n, t, services)
  {
    hide KeysOf;
    var keys := KeysOf(services[id]);
    if t != id && Touches(p, keys, t) && n in services[id].routes {
      var k :| k in keys && k in p.hosts && p.hosts[k] == t;
      assert Meet(services[t], services[id]);
    } else if t != id {
      assert n in p.tables[t];
      assert Explained(p.tables[t][n], n, t, services);
    }
  }

  /** The host is filed and has at least these routes. */
  predicate Has(p: Proxies, k: HostKey, routes: set<string>) {
    p.Valid() && k in p.hosts && routes <= p.RoutesAt(k).Keys
  }

  /** Every host name of the VirtualService has all its routes wherever it overlaps. */
  ghost predicate Served(p: Proxies, vs: VirtualService) {
    forall k | k in KeysOf(vs) :: Has(p, k, vs.routes.Keys)
  }

  /** Filing keeps what was served, and serves the new VirtualService. */
  lemma FiledServes(p: Proxies, id: string, vs: VirtualService, other: VirtualService)
    requires p.Valid() && id !in p.tables
    ensures var r := Filed(p, id, RoutesOf(id, vs), KeysOf(vs));
      Served(r, vs) && (Served(p, other) ==> Served(r, other))
  {
    hide KeysOf;
    var routes := RoutesOf(id, vs);
    var r := Filed(p, id, routes, KeysOf(vs));
    assert routes.Keys == vs.routes.Keys;
    forall k | k in KeysOf(vs) ensures Has(r, k, vs.routes.Keys) {
      assert k in p.hosts ==> Touches(p, KeysOf(vs), p.hosts[k]);
    }
  }

  lemma {:induction false} WalkServes(services: Services, order: seq<string>, id: string)
    requires Known(order, services) && Distinct(order) && id in order
    ensures Served(Walked(services, order), services[id])
  {
    hide Filed;
    hide Served;
    hide Sound;
    var n := |order| - 1;
    var last := order[n];
    var p := Walked(services, order[..n]);
    WalkIsSound(services, order[..n]);
    SoundKnowsTables(p, order[..n], services);
    assert order == order[..n] + [last];
    FiledServes(p, last, services[last], services[id]);
    if id != last {
      WalkServes(services, order[..n], id);
    }
  }

  lemma SoundKnowsTables(p: Proxies, order: seq<string>, services: Services)
    requires Sound(p, order, services)
    ensures p.Valid() && p.tables.Keys == Elems(order)
  {
  }

  /** `toDataPlaneState`, for VirtualServices, which come in any order. */
  method ToHosts(services: Services) returns (p: Proxies, ghost order: seq<string>)
    ensures IsWalk(order, services) && Known(order, services) && p == Walked(services, order)
    ensures p.Valid() && forall id | id in services :: Served(p, services[id])
    ensures forall k :: k in p.hosts <==> exists id :: id in services && k in KeysOf(services[id])
  {
    hide Filed;
    hide Served;
    p := Proxies(map[], map[]);
    var ids := AnyOrder(services.Keys);
    WalkEnds(ids);
    WalkKnown(ids, services);
    for i := 0 to |ids|
      invariant p.Valid() && p == Walked(services, ids[..i])
    {
      Walk(ids, i);
      assert ids[..i + 1] == ids[..i] + [ids[i]];
      WalkIsSound(services, ids[..i]);
      p := AddService(ids[i], services[ids[i]], p);
    }
    order := ids;
    WalkIsSound(services, order);
    forall id ensures id in order <==> id in services { assert id in order <==> id in Elems(order); }
    forall id | id in services ensures Served(p, services[id]) {
      WalkServes(services, order, id);
    }
  }

  // --------------------------------------------------------------- consequences

  /** Wherever a host name of a VirtualService and a server's host have a name in
      common, the routes are there. */
  lemma CommonNamesAreServed(p: Proxies, vs: VirtualService, host: string, gw: Gateway, svr: Server, h: string,
                             name: string)
    requires Served(p, vs) && host in vs.hosts && gw in vs.gateways && svr in gw.servers && h in svr.hosts
    requires Names(host, name) && Names(h, name)
    ensures Has(p, HostKey(gw.ns, Envoy.JoinHostPort(host, Decimal(svr.port))), vs.routes.Keys)
  {
    HostMatchIffCommonName(h, host);
    assert Names(h, name) && Names(host, name);
    assert KeyOf(VirtualHostFor(host, gw, svr)) in KeysOf(vs);
  }

  /** With this order, the policies of route n under host k are those of z. */
  ghost predicate PoliciesOf(services: Services, order: seq<string>, k: HostKey, n: string, z: string)
    requires Known(order, services)
  {
    var p := Walked(services, order);
    p.Valid() && k in p.hosts && n in p.RoutesAt(k) && p.RoutesAt(k)[n].vs == z
  }

  /** x first and z last: z overwrites what x's hosts share. */
  lemma FirstAndLast(services: Services, order: seq<string>, x: string, z: string, k: HostKey, h: HostKey, n: string)
    requires IsWalk(order, services) && Known(order, services) && |order| > 1
    requires order[0] == x && order[|order| - 1] == z && n in services[z].routes
    requires k in KeysOf(services[x]) && h in KeysOf(services[x]) && h in KeysOf(services[z])
    ensures PoliciesOf(services, order, k, n, z)
  {
    hide KeysOf;
    var m := |order| - 1;
    var p := Walked(services, order[..m]);
    FirstOwns(services, order[..m], k);
    FirstOwns(services, order[..m], h);
    WalkIsSound(services, order[..m]);
    assert order[..m][0] == x && x != z;
    assert Touches(p, KeysOf(services[z]), x);
    WalkIsSound(services, order);
  }

  lemma {:induction false} FirstOwns(services: Services, order: seq<string>, k: HostKey)
    requires Known(order, services) && order != [] && k in KeysOf(services[order[0]])
    ensures k in Walked(services, order).hosts && Walked(services, order).hosts[k] == order[0]
  {
    hide KeysOf;
    var n := |order| - 1;
    if n > 0 {
      FirstOwns(services, order[..n], k);
    } else {
      assert Walked(services, order[..0]) == Proxies(map[], map[]);
    }
  }

  lemma SomeWalk(services: Services, x: string, z: string) returns (order: seq<string>)
    requires x in services && z in services && x != z
    ensures IsWalk(order, services) && Known(order, services) && |order| > 1
    ensures order[0] == x && order[|order| - 1] == z
  {
    var middle := Listed(services.Keys - {x, z});
    order := [x] + middle + [z];
    forall id ensures id in order <==> id in services {
      assert id in order <==> id == x || id in middle || id == z;
      assert id in middle <==> id in Elems(middle);
    }
    assert Distinct(order) by {
      assert x !in middle && z !in middle by { assert x !in Elems(middle) && z !in Elems(middle); }
      DistinctConcat([x], middle);
      DistinctConcat([x] + middle, [z]);
    }
  }

  lemma Listed<T(!new)>(s: set<T>) returns (l: seq<T>)
    ensures Distinct(l) && Elems(l) == s
    decreases s
  {
    if s == {} {
      l := [];
    } else {
      var x :| x in s;
      var rest := Listed(s - {x});
      l := rest + [x];
      ElemsSnoc(rest, x);
      assert x !in Elems(rest);
    }
  }

  /** x is filed under k and under a host of z. */
  predicate Carries(services: Services, x: string, z: string, k: HostKey) {
    x in services && z in services && k in KeysOf(services[x]) && Meet(services[x], services[z])
  }

  /** Policies of a VirtualService show up under a host it does not have, in some
      order, exactly when another VirtualService has that host and one of its. */
  lemma ForeignPoliciesIff(services: Services, z: string, k: HostKey, n: string)
    requires z in services && n in services[z].routes && k !in KeysOf(services[z])
    ensures (exists order ::
              IsWalk(order, services) && Known(order, services) && PoliciesOf(services, order, k, n, z)) <==>
            exists x :: Carries(services, x, z, k)
  {
    hide KeysOf;
    if order :| IsWalk(order, services) && Known(order, services) && PoliciesOf(services, order, k, n, z) {
      OwnerCarries(services, order, k, n, z);
    }
    if x :| Carries(services, x, z, k) {
      var h :| h in KeysOf(services[x]) && h in KeysOf(services[z]);
      var order := SomeWalk(services, x, z);
      FirstAndLast(services, order, x, z, k, h, n);
    }
  }

  lemma OwnerCarries(services: Services, order: seq<string>, k: HostKey, n: string, z: string)
    requires Known(order, services) && PoliciesOf(services, order, k, n, z)
    ensures z in services && n in services[z].routes && exists x :: Carries(services, x, z, k)
    ensures Walked(services, order).RoutesAt(k)[n] == RoutePolicy(z, services[z].routes[n])
  {
    hide KeysOf;
    WalkIsSound(services, order);
    var p := Walked(services, order);
    var t := p.hosts[k];
    assert Explained(p.tables[t][n], n, t, services);
    if z == t {
      assert Meet(services[z], services[z]);
    }
    assert Carries(services, t, z, k);
  }

  /** The policies of a route are those of its own VirtualService in every order
      exactly when no other one names a route alike and is filed under that host,
      or under a host some VirtualService has together with it. */
  lemma PoliciesRightIff(services: Services, id: string, k: HostKey, n: string)
    requires id in services && n in services[id].routes && k in KeysOf(services[id])
    ensures (forall order | IsWalk(order, services) && Known(order, services) ::
              PoliciesOf(services, order, k, n, id)) <==>
            !exists x, y :: y != id && Carries(services, x, y, k) && n in services[y].routes
  {
    hide KeysOf;
    if x, y :| y != id && Carries(services, x, y, k) && n in services[y].routes {
      var h :| h in KeysOf(services[x]) && h in KeysOf(services[y]);
      if x == y {
        var order := SomeWalk(services, id, y);
        FirstAndLast(services, order, id, y, k, k, n);
        assert !PoliciesOf(services, order, k, n, id);
      } else {
        var order := SomeWalk(services, x, y);
        FirstAndLast(services, order, x, y, k, h, n);
        assert !PoliciesOf(services, order, k, n, id);
      }
    } else {
      forall order | IsWalk(order, services) && Known(order, services) ensures PoliciesOf(services, order, k, n, id) {
        assert id in Elems(order);
        WalkServes(services, order, id);
        var p := Walked(services, order);
        assert Has(p, k, services[id].routes.Keys);
        var z := p.RoutesAt(k)[n].vs;
        OwnerCarries(services, order, k, n, z);
      }
    }
  }

  /** In particular if no two VirtualServices name a route alike. */
  lemma UniqueNamesGetTheirPolicies(services: Services, order: seq<string>, id: string, k: HostKey, n: string)
    requires IsWalk(order, services) && Known(order, services)
    requires id in services && n in services[id].routes && k in KeysOf(services[id])
    requires forall other | other in services && n in services[other].routes :: other == id
    ensures PoliciesOf(services, order, k, n, id)
    ensures Walked(services, order).RoutesAt(k)[n] == RoutePolicy(id, services[id].routes[n])
  {
    hide KeysOf;
    PoliciesRightIff(services, id, k, n);
    OwnerCarries(services, order, k, n, id);
  }

  /** x is filed under a and b, y under b alone, z under a alone, and y and z both
      name a route n: though they share no host, in some order b ends with the
      policies of z. */
  lemma CrossedHosts(services: Services, x: string, y: string, z: string, a: HostKey, b: HostKey, n: string)
    requires x in services && y in services && z in services && y != z && a != b
    requires KeysOf(services[x]) == {a, b} && KeysOf(services[y]) == {b} && KeysOf(services[z]) == {a}
    requires n in services[y].routes && n in services[z].routes
    ensures b in KeysOf(services[y]) && b !in KeysOf(services[z]) && !Meet(services[y], services[z])
    ensures exists order :: IsWalk(order, services) && Known(order, services) && PoliciesOf(services, order, b, n, z)
    ensures !forall order | IsWalk(order, services) && Known(order, services) :: PoliciesOf(services, order, b, n, y)
  {
    hide KeysOf;
    assert b in KeysOf(services[x]) && a in KeysOf(services[x]) && a in KeysOf(services[z]);
    assert Meet(services[x], services[z]);
    assert Carries(services, x, z, b);
    ForeignPoliciesIff(services, z, b, n);
    PoliciesRightIff(services, y, b, n);
  }

  /** Three VirtualServices on one gateway with which that happens. */
  lemma SharingMixesHosts() returns (services: Services, b: HostKey)
    ensures services.Keys == {"x", "y", "z"} && "r" in services["y"].routes && "r" in services["z"].routes
    ensures b in KeysOf(services["y"]) && b !in KeysOf(services["z"]) && !Meet(services["y"], services["z"])
    ensures exists order ::
      IsWalk(order, services) && Known(order, services) && PoliciesOf(services, order, b, "r", "z")
    ensures !forall order | IsWalk(order, services) && Known(order, services) ::
      PoliciesOf(services, order, b, "r", "y")
  {
    hide KeysOf;
    hide HostMatch;
    hide Walked;
    hide IsWalk;
    var x, rx := OnHosts(["a", "b"], map["rx" := [0]]);
    var y, ry := OnHosts(["b"], map["r" := [1]]);
    var z, rz := OnHosts(["a"], map["r" := [2]]);
    assert "x" != "y" && "x" != "z" && "y" != "z";
    services := map["x" := x, "y" := y, "z" := z];
    var a := PlainKey("a");
    b := PlainKey("b");
    PlainKeysDiffer();
    assert rx == {a, b} by { assert "a" in ["a", "b"] && "b" in ["a", "b"]; }
    assert ry == {b} by { assert "b" in ["b"]; }
    assert rz == {a} by { assert "a" in ["a"]; }
    CrossedHosts(services, "x", "y", "z", a, b, "r");
  }

  lemma PlainKeysDiffer()
    ensures PlainKey("a") != PlainKey("b")
  {
    assert PlainKey("a").name[0] == 'a' && PlainKey("b").name[0] == 'b';
  }

  lemma OnHosts(hosts: seq<string>, routes: map<string, seq<int>>) returns (vs: VirtualService, keys: set<HostKey>)
    requires forall host | host in hosts :: !IsWildCarded(host)
    ensures vs.routes == routes && KeysOf(vs) == keys == set host | host in hosts :: PlainKey(host)
  {
    vs := VirtualService(hosts, [Gateway("ns", "gw", [Server("http", "", 80, ["*"])])], routes);
    PlainKeys(hosts, routes);
    keys := KeysOf(vs);
  }

  function PlainKey(host: string): HostKey { HostKey("ns", Envoy.JoinHostPort(host, Decimal(80))) }

  lemma PlainKeys(hosts: seq<string>, routes: map<string, seq<int>>)
    requires forall host | host in hosts :: !IsWildCarded(host)
    ensures KeysOf(VirtualService(hosts, [Gateway("ns", "gw", [Server("http", "", 80, ["*"])])], routes)) ==
            set host | host in hosts :: PlainKey(host)
  {
    var svr := Server("http", "", 80, ["*"]);
    var gw := Gateway("ns", "gw", [svr]);
    var vs := VirtualService(hosts, [gw], routes);
    forall host | host in hosts ensures PlainKey(host) in KeysOf(vs) {
      assert host[|host| - 0..] == "" && HostMatch("*", host);
      assert gw in vs.gateways && svr in gw.servers && "*" in svr.hosts;
      assert KeyOf(VirtualHostFor(host, gw, svr)) == PlainKey(host);
    }
  }
}
