/** Names of the generated EnvoyFilters. */
module EnvoyFilterNames {
  import opened Options
  import opened Strings

  const DEFAULT_HTTP_FILTER := "htnn-http-filter"
  const ROUTE_PREFIX := "htnn-h-"
  const LDS_PREFIX := "htnn-lds-"

  /** idna.ToASCII: not part of this model, so any partial function on domains. */
  type ToAscii = string -> Option<string>

  /** What a virtual host is named after: "host:port", and the resource it comes from. */
  datatype VirtualHost = VirtualHost(name: string, ns: string, resource: string)

  function LastColon(s: string): (i: int)
    ensures -1 <= i < |s|
    ensures i >= 0 ==> s[i] == ':'
    ensures forall k | i < k < |s| :: s[k] != ':'
  {
    if s == "" then -1 else if s[|s| - 1] == ':' then |s| - 1 else LastColon(s[..|s| - 1])
  }

  function JoinHostPort(host: string, port: string): string {
    if ':' in host then "[" + host + "]:" + port else host + ":" + port
  }

  /** net.SplitHostPort, which answers two empty strings on an error. */
  function SplitHostPort(s: string): (string, string) {
    var i := LastColon(s);
    if i < 0 then ("", "")
    else if s[0] == '[' then
      var end := IndexOf(s, ']');
      if end < 0 || end + 1 != i || '[' in s[1..] || ']' in s[i..] then ("", "")
      else (s[1..end], s[i + 1..])
    else if ':' in s[..i] || '[' in s || ']' in s then ("", "")
    else (s[..i], s[i + 1..])
  }

  predicate NoBrackets(s: string) { '[' !in s && ']' !in s }

  /** Joining and splitting gives the host and the port back. */
  lemma SplitJoin(host: string, port: string)
    requires NoBrackets(host) && NoBrackets(port) && ':' !in port
    ensures SplitHostPort(JoinHostPort(host, port)) == (host, port)
  {
    if ':' in host {
      SplitBracketed(host, port);
    } else {
      SplitPlain(host, port);
    }
  }

  lemma LastColonIs(s: string, at: nat)
    requires at < |s| && s[at] == ':' && ':' !in s[at + 1..]
    ensures LastColon(s) == at
  {
    hide LastColon;
    forall i | at < i < |s| ensures s[i] != ':' {
      assert s[i] == s[at + 1..][i - at - 1];
    }
  }

  lemma LastColonAt(front: string, port: string)
    requires ':' !in port
    ensures LastColon(front + ":" + port) == |front|
  {
    hide LastColon;
    var s := front + ":" + port;
    assert s[|front| + 1..] == port;
    LastColonIs(s, |front|);
  }

  lemma SplitPlain(host: string, port: string)
    requires NoBrackets(host) && NoBrackets(port) && ':' !in port && ':' !in host
    ensures SplitHostPort(host + ":" + port) == (host, port)
  {
    hide LastColon;
    var s := host + ":" + port;
    LastColonAt(host, port);
    assert s[..|host|] == host && s[|host| + 1..] == port;
    assert '[' !in s && ']' !in s;
    assert s[0] in s;
  }

  lemma SplitBracketed(host: string, port: string)
    requires NoBrackets(host) && NoBrackets(port) && ':' !in port
    ensures SplitHostPort("[" + host + "]:" + port) == (host, port)
  {
    hide LastColon;
    hide IndexOf;
    var s := "[" + host + "]:" + port;
    var front := "[" + host + "]";
    assert s == front + ":" + port;
    LastColonAt(front, port);
    var end := |host| + 1;
    assert s[end] == ']' && s[1..end] == host;
    forall k | 0 <= k < end ensures s[k] != ']' {
      assert k == 0 || s[k] == host[k - 1];
    }
    assert IndexOf(s, ']') == end;
    assert s[end + 1..] == ":" + port && s[end + 2..] == port;
    assert s[1..] == host + "]:" + port;
  }

  predicate Alnum(c: char) { '0' <= c <= '9' || 'a' <= c <= 'z' }

  /** Dot-separated labels of lower-case letters, digits and inner dashes. */
  predicate ValidName(s: string) {
    && s != "" && Alnum(s[0]) && Alnum(s[|s| - 1])
    && (forall i | 0 <= i < |s| :: Alnum(s[i]) || s[i] == '-' || s[i] == '.')
    && (forall i | 0 < i < |s| - 1 && s[i] == '.' :: Alnum(s[i - 1]) && Alnum(s[i + 1]))
  }

  predicate IsLabel(s: string) {
    && s != "" && Alnum(s[0]) && Alnum(s[|s| - 1])
    && forall i | 0 <= i < |s| :: Alnum(s[i]) || s[i] == '-'
  }

  /** `validEnvoyFilterName`: a label, or a label, a dot and the like again. */
  predicate Matches(s: string)
    decreases |s|
  {
    IsLabel(s) || exists i :: 0 <= i < |s| && s[i] == '.' && IsLabel(s[..i]) && Matches(s[i + 1..])
  }

  lemma {:induction false} ValidNameMatches(s: string)
    ensures ValidName(s) <==> Matches(s)
    decreases |s|
  {
    hide ValidName;
    hide IsLabel;
    if ValidName(s) {
      ValidMatches(s);
    }
    if IsLabel(s) {
      LabelIsValid(s);
    } else if Matches(s) {
      var i :| 0 <= i < |s| && s[i] == '.' && IsLabel(s[..i]) && Matches(s[i + 1..]);
      ValidNameMatches(s[i + 1..]);
      JoinLabels(s[..i], s[i + 1..]);
      assert s == s[..i] + "." + s[i + 1..];
    }
  }

  lemma {:induction false} ValidMatches(s: string)
    requires ValidName(s)
    ensures Matches(s)
    decreases |s|
  {
    var i := IndexOf(s, '.');
    if i < 0 {
      assert IsLabel(s);
    } else {
      var rest := s[i + 1..];
      assert 0 < i < |s| - 1;
      assert ValidName(rest) by {
        forall j | 0 < j < |rest| - 1 && rest[j] == '.' ensures Alnum(rest[j - 1]) && Alnum(rest[j + 1]) {
          assert s[i + 1 + j] == '.';
        }
      }
      ValidMatches(rest);
      assert IsLabel(s[..i]);
    }
  }

  lemma LabelIsValid(s: string)
    requires IsLabel(s)
    ensures ValidName(s)
  {
  }

  lemma JoinLabels(a: string, b: string)
    requires IsLabel(a) && ValidName(b)
    ensures ValidName(a + "." + b)
  {
    var s := a + "." + b;
    forall i | 0 <= i < |s| ensures s[i] == if i < |a| then a[i] else if i == |a| then '.' else b[i - |a| - 1] {}
    forall i | 0 < i < |s| - 1 && s[i] == '.' ensures Alnum(s[i - 1]) && Alnum(s[i + 1]) {
      if i > |a| { assert b[i - |a| - 1] == '.'; }
    }
  }

  function DomainPart(v: VirtualHost): string {
    var (domain, port) := SplitHostPort(v.name);
    if domain == "*" then port
    else if "*." <= domain then "-" + domain[2..]
    else domain
  }

  /** `envoyFilterNameFromVirtualHost` */
  function FromVirtualHost(v: VirtualHost, ascii: ToAscii): (name: string)
    ensures ROUTE_PREFIX <= name
    ensures ValidName(name) || name == ROUTE_PREFIX + v.ns + "." + v.resource
  {
    var domain := ascii(DomainPart(v));
    if domain.Some? && ValidName(ROUTE_PREFIX + domain.value) then ROUTE_PREFIX + domain.value
    else ROUTE_PREFIX + v.ns + "." + v.resource
  }

  /** The name of a host's EnvoyFilter: its domain, with a dash for a leading "*.",
      if that makes a name; else namespace and name of where it comes from. */
  lemma HostsAreNamed(host: string, port: string, ns: string, resource: string, ascii: ToAscii)
    requires NoBrackets(host) && ':' !in host && host != "*" && IsNumber(port)
    ensures var v := VirtualHost(host + ":" + port, ns, resource);
      var domain := ascii(if |host| >= 2 && host[..2] == "*." then "-" + host[2..] else host);
      FromVirtualHost(v, ascii) ==
        if domain.Some? && Matches("htnn-h-" + domain.value) then "htnn-h-" + domain.value
        else "htnn-h-" + ns + "." + resource
  {
    HostPart(host, port, ns, resource);
    assert JoinHostPort(host, port) == host + ":" + port;
    var domain := ascii(if |host| >= 2 && host[..2] == "*." then "-" + host[2..] else host);
    if domain.Some? {
      ValidNameMatches("htnn-h-" + domain.value);
    }
    hide DomainPart;
    hide ValidName;
    hide Matches;
  }

  /** IDNA leaves the digits of a port alone. */
  ghost predicate KeepsNumbers(ascii: ToAscii) {
    forall p | IsNumber(p) :: ascii(p) == Some(p)
  }

  /** A host's ports share one EnvoyFilter; "*" has one for each port instead. */
  lemma PortsShareAName(host: string, p: string, q: string, ns: string, resource: string, ascii: ToAscii)
    requires NoBrackets(host) && IsNumber(p) && IsNumber(q) && p != "" && q != ""
    ensures var a := VirtualHost(JoinHostPort(host, p), ns, resource);
            var b := VirtualHost(JoinHostPort(host, q), ns, resource);
            && (host != "*" ==> FromVirtualHost(a, ascii) == FromVirtualHost(b, ascii))
            && (host == "*" && KeepsNumbers(ascii) ==>
                  FromVirtualHost(a, ascii) == ROUTE_PREFIX + p
                      && (FromVirtualHost(a, ascii) == FromVirtualHost(b, ascii) <==> p == q))
  {
    hide SplitHostPort;
    hide JoinHostPort;
    hide ValidName;
    hide IsNumber;
    hide NoBrackets;
    hide FromVirtualHost;
    HostPart(host, p, ns, resource);
    HostPart(host, q, ns, resource);
    if host != "*" {
      SameDomainSameName(VirtualHost(JoinHostPort(host, p), ns, resource),
                         VirtualHost(JoinHostPort(host, q), ns, resource), ascii);
    } else if KeepsNumbers(ascii) {
      NumberedHost(VirtualHost(JoinHostPort(host, p), ns, resource), p, ascii);
      NumberedHost(VirtualHost(JoinHostPort(host, q), ns, resource), q, ascii);
      assert (ROUTE_PREFIX + p)[|ROUTE_PREFIX|..] == p && (ROUTE_PREFIX + q)[|ROUTE_PREFIX|..] == q;
    }
  }

  lemma HostPart(host: string, p: string, ns: string, resource: string)
    requires NoBrackets(host) && IsNumber(p)
    ensures DomainPart(VirtualHost(JoinHostPort(host, p), ns, resource)) ==
            if host == "*" then p else if "*." <= host then "-" + host[2..] else host
  {
    NumbersArePlain(p);
    SplitJoin(host, p);
    hide SplitHostPort;
    hide JoinHostPort;
  }

  lemma SameDomainSameName(a: VirtualHost, b: VirtualHost, ascii: ToAscii)
    requires DomainPart(a) == DomainPart(b) && a.ns == b.ns && a.resource == b.resource
    ensures FromVirtualHost(a, ascii) == FromVirtualHost(b, ascii)
  {
    hide DomainPart;
    hide ValidName;
  }

  lemma NumberedHost(v: VirtualHost, p: string, ascii: ToAscii)
    requires DomainPart(v) == p && IsNumber(p) && p != "" && KeepsNumbers(ascii)
    ensures FromVirtualHost(v, ascii) == ROUTE_PREFIX + p
  {
    hide DomainPart;
    NumberedName(p);
  }

  lemma NumbersArePlain(p: string)
    requires IsNumber(p)
    ensures NoBrackets(p) && ':' !in p
  {
  }

  lemma NumberedName(p: string)
    requires IsNumber(p) && p != ""
    ensures ValidName(ROUTE_PREFIX + p)
  {
    var s := ROUTE_PREFIX + p;
    assert s[|s| - 1] == p[|p| - 1] && s[0] == 'h';
    forall i | 0 <= i < |s| ensures Alnum(s[i]) || s[i] == '-' {
      if i >= |ROUTE_PREFIX| { assert s[i] == p[i - |ROUTE_PREFIX|]; }
    }
  }

  function Dashed(s: string): (t: string)
    ensures |t| == |s|
    ensures forall i | 0 <= i < |s| :: t[i] == if s[i] == '_' || s[i] == ':' then '-' else s[i]
  {
    seq(|s|, i requires 0 <= i < |s| => if s[i] == '_' || s[i] == ':' then '-' else s[i])
  }

  /** `envoyFilterNameFromLds` */
  function FromLds(lds: string): string { LDS_PREFIX + Dashed(lds) }

  /** `getLDSName`, for a bind address and a port in decimal. */
  function LdsName(bind: string, port: string): string { bind + "_" + port }

  /** The name of a listener's EnvoyFilter, character by character. */
  lemma ListenersAreNamed(bind: string, port: string, i: nat)
    requires IsNumber(port)
    ensures |FromLds(LdsName(bind, port))| == |"htnn-lds-" + bind + "-" + port|
    ensures i < |bind| ==>
      FromLds(LdsName(bind, port))[|"htnn-lds-"| + i] == if bind[i] == ':' || bind[i] == '_' then '-' else bind[i]
    ensures FromLds(LdsName(bind, port))[..|"htnn-lds-"|] == "htnn-lds-"
    ensures FromLds(LdsName(bind, port))[|"htnn-lds-" + bind|..] == "-" + port
  {
    var lds, name := LdsName(bind, port), FromLds(LdsName(bind, port));
    assert name[|LDS_PREFIX|..] == Dashed(lds);
    forall j | 0 <= j < |port| ensures Dashed(lds)[|bind| + 1 + j] == port[j] {
      assert lds[|bind| + 1 + j] == port[j];
    }
  }

  predicate IsAddress(s: string) { '-' !in s && '_' !in s }

  predicate IsNumber(s: string) { forall i | 0 <= i < |s| :: '0' <= s[i] <= '9' }

  /** Listeners on IP addresses never share an EnvoyFilter name. */
  lemma LdsNamesDoNotCollide(a: string, p: string, b: string, q: string)
    requires IsAddress(a) && IsAddress(b) && IsNumber(p) && IsNumber(q)
    requires FromLds(LdsName(a, p)) == FromLds(LdsName(b, q))
    ensures a == b && p == q
  {
    hide Dashed;
    hide LdsName;
    var u, v := Dashed(LdsName(a, p)), Dashed(LdsName(b, q));
    assert FromLds(LdsName(a, p))[|LDS_PREFIX|..] == u && FromLds(LdsName(b, q))[|LDS_PREFIX|..] == v;
    SameDash(a, p, b, q);
    SameAddress(a, p, b, q);
    SamePort(a, p, b, q);
  }

  lemma SameAddress(a: string, p: string, b: string, q: string)
    requires IsAddress(a) && IsAddress(b) && |a| == |b|
    requires Dashed(LdsName(a, p)) == Dashed(LdsName(b, q))
    ensures a == b
  {
    var s, t := LdsName(a, p), LdsName(b, q);
    forall i | 0 <= i < |a| ensures a[i] == b[i] {
      assert s[i] == a[i] && t[i] == b[i] && a[i] in a && b[i] in b;
      assert Dashed(s)[i] == Dashed(t)[i];
    }
  }

  lemma SamePort(a: string, p: string, b: string, q: string)
    requires IsNumber(p) && IsNumber(q) && |a| == |b| && |p| == |q|
    requires Dashed(LdsName(a, p)) == Dashed(LdsName(b, q))
    ensures p == q
  {
    var s, t := LdsName(a, p), LdsName(b, q);
    forall i | 0 <= i < |p| ensures p[i] == q[i] {
      assert s[|a| + 1 + i] == p[i] && t[|a| + 1 + i] == q[i];
      assert Dashed(s)[|a| + 1 + i] == Dashed(t)[|a| + 1 + i];
    }
  }

  /** The last dash separates the port. */
  lemma SameDash(a: string, p: string, b: string, q: string)
    requires IsNumber(p) && IsNumber(q)
    requires Dashed(LdsName(a, p)) == Dashed(LdsName(b, q))
    ensures |a| == |b| && |p| == |q|
  {
    assert |LdsName(a, p)| == |LdsName(b, q)|;
    assert Dashed(LdsName(a, p))[|a|] == '-' && Dashed(LdsName(b, q))[|b|] == '-';
    if |a| < |b| {
      NoDashInPort(a, p, |b|);
    } else if |b| < |a| {
      NoDashInPort(b, q, |a|);
    }
  }

  lemma NoDashInPort(a: string, p: string, k: nat)
    requires IsNumber(p) && |a| < k < |LdsName(a, p)|
    ensures Dashed(LdsName(a, p))[k] != '-'
  {
    assert LdsName(a, p)[k] == p[k - |a| - 1];
  }

  /** Beyond addresses they can: the replacement is not injective. */
  lemma LdsNamesCanCollide()
    ensures LdsName("a:b", "80") != LdsName("a_b", "80")
    ensures FromLds(LdsName("a:b", "80")) == FromLds(LdsName("a_b", "80"))
  {
    var s, t := LdsName("a:b", "80"), LdsName("a_b", "80");
    assert s[1] != t[1];
    assert Dashed(s) == Dashed(t);
  }

  /** The three families of names are disjoint. */
  lemma NamesApart(v: VirtualHost, lds: string, ascii: ToAscii)
    ensures FromVirtualHost(v, ascii) != DEFAULT_HTTP_FILTER
    ensures FromLds(lds) != DEFAULT_HTTP_FILTER
    ensures FromVirtualHost(v, ascii) != FromLds(lds)
    ensures !(ROUTE_PREFIX <= FromLds(lds))
  {
    var h, l := FromVirtualHost(v, ascii), FromLds(lds);
    assert h[6] == ROUTE_PREFIX[6] == '-' && h[5] == ROUTE_PREFIX[5] == 'h';
    assert DEFAULT_HTTP_FILTER[6] == 't' && DEFAULT_HTTP_FILTER[5] == 'h';
    assert l[5] == LDS_PREFIX[5] == 'l';
  }
}
