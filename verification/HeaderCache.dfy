/** The request headers as plugins see them: the URL and the cookies are parsed
    on demand and cached until the header they come from changes. */
module HeaderCache {
  import opened Options
  import opened Strings
  import opened Cookies

  /** A parsed URL is opaque. */
  type Url = int

  type UriParser = string -> Option<Url>

  /** Envoy's header map: keys are lower-case. */
  type Headers = map<string, seq<string>>

  function Values(h: Headers, key: string): seq<string> {
    if key in h then h[key] else []
  }

  function PathOf(h: Headers): string {
    var v := Values(h, ":path");
    if v == [] then "" else v[0]
  }

  /** By name, the last cookie wins. */
  function LastWins(cs: seq<Cookie>): map<string, Cookie> {
    if cs == [] then map[] else LastWins(cs[..|cs| - 1])[cs[|cs| - 1].name := cs[|cs| - 1]]
  }

  ghost predicate LastNamed(cs: seq<Cookie>, name: string, i: int) {
    0 <= i < |cs| && cs[i].name == name && forall j | i < j < |cs| :: cs[j].name != name
  }

  /** The map holds, for every name, the last cookie of that name. */
  lemma {:induction false} LastWinsIsLast(cs: seq<Cookie>, name: string)
    ensures name in LastWins(cs) <==> exists i :: 0 <= i < |cs| && cs[i].name == name
    ensures name in LastWins(cs) ==> exists i :: LastNamed(cs, name, i) && LastWins(cs)[name] == cs[i]
  {
    if cs != [] {
      var n := |cs| - 1;
      LastWinsIsLast(cs[..n], name);
      if cs[n].name == name {
        assert LastNamed(cs, name, n);
      } else {
        if name in LastWins(cs[..n]) {
          var i :| LastNamed(cs[..n], name, i) && LastWins(cs[..n])[name] == cs[..n][i];
          assert LastNamed(cs, name, i);
        }
        forall i | 0 <= i < |cs| && cs[i].name == name ensures name in LastWins(cs) {
          assert cs[..n][i].name == name;
        }
      }
    }
  }

  ghost predicate IsLastNamed(cs: seq<Cookie>, name: string, r: Option<Cookie>) {
    if r.None? then forall i | 0 <= i < |cs| :: cs[i].name != name
    else exists i :: LastNamed(cs, name, i) && r.value == cs[i]
  }

  lemma LastWinsFinds(cs: seq<Cookie>, name: string)
    ensures IsLastNamed(cs, name, if name in LastWins(cs) then Some(LastWins(cs)[name]) else None)
  {
    LastWinsIsLast(cs, name);
  }

  method ByName(list: seq<Cookie>) returns (byName: map<string, Cookie>)
    ensures byName == LastWins(list)
  {
    byName := map[];
    for i := 0 to |list|
      invariant byName == LastWins(list[..i])
    {
      assert list[..i + 1][..i] == list[..i];
      byName := byName[list[i].name := list[i]];
    }
    assert list[..|list|] == list;
  }

  class RequestHeaderMap {
    const parseUri: UriParser
    var headers: Headers
    var u: Option<Url>
    var cookies: Option<map<string, Cookie>>

    /** A cached value is what a fresh parse would give. */
    ghost predicate Valid()
      reads this
    {
      && (u.Some? ==> parseUri(PathOf(headers)) == u)
      && (cookies.Some? ==> cookies.value == LastWins(ParseLines(Values(headers, "cookie"))))
    }

    constructor (parseUri: UriParser, headers: Headers)
      ensures Valid() && this.parseUri == parseUri && this.headers == headers
    {
      this.parseUri, this.headers := parseUri, headers;
      u, cookies := None, None;
    }

    method Expire(key: string)
      modifies `u, `cookies
      ensures u == (if key == ":path" then None else old(u))
      ensures cookies == (if key == "cookie" then None else old(cookies))
    {
      match key {
        case ":path" => u := None;
        case "cookie" => cookies := None;
        case _ =>
      }
    }

    method Set(key: string, value: string)
      requires Valid()
      modifies this
      ensures Valid() && headers == old(headers)[Lower(key) := [value]]
    {
      var k := Lower(key);
      Expire(k);
      headers := headers[k := [value]];
    }

    method Add(key: string, value: string)
      requires Valid()
      modifies this
      ensures Valid() && headers == old(headers)[Lower(key) := Values(old(headers), Lower(key)) + [value]]
    {
      var k := Lower(key);
      Expire(k);
      headers := headers[k := Values(headers, k) + [value]];
    }

    method Del(key: string)
      requires Valid()
      modifies this
      ensures Valid() && headers == old(headers) - {Lower(key)}
    {
      var k := Lower(key);
      Expire(k);
      headers := headers - {k};
    }

    /** None stands for the panic on a path that does not parse. */
    method URL() returns (r: Option<Url>)
      requires Valid()
      modifies `u
      ensures Valid()
      ensures r == parseUri(if ":path" in headers && headers[":path"] != [] then headers[":path"][0] else "")
    {
      if u.None? {
        var parsed := parseUri(PathOf(headers));
        if parsed.None? {
          return None;
        }
        u := parsed;
      }
      r := u;
    }

    /** The last cookie of that name, if any. */
    method GetCookie(name: string) returns (r: Option<Cookie>)
      requires Valid()
      modifies `cookies
      ensures Valid()
      ensures IsLastNamed(ParseLines(if "cookie" in headers then headers["cookie"] else []), name, r)
    {
      hide ParseLines;
      hide LastWins;
      hide LastNamed;
      if cookies.None? {
        var list := ParseCookies(Values(headers, "cookie"));
        var byName := ByName(list);
        cookies := Some(byName);
      }
      LastWinsFinds(ParseLines(Values(headers, "cookie")), name);
      r := if name in cookies.value then Some(cookies.value[name]) else None;
    }

    /** `SetPath` reaches Envoy's map without passing the cache: the URL stays
        right exactly when it was not cached, or the new path parses alike. */
    method SetPath(path: string)
      requires Valid()
      modifies `headers
      ensures headers == old(headers)[":path" := [path]]
      ensures Valid() <==> u.None? || parseUri(path) == u
    {
      headers := headers[":path" := [path]];
    }
  }
}
