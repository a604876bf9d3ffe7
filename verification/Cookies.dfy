/** Parsing the Cookie header, and printing cookies so that they parse back
    (sections 4.1.1 and 4.2.1 of RFC 6265, with the wider set of value bytes
    that Go accepts). */
module Cookies {
  import opened Strings
  import opened Options

  datatype Cookie = Cookie(name: string, value: string)

  /** A token character of section 3.2.6 of RFC 7230. */
  predicate IsTokenChar(c: char) {
    || 'a' <= c <= 'z' || 'A' <= c <= 'Z' || '0' <= c <= '9'
    || c in {'!', '#', '$', '%', '&', '\'', '*', '+', '-', '.', '^', '_', '`', '|', '~'}
  }

  /** The visible characters that are no delimiters of section 3.2.6 of RFC 7230. */
  lemma TokensAreNoDelimiters(c: char)
    ensures IsTokenChar(c) <==> '!' <= c <= '~' && c !in "(),/:;<=>?@[\\]{}\""
  {
    assert forall d :: d in "(),/:;<=>?@[\\]{}\"" <==>
      d == '(' || d == ')' || d == ',' || d == '/' || d == ':' || d == ';' || d == '<' || d == '=' || d == '>'
      || d == '?' || d == '@' || d == '[' || d == '\\' || d == ']' || d == '{' || d == '}' || d == '\"';
  }

  predicate IsCookieNameValid(raw: string) {
    raw != "" && forall i | 0 <= i < |raw| :: IsTokenChar(raw[i])
  }

  predicate ValidCookieValueByte(b: char) {
    ' ' <= b <= '~' && b != '"' && b != ';' && b != '\\'
  }

  /** A cookie-octet of section 4.1.1 of RFC 6265. */
  predicate IsCookieOctet(b: char) {
    b == '!' || '#' <= b <= '+' || '-' <= b <= ':' || '<' <= b <= '[' || ']' <= b <= '~'
  }

  /** Go accepts blank and comma besides. */
  lemma ValueBytesAreCookieOctets(b: char)
    ensures ValidCookieValueByte(b) <==> IsCookieOctet(b) || b == ' ' || b == ','
  {
  }

  predicate ValidValue(v: string) {
    forall i | 0 <= i < |v| :: ValidCookieValueByte(v[i])
  }

  predicate Valid(c: Cookie) { IsCookieNameValid(c.name) && ValidValue(c.value) }

  function Unquoted(raw: string): string {
    if |raw| > 1 && raw[0] == '"' && raw[|raw| - 1] == '"' then raw[1..|raw| - 1] else raw
  }

  method ParseCookieValue(raw: string) returns (r: Option<string>)
    ensures r == if ValidValue(Unquoted(raw)) then Some(Unquoted(raw)) else None
  {
    var v := raw;
    if |v| > 1 && v[0] == '"' && v[|v| - 1] == '"' {
      v := v[1..|v| - 1];
    }
    for i := 0 to |v|
      invariant forall k | 0 <= k < i :: ValidCookieValueByte(v[k])
    {
      if !ValidCookieValueByte(v[i]) {
        return None;
      }
    }
    return Some(v);
  }

  /** One part between semicolons; parts that are not cookies are ignored. */
  function ParsePart(part: string): seq<Cookie> {
    var (name, val) := Cut(Trim(part), '=');
    if IsCookieNameValid(Trim(name)) && ValidValue(Unquoted(val)) then [Cookie(Trim(name), Unquoted(val))] else []
  }

  function ParseLine(line: string): seq<Cookie>
    decreases |line|
  {
    if line == "" then []
    else
      var (part, rest) := Cut(line, ';');
      ParsePart(part) + ParseLine(rest)
  }

  function ParseLines(lines: seq<string>): seq<Cookie> {
    if lines == [] then [] else ParseLines(lines[..|lines| - 1]) + ParseLine(Trim(lines[|lines| - 1]))
  }

  /** `ParseCookies`, on the values of the Cookie header. */
  method ParseCookies(lines: seq<string>) returns (cookies: seq<Cookie>)
    ensures cookies == ParseLines(lines)
  {
    cookies := [];
    for i := 0 to |lines|
      invariant cookies == ParseLines(lines[..i])
    {
      assert lines[..i + 1][..i] == lines[..i];
      var more := ScanLine(Trim(lines[i]));
      cookies := cookies + more;
    }
    assert lines[..|lines|] == lines;
  }

  method ScanLine(whole: string) returns (cookies: seq<Cookie>)
    ensures cookies == ParseLine(whole)
  {
    hide ParsePart;
    hide Cut;
    cookies := [];
    var line := whole;
    while |line| > 0
      invariant ParseLine(whole) == cookies + ParseLine(line)
      decreases |line|
    {
      CutShortens(line, ';');
      var cut := Cut(line, ';');
      Regroup(cookies, ParsePart(cut.0), ParseLine(cut.1));
      line := cut.1;
      var part := Trim(cut.0);
      if part == "" {
        NothingIsNoCookie(cut.0);
        continue;
      }
      var c := ScanPart(cut.0, part);
      cookies := cookies + c;
    }
  }

  lemma CutShortens(s: string, sep: char)
    requires s != ""
    ensures |Cut(s, sep).1| < |s|
  {
  }

  lemma Regroup(a: seq<Cookie>, b: seq<Cookie>, c: seq<Cookie>)
    ensures a + (b + c) == (a + b) + c
    ensures b == [] ==> a + b == a
  {
  }

  method ScanPart(ghost raw: string, part: string) returns (cookies: seq<Cookie>)
    requires part == Trim(raw)
    ensures cookies == ParsePart(raw)
  {
    var pair := Cut(part, '=');
    var name := Trim(pair.0);
    if !IsCookieNameValid(name) {
      return [];
    }
    var val := ParseCookieValue(pair.1);
    if val.None? {
      return [];
    }
    return [Cookie(name, val.value)];
  }

  lemma NothingIsNoCookie(part: string)
    ensures Trim(part) == "" ==> ParsePart(part) == []
  {
  }

  // ------------------------------------------------------------------- printing

  /** `name=value`, or `name="value"`. */
  function PrintCookie(c: Cookie, quoted: bool): string {
    if quoted then c.name + "=" + ("\"" + c.value + "\"") else c.name + "=" + c.value
  }

  /** Without quotes a value must not contain a blank. */
  predicate Printable(c: Cookie, quoted: bool) {
    Valid(c) && (!quoted ==> ' ' !in c.value)
  }

  ghost predicate AllPrintable(cs: seq<Cookie>, quotes: seq<bool>) {
    |quotes| == |cs| && forall i | 0 <= i < |cs| :: Printable(cs[i], quotes[i])
  }

  /** The cookies joined with ";" or "; ". */
  function Print(cs: seq<Cookie>, quotes: seq<bool>, blank: string): string
    requires |quotes| == |cs|
  {
    if cs == [] then ""
    else if |cs| == 1 then PrintCookie(cs[0], quotes[0])
    else PrintCookie(cs[0], quotes[0]) + ";" + (blank + Print(cs[1..], quotes[1..], blank))
  }

  lemma TokenIsPlain(name: string)
    requires IsCookieNameValid(name)
    ensures '=' !in name && ';' !in name && Trim(name) == name
  {
    assert IsTokenChar(name[0]) && IsTokenChar(name[|name| - 1]);
    assert TrimLeft(name) == name;
  }

  lemma PrintedIsPlain(c: Cookie, quoted: bool)
    requires Printable(c, quoted)
    ensures var s := PrintCookie(c, quoted);
      s != "" && ';' !in s && !IsSpace(s[0]) && !IsSpace(s[|s| - 1])
  {
    var s := PrintCookie(c, quoted);
    TokenIsPlain(c.name);
    assert s[0] == c.name[0] && IsTokenChar(c.name[0]);
    forall i | 0 <= i < |s| ensures s[i] != ';' {
      PrintedChar(c, quoted, i);
    }
    PrintedChar(c, quoted, |s| - 1);
  }

  lemma PrintedChar(c: Cookie, quoted: bool, i: nat)
    requires Printable(c, quoted) && i < |PrintCookie(c, quoted)|
    ensures var ch := PrintCookie(c, quoted)[i];
      ch == '=' || ch == '"' || IsTokenChar(ch) || (ValidCookieValueByte(ch) && ch in c.value)
    ensures PrintCookie(c, quoted)[i] != ';'
    ensures i == |PrintCookie(c, quoted)| - 1 ==> !IsSpace(PrintCookie(c, quoted)[i])
  {
    var n := |c.name|;
    if i < n {
      assert PrintCookie(c, quoted)[i] == c.name[i];
    } else if quoted && n + 2 <= i < n + 2 + |c.value| {
      assert PrintCookie(c, quoted)[i] == c.value[i - n - 2];
    } else if !quoted && i > n {
      assert PrintCookie(c, quoted)[i] == c.value[i - n - 1];
    }
  }

  /** One printed cookie, with or without a blank before it, parses back. */
  lemma PartRoundTrip(c: Cookie, quoted: bool, blank: string)
    requires Printable(c, quoted) && (blank == "" || blank == " ")
    ensures ParsePart(blank + PrintCookie(c, quoted)) == [c]
  {
    var s := PrintCookie(c, quoted);
    var val := if quoted then "\"" + c.value + "\"" else c.value;
    PrintedIsPlain(c, quoted);
    TrimBlank(blank, s);
    TokenIsPlain(c.name);
    assert s == c.name + ['='] + val;
    CutAt(c.name, '=', val);
    ValueRoundTrip(c.value, quoted);
  }

  lemma ValueRoundTrip(v: string, quoted: bool)
    requires ValidValue(v)
    ensures Unquoted(if quoted then "\"" + v + "\"" else v) == v
  {
    var raw := "\"" + v + "\"";
    assert raw[1..|raw| - 1] == v;
  }

  lemma TrimBlank(blank: string, s: string)
    requires s != "" && !IsSpace(s[0]) && !IsSpace(s[|s| - 1])
    requires blank == "" || blank == " "
    ensures Trim(blank + s) == s
  {
    assert TrimLeft(s) == s && TrimRight(s) == s;
    if blank == " " {
      assert (blank + s)[1..] == s;
    } else {
      assert blank + s == s;
    }
  }

  /** Printing any list of valid cookies and parsing it gives the list back, in
      order and with repetitions. */
  lemma {:induction false} LineRoundTrip(cs: seq<Cookie>, quotes: seq<bool>, blank: string, before: string)
    requires AllPrintable(cs, quotes)
    requires (blank == "" || blank == " ") && (before == "" || before == blank)
    requires cs != []
    ensures ParseLine(before + Print(cs, quotes, blank)) == cs
    decreases |cs|
  {
    hide ParsePart;
    hide PrintCookie;
    assert Printable(cs[0], quotes[0]);
    var head := before + PrintCookie(cs[0], quotes[0]);
    var line := before + Print(cs, quotes, blank);
    PrintedIsPlain(cs[0], quotes[0]);
    PartRoundTrip(cs[0], quotes[0], before);
    assert ';' !in head;
    if |cs| == 1 {
      assert line == head;
      CutNone(head, ';');
    } else {
      var tail := blank + Print(cs[1..], quotes[1..], blank);
      assert line == head + [';'] + tail;
      CutAt(head, ';', tail);
      LineRoundTrip(cs[1..], quotes[1..], blank, blank);
      assert [cs[0]] + cs[1..] == cs;
    }
  }

  lemma PrintEnds(cs: seq<Cookie>, quotes: seq<bool>, blank: string)
    requires AllPrintable(cs, quotes) && cs != []
    ensures var s := Print(cs, quotes, blank); s != "" && !IsSpace(s[0]) && !IsSpace(s[|s| - 1])
    decreases |cs|
  {
    hide PrintCookie;
    assert Printable(cs[0], quotes[0]);
    PrintedIsPlain(cs[0], quotes[0]);
    if |cs| > 1 {
      PrintEnds(cs[1..], quotes[1..], blank);
    }
  }

  lemma RoundTrip(cs: seq<Cookie>, quotes: seq<bool>, blank: string)
    requires AllPrintable(cs, quotes) && (blank == "" || blank == " ")
    ensures ParseLines([Print(cs, quotes, blank)]) == cs
  {
    var s := Print(cs, quotes, blank);
    assert [s][..0] == [];
    if cs != [] {
      PrintEnds(cs, quotes, blank);
      TrimBlank("", s);
      assert "" + s == s;
      LineRoundTrip(cs, quotes, blank, "");
    }
  }

  // --------------------------------------------------------- what a parse yields

  lemma {:induction false} LineIsValid(line: string)
    ensures forall c | c in ParseLine(line) :: Valid(c)
    decreases |line|
  {
    if line != "" {
      LineIsValid(Cut(line, ';').1);
    }
  }

  lemma {:induction false} ParsedIsValid(lines: seq<string>)
    ensures forall c | c in ParseLines(lines) :: Valid(c)
  {
    if lines != [] {
      ParsedIsValid(lines[..|lines| - 1]);
      LineIsValid(Trim(lines[|lines| - 1]));
    }
  }

  /** Whatever the header held, printing what was parsed and parsing again
      changes nothing: the way to rewrite cookies loses none. */
  lemma Normalised(lines: seq<string>)
    ensures var cs := ParseLines(lines);
      ParseLines([Print(cs, seq(|cs|, i => true), " ")]) == cs
  {
    var cs := ParseLines(lines);
    ParsedIsValid(lines);
    RoundTrip(cs, seq(|cs|, i => true), " ");
  }
}
