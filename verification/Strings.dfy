/** Joining strings with separators, and when the parts can be told apart again. */
module Strings {

  function Digit(n: nat): (c: char)
    requires n < 10
    ensures '0' <= c <= '9'
  {
    '0' + n as char
  }

  /** `%d` of a natural number. */
  function Decimal(n: nat): (s: string)
    ensures s != "" && forall i | 0 <= i < |s| :: '0' <= s[i] <= '9'
  {
    if n < 10 then [Digit(n)] else Decimal(n / 10) + [Digit(n % 10)]
  }

  /** The number a string of digits stands for. */
  function ValueOf(s: string): nat
    requires forall i | 0 <= i < |s| :: '0' <= s[i] <= '9'
  {
    if s == "" then 0 else 10 * ValueOf(s[..|s| - 1]) + (s[|s| - 1] as nat - '0' as nat)
  }

  /** The digits are those of the number, and the first is not zero unless it is the only one. */
  lemma {:induction false} DecimalReads(n: nat)
    ensures ValueOf(Decimal(n)) == n
    ensures |Decimal(n)| > 1 ==> Decimal(n)[0] != '0'
  {
    if n < 10 {
      ReadOneMore("", n);
    } else {
      DecimalReads(n / 10);
      ReadOneMore(Decimal(n / 10), n % 10);
      hide ValueOf;
      assert Decimal(n) == Decimal(n / 10) + [Digit(n % 10)];
      FirstDigit(n / 10);
    }
  }

  lemma ReadOneMore(s: string, d: nat)
    requires d < 10 && forall i | 0 <= i < |s| :: '0' <= s[i] <= '9'
    ensures ValueOf(s + [Digit(d)]) == 10 * ValueOf(s) + d
  {
    assert (s + [Digit(d)])[..|s|] == s;
  }

  lemma FirstDigit(n: nat)
    ensures 0 < n < 10 ==> Decimal(n)[0] != '0'
  {
  }

  lemma {:induction false} DecimalLong(n: nat)
    ensures n >= 10 ==> |Decimal(n)| >= 2
    ensures n < 10 ==> |Decimal(n)| == 1
  {
  }

  lemma {:induction false} DecimalInjective(m: nat, n: nat)
    requires Decimal(m) == Decimal(n)
    ensures m == n
  {
    DecimalLong(m);
    DecimalLong(n);
    if m >= 10 {
      var s := Decimal(m);
      assert s[..|s| - 1] == Decimal(m / 10) == Decimal(n / 10);
      assert s[|s| - 1] == Digit(m % 10) == Digit(n % 10);
      DecimalInjective(m / 10, n / 10);
    }
  }

  lemma DecimalHasNo(n: nat, c: char)
    requires !('0' <= c <= '9')
    ensures c !in Decimal(n)
  {
  }

  /** The part before the first separator is determined. */
  lemma {:induction false} SplitUnique(a: string, sep: char, b: string, c: string, d: string)
    requires sep !in a && sep !in c && a + [sep] + b == c + [sep] + d
    ensures a == c && b == d
  {
    var l, r := a + [sep] + b, c + [sep] + d;
    assert l[0] == r[0];
    assert a != "" ==> a[0] in a;
    assert c != "" ==> c[0] in c;
    if a != "" && c != "" {
      assert l[1..] == a[1..] + [sep] + b && r[1..] == c[1..] + [sep] + d;
      SplitUnique(a[1..], sep, b, c[1..], d);
      assert a == [a[0]] + a[1..] && c == [c[0]] + c[1..];
    } else {
      assert l[1..] == b && r[1..] == d;
    }
  }

  function IndexOf(s: string, c: char): (i: int)
    ensures -1 <= i < |s|
    ensures i >= 0 ==> s[i] == c
    ensures forall k | 0 <= k < (if i < 0 then |s| else i) :: s[k] != c
  {
    if s == "" then -1 else if s[0] == c then 0
    else var r := IndexOf(s[1..], c); if r < 0 then -1 else r + 1
  }

  /** strings.Cut */
  function Cut(s: string, sep: char): (string, string) {
    var i := IndexOf(s, sep);
    if i < 0 then (s, "") else (s[..i], s[i + 1..])
  }

  lemma CutAt(a: string, sep: char, b: string)
    requires sep !in a
    ensures Cut(a + [sep] + b, sep) == (a, b)
  {
    hide IndexOf;
    var s := a + [sep] + b;
    var i := IndexOf(s, sep);
    assert s[|a|] == sep && s[..|a|] == a && s[|a| + 1..] == b;
    forall k | 0 <= k < |a| ensures s[k] != sep {
      assert s[k] == a[k];
    }
  }

  lemma CutNone(a: string, sep: char)
    requires sep !in a
    ensures Cut(a, sep) == (a, "")
  {
  }

  predicate IsSpace(c: char) { c == ' ' || c == '\t' || c == '\n' || c == '\r' }

  function TrimLeft(s: string): (t: string)
    ensures |t| <= |s| && (t != "" ==> !IsSpace(t[0]))
  {
    if s != "" && IsSpace(s[0]) then TrimLeft(s[1..]) else s
  }

  function TrimRight(s: string): (t: string)
    ensures t <= s && (t != "" ==> !IsSpace(t[|t| - 1]))
  {
    if s != "" && IsSpace(s[|s| - 1]) then TrimRight(s[..|s| - 1]) else s
  }

  /** textproto.TrimString */
  function Trim(s: string): string { TrimRight(TrimLeft(s)) }

  predicate Blank(s: string) { forall i | 0 <= i < |s| :: s[i] in {' ', '\t', '\n', '\r'} }

  /** Blanks, tabs and line ends are trimmed off both ends, and nothing else is. */
  lemma {:induction false} TrimTrims(a: string, s: string, b: string)
    requires Blank(a) && Blank(b)
    requires s != "" ==> s[0] !in {' ', '\t', '\n', '\r'} && s[|s| - 1] !in {' ', '\t', '\n', '\r'}
    ensures Trim(a + s + b) == s
    decreases |a| + |b|
  {
    if a != "" {
      assert (a + s + b)[1..] == a[1..] + s + b && IsSpace((a + s + b)[0]);
      TrimTrims(a[1..], s, b);
    } else if s != "" {
      assert a + s + b == s + b && TrimLeft(s + b) == s + b;
      TrimRightTrims(s, b);
    } else {
      TrimLeftTrims(b);
      assert a + s + b == b;
    }
  }

  lemma {:induction false} TrimRightTrims(s: string, b: string)
    requires Blank(b) && s != "" && !IsSpace(s[|s| - 1])
    ensures TrimRight(s + b) == s
  {
    if b == "" {
      assert s + b == s;
    } else {
      assert (s + b)[..|s + b| - 1] == s + b[..|b| - 1] && IsSpace((s + b)[|s + b| - 1]);
      TrimRightTrims(s, b[..|b| - 1]);
    }
  }

  lemma {:induction false} TrimLeftTrims(b: string)
    requires Blank(b)
    ensures TrimLeft(b) == ""
  {
    if b != "" {
      TrimLeftTrims(b[1..]);
    }
  }

  function LowerChar(c: char): char {
    if 'A' <= c <= 'Z' then (c as int - 'A' as int + 'a' as int) as char else c
  }

  function Lower(s: string): string {
    seq(|s|, i requires 0 <= i < |s| => LowerChar(s[i]))
  }
}
