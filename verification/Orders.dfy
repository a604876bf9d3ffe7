/** Orderings shared by the data plane and the controller: Go's string order,
    the plugin order of `plugins.go`, and what `sort.Slice` guarantees. */
module Orders {

  // ---------------------------------------------------------------- strings

  /** `a < b` on Go strings: lexicographic. */
  predicate StrLess(a: string, b: string) {
    if |b| == 0 then false
    else if |a| == 0 then true
    else if a[0] != b[0] then a[0] < b[0]
    else StrLess(a[1..], b[1..])
  }

  lemma {:induction false} StrLessConnected(a: string, b: string)
    ensures a == b || StrLess(a, b) || StrLess(b, a)
  {
    if |a| > 0 && |b| > 0 && a[0] == b[0] {
      StrLessConnected(a[1..], b[1..]);
      assert a == [a[0]] + a[1..] && b == [b[0]] + b[1..];
    }
  }

  lemma {:induction false} StrLessIrreflexive(a: string)
    ensures !StrLess(a, a)
  {
    if |a| > 0 {
      StrLessIrreflexive(a[1..]);
    }
  }

  lemma {:induction false} StrLessTransitive(a: string, b: string, c: string)
    requires StrLess(a, b) && StrLess(b, c)
    ensures StrLess(a, c)
  {
    if |a| > 0 && a[0] == b[0] && b[0] == c[0] {
      StrLessTransitive(a[1..], b[1..], c[1..]);
    }
  }

  /** a and b agree on the first k characters; then a ends, or has the smaller one. */
  ghost predicate SmallerAt(a: string, b: string, k: nat) {
    && k <= |a| && k < |b| && a[..k] == b[..k]
    && (k < |a| ==> a[k] < b[k])
  }

  lemma {:induction false} StrLessIsLexicographic(a: string, b: string)
    ensures StrLess(a, b) <==> exists k: nat :: SmallerAt(a, b, k)
  {
    if |b| > 0 && |a| == 0 {
      assert SmallerAt(a, b, 0);
    } else if |b| > 0 && a[0] != b[0] {
      if a[0] < b[0] { assert SmallerAt(a, b, 0); }
      forall k: nat | SmallerAt(a, b, k) ensures a[0] < b[0] {
        assert k > 0 ==> a[..k][0] == b[..k][0];
      }
    } else if |b| > 0 {
      StrLessIsLexicographic(a[1..], b[1..]);
      if k: nat :| SmallerAt(a[1..], b[1..], k) {
        assert a[..k + 1] == [a[0]] + a[1..][..k] && b[..k + 1] == [b[0]] + b[1..][..k];
        assert SmallerAt(a, b, k + 1);
      }
      if k: nat :| SmallerAt(a, b, k) {
        assert a[1..][..k - 1] == a[..k][1..] && b[1..][..k - 1] == b[..k][1..];
        assert SmallerAt(a[1..], b[1..], k - 1);
      }
    }
  }

  /** `cmp.Compare` on strings. */
  function StrCompare(a: string, b: string): int {
    if a == b then 0 else if StrLess(a, b) then -1 else 1
  }

  lemma StrLessIsStrictTotal(s: set<string>)
    ensures StrictTotalOn(StrLess, s)
  {
    forall x | x in s ensures !StrLess(x, x) { StrLessIrreflexive(x); }
    forall x, y | x in s && y in s && x != y ensures StrLess(x, y) || StrLess(y, x) {
      StrLessConnected(x, y);
    }
    forall x, y, z | x in s && y in s && z in s && StrLess(x, y) && StrLess(y, z) ensures StrLess(x, z) {
      StrLessTransitive(x, y, z);
    }
  }

  // ----------------------------------------------------------- plugin order

  datatype PluginOrder = PluginOrder(position: int, operation: int)

  /** The registered plugin types (`pluginTypes`). */
  type Registry = map<string, PluginOrder>

  const POSITION_OUTER := 2
  const POSITION_ACCESS := 3
  const POSITION_AUTHN := 4
  const POSITION_INNER := 11

  const INSERT_FIRST := -1
  const INSERT_LAST := 1

  function ComparePluginOrderInt(reg: Registry, a: string, b: string): int {
    if a !in reg || b !in reg then StrCompare(a, b)
    else if reg[a].position != reg[b].position then reg[a].position - reg[b].position
    else if reg[a].operation != reg[b].operation then reg[a].operation - reg[b].operation
    else StrCompare(a, b)
  }

  predicate ComparePluginOrder(reg: Registry, a: string, b: string) {
    ComparePluginOrderInt(reg, a, b) < 0
  }

  /** The comparison as a value, for `sort.Slice`. */
  function PluginLess(reg: Registry): (string, string) -> bool {
    (a, b) => ComparePluginOrder(reg, a, b)
  }

  /** Groups come in the order of their positions; inside a group the plugins to
      be inserted first lead, those to be inserted last follow, and plugins of
      the same kind are in alphabetical order. */
  lemma GroupsAndInsertions(reg: Registry, a: string, b: string)
    requires a in reg && b in reg
    ensures reg[a].position < reg[b].position ==> ComparePluginOrder(reg, a, b)
    ensures reg[a].position == reg[b].position && reg[a].operation == INSERT_FIRST < reg[b].operation ==>
      ComparePluginOrder(reg, a, b)
    ensures reg[a].position == reg[b].position && reg[a].operation < INSERT_LAST == reg[b].operation ==>
      ComparePluginOrder(reg, a, b)
    ensures reg[a] == reg[b] ==> (ComparePluginOrder(reg, a, b) <==> StrLess(a, b))
    ensures ComparePluginOrder(reg, a, b) ==> !ComparePluginOrder(reg, b, a)
  {
    ComparePluginOrderConnected(reg, a, b);
    StrLessIrreflexive(a);
  }

  lemma ComparePluginOrderConnected(reg: Registry, a: string, b: string)
    ensures !ComparePluginOrder(reg, a, a)
    ensures a != b ==> (ComparePluginOrder(reg, a, b) <==> !ComparePluginOrder(reg, b, a))
  {
    StrLessConnected(a, b);
    if StrLess(a, b) && StrLess(b, a) {
      StrLessTransitive(a, b, a);
      StrLessIrreflexive(a);
    }
  }

  /** Two registered names whose group order contradicts the place an
      unregistered name takes between them by name. */
  ghost predicate StraddledBy(reg: Registry, a: string, u: string, b: string) {
    && a in reg && b in reg && u !in reg
    && StrLess(a, u) && StrLess(u, b)
    && ComparePluginOrder(reg, b, a)
  }

  /** The name-order fallback is harmless exactly when no unregistered name
      straddles two registered ones the other way round. */
  ghost predicate NoStraddle(reg: Registry, s: set<string>) {
    forall a, u, b | a in s && u in s && b in s :: !StraddledBy(reg, a, u, b)
  }

  lemma ComparePluginOrderTransitive(reg: Registry, s: set<string>, a: string, b: string, c: string)
    requires NoStraddle(reg, s)
    requires a in s && b in s && c in s
    requires ComparePluginOrder(reg, a, b) && ComparePluginOrder(reg, b, c)
    ensures ComparePluginOrder(reg, a, c)
  {
    if !ComparePluginOrder(reg, a, c) {
      ComparePluginOrderConnected(reg, a, b);
      ComparePluginOrderConnected(reg, a, c);
      ComparePluginOrderConnected(reg, b, c);
      assert ComparePluginOrder(reg, c, a);
      assert !StraddledBy(reg, a, b, c) && !StraddledBy(reg, b, c, a) && !StraddledBy(reg, c, a, b);
      if StrLess(a, b) && StrLess(b, c) { StrLessTransitive(a, b, c); }
      if StrLess(b, c) && StrLess(c, a) { StrLessTransitive(b, c, a); }
      if StrLess(c, a) && StrLess(a, b) { StrLessTransitive(c, a, b); }
      if StrLess(a, c) && StrLess(c, a) { StrLessTransitive(a, c, a); StrLessIrreflexive(a); }
      if StrLess(b, a) && StrLess(a, b) { StrLessTransitive(a, b, a); StrLessIrreflexive(a); }
      if StrLess(c, b) && StrLess(b, c) { StrLessTransitive(b, c, b); StrLessIrreflexive(b); }
      assert false;
    }
  }

  /** ComparePluginOrder is a strict total order on a set of names exactly when
      no unregistered name straddles two registered ones. */
  lemma ComparePluginOrderIsStrictTotalIff(reg: Registry, s: set<string>)
    ensures StrictTotalOn(PluginLess(reg), s) <==> NoStraddle(reg, s)
  {
    var less := PluginLess(reg);
    forall x, y | x in s && y in s && x != y ensures !less(x, x) && (less(x, y) || less(y, x)) {
      ComparePluginOrderConnected(reg, x, y);
    }
    forall x | x in s ensures !less(x, x) {
      ComparePluginOrderConnected(reg, x, x);
    }
    if NoStraddle(reg, s) {
      forall x, y, z | x in s && y in s && z in s && less(x, y) && less(y, z) ensures less(x, z) {
        ComparePluginOrderTransitive(reg, s, x, y, z);
      }
    } else {
      var a, u, b :| a in s && u in s && b in s && StraddledBy(reg, a, u, b);
      StrLessIrreflexive(a);
      StrLessIrreflexive(b);
      assert less(a, u) && less(u, b) && less(b, a);
      ComparePluginOrderConnected(reg, a, b);
      assert !less(a, b);
    }
  }

  /** With every name registered the order is strict and total. */
  lemma RegisteredNamesAreTotallyOrdered(reg: Registry, s: set<string>)
    requires s <= reg.Keys
    ensures StrictTotalOn(PluginLess(reg), s)
  {
    ComparePluginOrderIsStrictTotalIff(reg, s);
  }

  // ---------------------------------------------------------------- sorting

  /** Strict total order on the members of s. */
  ghost predicate StrictTotalOn<T(!new)>(less: (T, T) -> bool, s: set<T>) {
    && (forall x | x in s :: !less(x, x))
    && (forall x, y | x in s && y in s && x != y :: less(x, y) || less(y, x))
    && (forall x, y, z | x in s && y in s && z in s && less(x, y) && less(y, z) :: less(x, z))
  }

  ghost predicate SortedBy<T(!new)>(less: (T, T) -> bool, s: seq<T>) {
    forall i, j | 0 <= i < j < |s| :: !less(s[j], s[i])
  }

  function Elems<T>(s: seq<T>): set<T> {
    set x | x in s
  }

  lemma ElemsConcat<T>(s: seq<T>, t: seq<T>)
    ensures Elems(s + t) == Elems(s) + Elems(t)
  {
    forall x | x in Elems(s) + Elems(t) ensures x in Elems(s + t) {
      assert x in s + t;
    }
  }

  lemma ElemsSnoc<T>(s: seq<T>, x: T)
    ensures Elems(s + [x]) == Elems(s) + {x}
  {
    ElemsConcat(s, [x]);
    assert Elems([x]) == {x};
  }

  ghost predicate Distinct<T(!new)>(s: seq<T>) {
    forall i, j | 0 <= i < j < |s| :: s[i] != s[j]
  }

  lemma DistinctConcat<T(!new)>(s: seq<T>, t: seq<T>)
    requires Distinct(s) && Distinct(t) && forall x | x in s :: x !in t
    ensures Distinct(s + t)
  {
    forall i, j | 0 <= i < j < |s + t| ensures (s + t)[i] != (s + t)[j] {
      if i < |s| <= j {
        assert s[i] in s && t[j - |s|] in t;
      }
    }
  }

  /** What `sort.Slice` promises: a permutation, sorted when the comparison is an order. */
  ghost predicate IsSortOf<T(!new)>(t: seq<T>, s: seq<T>, less: (T, T) -> bool) {
    && multiset(t) == multiset(s)
    && (StrictTotalOn(less, Elems(s)) ==> SortedBy(less, t))
  }

  function Insert<T>(s: seq<T>, x: T, less: (T, T) -> bool): (t: seq<T>)
    ensures multiset(t) == multiset(s) + multiset{x}
  {
    if s == [] then [x]
    else if less(x, s[0]) then assert [x] + s == [x] + s; [x] + s
    else
      assert s == [s[0]] + s[1..];
      [s[0]] + Insert(s[1..], x, less)
  }

  lemma {:induction false} InsertSorted<T(!new)>(s: seq<T>, x: T, less: (T, T) -> bool)
    requires StrictTotalOn(less, Elems(s) + {x})
    requires SortedBy(less, s)
    ensures SortedBy(less, Insert(s, x, less))
  {
    if s != [] && !less(x, s[0]) {
      assert Elems(s[1..]) + {x} <= Elems(s) + {x};
      InsertSorted(s[1..], x, less);
      var rest := Insert(s[1..], x, less);
      forall j | 0 <= j < |rest| ensures !less(rest[j], s[0]) {
        assert rest[j] in multiset(rest);
        assert rest[j] == x || rest[j] in s[1..];
      }
    } else if s != [] {
      forall j | 0 <= j < |s| ensures !less(s[j], x) {
        assert s[j] in Elems(s) && s[0] in Elems(s);
        assert j == 0 || !less(s[j], s[0]);
      }
    }
  }

  function InsertionSort<T>(s: seq<T>, less: (T, T) -> bool): (t: seq<T>)
    ensures multiset(t) == multiset(s)
  {
    if s == [] then []
    else
      assert s == [s[0]] + s[1..];
      Insert(InsertionSort(s[1..], less), s[0], less)
  }

  lemma {:induction false} InsertionSortSorted<T(!new)>(s: seq<T>, less: (T, T) -> bool)
    requires StrictTotalOn(less, Elems(s))
    ensures SortedBy(less, InsertionSort(s, less))
  {
    if s != [] {
      assert Elems(s[1..]) <= Elems(s);
      InsertionSortSorted(s[1..], less);
      var rest := InsertionSort(s[1..], less);
      assert Elems(rest) + {s[0]} <= Elems(s) by { ElemsOfPermutation(rest, s[1..]); }
      InsertSorted(rest, s[0], less);
    }
  }

  lemma ElemsOfPermutation<T>(t: seq<T>, s: seq<T>)
    requires multiset(t) == multiset(s)
    ensures |t| == |s| && Elems(t) == Elems(s)
  {
    assert |t| == |multiset(t)| && |s| == |multiset(s)|;
    forall x ensures x in t <==> x in s {
      assert x in t <==> x in multiset(t);
      assert x in s <==> x in multiset(s);
    }
  }

  /** `sort.Slice`: callers know only what IsSortOf says. */
  method SortSlice<T(!new)>(s: seq<T>, less: (T, T) -> bool) returns (t: seq<T>)
    ensures IsSortOf(t, s, less)
  {
    t := InsertionSort(s, less);
    if StrictTotalOn(less, Elems(s)) {
      InsertionSortSorted(s, less);
    }
  }

  /** The members of a set, or the keys of a Go map, in whatever order `range` yields them. */
  method AnyOrder<T(!new,==)>(s: set<T>) returns (l: seq<T>)
    ensures Distinct(l) && Elems(l) == s
  {
    l := [];
    var todo := s;
    while todo != {}
      invariant todo <= s && Distinct(l) && Elems(l) == s - todo
      decreases todo
    {
      var x :| x in todo;
      assert x !in Elems(l);
      ElemsConcat(l, [x]);
      l := l + [x];
      todo := todo - {x};
    }
  }

  /** One step along such a walk. */
  lemma Walk<T(!new)>(l: seq<T>, i: nat)
    requires Distinct(l) && i < |l|
    ensures l[i] in Elems(l) && l[i] !in Elems(l[..i])
    ensures Elems(l[..i + 1]) == Elems(l[..i]) + {l[i]}
  {
    assert l[..i + 1] == l[..i] + [l[i]];
    ElemsSnoc(l[..i], l[i]);
  }

  lemma WalkEnds<T>(l: seq<T>)
    ensures Elems(l[..0]) == {} && l[..|l|] == l
  {
  }

  /** Two sorted lists without repetitions and with the same members are equal. */
  lemma SameMembersSameSort<T(!new)>(t: seq<T>, u: seq<T>, less: (T, T) -> bool)
    requires Distinct(t) && Distinct(u) && StrictTotalOn(less, Elems(t))
    requires SortedBy(less, t) && SortedBy(less, u)
    requires forall x :: x in t <==> x in u
    ensures t == u
  {
    DistinctIffMultiset(t);
    DistinctIffMultiset(u);
    forall x ensures multiset(t)[x] == multiset(u)[x] {
      assert x in t <==> x in multiset(t);
      assert x in u <==> x in multiset(u);
    }
    SortIsCanonical(t, u, less);
  }

  lemma SortedHeadIsLeast<T(!new)>(t: seq<T>, x: T, less: (T, T) -> bool)
    requires StrictTotalOn(less, Elems(t)) && SortedBy(less, t)
    requires x in t
    ensures x == t[0] || less(t[0], x)
  {
    var i :| 0 <= i < |t| && t[i] == x;
    assert t[0] in Elems(t) && x in Elems(t);
    assert i == 0 || !less(t[i], t[0]);
  }

  /** Two sorted permutations are equal: the result of a sort does not depend
      on the algorithm, nor on the order of its input. */
  lemma {:induction false} SortIsCanonical<T(!new)>(t: seq<T>, u: seq<T>, less: (T, T) -> bool)
    requires multiset(t) == multiset(u)
    requires StrictTotalOn(less, Elems(t))
    requires SortedBy(less, t) && SortedBy(less, u)
    ensures t == u
  {
    ElemsOfPermutation(t, u);
    if t != [] {
      assert t[0] in Elems(u) && u[0] in Elems(t);
      SortedHeadIsLeast(t, u[0], less);
      SortedHeadIsLeast(u, t[0], less);
      assert t[0] == u[0];
      TailsAgree(t, u, less);
      SortIsCanonical(t[1..], u[1..], less);
    }
  }

  lemma TailsAgree<T(!new)>(t: seq<T>, u: seq<T>, less: (T, T) -> bool)
    requires t != [] && u != [] && t[0] == u[0] && multiset(t) == multiset(u)
    requires StrictTotalOn(less, Elems(t))
    ensures multiset(t[1..]) == multiset(u[1..])
    ensures StrictTotalOn(less, Elems(t[1..]))
    ensures t[1..] == u[1..] ==> t == u
  {
    assert t == [t[0]] + t[1..] && u == [u[0]] + u[1..];
    assert multiset(t[1..]) == multiset(t) - multiset{t[0]};
    assert multiset(u[1..]) == multiset(u) - multiset{u[0]};
    assert Elems(t[1..]) <= Elems(t);
  }

  lemma {:induction false} DistinctIffMultiset<T(!new)>(s: seq<T>)
    ensures Distinct(s) <==> forall x :: multiset(s)[x] <= 1
  {
    if s != [] {
      var rest := s[1..];
      assert s == [s[0]] + rest;
      DistinctIffMultiset(rest);
      assert multiset(s) == multiset{s[0]} + multiset(rest);
      if Distinct(s) {
        forall i, j | 0 <= i < j < |rest| ensures rest[i] != rest[j] { assert s[i+1] != s[j+1]; }
        assert s[0] !in rest;
      } else if Distinct(rest) {
        var i, j :| 0 <= i < j < |s| && s[i] == s[j];
        assert i == 0 by { assert forall x, y | 0 <= x < y < |rest| :: s[x+1] == rest[x] && s[y+1] == rest[y]; }
        assert s[0] == rest[j-1];
        assert multiset(s)[s[0]] > 1 by { assert s[0] in multiset(rest); }
      } else {
        var x :| multiset(rest)[x] > 1;
        assert multiset(s)[x] > 1;
      }
    }
  }

  lemma DistinctPermutation<T(!new)>(t: seq<T>, s: seq<T>)
    requires multiset(t) == multiset(s) && Distinct(s)
    ensures Distinct(t)
  {
    DistinctIffMultiset(s);
    DistinctIffMultiset(t);
  }
}
