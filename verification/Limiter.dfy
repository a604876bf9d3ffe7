/** The fixed-window limiter: the Redis script, the verdict on a request, and
    the quota headers. Times are milliseconds. */
module Limiter {
  import opened Options
  import opened Strings

  const MAX_UINT32 := 0xFFFF_FFFF

  /** `count` requests in each window of `window` seconds. */
  datatype Rule = Rule(count: nat, window: nat) {
    predicate Valid() { 1 <= count <= MAX_UINT32 && window >= 1 }

    function Span(): int { 1000 * window }
  }

  datatype Entry = Entry(value: int, expireAt: int)

  /** One run of the script on one key. `gone`: Redis has expired the key by now. */
  datatype Call = Call(now: int, gone: bool)

  datatype Reply = Reply(remain: int, ttl: int)

  /** Redis never expires a key early; at the very instant it may have or not. */
  predicate Expires(e: Option<Entry>, c: Call) {
    e.Some? ==> (if c.gone then c.now >= e.value.expireAt else c.now <= e.value.expireAt)
  }

  /** The script, for one key. */
  function Script(rule: Rule, e: Option<Entry>, c: Call): Entry {
    if e.None? || c.gone then Entry(rule.count - 1, c.now + rule.Span())
    else Entry(e.value.value - 1, e.value.expireAt)
  }

  /** `ttl` answers seconds, rounded. */
  function ReplyOf(rule: Rule, e: Option<Entry>, c: Call): Reply {
    Reply(Script(rule, e, c).value,
          if e.None? || c.gone then rule.window else (e.value.expireAt - c.now + 500) / 1000)
  }

  // -------------------------------------------------------- the life of one key

  function After(rule: Rule, calls: seq<Call>): (e: Option<Entry>)
    ensures e.None? <==> calls == []
  {
    if calls == [] then None
    else Some(Script(rule, After(rule, calls[..|calls| - 1]), calls[|calls| - 1]))
  }

  /** A possible history of one key. */
  ghost predicate Timed(rule: Rule, calls: seq<Call>) {
    && (forall i, j | 0 <= i < j < |calls| :: calls[i].now <= calls[j].now)
    && (forall j | 0 <= j < |calls| :: Expires(After(rule, calls[..j]), calls[j]))
  }

  function Remain(rule: Rule, calls: seq<Call>, j: nat): int
    requires j < |calls|
  {
    After(rule, calls[..j + 1]).value.value
  }

  predicate Opens(calls: seq<Call>, j: nat)
    requires j < |calls|
  {
    j == 0 || calls[j].gone
  }

  /** The call that opened the window of call j. */
  function Start(calls: seq<Call>, j: nat): (s: nat)
    requires j < |calls|
    ensures s <= j
  {
    if Opens(calls, j) then j else Start(calls, j - 1)
  }

  /** The k-th call of a window is left with count - k, and the window ends
      `window` seconds after it was opened. */
  lemma {:induction false} WindowLaw(rule: Rule, calls: seq<Call>, j: nat)
    requires j < |calls|
    ensures var s := Start(calls, j);
      After(rule, calls[..j + 1]) == Some(Entry(rule.count - (j - s + 1), calls[s].now + 1000 * rule.window))
    ensures Remain(rule, calls, j) == rule.count - (j - Start(calls, j) + 1)
  {
    assert calls[..j + 1][..j] == calls[..j] && calls[..j + 1][j] == calls[j];
    if !Opens(calls, j) {
      WindowLaw(rule, calls, j - 1);
    }
  }

  /** A call more than `window` seconds after the one that opened the window opens
      a new one, and none does earlier; at that very instant it may or may not. */
  lemma WindowsApart(rule: Rule, calls: seq<Call>, j: nat)
    requires Timed(rule, calls) && 0 < j < |calls|
    ensures calls[j].now > calls[Start(calls, j - 1)].now + 1000 * rule.window ==> Opens(calls, j)
    ensures Opens(calls, j) ==> calls[j].now >= calls[Start(calls, j - 1)].now + 1000 * rule.window
  {
    WindowLaw(rule, calls, j - 1);
    assert Expires(After(rule, calls[..j]), calls[j]);
  }

  /** The time to reset: all of the window for the call that opens it, else what
      is left of it, to within half a second. */
  lemma TtlIsTimeLeft(rule: Rule, calls: seq<Call>, j: nat)
    requires Timed(rule, calls) && j < |calls|
    ensures var ttl := ReplyOf(rule, After(rule, calls[..j]), calls[j]).ttl;
      if Opens(calls, j) then ttl == rule.window
      else
        var left := calls[Start(calls, j)].now + 1000 * rule.window - calls[j].now;
        0 <= left && 0 <= ttl && left - 500 < 1000 * ttl <= left + 500
  {
    if !Opens(calls, j) {
      WindowLaw(rule, calls, j - 1);
      assert Expires(After(rule, calls[..j]), calls[j]);
    }
  }

  /** How many of the calls lo..hi are let through. */
  function Passed(rule: Rule, calls: seq<Call>, lo: nat, hi: nat): nat
    requires hi <= |calls|
    decreases hi
  {
    if hi <= lo then 0
    else Passed(rule, calls, lo, hi - 1) + (if Remain(rule, calls, hi - 1) >= 0 then 1 else 0)
  }

  function Min(a: int, b: int): int { if a < b then a else b }

  /** Inside one window exactly the first `count` calls pass. */
  lemma {:induction false} WindowAdmits(rule: Rule, calls: seq<Call>, s: nat, lo: nat, hi: nat)
    requires s <= lo <= hi <= |calls|
    requires forall j | lo <= j < hi :: Start(calls, j) == s
    ensures Passed(rule, calls, lo, hi) ==
            if s + rule.count <= lo then 0 else Min(hi, s + rule.count) - lo
    decreases hi
  {
    if lo < hi {
      WindowAdmits(rule, calls, s, lo, hi - 1);
      WindowLaw(rule, calls, hi - 1);
    }
  }

  lemma {:induction false} PassedSplits(rule: Rule, calls: seq<Call>, lo: nat, mid: nat, hi: nat)
    requires lo <= mid <= hi <= |calls|
    ensures Passed(rule, calls, lo, hi) == Passed(rule, calls, lo, mid) + Passed(rule, calls, mid, hi)
    decreases hi
  {
    if mid < hi {
      PassedSplits(rule, calls, lo, mid, hi - 1);
    }
  }

  /** The first call after lo that opens a window, or hi. */
  function NextOpen(calls: seq<Call>, lo: nat, hi: nat): (m: nat)
    requires lo < hi <= |calls|
    ensures lo < m <= hi
    ensures forall j | lo < j < m :: !Opens(calls, j)
    ensures m < hi ==> Opens(calls, m)
    decreases hi - lo
  {
    if lo + 1 == hi then hi
    else if Opens(calls, lo + 1) then lo + 1
    else NextOpen(calls, lo + 1, hi)
  }

  lemma {:induction false} StartsStay(calls: seq<Call>, lo: nat, hi: nat)
    requires lo < hi <= |calls|
    requires forall j | lo < j < hi :: !Opens(calls, j)
    ensures forall j | lo <= j < hi :: Start(calls, j) == Start(calls, lo)
    decreases hi
  {
    if lo + 1 < hi {
      StartsStay(calls, lo, hi - 1);
      assert !Opens(calls, hi - 1);
    }
  }

  /** Of the calls that fall into any half-open interval of one window's length,
      fewer than twice `count` pass. */
  lemma IntervalBound(rule: Rule, calls: seq<Call>, lo: nat, hi: nat)
    requires rule.count >= 1 && Timed(rule, calls)
    requires lo < hi <= |calls| && calls[hi - 1].now < calls[lo].now + 1000 * rule.window
    ensures Passed(rule, calls, lo, hi) <= 2 * rule.count - 1
  {
    hide Timed;
    hide Passed;
    var s := Start(calls, lo);
    var m := NextOpen(calls, lo, hi);
    StartsStay(calls, lo, m);
    WindowAdmits(rule, calls, s, lo, m);
    PassedSplits(rule, calls, lo, m, hi);
    if m == hi {
      WindowAdmits(rule, calls, s, hi, hi);
    } else {
      SecondWindow(rule, calls, lo, m, hi);
      WindowAdmits(rule, calls, m, m, hi);
    }
  }

  /** An interval of one span meets a second window only if the first was opened
      before it, and never a third. */
  lemma SecondWindow(rule: Rule, calls: seq<Call>, lo: nat, m: nat, hi: nat)
    requires Timed(rule, calls) && lo < m < hi <= |calls|
    requires calls[hi - 1].now < calls[lo].now + 1000 * rule.window
    requires Opens(calls, m) && forall j | lo <= j < m :: Start(calls, j) == Start(calls, lo)
    ensures Start(calls, lo) < lo
    ensures forall j | m <= j < hi :: Start(calls, j) == m
  {
    hide Start;
    WindowsApart(rule, calls, m);
    StepsOrdered(rule, calls, lo, m, hi);
    NoThirdWindow(rule, calls, m, hi);
  }

  lemma StepsOrdered(rule: Rule, calls: seq<Call>, lo: nat, m: nat, hi: nat)
    requires Timed(rule, calls) && lo <= m < hi <= |calls|
    ensures calls[lo].now <= calls[m].now <= calls[hi - 1].now
  {
  }

  lemma NoThirdWindow(rule: Rule, calls: seq<Call>, m: nat, hi: nat)
    requires Timed(rule, calls) && m < hi <= |calls| && Opens(calls, m)
    requires calls[hi - 1].now < calls[m].now + 1000 * rule.window
    ensures forall j | m <= j < hi :: Start(calls, j) == m
  {
    var third := NextOpen(calls, m, hi);
    StartsStay(calls, m, third);
    if third < hi {
      WindowsApart(rule, calls, third);
      StepsOrdered(rule, calls, m, third, hi);
      assert false;
    }
  }

  /** The worst case: one call, then count - 1 just before its window ends, then
      count at the instant it ends. */
  function WorstCase(rule: Rule): seq<Call> {
    seq(2 * rule.count, j => WorstCall(rule, j))
  }

  function WorstCall(rule: Rule, j: int): Call {
    Call(if j == 0 then 0 else if j < rule.count then rule.Span() - 1 else rule.Span(), j == rule.count)
  }

  /** ... and the bound is met. */
  lemma IntervalBoundIsTight(rule: Rule)
    requires rule.count >= 1 && rule.window >= 1
    ensures var calls := WorstCase(rule);
      && Timed(rule, calls)
      && calls[|calls| - 1].now < calls[1].now + 1000 * rule.window
      && Passed(rule, calls, 1, |calls|) == 2 * rule.count - 1
  {
    hide Passed;
    hide Timed;
    var calls := WorstCase(rule);
    var c := rule.count;
    StartsStay(calls, 0, c);
    StartsStay(calls, c, 2 * c);
    WorstCaseIsTimed(rule);
    WindowAdmits(rule, calls, 0, 1, c);
    WindowAdmits(rule, calls, c, c, 2 * c);
    PassedSplits(rule, calls, 1, c, 2 * c);
  }

  lemma WorstCaseIsTimed(rule: Rule)
    requires rule.count >= 1 && rule.window >= 1
    ensures Timed(rule, WorstCase(rule))
  {
    hide After;
    hide Expires;
    var calls := WorstCase(rule);
    forall j | 0 <= j < |calls| ensures Expires(After(rule, calls[..j]), calls[j]) {
      WorstCaseExpires(rule, j);
    }
    forall i, j | 0 <= i < j < |calls| ensures calls[i].now <= calls[j].now {
      assert calls[i] == WorstCall(rule, i) && calls[j] == WorstCall(rule, j);
    }
  }

  lemma WorstCaseExpires(rule: Rule, j: nat)
    requires rule.count >= 1 && rule.window >= 1 && j < 2 * rule.count
    ensures Expires(After(rule, WorstCase(rule)[..j]), WorstCase(rule)[j])
  {
    hide After;
    hide Start;
    var calls := WorstCase(rule);
    var c := rule.count;
    if j > 0 {
      WindowLaw(rule, calls, j - 1);
      if j <= c {
        StartsStay(calls, 0, c);
        assert Start(calls, j - 1) == Start(calls, 0) == 0;
      } else {
        StartsStay(calls, c, 2 * c);
        FirstStart(calls, c);
        assert Start(calls, j - 1) == Start(calls, c) == c;
      }
    }
  }

  lemma FirstStart(calls: seq<Call>, j: nat)
    requires j < |calls| && Opens(calls, j)
    ensures Start(calls, j) == j
  {
  }

  // ------------------------------------------------------------------- the keys

  /** `limiter.prefix + "|" + key`, where `Init` made the prefix of rule i. */
  function RedisKey(prefix: string, i: nat, key: string): string {
    RulePrefix(prefix, i) + "|" + key
  }

  function RulePrefix(prefix: string, i: nat): string { prefix + "|" + Decimal(i) }

  /** Different rules and different keys of one configuration use different Redis keys. */
  lemma RedisKeyInjective(prefix: string, i: nat, key: string, j: nat, other: string)
    requires RedisKey(prefix, i, key) == RedisKey(prefix, j, other)
    ensures i == j && key == other
  {
    var l, r := RedisKey(prefix, i, key), RedisKey(prefix, j, other);
    var n := |prefix| + 1;
    assert l[n..] == Decimal(i) + ['|'] + key && r[n..] == Decimal(j) + ['|'] + other;
    DecimalHasNo(i, '|');
    DecimalHasNo(j, '|');
    SplitUnique(Decimal(i), '|', key, Decimal(j), other);
    DecimalInjective(i, j);
  }

  /** One prefix reads as the other with a rule number after it. */
  ghost predicate Nested(p: string, q: string) {
    exists i: nat :: RulePrefix(p, i) + "|" <= q + "|"
  }

  /** Two configurations with different prefixes can share a Redis key exactly
      when one prefix extends the other by "|" and a rule number. */
  lemma ConfigsShareKeysIff(p: string, q: string)
    requires p != q
    ensures (exists i: nat, j: nat, k, l :: RedisKey(p, i, k) == RedisKey(q, j, l)) <==> Nested(p, q) || Nested(q, p)
  {
    if Nested(p, q) {
      NestedShares(p, q);
    } else if Nested(q, p) {
      NestedShares(q, p);
      var i: nat, j: nat, k, l :| RedisKey(q, i, k) == RedisKey(p, j, l);
      assert RedisKey(p, j, l) == RedisKey(q, i, k);
    }
    if i: nat, j: nat, k, l :| RedisKey(p, i, k) == RedisKey(q, j, l) {
      if |p| <= |q| {
        SharingNests(p, i, k, q, j, l);
      } else {
        SharingNests(q, j, l, p, i, k);
      }
    }
  }

  lemma NestedShares(p: string, q: string)
    requires Nested(p, q)
    ensures exists i: nat, j: nat, k, l :: RedisKey(p, i, k) == RedisKey(q, j, l)
  {
    var i: nat :| RulePrefix(p, i) + "|" <= q + "|";
    var head := RulePrefix(p, i) + "|";
    var tail := (q + "|")[|head|..];
    assert q + "|" == head + tail;
    var k := tail + Decimal(0) + "|" + "";
    assert RedisKey(q, 0, "") == (q + "|") + Decimal(0) + "|" + "";
    assert RedisKey(p, i, k) == head + k;
    assert RedisKey(p, i, k) == RedisKey(q, 0, "");
  }

  lemma SharingNests(p: string, i: nat, k: string, q: string, j: nat, l: string)
    requires p != q && |p| <= |q| && RedisKey(p, i, k) == RedisKey(q, j, l)
    ensures Nested(p, q)
  {
    var s := RedisKey(p, i, k);
    var head := RulePrefix(p, i) + "|";
    assert s == head + k && s == (q + "|") + (Decimal(j) + "|" + l);
    assert s[..|p|] == p && s[..|q|] == q && s[..|q| + 1] == q + "|" && s[..|head|] == head;
    assert |p| == |q| ==> p == q;
    assert s[|q|] == '|';
    assert |q| + 1 >= |head| by { SeparatorOutside(p, i, k, |q|); }
    assert s[..|q| + 1][..|head|] == head;
    assert head <= q + "|";
  }

  /** Between prefix and key there are only digits. */
  lemma SeparatorOutside(p: string, i: nat, k: string, at: nat)
    requires |p| < at < |RedisKey(p, i, k)| && RedisKey(p, i, k)[at] == '|'
    ensures at >= |RulePrefix(p, i)|
  {
    forall x | |p| < x < |RulePrefix(p, i)| ensures RedisKey(p, i, k)[x] != '|' {
      assert RedisKey(p, i, k)[x] == Decimal(i)[x - |p| - 1];
    }
  }

  // --------------------------------------------------------- requests and runs

  datatype Config = Config(
    prefix: string,
    rules: seq<Rule>,
    cluster: bool,
    failureModeDeny: bool,
    statusOnError: nat,
    rateLimitedStatus: nat,
    quotaHeaders: bool,
    noRatelimitedHeader: bool)
  {
    /** What the validation of the configuration admits. */
    ghost predicate Valid() {
      rules != [] && forall i | 0 <= i < |rules| :: rules[i].Valid()
    }
  }

  /** One request: its key for each rule, the time, and the Redis keys expired by then. */
  datatype Request = Request(keys: seq<string>, now: int, gone: set<string>)

  type Database = map<string, Entry>

  function Lookup(db: Database, key: string): Option<Entry> {
    if key in db then Some(db[key]) else None
  }

  function CallOf(req: Request, key: string): Call { Call(req.now, key in req.gone) }

  /** The database after the first n rules of a request were counted. */
  function Counted(config: Config, db: Database, req: Request, n: nat): Database
    requires n <= |config.rules| == |req.keys|
  {
    if n == 0 then db
    else
      var before := Counted(config, db, req, n - 1);
      var key := RedisKey(config.prefix, n - 1, req.keys[n - 1]);
      before[key := Script(config.rules[n - 1], Lookup(before, key), CallOf(req, key))]
  }

  /** The same when only some of the rules were counted. */
  function CountedOnly(config: Config, db: Database, req: Request, which: set<nat>, n: nat): Database
    requires n <= |config.rules| == |req.keys|
  {
    if n == 0 then db
    else
      var before := CountedOnly(config, db, req, which, n - 1);
      var key := RedisKey(config.prefix, n - 1, req.keys[n - 1]);
      if n - 1 in which then before[key := Script(config.rules[n - 1], Lookup(before, key), CallOf(req, key))]
          else before
  }

  function RuleNumbers(n: nat): set<nat> {
    if n == 0 then {} else RuleNumbers(n - 1) + {n - 1}
  }

  lemma {:induction false} CountedOnlyAll(config: Config, db: Database, req: Request, which: set<nat>, n: nat)
    requires n <= |config.rules| == |req.keys|
    ensures RuleNumbers(n) <= which ==> CountedOnly(config, db, req, which, n) == Counted(config, db, req, n)
    ensures which * RuleNumbers(n) == {} ==> CountedOnly(config, db, req, which, n) == db
  {
    if n > 0 {
      CountedOnlyAll(config, db, req, which, n - 1);
      assert n - 1 in RuleNumbers(n);
      assert n - 1 in which ==> n - 1 in which * RuleNumbers(n);
      assert RuleNumbers(n - 1) <= RuleNumbers(n);
    }
  }

  function ReplyFor(config: Config, db: Database, req: Request, i: nat): Reply
    requires i < |config.rules| == |req.keys|
  {
    var key := RedisKey(config.prefix, i, req.keys[i]);
    ReplyOf(config.rules[i], Lookup(db, key), CallOf(req, key))
  }

  /** Every rule is counted, each once, on the state before the request. */
  lemma {:induction false} CountedOnce(config: Config, db: Database, req: Request, n: nat, key: string)
    requires n <= |config.rules| == |req.keys|
    ensures forall i | 0 <= i < n && key == RedisKey(config.prefix, i, req.keys[i]) ::
      Lookup(Counted(config, db, req, n), key) == Some(Script(config.rules[i], Lookup(db, key), CallOf(req, key)))
    ensures (forall i | 0 <= i < n :: key != RedisKey(config.prefix, i, req.keys[i])) ==>
      Lookup(Counted(config, db, req, n), key) == Lookup(db, key)
  {
    hide Script;
    hide RedisKey;
    if n > 0 {
      CountedOnce(config, db, req, n - 1, key);
      if key == RedisKey(config.prefix, n - 1, req.keys[n - 1]) {
        forall i | 0 <= i < n && key == RedisKey(config.prefix, i, req.keys[i]) ensures i == n - 1 {
          RedisKeyInjective(config.prefix, i, req.keys[i], n - 1, req.keys[n - 1]);
        }
      }
    }
  }

  /** What one rule makes of a request, by the key it counts under: a key not there,
      or gone by now, is set anew; any other loses one. */
  lemma RuleReplies(config: Config, db: Database, req: Request, i: nat)
    requires i < |config.rules| == |req.keys|
    ensures var key := config.prefix + "|" + Decimal(i) + "|" + req.keys[i];
      var rule, r := config.rules[i], ReplyFor(config, db, req, i);
      var e := Counted(config, db, req, |config.rules|);
      && key in e && e[key].value == r.remain
      && (key !in db || key in req.gone ==>
            r == Reply(rule.count - 1, rule.window) && e[key].expireAt == req.now + 1000 * rule.window)
      && (key in db && key !in req.gone ==>
            && r.remain == db[key].value - 1 && e[key].expireAt == db[key].expireAt
            && -500 <= 1000 * r.ttl - (db[key].expireAt - req.now) <= 500)
  {
    var key := RedisKey(config.prefix, i, req.keys[i]);
    assert key == config.prefix + "|" + Decimal(i) + "|" + req.keys[i];
    CountedOnce(config, db, req, |config.rules|, key);
  }

  class Redis {
    var db: Database

    constructor ()
      ensures db == map[]
    {
      db := map[];
    }

    /** `redisSingleScript` */
    method EvalSingle(key: string, rule: Rule, c: Call) returns (r: Reply)
      modifies this
      ensures r == ReplyOf(rule, Lookup(old(db), key), c)
      ensures db == old(db)[key := Script(rule, Lookup(old(db), key), c)]
      ensures key !in old(db) || c.gone ==>
        db[key] == Entry(rule.count - 1, c.now + 1000 * rule.window) && r == Reply(rule.count - 1, rule.window)
      ensures key in old(db) && !c.gone ==>
        && db[key].expireAt == old(db)[key].expireAt && db[key].value == r.remain == old(db)[key].value - 1
        && -500 <= 1000 * r.ttl - (db[key].expireAt - c.now) <= 500
    {
      if key !in db || c.gone {
        db := db[key := Entry(rule.count - 1, c.now + rule.Span())];
        r := Reply(rule.count - 1, rule.window);
      } else {
        var ttl := (db[key].expireAt - c.now + 500) / 1000;
        db := db[key := Entry(db[key].value - 1, db[key].expireAt)];
        r := Reply(db[key].value, ttl);
      }
    }

    /** `redisScript`, and equally the pipeline of single scripts when nobody
        else's scripts come in between. */
    method Eval(config: Config, req: Request) returns (rs: seq<Reply>)
      requires |req.keys| == |config.rules|
      modifies this
      ensures db == Counted(config, old(db), req, |config.rules|)
      ensures |rs| == |config.rules|
      ensures forall i | 0 <= i < |rs| :: rs[i] == ReplyFor(config, old(db), req, i)
    {
      rs := [];
      ghost var db0 := db;
      for i := 0 to |config.rules|
        invariant db == Counted(config, db0, req, i)
        invariant |rs| == i && forall k | 0 <= k < i :: rs[k] == ReplyFor(config, db0, req, k)
      {
        var key := RedisKey(config.prefix, i, req.keys[i]);
        Untouched(config, db0, req, i);
        var r := EvalSingle(key, config.rules[i], CallOf(req, key));
        rs := rs + [r];
      }
    }

    /** What a failing run leaves: some rules counted, one script each. */
    method EvalSome(config: Config, req: Request, which: set<nat>)
      requires |req.keys| == |config.rules|
      modifies this
      ensures db == CountedOnly(config, old(db), req, which, |config.rules|)
    {
      for i := 0 to |config.rules|
        invariant db == CountedOnly(config, old(db), req, which, i)
      {
        if i in which {
          var key := RedisKey(config.prefix, i, req.keys[i]);
          var _ := EvalSingle(key, config.rules[i], CallOf(req, key));
        }
      }
    }
  }

  lemma Untouched(config: Config, db: Database, req: Request, i: nat)
    requires i < |config.rules| == |req.keys|
    ensures var key := RedisKey(config.prefix, i, req.keys[i]);
      Lookup(Counted(config, db, req, i), key) == Lookup(db, key)
  {
    var key := RedisKey(config.prefix, i, req.keys[i]);
    forall j | 0 <= j < i ensures key != RedisKey(config.prefix, j, req.keys[j]) {
      if key == RedisKey(config.prefix, j, req.keys[j]) {
        RedisKeyInjective(config.prefix, i, req.keys[i], j, req.keys[j]);
      }
    }
    CountedOnce(config, db, req, i, key);
  }

  datatype Verdict = Pass | Deny(status: nat, ratelimited: bool)

  datatype QuotaHeaders = QuotaHeaders(limit: nat, remaining: int, reset: int)

  /** The first of the replies with the least quota left. */
  ghost predicate Tightest(rs: seq<Reply>, i: int) {
    && 0 <= i < |rs|
    && (forall k | 0 <= k < |rs| :: rs[i].remain <= rs[k].remain)
    && (forall k | 0 <= k < i :: rs[i].remain < rs[k].remain)
  }

  function HeadersOf(rule: Rule, r: Reply): QuotaHeaders {
    QuotaHeaders(rule.count, if r.remain <= 0 then 0 else r.remain, r.ttl)
  }

  /** The limitCountRedis filter of one request. */
  class LimitFilter {
    const config: Config
    var ress: seq<Reply>

    constructor (config: Config)
      ensures this.config == config && ress == []
    {
      this.config := config;
      ress := [];
    }

    /** All rules are counted even when the first one already rejects; the
        request passes exactly when none is overdrawn. When Redis fails, a
        pipeline may have counted some of the rules, a script all or none. */
    method DecodeHeaders(redis: Redis, req: Request, failure: Option<set<nat>>) returns (v: Verdict)
      requires |req.keys| == |config.rules|
      requires failure.Some? && !config.cluster ==> failure.value == {} || failure.value == RuleNumbers(|config.rules|)
      modifies redis, `ress
      ensures failure.Some? ==> redis.db == CountedOnly(config, old(redis.db), req, failure.value, |config.rules|)
      ensures failure.Some? ==> ress == old(ress)
      ensures failure.Some? ==> v == if config.failureModeDeny
        then Deny(if config.statusOnError != 0 then config.statusOnError else 500, false) else Pass
      ensures failure.None? ==> redis.db == Counted(config, old(redis.db), req, |config.rules|)
      ensures failure.None? ==> |ress| == |config.rules|
      ensures failure.None? ==> forall i | 0 <= i < |ress| :: ress[i] == ReplyFor(config, old(redis.db), req, i)
      ensures failure.None? ==> (v.Pass? <==> Admitted(config, old(redis.db), req))
      ensures failure.None? && v.Deny? ==>
        && v.ratelimited == !config.noRatelimitedHeader
        && v.status == if config.rateLimitedStatus >= 400 then config.rateLimitedStatus else 429
    {
      if failure.Some? {
        redis.EvalSome(config, req, failure.value);
        if config.failureModeDeny {
          return Deny(if config.statusOnError != 0 then config.statusOnError else 500, false);
        }
        return Pass;
      }
      ghost var db0 := redis.db;
      ress := redis.Eval(config, req);
      for i := 0 to |config.rules|
        invariant forall k | 0 <= k < i :: ress[k].remain >= 0
      {
        if ress[i].remain < 0 {
          assert ReplyFor(config, db0, req, i).remain < 0;
          var status := if config.rateLimitedStatus >= 400 then config.rateLimitedStatus else 429;
          return Deny(status, !config.noRatelimitedHeader);
        }
      }
      v := Pass;
    }

    /** The quota headers are those of the tightest rule, and never the initial
        value of the running minimum. */
    method EncodeHeaders() returns (h: Option<QuotaHeaders>)
      requires config.Valid()
      requires ress == [] || |ress| == |config.rules|
      requires forall i | 0 <= i < |ress| :: ress[i].remain < config.rules[i].count
      ensures h.Some? <==> config.quotaHeaders && ress != []
      ensures h.Some? ==> exists i :: Tightest(ress, i) && h.value == HeadersOf(config.rules[i], ress[i])
    {
      if !config.quotaHeaders {
        return None;
      }
      if |ress| == 0 {
        return None;
      }
      var minCount, minRemain, minTTL := 0, MAX_UINT32, 0;
      ghost var at := -1;
      for i := 0 to |config.rules|
        invariant -1 <= at < i && (i > 0 ==> at >= 0)
        invariant at >= 0 ==> minCount == config.rules[at].count
        invariant at >= 0 ==> minRemain == ress[at].remain && minTTL == ress[at].ttl
        invariant at < 0 ==> minRemain == MAX_UINT32
        invariant at >= 0 ==> forall k | 0 <= k < i :: ress[at].remain <= ress[k].remain
        invariant at >= 0 ==> forall k | 0 <= k < at :: ress[at].remain < ress[k].remain
      {
        assert config.rules[i].Valid() && ress[i].remain < config.rules[i].count;
        if ress[i].remain < minRemain {
          minRemain, minCount, minTTL := ress[i].remain, config.rules[i].count, ress[i].ttl;
          at := i;
        }
      }
      assert Tightest(ress, at);
      h := Some(QuotaHeaders(minCount, if minRemain <= 0 then 0 else minRemain, minTTL));
    }
  }

  ghost predicate Admitted(config: Config, db: Database, req: Request)
    requires |req.keys| == |config.rules|
  {
    forall i | 0 <= i < |config.rules| :: ReplyFor(config, db, req, i).remain >= 0
  }

  // ------------------------------------------------------ a run of many requests

  ghost predicate Fits(config: Config, reqs: seq<Request>) {
    forall n | 0 <= n < |reqs| :: |reqs[n].keys| == |config.rules|
  }

  function DbAfter(config: Config, reqs: seq<Request>): Database
    requires Fits(config, reqs)
  {
    if reqs == [] then map[]
    else Counted(config, DbAfter(config, reqs[..|reqs| - 1]), reqs[|reqs| - 1], |config.rules|)
  }

  /** The calls a run makes on one rule and key. */
  function CallsOn(config: Config, reqs: seq<Request>, i: nat, key: string): seq<Call>
    requires Fits(config, reqs) && i < |config.rules|
  {
    if reqs == [] then []
    else
      var last := reqs[|reqs| - 1];
      var before := CallsOn(config, reqs[..|reqs| - 1], i, key);
      if last.keys[i] == key then before + [CallOf(last, RedisKey(config.prefix, i, key))] else before
  }

  /** Rules and keys do not disturb each other: each Redis key lives the life of
      the calls made on it. */
  lemma {:induction false} KeysAreIndependent(config: Config, reqs: seq<Request>, i: nat, key: string)
    requires Fits(config, reqs) && i < |config.rules|
    ensures Lookup(DbAfter(config, reqs), RedisKey(config.prefix, i, key))
         == After(config.rules[i], CallsOn(config, reqs, i, key))
  {
    if reqs != [] {
      var n := |reqs| - 1;
      var last := reqs[n];
      var rk := RedisKey(config.prefix, i, key);
      KeysAreIndependent(config, reqs[..n], i, key);
      var db := DbAfter(config, reqs[..n]);
      CountedOnce(config, db, last, |config.rules|, rk);
      if last.keys[i] == key {
        var calls := CallsOn(config, reqs[..n], i, key);
        var call := CallOf(last, rk);
        assert (calls + [call])[..|calls|] == calls;
      } else {
        forall j | 0 <= j < |config.rules| ensures rk != RedisKey(config.prefix, j, last.keys[j]) {
          if rk == RedisKey(config.prefix, j, last.keys[j]) {
            RedisKeyInjective(config.prefix, i, key, j, last.keys[j]);
          }
        }
      }
    }
  }

  /** How many requests lo..hi with this key for rule i are admitted. */
  ghost function AdmittedOn(config: Config, reqs: seq<Request>, i: nat, key: string, lo: nat, hi: nat): nat
    requires Fits(config, reqs) && i < |config.rules| && hi <= |reqs|
    decreases hi
  {
    if hi <= lo then 0
    else
      var last := reqs[hi - 1];
      var passes := last.keys[i] == key && Admitted(config, DbAfter(config, reqs[..hi - 1]), last);
      AdmittedOn(config, reqs, i, key, lo, hi - 1) + (if passes then 1 else 0)
  }

  lemma CallsSnoc(config: Config, reqs: seq<Request>, i: nat, key: string, n: nat)
    requires Fits(config, reqs) && i < |config.rules| && n < |reqs|
    ensures var before := CallsOn(config, reqs[..n], i, key);
      CallsOn(config, reqs[..n + 1], i, key) ==
        if reqs[n].keys[i] == key then before + [CallOf(reqs[n], RedisKey(config.prefix, i, key))] else before
  {
    assert reqs[..n + 1][..n] == reqs[..n];
  }

  lemma {:induction false} PassedExtends(rule: Rule, calls: seq<Call>, more: seq<Call>, lo: nat, hi: nat)
    requires hi <= |calls| && calls <= more
    ensures Passed(rule, calls, lo, hi) == Passed(rule, more, lo, hi)
    decreases hi
  {
    if lo < hi {
      PassedExtends(rule, calls, more, lo, hi - 1);
      assert calls[..hi] == more[..hi];
    }
  }

  /** An admitted request is one the rule's own counter lets pass. */
  lemma {:induction false} AdmittedPasses(config: Config, reqs: seq<Request>, i: nat, key: string, lo: nat, hi: nat)
    requires Fits(config, reqs) && i < |config.rules| && lo <= hi <= |reqs|
    ensures var from, calls := |CallsOn(config, reqs[..lo], i, key)|, CallsOn(config, reqs[..hi], i, key);
      && from <= |calls|
      && AdmittedOn(config, reqs, i, key, lo, hi) <= Passed(config.rules[i], calls, from, |calls|)
    decreases hi
  {
    if lo < hi {
      hide CallsOn;
      hide Passed;
      hide Admitted;
      hide DbAfter;
      hide CallOf;
      var n := hi - 1;
      AdmittedPasses(config, reqs, i, key, lo, n);
      CallsSnoc(config, reqs, i, key, n);
      var before := CallsOn(config, reqs[..n], i, key);
      if reqs[n].keys[i] == key {
        AdmittedStep(config, reqs, i, key, |CallsOn(config, reqs[..lo], i, key)|, n);
      }
    }
  }

  lemma AdmittedStep(config: Config, reqs: seq<Request>, i: nat, key: string, from: nat, n: nat)
    requires Fits(config, reqs) && i < |config.rules| && n < |reqs| && reqs[n].keys[i] == key
    requires from <= |CallsOn(config, reqs[..n], i, key)|
    ensures var before := CallsOn(config, reqs[..n], i, key);
      var calls := before + [CallOf(reqs[n], RedisKey(config.prefix, i, key))];
      var rule := config.rules[i];
      Passed(rule, calls, from, |calls|) >= Passed(rule, before, from, |before|)
        + (if Admitted(config, DbAfter(config, reqs[..n]), reqs[n]) then 1 else 0)
  {
    var rule := config.rules[i];
    var before := CallsOn(config, reqs[..n], i, key);
    var call := CallOf(reqs[n], RedisKey(config.prefix, i, key));
    var calls := before + [call];
    KeysAreIndependent(config, reqs[..n], i, key);
    PassedExtends(rule, before, calls, from, |before|);
    assert calls[..|before|] == before && calls[..|before| + 1] == calls;
    assert After(rule, calls) == Some(Script(rule, After(rule, before), call));
    assert Admitted(config, DbAfter(config, reqs[..n]), reqs[n]) ==>
      ReplyFor(config, DbAfter(config, reqs[..n]), reqs[n], i).remain >= 0;
  }

  /** A possible run: time passes, and keys expire when Redis says. */
  ghost predicate PossibleRun(config: Config, reqs: seq<Request>) {
    && Fits(config, reqs)
    && (forall m, n | 0 <= m < n < |reqs| :: reqs[m].now <= reqs[n].now)
    && (forall n, key | 0 <= n < |reqs| :: Expires(Lookup(DbAfter(config, reqs[..n]), key), CallOf(reqs[n], key)))
  }

  lemma NoCalls(config: Config, reqs: seq<Request>, i: nat, key: string)
    requires Fits(config, reqs) && i < |config.rules|
    ensures CallsOn(config, reqs[..0], i, key) == [] && Timed(config.rules[i], [])
  {
  }

  lemma {:induction false} CallsAreTimed(config: Config, reqs: seq<Request>, i: nat, key: string, n: nat)
    requires PossibleRun(config, reqs) && i < |config.rules| && n <= |reqs|
    ensures Timed(config.rules[i], CallsOn(config, reqs[..n], i, key))
    ensures forall c | c in CallsOn(config, reqs[..n], i, key) :: exists m :: 0 <= m < n && c.now == reqs[m].now
  {
    hide CallsOn;
    hide DbAfter;
    hide After;
    hide Timed;
    hide Expires;
    hide RedisKey;
    NoCalls(config, reqs, i, key);
    if n > 0 {
      CallsAreTimed(config, reqs, i, key, n - 1);
      CallsSnoc(config, reqs, i, key, n - 1);
      var before := CallsOn(config, reqs[..n - 1], i, key);
      var rk := RedisKey(config.prefix, i, key);
      var call := CallOf(reqs[n - 1], rk);
      KeysAreIndependent(config, reqs[..n - 1], i, key);
      assert Expires(After(config.rules[i], before), call);
      forall c | c in before ensures c.now <= call.now {
        var m :| 0 <= m < n - 1 && c.now == reqs[m].now;
      }
      TimedSnoc(config.rules[i], before, call);
    }
  }

  lemma TimedSnoc(rule: Rule, calls: seq<Call>, c: Call)
    requires Timed(rule, calls) && Expires(After(rule, calls), c)
    requires forall d | d in calls :: d.now <= c.now
    ensures Timed(rule, calls + [c])
  {
    var more := calls + [c];
    forall j | 0 <= j < |more| ensures Expires(After(rule, more[..j]), more[j]) {
      assert more[..j] == calls[..j];
      assert calls[..|calls|] == calls;
    }
    forall a, b | 0 <= a < b < |more| ensures more[a].now <= more[b].now {
      assert more[a] == calls[a] && calls[a] in calls;
    }
  }

  lemma {:induction false} CallsSince(config: Config, reqs: seq<Request>, i: nat, key: string, lo: nat, hi: nat)
    requires PossibleRun(config, reqs) && i < |config.rules| && lo <= hi <= |reqs|
    ensures var from, calls := |CallsOn(config, reqs[..lo], i, key)|, CallsOn(config, reqs[..hi], i, key);
      && from <= |calls|
      && forall j | from <= j < |calls| :: lo < hi && reqs[lo].now <= calls[j].now <= reqs[hi - 1].now
    decreases hi
  {
    if lo < hi {
      CallsSince(config, reqs, i, key, lo, hi - 1);
      CallsSnoc(config, reqs, i, key, hi - 1);
      assert reqs[lo].now <= reqs[hi - 1].now;
      assert lo < hi - 1 ==> reqs[hi - 2].now <= reqs[hi - 1].now;
    }
  }

  /** Whatever the other rules and keys do: of the requests with the same key
      for a rule, at most 2 * count - 1 are admitted in any half-open interval
      of the rule's window length. */
  lemma RunBound(config: Config, reqs: seq<Request>, i: nat, key: string, lo: nat, hi: nat)
    requires PossibleRun(config, reqs) && i < |config.rules| && config.rules[i].count >= 1
    requires lo < hi <= |reqs| && reqs[hi - 1].now < reqs[lo].now + 1000 * config.rules[i].window
    ensures AdmittedOn(config, reqs, i, key, lo, hi) <= 2 * config.rules[i].count - 1
  {
    hide AdmittedOn;
    hide Passed;
    hide CallsOn;
    hide Timed;
    var rule := config.rules[i];
    var from, calls := |CallsOn(config, reqs[..lo], i, key)|, CallsOn(config, reqs[..hi], i, key);
    AdmittedPasses(config, reqs, i, key, lo, hi);
    CallsAreTimed(config, reqs, i, key, hi);
    CallsSince(config, reqs, i, key, lo, hi);
    if from < |calls| {
      assert calls[|calls| - 1].now <= reqs[hi - 1].now && reqs[lo].now <= calls[from].now;
      IntervalBound(rule, calls, from, |calls|);
    } else {
      PassedNone(rule, calls, from);
    }
  }

  lemma PassedNone(rule: Rule, calls: seq<Call>, from: nat)
    requires from == |calls|
    ensures Passed(rule, calls, from, |calls|) == 0
  {
  }

  /** What the filter keeps for the quota headers always lets them be computed. */
  lemma RemainBelowCount(config: Config, reqs: seq<Request>, req: Request, i: nat)
    requires Fits(config, reqs) && |req.keys| == |config.rules| && i < |config.rules|
    ensures ReplyFor(config, DbAfter(config, reqs), req, i).remain < config.rules[i].count
  {
    var rule := config.rules[i];
    KeysAreIndependent(config, reqs, i, req.keys[i]);
    var calls := CallsOn(config, reqs, i, req.keys[i]);
    if calls != [] {
      WindowLaw(rule, calls, |calls| - 1);
      assert calls[..|calls|] == calls;
    }
  }

  // ------------------------------------------ single scripts, however interleaved

  /** One run of the single-key script: for a rule and a key of some request. */
  datatype Hit = Hit(rule: nat, key: string, call: Call)

  ghost predicate ForRules(config: Config, hits: seq<Hit>) {
    forall n | 0 <= n < |hits| :: hits[n].rule < |config.rules|
  }

  function DbOf(config: Config, hits: seq<Hit>): Database
    requires ForRules(config, hits)
  {
    if hits == [] then map[]
    else
      var last := hits[|hits| - 1];
      var db := DbOf(config, hits[..|hits| - 1]);
      var rk := RedisKey(config.prefix, last.rule, last.key);
      db[rk := Script(config.rules[last.rule], Lookup(db, rk), last.call)]
  }

  function HitsOn(hits: seq<Hit>, i: nat, key: string): seq<Call> {
    if hits == [] then []
    else
      var last := hits[|hits| - 1];
      var before := HitsOn(hits[..|hits| - 1], i, key);
      if last.rule == i && last.key == key then before + [last.call] else before
  }

  lemma {:induction false} HitsAreIndependent(config: Config, hits: seq<Hit>, i: nat, key: string)
    requires ForRules(config, hits) && i < |config.rules|
    ensures Lookup(DbOf(config, hits), RedisKey(config.prefix, i, key)) == After(config.rules[i], HitsOn(hits, i, key))
  {
    if hits != [] {
      var n := |hits| - 1;
      var last := hits[n];
      HitsAreIndependent(config, hits[..n], i, key);
      var calls := HitsOn(hits[..n], i, key);
      assert (calls + [last.call])[..|calls|] == calls;
      if RedisKey(config.prefix, i, key) == RedisKey(config.prefix, last.rule, last.key) {
        RedisKeyInjective(config.prefix, i, key, last.rule, last.key);
      }
    }
  }

  /** How many of the hits lo..hi on this rule and key are let through. */
  function PassedHits(config: Config, hits: seq<Hit>, i: nat, key: string, lo: nat, hi: nat): nat
    requires ForRules(config, hits) && i < |config.rules| && hi <= |hits|
    decreases hi
  {
    if hi <= lo then 0
    else
      var last := hits[hi - 1];
      var rk := RedisKey(config.prefix, i, key);
      var passes := last.rule == i && last.key == key
        && Script(config.rules[i], Lookup(DbOf(config, hits[..hi - 1]), rk), last.call).value >= 0;
      PassedHits(config, hits, i, key, lo, hi - 1) + (if passes then 1 else 0)
  }

  ghost predicate Chronological(hits: seq<Hit>) {
    forall m, n | 0 <= m < n < |hits| :: hits[m].call.now <= hits[n].call.now
  }

  ghost predicate PossibleHits(config: Config, hits: seq<Hit>) {
    && ForRules(config, hits)
    && Chronological(hits)
    && (forall n | 0 <= n < |hits| ::
          Expires(Lookup(DbOf(config, hits[..n]), RedisKey(config.prefix, hits[n].rule, hits[n].key)), hits[n].call))
  }

  lemma HitsSnoc(hits: seq<Hit>, i: nat, key: string, n: nat)
    requires n < |hits|
    ensures var before := HitsOn(hits[..n], i, key);
      HitsOn(hits[..n + 1], i, key) == if hits[n].rule == i && hits[n].key == key then before + [hits[n].call]
          else before
  {
    assert hits[..n + 1][..n] == hits[..n];
  }

  lemma {:induction false} HitsPass(config: Config, hits: seq<Hit>, i: nat, key: string, lo: nat, hi: nat)
    requires ForRules(config, hits) && i < |config.rules| && lo <= hi <= |hits|
    ensures var from, calls := |HitsOn(hits[..lo], i, key)|, HitsOn(hits[..hi], i, key);
      from <= |calls| && PassedHits(config, hits, i, key, lo, hi) == Passed(config.rules[i], calls, from, |calls|)
    decreases hi
  {
    hide HitsOn;
    hide DbOf;
    if lo < hi {
      var n := hi - 1;
      HitsPass(config, hits, i, key, lo, n);
      HitsSnoc(hits, i, key, n);
      if hits[n].rule == i && hits[n].key == key {
        HitsAreIndependent(config, hits[..n], i, key);
        PassedMore(config.rules[i], HitsOn(hits[..n], i, key), hits[n].call, |HitsOn(hits[..lo], i, key)|);
      }
    } else {
      PassedNone(config.rules[i], HitsOn(hits[..hi], i, key), |HitsOn(hits[..lo], i, key)|);
    }
  }

  lemma PassedMore(rule: Rule, calls: seq<Call>, c: Call, from: nat)
    requires from <= |calls|
    ensures Passed(rule, calls + [c], from, |calls| + 1) ==
            Passed(rule, calls, from, |calls|) + (if Script(rule, After(rule, calls), c).value >= 0 then 1 else 0)
  {
    var more := calls + [c];
    PassedExtends(rule, calls, more, from, |calls|);
    assert more[..|calls|] == calls && more[..|calls| + 1] == more;
  }

  lemma NoHits(rule: Rule, hits: seq<Hit>, i: nat, key: string)
    ensures HitsOn(hits[..0], i, key) == [] && Timed(rule, [])
  {
  }

  lemma {:induction false} HitsAreTimed(config: Config, hits: seq<Hit>, i: nat, key: string, n: nat)
    requires PossibleHits(config, hits) && i < |config.rules| && n <= |hits|
    ensures Timed(config.rules[i], HitsOn(hits[..n], i, key))
    ensures forall c | c in HitsOn(hits[..n], i, key) :: exists m :: 0 <= m < n && c.now == hits[m].call.now
  {
    hide HitsOn;
    hide DbOf;
    hide After;
    hide Timed;
    hide Expires;
    hide RedisKey;
    NoHits(config.rules[i], hits, i, key);
    if n > 0 {
      HitsAreTimed(config, hits, i, key, n - 1);
      HitsSnoc(hits, i, key, n - 1);
      var before := HitsOn(hits[..n - 1], i, key);
      var call := hits[n - 1].call;
      if hits[n - 1].rule == i && hits[n - 1].key == key {
        HitsAreIndependent(config, hits[..n - 1], i, key);
        assert Expires(After(config.rules[i], before), call);
        forall c | c in before ensures c.now <= call.now {
          var m :| 0 <= m < n - 1 && c.now == hits[m].call.now;
        }
        TimedSnoc(config.rules[i], before, call);
      }
    }
  }

  lemma {:induction false} HitsSince(hits: seq<Hit>, i: nat, key: string, lo: nat, hi: nat)
    requires Chronological(hits) && lo <= hi <= |hits|
    ensures var from, calls := |HitsOn(hits[..lo], i, key)|, HitsOn(hits[..hi], i, key);
      && from <= |calls|
      && forall j | from <= j < |calls| :: lo < hi && hits[lo].call.now <= calls[j].now <= hits[hi - 1].call.now
    decreases hi
  {
    if lo < hi {
      hide HitsOn;
      HitsSince(hits, i, key, lo, hi - 1);
      HitsSnoc(hits, i, key, hi - 1);
      assert lo < hi - 1 ==> hits[lo].call.now <= hits[hi - 1].call.now;
      assert lo < hi - 1 ==> hits[hi - 2].call.now <= hits[hi - 1].call.now;
    }
  }

  /** The bound holds script by script: whatever comes in between the scripts of
      a request, and whichever of them are run, at most 2 * count - 1 pass for a
      rule and key in any half-open interval of the window's length. */
  lemma HitBound(config: Config, hits: seq<Hit>, i: nat, key: string, lo: nat, hi: nat)
    requires PossibleHits(config, hits) && i < |config.rules| && config.rules[i].count >= 1
    requires lo < hi <= |hits| && hits[hi - 1].call.now < hits[lo].call.now + 1000 * config.rules[i].window
    ensures PassedHits(config, hits, i, key, lo, hi) <= 2 * config.rules[i].count - 1
  {
    hide PassedHits;
    hide Passed;
    hide HitsOn;
    hide Timed;
    var rule := config.rules[i];
    var from, calls := |HitsOn(hits[..lo], i, key)|, HitsOn(hits[..hi], i, key);
    HitsPass(config, hits, i, key, lo, hi);
    HitsAreTimed(config, hits, i, key, hi);
    HitsSince(hits, i, key, lo, hi);
    if from < |calls| {
      assert calls[|calls| - 1].now <= hits[hi - 1].call.now && hits[lo].call.now <= calls[from].now;
      IntervalBound(rule, calls, from, |calls|);
    } else {
      PassedNone(rule, calls, from);
    }
  }
}
