/** The schedule of a whole request and of a whole response, and what every
    plugin gets out of it. */
module Schedules {
  import opened Chain
  import opened Options
  import opened FastPaths
  import opened ConsumerMerge
  import opened Orders

  function Last(chunks: seq<nat>): Option<nat> {
    if chunks == [] then None else Some(chunks[|chunks| - 1])
  }

  // ------------------------------------------------------------------- requests

  /** The first k filters run before the consumer is known. */
  function AuthnPlan(fs: seq<Filter>, k: nat, endStream: bool): seq<Call>
    requires k <= |fs|
  {
    Sweep(fs, 0, k, DecodeHeaders, None, endStream)
  }

  /** Some filter of the authn prefix asked to wait; and nothing clears the flag. */
  ghost predicate Stale(fs: seq<Filter>, k: nat, oracle: Oracle, endStream: bool)
    requires k <= |fs|
  {
    exists i | 0 <= i < k :: Waits(Decode, fs, oracle, endStream)[i]
  }

  /** Whom the manager treats as waiting: nobody in the authn prefix; and the
      first filter after it also when somebody in the prefix asked to wait. */
  ghost function Treated(fs: seq<Filter>, k: nat, stale: bool, oracle: Oracle, endStream: bool): (ws: seq<bool>)
    ensures |ws| == |fs|
    ensures forall i | 0 <= i < |fs| :: ws[i] <==>
              i >= k && (Waits(Decode, fs, oracle, endStream)[i] || (i == k && stale))
  {
    seq(|fs|, i requires 0 <= i < |fs| =>
      i >= k && (Waits(Decode, fs, oracle, endStream)[i] || (i == k && stale)))
  }

  /** What decodeHeaders does after the authn prefix, on the chain as it then is. */
  ghost function HeadersPlan(d: Direction, fs: seq<Filter>, ws: seq<bool>, k: nat, endStream: bool): seq<Call>
    requires |ws| == |fs|
  {
    if endStream then Plan(d, fs, ws, k, true, None, false)
    else HeadersUpTo(d, fs, k, NextWait(ws, k), false)
  }

  lemma NothingBefore<T>(s: seq<T>)
    ensures [] + s == s
  {
  }

  lemma NoAuthn(fs: seq<Filter>, endStream: bool)
    ensures AuthnPlan(fs, 0, endStream) == []
  {
  }

  /** decodeHeaders filter by filter, as its loop goes: a waiting filter ends
      it, or when the request ends here gets its DecodeRequest at once. */
  ghost function HeaderLoop(d: Direction, fs: seq<Filter>, ws: seq<bool>, i: nat, endStream: bool): seq<Call>
    requires |ws| == |fs|
    decreases |fs| - i, 1
  {
    if i >= |fs| then [] else [d.HeadersCall(fs[i], endStream)] + HeaderLoopRest(d, fs, ws, i, endStream)
  }

  ghost function HeaderLoopRest(d: Direction, fs: seq<Filter>, ws: seq<bool>, i: nat, endStream: bool): seq<Call>
    requires |ws| == |fs| && i < |fs|
    decreases |fs| - i, 0
  {
    if !ws[i] then HeaderLoop(d, fs, ws, i + 1, endStream)
    else if endStream then [d.WholeCall(fs[i], None, false)] + HeaderLoop(d, fs, ws, i + 1, endStream)
    else []
  }

  /** One turn of that loop. */
  lemma HeaderLoopTurn(d: Direction, fs: seq<Filter>, ws: seq<bool>, i: nat, endStream: bool)
    requires |ws| == |fs|
    ensures i >= |fs| ==> HeaderLoop(d, fs, ws, i, endStream) == []
    ensures i < |fs| ==>
      HeaderLoop(d, fs, ws, i, endStream) ==
      [d.HeadersCall(fs[i], endStream)] + HeaderLoopRest(d, fs, ws, i, endStream)
    ensures i < |fs| && !ws[i] ==> HeaderLoopRest(d, fs, ws, i, endStream) == HeaderLoop(d, fs, ws, i + 1, endStream)
    ensures i < |fs| && ws[i] && endStream ==>
      HeaderLoopRest(d, fs, ws, i, endStream) ==
          [d.WholeCall(fs[i], None, false)] + HeaderLoop(d, fs, ws, i + 1, endStream)
    ensures i < |fs| && ws[i] && !endStream ==> HeaderLoopRest(d, fs, ws, i, endStream) == []
  {
  }

  /** Of the loop from k on, `done` is done, and filter i is next. */
  ghost predicate LoopAt(d: Direction, fs: seq<Filter>, ws: seq<bool>, k: nat, endStream: bool, i: nat,
                         done: seq<Call>)
    requires |ws| == |fs|
  {
    HeaderLoop(d, fs, ws, k, endStream) == done + HeaderLoop(d, fs, ws, i, endStream)
  }

  lemma LoopBegins(d: Direction, fs: seq<Filter>, ws: seq<bool>, k: nat, endStream: bool)
    requires |ws| == |fs|
    ensures LoopAt(d, fs, ws, k, endStream, k, [])
  {
    hide HeaderLoop;
    NothingBefore(HeaderLoop(d, fs, ws, k, endStream));
  }

  lemma LoopStep(d: Direction, fs: seq<Filter>, ws: seq<bool>, k: nat, endStream: bool, i: nat, done: seq<Call>)
    requires |ws| == |fs| && i < |fs| && LoopAt(d, fs, ws, k, endStream, i, done)
    ensures var plan := HeaderLoop(d, fs, ws, k, endStream);
      var asked := done + [d.HeadersCall(fs[i], endStream)];
      var handed := asked + [d.WholeCall(fs[i], None, false)];
      && asked <= plan
      && (!ws[i] ==> LoopAt(d, fs, ws, k, endStream, i + 1, asked))
      && (ws[i] && !endStream ==> plan == asked)
      && (ws[i] && endStream ==> handed <= plan && LoopAt(d, fs, ws, k, endStream, i + 1, handed))
  {
    hide HeaderLoop;
    hide HeaderLoopRest;
    HeaderLoopTurn(d, fs, ws, i, endStream);
    var asked := done + [d.HeadersCall(fs[i], endStream)];
    Assoc(done, [d.HeadersCall(fs[i], endStream)], HeaderLoopRest(d, fs, ws, i, endStream));
    Assoc(asked, [d.WholeCall(fs[i], None, false)], HeaderLoop(d, fs, ws, i + 1, endStream));
  }

  lemma LoopStops(d: Direction, fs: seq<Filter>, ws: seq<bool>, k: nat, endStream: bool, i: nat, done: seq<Call>)
    requires |ws| == |fs| <= i && LoopAt(d, fs, ws, k, endStream, i, done)
    ensures HeaderLoop(d, fs, ws, k, endStream) == done
  {
    hide HeaderLoop;
    HeaderLoopTurn(d, fs, ws, i, endStream);
  }

  /** The loop carries out the schedule. */
  lemma {:induction false} HeaderLoopIsPlan(d: Direction, fs: seq<Filter>, ws: seq<bool>, i: nat, endStream: bool)
    requires |ws| == |fs|
    ensures HeaderLoop(d, fs, ws, i, endStream) == HeadersPlan(d, fs, ws, i, endStream)
    decreases |fs| - i
  {
    hide Plan;
    hide HeadersUpTo;
    if i >= |fs| {
      LoopEnds(d, fs, ws, i, endStream);
    } else {
      HeaderLoopIsPlan(d, fs, ws, i + 1, endStream);
      HeadersStep(d, fs, ws, i, endStream);
      if ws[i] && endStream {
        HeaderOnlyStep(d, fs, ws, i);
      } else if endStream {
        HeaderOnlyShift(d, fs, ws, i);
      }
    }
  }

  lemma LoopEnds(d: Direction, fs: seq<Filter>, ws: seq<bool>, i: nat, endStream: bool)
    requires |ws| == |fs| <= i
    ensures HeadersPlan(d, fs, ws, i, endStream) == []
  {
  }

  lemma HeadersStep(d: Direction, fs: seq<Filter>, ws: seq<bool>, i: nat, endStream: bool)
    requires |ws| == |fs| && i < |fs|
    ensures var h := d.HeadersCall(fs[i], endStream);
            && (ws[i] ==> NextWait(ws, i) == i && HeadersUpTo(d, fs, i, i, endStream) == [h])
            && (!ws[i] ==> NextWait(ws, i) == NextWait(ws, i + 1))
            && (!ws[i] ==>
                  HeadersUpTo(d, fs, i, NextWait(ws, i), endStream) ==
                      [h] + HeadersUpTo(d, fs, i + 1, NextWait(ws, i), endStream))
  {
    var w := NextWait(ws, i);
    SweepHead(fs, i, if w < |fs| then w + 1 else w, DecodeHeaders, None, endStream);
  }

  lemma HeaderOnlyStep(d: Direction, fs: seq<Filter>, ws: seq<bool>, i: nat)
    requires |ws| == |fs| && i < |fs| && ws[i]
    ensures Plan(d, fs, ws, i, true, None, false) ==
            [d.HeadersCall(fs[i], true)] +
                ([d.WholeCall(fs[i], None, false)] + Plan(d, fs, ws, i + 1, true, None, false))
  {
    hide Plan;
    hide HeadersUpTo;
    hide Tail;
    PlanFrom(d, fs, ws, i, true, None, false);
    HeadersStep(d, fs, ws, i, true);
    NoTail(d, fs, i, i);
    NothingBefore(WholeAt(d, fs, i, None, false));
  }

  lemma HeaderOnlyShift(d: Direction, fs: seq<Filter>, ws: seq<bool>, i: nat)
    requires |ws| == |fs| && i < |fs| && !ws[i]
    ensures Plan(d, fs, ws, i, true, None, false) ==
            [d.HeadersCall(fs[i], true)] + Plan(d, fs, ws, i + 1, true, None, false)
  {
    hide Plan;
    hide HeadersUpTo;
    hide Tail;
    hide WholeAt;
    PlanFrom(d, fs, ws, i, true, None, false);
    PlanFrom(d, fs, ws, i + 1, true, None, false);
    HeadersStep(d, fs, ws, i, true);
    var w := NextWait(ws, i);
    NoTail(d, fs, i, w);
    NoTail(d, fs, i + 1, w);
    JoinHeads([d.HeadersCall(fs[i], true)], HeadersUpTo(d, fs, i + 1, w, true), HeadersUpTo(d, fs, i, w, true),
              [] + WholeAt(d, fs, w, None, false) + Plan(d, fs, ws, w + 1, true, None, false),
              Plan(d, fs, ws, i + 1, true, None, false), Plan(d, fs, ws, i, true, None, false));
  }

  lemma {:induction false} FirstWait(ws: seq<bool>, k: nat, i: nat)
    requires k <= i < |ws| && ws[i] && forall j | k <= j < i :: !ws[j]
    ensures NextWait(ws, k) == i
    decreases i - k
  {
    if k < i {
      FirstWait(ws, k + 1, i);
    }
  }

  /** With nobody waiting, headers go through the whole chain. */
  /** If nobody waits the headers simply go down the chain. */
  lemma NobodyWaitsHeaders(d: Direction, fs: seq<Filter>, ws: seq<bool>, k: nat, endStream: bool)
    requires |ws| == |fs| && k <= |fs| && forall i | 0 <= i < |fs| :: !ws[i]
    ensures NextWait(ws, k) == |fs|
    ensures HeadersPlan(d, fs, ws, k, endStream) == Sweep(fs, k, |fs|, d.Headers(), None, endStream)
  {
    hide Plan;
    hide Tail;
    hide Sweep;
    assert NextWait(ws, k) == |fs|;
    if endStream {
      PlanFrom(d, fs, ws, k, true, None, false);
      NoTail(d, fs, k, |fs|);
      PlanUnfold(d, fs, ws, |fs| + 1, true, None, false);
      var s := Sweep(fs, k, |fs|, d.Headers(), None, true);
      assert s + ([] + [] + []) == s;
    }
  }

  lemma NobodyWaitsPlan(fs: seq<Filter>, ws: seq<bool>, k: nat, endStream: bool)
    requires |ws| == |fs| && k <= |fs| && forall i | 0 <= i < |fs| :: !ws[i]
    ensures NextWait(ws, k) == |fs|
    ensures AuthnPlan(fs, k, endStream) + HeadersPlan(Decode, fs, ws, k, endStream) ==
            Sweep(fs, 0, |fs|, DecodeHeaders, None, endStream)
  {
    hide HeadersPlan;
    hide NextWait;
    hide Sweep;
    NobodyWaitsHeaders(Decode, fs, ws, k, endStream);
    SweepSplit(fs, 0, k, |fs|, DecodeHeaders, None, endStream);
  }

  /** Of the chunks and what follows them, the first i chunks are done. */
  ghost predicate Streamed(d: Direction, fs: seq<Filter>, chunks: seq<nat>, trailers: bool, tail: seq<Call>, i: nat,
                           done: seq<Call>)
  {
    i <= |chunks|
    && Chunks(d, fs, chunks, trailers) + tail == done + (Chunks(d, fs, chunks[i..], trailers) + tail)
  }

  lemma StreamBegins(d: Direction, fs: seq<Filter>, chunks: seq<nat>, trailers: bool, tail: seq<Call>)
    ensures Streamed(d, fs, chunks, trailers, tail, 0, [])
  {
    hide Chunks;
    assert chunks[0..] == chunks;
    NothingBefore(Chunks(d, fs, chunks, trailers) + tail);
  }

  lemma StreamStep(d: Direction, fs: seq<Filter>, chunks: seq<nat>, trailers: bool, tail: seq<Call>, i: nat,
                   done: seq<Call>)
    requires i < |chunks| && Streamed(d, fs, chunks, trailers, tail, i, done)
    ensures var more := done + Sweep(fs, 0, |fs|, d.Data(), Some(chunks[i]), i == |chunks| - 1 && !trailers);
      Streamed(d, fs, chunks, trailers, tail, i + 1, more) && more <= Chunks(d, fs, chunks, trailers) + tail
  {
    hide Sweep;
    var step := Sweep(fs, 0, |fs|, d.Data(), Some(chunks[i]), i == |chunks| - 1 && !trailers);
    assert chunks[i..][1..] == chunks[i + 1..];
    Assoc(step, Chunks(d, fs, chunks[i + 1..], trailers), tail);
    Assoc(done, step, Chunks(d, fs, chunks[i + 1..], trailers) + tail);
  }

  lemma StreamEnds(d: Direction, fs: seq<Filter>, chunks: seq<nat>, trailers: bool, tail: seq<Call>, done: seq<Call>)
    requires Streamed(d, fs, chunks, trailers, tail, |chunks|, done)
    ensures Chunks(d, fs, chunks, trailers) + tail == done + tail
  {
    NothingBefore(tail);
  }

  /** Who stopped the headers waits, or some authn filter does; so body and
      trailers are not skipped. */
  lemma SomebodyWaits(fs0: seq<Filter>, fs: seq<Filter>, s0: SkipFlags, s: SkipFlags, oracle: Oracle, k: nat, w: nat)
    requires k <= |fs0| && w < |fs|
    requires Treated(fs, k, Stale(fs0, k, oracle, false), oracle, false)[w]
    requires (s.decodeData ==> s0.decodeData) && (s.decodeTrailers ==> s0.decodeTrailers)
    requires || (!s0.decodeData && !s0.decodeTrailers)
             || (SkipSoundButEncodeHeaders(s0, fs0) && SkipSoundButEncodeHeaders(s, fs) && PassThrough(oracle)
                 && WaitsOnlyWithWhole(Decode, oracle))
    ensures !s.decodeData && !s.decodeTrailers
  {
    if s.decodeData || s.decodeTrailers {
      SkippingMeansNobodyWaits(Decode, s, fs, oracle, false);
      SkippingMeansNobodyWaits(Decode, s0, fs0, oracle, false);
    }
  }

  /** What the body and the trailers bring, once headers stopped at w or ran through. */
  ghost function BodyPlan(fs: seq<Filter>, w: nat, oracle: Oracle, chunks: seq<nat>, trailers: bool): seq<Call>
  {
    if w < |fs| then Resume(Decode, fs, Waits(Decode, fs, oracle, false), w, Last(chunks), trailers)
    else Chunks(Decode, fs, chunks, trailers) + TrailersPlan(Decode, fs, trailers)
  }

  function TrailersPlan(d: Direction, fs: seq<Filter>, trailers: bool): seq<Call> {
    if trailers then Sweep(fs, 0, |fs|, d.Trailers(), None, false) else []
  }

  /** A whole request: authn prefix on the chain fs0, the rest on the chain fs
      that it has become, then body and trailers. */
  ghost function RequestPlan(fs0: seq<Filter>, fs: seq<Filter>, k: nat, oracle: Oracle, endStream: bool,
                             chunks: seq<nat>, trailers: bool): seq<Call>
    requires k <= |fs0|
  {
    var ws := Treated(fs, k, Stale(fs0, k, oracle, endStream), oracle, endStream);
    AuthnPlan(fs0, k, endStream) + HeadersPlan(Decode, fs, ws, k, endStream)
    + (if endStream then [] else BodyPlan(fs, NextWait(ws, k), oracle, chunks, trailers))
  }

  /** Envoy's side of a request: headers end it, or chunks and trailers follow,
      with at least one of them. */
  ghost predicate Wellformed(endStream: bool, chunks: seq<nat>, trailers: bool) {
    if endStream then chunks == [] && !trailers else chunks != [] || trailers
  }

  /** Without waiting filters the message is streamed. */
  function StreamPlan(d: Direction, fs: seq<Filter>, chunks: seq<nat>, trailers: bool): seq<Call> {
    Sweep(fs, 0, |fs|, d.Headers(), None, false) + Chunks(d, fs, chunks, trailers) + TrailersPlan(d, fs, trailers)
  }

  ghost predicate SamePrefix(fs0: seq<Filter>, fs: seq<Filter>, k: nat) {
    k <= |fs0| && k <= |fs| && fs0[..k] == fs[..k]
  }

  /** If the merge left the executed prefix in place, the request is scheduled
      as if the final chain had been there from the start. */
  lemma RequestPlanIsOnePlan(fs0: seq<Filter>, fs: seq<Filter>, k: nat, oracle: Oracle, endStream: bool,
                             chunks: seq<nat>, trailers: bool)
    requires SamePrefix(fs0, fs, k) && Wellformed(endStream, chunks, trailers)
    ensures var ws := Treated(fs, k, Stale(fs0, k, oracle, endStream), oracle, endStream);
            RequestPlan(fs0, fs, k, oracle, endStream, chunks, trailers) ==
            if endStream || NextWait(ws, 0) < |fs| then Plan(Decode, fs, ws, 0, endStream, Last(chunks), trailers)
            else StreamPlan(Decode, fs, chunks, trailers)
  {
    hide BodyPlan;
    hide Treated;
    var ws := Treated(fs, k, Stale(fs0, k, oracle, endStream), oracle, endStream);
    var w := NextWait(ws, k);
    assert w == NextWait(ws, 0) by { NextWaitSkips(ws, 0, k); }
    assert AuthnPlan(fs0, k, endStream) + HeadersUpTo(Decode, fs, k, w, endStream) ==
        HeadersUpTo(Decode, fs, 0, w, endStream) by {
      AuthnJoins(fs0, fs, k, w, endStream);
    }
    if endStream {
      HeaderOnlyJoins(fs0, fs, k, ws);
    } else if w < |fs| {
      BufferedJoins(fs, k, ws, w, oracle, chunks, trailers);
    } else {
      BodyPlanStreams(fs, w, oracle, chunks, trailers);
      Assoc(HeadersUpTo(Decode, fs, 0, w, false), Chunks(Decode, fs, chunks, trailers),
            TrailersPlan(Decode, fs, trailers));
    }
  }

  lemma BodyPlanStreams(fs: seq<Filter>, w: nat, oracle: Oracle, chunks: seq<nat>, trailers: bool)
    requires w >= |fs|
    ensures BodyPlan(fs, w, oracle, chunks, trailers) ==
        Chunks(Decode, fs, chunks, trailers) + TrailersPlan(Decode, fs, trailers)
  {
  }

  lemma {:induction false} NextWaitSkips(ws: seq<bool>, lo: nat, k: nat)
    requires lo <= k <= |ws| && forall i | lo <= i < k :: !ws[i]
    ensures NextWait(ws, lo) == NextWait(ws, k)
    decreases k - lo
  {
    if lo < k {
      NextWaitSkips(ws, lo + 1, k);
    }
  }

  lemma Regroup<T>(a: seq<T>, b: seq<T>, c: seq<T>, d: seq<T>)
    ensures a + ((b + c) + d) == ((a + b) + c) + d
    ensures a + (b + c) == (a + b) + c
  {
  }

  lemma AuthnJoins(fs0: seq<Filter>, fs: seq<Filter>, k: nat, w: nat, endStream: bool)
    requires SamePrefix(fs0, fs, k) && k <= w <= |fs|
    ensures AuthnPlan(fs0, k, endStream) + HeadersUpTo(Decode, fs, k, w, endStream) ==
        HeadersUpTo(Decode, fs, 0, w, endStream)
  {
    forall i | 0 <= i < k ensures fs0[i] == fs[i] { assert fs0[..k][i] == fs[..k][i]; }
    assert AuthnPlan(fs0, k, endStream) == Sweep(fs, 0, k, DecodeHeaders, None, endStream);
    SweepSplit(fs, 0, k, if w < |fs| then w + 1 else w, DecodeHeaders, None, endStream);
  }

  lemma HeaderOnlyJoins(fs0: seq<Filter>, fs: seq<Filter>, k: nat, ws: seq<bool>)
    requires k <= |fs0| && k <= |fs| == |ws|
    requires SamePrefix(fs0, fs, k) && NextWait(ws, 0) == NextWait(ws, k)
    ensures AuthnPlan(fs0, k, true) + Plan(Decode, fs, ws, k, true, None, false) ==
        Plan(Decode, fs, ws, 0, true, None, false)
  {
    hide Plan;
    hide NextWait;
    hide HeadersUpTo;
    hide WholeAt;
    hide Tail;
    hide AuthnPlan;
    hide Sweep;
    hide SamePrefix;
    var w := NextWait(ws, k);
    AuthnJoins(fs0, fs, k, w, true);
    PlanFrom(Decode, fs, ws, k, true, None, false);
    PlanFrom(Decode, fs, ws, 0, true, None, false);
    NoTail(Decode, fs, k, w);
    NoTail(Decode, fs, 0, w);
    var x := [] + WholeAt(Decode, fs, w, None, false) + Plan(Decode, fs, ws, w + 1, true, None, false);
    JoinHeads(AuthnPlan(fs0, k, true), HeadersUpTo(Decode, fs, k, w, true), HeadersUpTo(Decode, fs, 0, w, true), x,
              Plan(Decode, fs, ws, k, true, None, false), Plan(Decode, fs, ws, 0, true, None, false));
  }

  lemma JoinHeads<T>(a: seq<T>, h: seq<T>, g: seq<T>, x: seq<T>, p: seq<T>, q: seq<T>)
    requires a + h == g && p == h + x && q == g + x
    ensures a + p == q
  {
    assert a + (h + x) == (a + h) + x;
  }

  lemma NoTail(d: Direction, fs: seq<Filter>, lo: nat, w: nat)
    requires w <= |fs|
    ensures Tail(d, fs, lo, w, None, false) == []
  {
  }

  lemma BufferedJoins(fs: seq<Filter>, k: nat, ws: seq<bool>, w: nat, oracle: Oracle, chunks: seq<nat>, trailers: bool)
    requires |ws| == |fs| && k <= w < |fs| && w == NextWait(ws, 0)
    requires forall i | k < i < |fs| :: ws[i] == Waits(Decode, fs, oracle, false)[i]
    ensures HeadersUpTo(Decode, fs, 0, w, false) + BodyPlan(fs, w, oracle, chunks, trailers)
            == Plan(Decode, fs, ws, 0, false, Last(chunks), trailers)
  {
    hide Plan;
    hide HeadersUpTo;
    hide Tail;
    hide WholeAt;
    hide NextWait;
    PlanFrom(Decode, fs, ws, 0, false, Last(chunks), trailers);
    PlanDependsOnSuffix(Decode, fs, ws, Waits(Decode, fs, oracle, false), w + 1, false, Last(chunks), trailers);
  }

  /** What one filter is owed in a request or response. */
  ghost function MessageLog(d: Direction, f: Filter, buffered: bool, waits: bool, endStream: bool,
                            chunks: seq<nat>, trailers: bool): seq<Call>
  {
    if buffered then FilterLog(d, f, waits, endStream, Last(chunks), trailers)
    else
      [Call(f, if d == Decode then DecodeHeaders else EncodeHeaders, None, endStream)]
      + seq(|chunks|, k requires 0 <= k < |chunks| =>
          Call(f, if d == Decode then DecodeData else EncodeData, Some(chunks[k]), k == |chunks| - 1 && !trailers))
      + (if trailers then [Call(f, if d == Decode then DecodeTrailers else EncodeTrailers, None, false)] else [])
  }

  lemma StreamServesEveryFilter(d: Direction, fs: seq<Filter>, chunks: seq<nat>, trailers: bool, i: nat)
    requires i < |fs| && DistinctFilters(fs)
    ensures Of(StreamPlan(d, fs, chunks, trailers), fs[i]) ==
        MessageLog(d, fs[i], false, false, false, chunks, trailers)
  {
    var a := Sweep(fs, 0, |fs|, d.Headers(), None, false);
    var b := Chunks(d, fs, chunks, trailers);
    OfSweep(fs, 0, |fs|, d.Headers(), None, false, i);
    ChunksServeEveryFilter(d, fs, chunks, trailers, i);
    if trailers { OfSweep(fs, 0, |fs|, d.Trailers(), None, false, i); }
    hide Sweep;
    hide Chunks;
    OfConcat(a, b, fs[i]);
    OfConcat(a + b, TrailersPlan(d, fs, trailers), fs[i]);
  }

  /** Every filter of the chain, those a consumer brought included, is served
      once and completely: headers; then, if somebody waits, its whole-body
      callback or the buffered body and trailers, else every chunk and the trailers. */
  lemma RequestServesEveryFilter(fs0: seq<Filter>, fs: seq<Filter>, k: nat, oracle: Oracle, endStream: bool,
                                 chunks: seq<nat>, trailers: bool, i: nat)
    requires SamePrefix(fs0, fs, k) && Wellformed(endStream, chunks, trailers)
    requires i < |fs| && DistinctFilters(fs)
    ensures var ws := Treated(fs, k, Stale(fs0, k, oracle, endStream), oracle, endStream);
            Of(RequestPlan(fs0, fs, k, oracle, endStream, chunks, trailers), fs[i]) ==
            MessageLog(Decode, fs[i], endStream || NextWait(ws, 0) < |fs|, ws[i], endStream, chunks, trailers)
  {
    RequestPlanIsOnePlan(fs0, fs, k, oracle, endStream, chunks, trailers);
    hide RequestPlan;
    var ws := Treated(fs, k, Stale(fs0, k, oracle, endStream), oracle, endStream);
    if endStream || NextWait(ws, 0) < |fs| {
      PlanServesEveryFilter(Decode, fs, ws, 0, endStream, Last(chunks), trailers, i);
    } else {
      StreamServesEveryFilter(Decode, fs, chunks, trailers, i);
    }
  }

  /** Whoever asked to wait, and nobody else, is treated as waiting. */
  ghost predicate WaitsHonoured(fs0: seq<Filter>, fs: seq<Filter>, k: nat, oracle: Oracle, endStream: bool)
    requires k <= |fs0|
  {
    Treated(fs, k, Stale(fs0, k, oracle, endStream), oracle, endStream) == Waits(Decode, fs, oracle, endStream)
  }

  /** "WaitAllData gets you DecodeRequest, once, and nothing else does" holds
      exactly when no filter of the authn prefix returns WaitAllData. */
  lemma WaitsHonouredIff(fs0: seq<Filter>, fs: seq<Filter>, k: nat, oracle: Oracle, endStream: bool)
    requires SamePrefix(fs0, fs, k)
    ensures WaitsHonoured(fs0, fs, k, oracle, endStream) <==>
            forall i | 0 <= i < k :: !oracle(Decode.HeadersCall(fs0[i], endStream)).WaitAllData?
  {
    forall i | 0 <= i < k ensures fs0[i] == fs[i] { assert fs0[..k][i] == fs[..k][i]; }
    var ws := Treated(fs, k, Stale(fs0, k, oracle, endStream), oracle, endStream);
    var vs := Waits(Decode, fs, oracle, endStream);
    if ws == vs {
      forall i | 0 <= i < k ensures !vs[i] { assert ws[i] == vs[i]; }
    } else if !Stale(fs0, k, oracle, endStream) {
      forall i | 0 <= i < |fs| ensures ws[i] == vs[i] {
        if i < k { assert !Waits(Decode, fs0, oracle, endStream)[i]; }
      }
      assert false;
    }
  }

  /** An authn filter that waits on a request with a body: it never gets
      DecodeRequest, and the filter after it gets one it did not ask for. */
  lemma AuthnWaitIsMisrouted(fs: seq<Filter>, oracle: Oracle, buf: nat)
    requires |fs| == 2 && fs[0] != fs[1]
    requires oracle(Decode.HeadersCall(fs[0], false)).WaitAllData? && oracle(Decode.HeadersCall(fs[1], false)).Continue?
    ensures var plan := RequestPlan(fs, fs, 1, oracle, false, [buf], false);
            && Call(fs[0], DecodeRequest, Some(buf), false) !in plan
            && Call(fs[1], DecodeRequest, Some(buf), false) in plan
  {
    assert Waits(Decode, fs, oracle, false)[0];
    var ws := Treated(fs, 1, true, oracle, false);
    assert ws == [false, true];
    assert NextWait(ws, 0) == 1;
    RequestServesEveryFilter(fs, fs, 1, oracle, false, [buf], false, 0);
    RequestServesEveryFilter(fs, fs, 1, oracle, false, [buf], false, 1);
    hide RequestPlan;
    var plan := RequestPlan(fs, fs, 1, oracle, false, [buf], false);
    OfMembers(plan, Call(fs[0], DecodeRequest, Some(buf), false));
    OfMembers(plan, Call(fs[1], DecodeRequest, Some(buf), false));
  }

  /** Headers reach the filters in chain order; and in a buffered request no
      filter behind a waiting one is called before that one's DecodeRequest. */
  lemma RequestOrder(fs0: seq<Filter>, fs: seq<Filter>, k: nat, oracle: Oracle, endStream: bool,
                     chunks: seq<nat>, trailers: bool)
    requires SamePrefix(fs0, fs, k) && Wellformed(endStream, chunks, trailers) && DistinctFilters(fs)
    ensures var ws := Treated(fs, k, Stale(fs0, k, oracle, endStream), oracle, endStream);
            var plan := RequestPlan(fs0, fs, k, oracle, endStream, chunks, trailers);
            && Only(plan, DecodeHeaders) == Sweep(fs, 0, |fs|, DecodeHeaders, None, endStream)
            && forall p: nat, i: nat, j: nat | p < |plan| && i < j < |fs| && ws[i] && plan[p].filter == fs[j] ::
                 Call(fs[i], DecodeRequest, Last(chunks), trailers) in plan[..p]
  {
    RequestPlanIsOnePlan(fs0, fs, k, oracle, endStream, chunks, trailers);
    hide RequestPlan;
    var ws := Treated(fs, k, Stale(fs0, k, oracle, endStream), oracle, endStream);
    var plan := RequestPlan(fs0, fs, k, oracle, endStream, chunks, trailers);
    if endStream || NextWait(ws, 0) < |fs| {
      PlanHeadersInOrder(Decode, fs, ws, 0, endStream, Last(chunks), trailers);
      forall p: nat, i: nat, j: nat | p < |plan| && i < j < |fs| && ws[i] && plan[p].filter == fs[j]
        ensures Call(fs[i], DecodeRequest, Last(chunks), trailers) in plan[..p] {
        PlanBarrier(Decode, fs, ws, 0, endStream, Last(chunks), trailers, p, i, j);
      }
    } else {
      StreamHeaders(Decode, fs, chunks, trailers);
      assert forall i | 0 <= i < |fs| :: !ws[i];
    }
  }

  lemma {:induction false} ChunksNoHeaders(d: Direction, fs: seq<Filter>, chunks: seq<nat>, trailers: bool)
    ensures Only(Chunks(d, fs, chunks, trailers), d.Headers()) == []
  {
    if chunks != [] {
      var a := Sweep(fs, 0, |fs|, d.Data(), Some(chunks[0]), |chunks| == 1 && !trailers);
      OnlySweep(fs, 0, |fs|, d.Data(), Some(chunks[0]), |chunks| == 1 && !trailers, d.Headers());
      ChunksNoHeaders(d, fs, chunks[1..], trailers);
      OnlyConcat(a, Chunks(d, fs, chunks[1..], trailers), d.Headers());
    }
  }

  lemma StreamHeaders(d: Direction, fs: seq<Filter>, chunks: seq<nat>, trailers: bool)
    ensures Only(StreamPlan(d, fs, chunks, trailers), d.Headers()) == Sweep(fs, 0, |fs|, d.Headers(), None, false)
  {
    var a := Sweep(fs, 0, |fs|, d.Headers(), None, false);
    var b := Chunks(d, fs, chunks, trailers);
    OnlySweep(fs, 0, |fs|, d.Headers(), None, false, d.Headers());
    ChunksNoHeaders(d, fs, chunks, trailers);
    if trailers { OnlySweep(fs, 0, |fs|, d.Trailers(), None, false, d.Headers()); }
    hide Sweep;
    hide Chunks;
    OnlyConcat(a, b, d.Headers());
    OnlyConcat(a + b, TrailersPlan(d, fs, trailers), d.Headers());
  }

  /** Without a consumer, DecodeHeaders on the caller's thread blocks nowhere. */
  lemma InlineRequestHeadersAreSound(s: SyncFlags, fs: seq<Filter>, ws: seq<bool>, k: nat, endStream: bool)
    requires SyncSound(s, fs) && s.decodeHeaders && |ws| == |fs| && k <= |fs|
    ensures NonBlocking(AuthnPlan(fs, k, endStream) + HeadersPlan(Decode, fs, ws, k, endStream))
  {
    hide Plan;
    hide HeadersUpTo;
    InlineHeadersAreSound(Decode, s, fs, ws, k, endStream);
    WithinNonBlocking(AuthnPlan(fs, k, endStream), fs, {DecodeHeaders});
    NonBlockingConcat(AuthnPlan(fs, k, endStream), HeadersPlan(Decode, fs, ws, k, endStream));
  }

  lemma NonBlockingConcat(a: seq<Call>, b: seq<Call>)
    requires NonBlocking(a) && NonBlocking(b)
    ensures NonBlocking(a + b)
  {
  }

  /** decodeHeaders reaches filter i: it goes on to the end of the chain when the
      request ends here, else as far as the first waiting filter. */
  predicate Reached(ws: seq<bool>, k: nat, i: nat, endStream: bool) {
    i >= k && (endStream || i <= NextWait(ws, k))
  }

  predicate Quiet(f: Filter, m: Callback) { m in f.overridden ==> m in f.nonBlocking }

  /** What filter f is called for there does not block. */
  predicate QuietInHeaders(f: Filter, waits: bool, endStream: bool) {
    Quiet(f, DecodeHeaders) && (endStream && waits ==> Quiet(f, DecodeRequest))
  }

  /** The header loop is non-blocking exactly when what it reaches is. */
  lemma {:induction false} HeaderLoopQuietIff(fs: seq<Filter>, ws: seq<bool>, k: nat, endStream: bool)
    requires |ws| == |fs|
    ensures NonBlocking(HeaderLoop(Decode, fs, ws, k, endStream)) <==>
            forall i | k <= i < |fs| && Reached(ws, k, i, endStream) :: QuietInHeaders(fs[i], ws[i], endStream)
    decreases |fs| - k
  {
    if k < |fs| {
      var h := [Decode.HeadersCall(fs[k], endStream)];
      var rest := HeaderLoop(Decode, fs, ws, k + 1, endStream);
      HeaderLoopQuietIff(fs, ws, k + 1, endStream);
      forall i | k < i < |fs| ensures Reached(ws, k, i, endStream) <==>
        (endStream || !ws[k]) && Reached(ws, k + 1, i, endStream) {
      }
      assert Reached(ws, k, k, endStream);
      if ws[k] && endStream {
        var whole := [Decode.WholeCall(fs[k], None, false)];
        NonBlockingAppend(whole, rest);
        NonBlockingAppend(h, whole + rest);
      } else {
        NonBlockingAppend(h, HeaderLoopRest(Decode, fs, ws, k, endStream));
      }
    }
  }

  lemma NonBlockingAppend(a: seq<Call>, b: seq<Call>)
    ensures NonBlocking(a + b) <==> NonBlocking(a) && NonBlocking(b)
    ensures |a| == 1 ==> (NonBlocking(a) <==> Quiet(a[0].filter, a[0].cb))
  {
    forall i | 0 <= i < |a| ensures (a + b)[i] == a[i] {}
    forall i | 0 <= i < |b| ensures (a + b)[|a| + i] == b[i] {}
  }

  /** No consumer filter that decodeHeaders reaches blocks in what it is called for. */
  ghost predicate ConsumerIsQuiet(t: seq<Filter>, cfg: FilterConfigs, ws: seq<bool>, k: nat, endStream: bool)
    requires |ws| == |t|
  {
    forall i | k <= i < |t| && Reached(ws, k, i, endStream) && t[i] in Wrappers(cfg) ::
      QuietInHeaders(t[i], ws[i], endStream)
  }

  /** DecodeHeaders is let through on the caller's thread before the consumer is
      known. If the consumer's filters join, what is then run is non-blocking
      exactly when none of them that it reaches blocks in DecodeHeaders, nor, if
      it waits and the request ends here, in DecodeRequest. */
  lemma InlineDecodeHeadersAfterMergeIff(t: seq<Filter>, fs: seq<Filter>, cfg: FilterConfigs, reg: Registry,
                                         s: SyncFlags, ws: seq<bool>, k: nat, endStream: bool)
    requires IsMerge(t, fs, cfg, reg) && SyncSound(s, fs) && s.decodeHeaders
    requires |ws| == |t| && k <= |fs|
    ensures NonBlocking(AuthnPlan(fs, k, endStream) + HeadersPlan(Decode, t, ws, k, endStream)) <==>
            ConsumerIsQuiet(t, cfg, ws, k, endStream)
  {
    hide HeadersPlan;
    hide HeaderLoop;
    hide IsMerge;
    HeaderLoopIsPlan(Decode, t, ws, k, endStream);
    HeaderLoopQuietIff(t, ws, k, endStream);
    MergeMembers(t, fs, cfg, reg);
    WithinNonBlocking(AuthnPlan(fs, k, endStream), fs, {DecodeHeaders});
    NonBlockingAppend(AuthnPlan(fs, k, endStream), HeadersPlan(Decode, t, ws, k, endStream));
    hide NonBlocking;
    forall i | k <= i < |t| && t[i] !in Wrappers(cfg) ensures QuietInHeaders(t[i], ws[i], endStream) {
      assert t[i] in t && t[i] in fs;
    }
  }

  /** A consumer whose filter reads the whole request, on a request without a
      body: sound flags let DecodeHeaders run on the caller's thread, and the
      blocking DecodeRequest with it. */
  lemma MergedHeadersCanBlock(oracle: Oracle)
    returns (fs: seq<Filter>, cfg: FilterConfigs, reg: Registry, t: seq<Filter>, s: SyncFlags)
    ensures |fs| == 1 && |t| == 2
    ensures IsMerge(t, fs, cfg, reg) && SyncSound(s, fs) && s.decodeHeaders && SamePrefix(fs, t, 1)
    ensures reg.Keys == {"auth", "sign"} && reg["auth"].position == POSITION_AUTHN && fs[0].name == "auth"
    ensures NoneBlocks(t, DecodeHeaders)
    ensures oracle(Decode.HeadersCall(t[0], true)).Continue? && oracle(Decode.HeadersCall(t[1], true)).WaitAllData? ==>
      var ws := Treated(t, 1, Stale(fs, 1, oracle, true), oracle, true);
      !NonBlocking(AuthnPlan(fs, 1, true) + HeadersPlan(Decode, t, ws, 1, true))
  {
    var auth := Filter("auth", {DecodeHeaders}, {DecodeHeaders});
    var sign := Filter("sign", {DecodeHeaders, DecodeRequest}, {DecodeHeaders});
    fs, cfg, t := [auth], map["sign" := sign], [auth, sign];
    reg := map["auth" := PluginOrder(POSITION_AUTHN, 0), "sign" := PluginOrder(POSITION_AUTHN + 1, 0)];
    s := SyncFlags(true, true, true, true, true, true);
    assert "auth" != "sign";
    AppendMerge(fs, sign, reg);
    assert fs + [sign] == t;
    hide IsMerge;
    hide ComparePluginOrder;
    if oracle(Decode.HeadersCall(t[0], true)).Continue? && oracle(Decode.HeadersCall(t[1], true)).WaitAllData? {
      var ws := Treated(t, 1, Stale(fs, 1, oracle, true), oracle, true);
      InlineDecodeHeadersAfterMergeIff(t, fs, cfg, reg, s, ws, 1, true);
      assert Wrap("sign", sign) == sign && "sign" in cfg;
      assert t[1] in Wrappers(cfg) && Reached(ws, 1, 1, true) && ws[1] && !Quiet(t[1], DecodeRequest);
      assert !QuietInHeaders(t[1], ws[1], true);
      assert !ConsumerIsQuiet(t, cfg, ws, 1, true);
    }
  }

  // ------------------------------------------------------------------ responses

  function Reverse<T>(s: seq<T>): (r: seq<T>)
    ensures |r| == |s|
    ensures forall i | 0 <= i < |s| :: r[i] == s[|s| - 1 - i]
  {
    seq(|s|, i requires 0 <= i < |s| => s[|s| - 1 - i])
  }

  lemma ReverseKeepsMembers(fs: seq<Filter>)
    ensures forall f :: f in Reverse(fs) <==> f in fs
  {
    var rs := Reverse(fs);
    forall f | f in fs ensures f in rs {
      var i :| 0 <= i < |fs| && fs[i] == f;
      assert rs[|fs| - 1 - i] == f;
    }
  }

  lemma SkipSoundReversed(s: SkipFlags, fs: seq<Filter>)
    ensures SkipSoundButEncodeHeaders(s, fs) ==> SkipSoundButEncodeHeaders(s, Reverse(fs))
    ensures NoneOverrides(fs, EncodeHeaders) ==> NoneOverrides(Reverse(fs), EncodeHeaders)
  {
    ReverseKeepsMembers(fs);
  }

  /** The skip flags of the response may be acted upon: none is set, or they are
      sound and plugins keep to PassThroughFilter. */
  ghost predicate ResponseSkipsSafe(s: SkipFlags, fs: seq<Filter>, oracle: Oracle) {
    || (!s.encodeHeaders && !s.encodeData && !s.encodeTrailers)
    || (SkipSoundButEncodeHeaders(s, fs) && (s.encodeHeaders ==> NoneOverrides(fs, EncodeHeaders))
        && PassThrough(oracle) && WaitsOnlyWithWhole(Encode, oracle))
  }

  /** If any phase of the response is skipped, nobody waits for the whole of it. */
  lemma SkippedResponseNobodyWaits(s: SkipFlags, fs: seq<Filter>, oracle: Oracle, endStream: bool)
    requires ResponseSkipsSafe(s, fs, oracle) && (s.encodeHeaders || s.encodeData || s.encodeTrailers)
    ensures forall i | 0 <= i < |fs| :: !Waits(Encode, Reverse(fs), oracle, endStream)[i]
  {
    SkipSoundReversed(s, fs);
    SkippingMeansNobodyWaits(Encode, s.(decodeHeaders := false), Reverse(fs), oracle, endStream);
  }

  /** Skipped response headers: the full run would show nothing, and go on. */
  lemma ResponseHeadersSkippedSafely(s: SkipFlags, fs: seq<Filter>, oracle: Oracle, endStream: bool, t0: seq<Event>,
                                     full: seq<Event>)
    requires ResponseSkipsSafe(s, fs, oracle) && s.encodeHeaders
    requires full == t0 + Cut(HeadersPlan(Encode, Reverse(fs), Waits(Encode, Reverse(fs), oracle, endStream), 0,
                                          endStream), oracle)
    ensures var ws := Waits(Encode, Reverse(fs), oracle, endStream);
      NextWait(ws, 0) == |fs| && Outcome(t0, HeadersPlan(Encode, Reverse(fs), ws, 0, endStream), oracle, full, true)
    ensures Visible(full) == Visible(t0)
  {
    var rs := Reverse(fs);
    var ws := Waits(Encode, rs, oracle, endStream);
    SkippedResponseNobodyWaits(s, fs, oracle, endStream);
    SkipSoundReversed(s, fs);
    hide Waits;
    hide Reverse;
    hide HeadersPlan;
    hide Visible;
    hide Outcome;
    hide Sweep;
    hide NextWait;
    NobodyWaitsHeaders(Encode, rs, ws, 0, endStream);
    var plan := Sweep(rs, 0, |rs|, EncodeHeaders, None, endStream);
    OutcomeOf(t0, plan, oracle);
    SkippingHeadersRefines(Encode, rs, oracle, endStream, t0, full, !Replies(plan, oracle));
  }

  /** One streamed step of a response, run or skipped, beside the full run. */
  lemma ResponseStepAlike(s: SkipFlags, fs: seq<Filter>, chain: seq<Filter>, oracle: Oracle, m: Callback,
                          body: Option<nat>, flag: bool, skipped: bool, before: seq<Event>, fullBefore: seq<Event>,
                          now: seq<Event>, full: seq<Event>, ok: bool)
    requires ResponseSkipsSafe(s, fs, oracle) && Visible(before) == Visible(fullBefore)
    requires chain == fs || chain == Reverse(fs)
    requires (m == EncodeData && skipped == s.encodeData) || (m == EncodeTrailers && skipped == s.encodeTrailers)
    requires full == fullBefore + Cut(Sweep(chain, 0, |chain|, m, body, flag), oracle)
    requires skipped ==> now == before && ok
    requires !skipped ==> Outcome(before, Sweep(chain, 0, |chain|, m, body, flag), oracle, now, ok)
    ensures Outcome(fullBefore, Sweep(chain, 0, |chain|, m, body, flag), oracle, full, ok)
    ensures Visible(now) == Visible(full)
    ensures !skipped && before == fullBefore ==> now == full
  {
    hide Sweep;
    hide Visible;
    hide Cut;
    var plan := Sweep(chain, 0, |chain|, m, body, flag);
    if skipped {
      SkipSoundReversed(s, fs);
      OutcomeOf(fullBefore, plan, oracle);
      SkippingBodyRefines(Encode, s, chain, oracle, m, body, flag, fullBefore, full, !Replies(plan, oracle));
    } else {
      RunningAlike(before, fullBefore, plan, oracle, now, full, ok);
    }
  }

  lemma SyncSoundReversed(s: SyncFlags, fs: seq<Filter>)
    requires SyncSound(s, fs)
    ensures SyncSound(s, Reverse(fs))
  {
    ReverseKeepsMembers(fs);
  }

  /** Response headers on the caller's thread block nowhere. */
  lemma InlineResponseHeadersAreSound(s: SyncFlags, fs: seq<Filter>, ws: seq<bool>, endStream: bool)
    requires SyncSound(s, fs) && s.encodeHeaders && |ws| == |fs|
    ensures NonBlocking(HeadersPlan(Encode, Reverse(fs), ws, 0, endStream))
  {
    hide Plan;
    hide HeadersUpTo;
    ReverseKeepsMembers(fs);
    InlineHeadersAreSound(Encode, s, Reverse(fs), ws, 0, endStream);
  }

  /** A whole response: the chain backwards. A buffered body is handed over in
      one EncodeData; trailers of a buffered response are not processed; and
      streamed trailers go forwards. */
  ghost function ResponsePlan(fs: seq<Filter>, oracle: Oracle, endStream: bool, chunks: seq<nat>,
                              trailers: bool): seq<Call>
  {
    var rs := Reverse(fs);
    var ws := Waits(Encode, rs, oracle, endStream);
    if endStream then Plan(Encode, rs, ws, 0, true, None, false)
    else
      var w := NextWait(ws, 0);
      HeadersUpTo(Encode, rs, 0, w, false)
      + (if w < |fs| then (if chunks == [] then [] else Resume(Encode, rs, ws, w, Some(chunks[0]), false))
         else Chunks(Encode, rs, chunks, trailers) + TrailersPlan(Encode, fs, trailers))
  }

  /** Envoy hands over a buffered response body in one piece. */
  ghost predicate WellformedResponse(fs: seq<Filter>, oracle: Oracle, endStream: bool, chunks: seq<nat>,
                                     trailers: bool) {
    && Wellformed(endStream, chunks, trailers)
    && (NextWait(Waits(Encode, Reverse(fs), oracle, endStream), 0) < |fs| ==> |chunks| <= 1)
  }

  /** The response runs as the request does, on the chain backwards, except
      that a buffered response loses its trailers and a streamed one has them
      in chain order. */
  lemma ResponsePlanMirrors(fs: seq<Filter>, oracle: Oracle, endStream: bool, chunks: seq<nat>, trailers: bool)
    requires WellformedResponse(fs, oracle, endStream, chunks, trailers)
    ensures var rs := Reverse(fs);
            var ws := Waits(Encode, rs, oracle, endStream);
            var plan := ResponsePlan(fs, oracle, endStream, chunks, trailers);
            && (endStream ==> plan == Plan(Encode, rs, ws, 0, true, None, false))
            && (!endStream && NextWait(ws, 0) < |fs| && chunks != [] ==>
                plan == Plan(Encode, rs, ws, 0, false, Last(chunks), false))
            && (!endStream && NextWait(ws, 0) >= |fs| ==>
                  plan == Sweep(rs, 0, |fs|, EncodeHeaders, None, false) + Chunks(Encode, rs, chunks, trailers) +
                      TrailersPlan(Encode, fs, trailers))
  {
    hide Waits;
    hide Reverse;
    hide Plan;
    hide Tail;
    hide WholeAt;
    hide Sweep;
    hide NextWait;
    hide Chunks;
    var rs := Reverse(fs);
    var ws := Waits(Encode, rs, oracle, endStream);
    var w := NextWait(ws, 0);
    PlanFrom(Encode, rs, ws, 0, false, Last(chunks), false);
    Regroup(HeadersUpTo(Encode, rs, 0, w, false), Chunks(Encode, rs, chunks, trailers),
            TrailersPlan(Encode, fs, trailers), []);
  }

  lemma ReverseDistinct(fs: seq<Filter>)
    requires DistinctFilters(fs)
    ensures DistinctFilters(Reverse(fs))
  {
  }

  /** A waiting filter gets exactly one EncodeResponse and no EncodeData, every
      other one EncodeData, provided there is a body to hand over. */
  lemma ResponseServesEveryFilter(fs: seq<Filter>, oracle: Oracle, endStream: bool, chunks: seq<nat>, trailers: bool,
                                  i: nat)
    requires WellformedResponse(fs, oracle, endStream, chunks, trailers)
    requires i < |fs| && DistinctFilters(fs)
    requires endStream || NextWait(Waits(Encode, Reverse(fs), oracle, endStream), 0) >= |fs| || chunks != []
    ensures var ws := Waits(Encode, Reverse(fs), oracle, endStream);
            var buffered := endStream || NextWait(ws, 0) < |fs|;
            Of(ResponsePlan(fs, oracle, endStream, chunks, trailers), fs[i]) ==
            MessageLog(Encode, fs[i], buffered, ws[|fs| - 1 - i], endStream, chunks, trailers && !buffered)
  {
    ResponsePlanMirrors(fs, oracle, endStream, chunks, trailers);
    ReverseDistinct(fs);
    hide ResponsePlan;
    var rs := Reverse(fs);
    var ws := Waits(Encode, rs, oracle, endStream);
    var j := |fs| - 1 - i;
    assert rs[j] == fs[i];
    if endStream || NextWait(ws, 0) < |fs| {
      hide Plan;
      hide FilterLog;
      PlanServesEveryFilter(Encode, rs, ws, 0, endStream, Last(chunks), false, j);
    } else {
      StreamedResponseServes(fs, chunks, trailers, i);
    }
  }

  lemma StreamedResponseServes(fs: seq<Filter>, chunks: seq<nat>, trailers: bool, i: nat)
    requires i < |fs| && DistinctFilters(fs) && DistinctFilters(Reverse(fs))
    ensures var rs := Reverse(fs);
      Of(Sweep(rs, 0, |fs|, EncodeHeaders, None, false) + Chunks(Encode, rs, chunks, trailers)
         + TrailersPlan(Encode, fs, trailers), fs[i]) ==
      MessageLog(Encode, fs[i], false, false, false, chunks, trailers)
  {
    var rs := Reverse(fs);
    var j := |fs| - 1 - i;
    assert rs[j] == fs[i];
    var a := Sweep(rs, 0, |fs|, EncodeHeaders, None, false);
    var b := Chunks(Encode, rs, chunks, trailers);
    OfSweep(rs, 0, |fs|, EncodeHeaders, None, false, j);
    ChunksServeEveryFilter(Encode, rs, chunks, trailers, j);
    if trailers { OfSweep(fs, 0, |fs|, EncodeTrailers, None, false, i); }
    hide Sweep;
    hide Chunks;
    OfConcat(a, b, fs[i]);
    OfConcat(a + b, TrailersPlan(Encode, fs, trailers), fs[i]);
  }

  /** A buffered response with trailers but no body never reaches the waiting
      filter's EncodeResponse: it does exactly when there is a body. */
  lemma BufferedResponseCompletesIff(fs: seq<Filter>, oracle: Oracle, chunks: seq<nat>, trailers: bool, i: nat)
    requires WellformedResponse(fs, oracle, false, chunks, trailers) && DistinctFilters(fs)
    requires i < |fs| && Waits(Encode, Reverse(fs), oracle, false)[|fs| - 1 - i]
    ensures var plan := ResponsePlan(fs, oracle, false, chunks, trailers);
      && (chunks != [] ==> Call(fs[i], EncodeResponse, Some(chunks[0]), false) in plan)
      && (chunks == [] ==> forall c | c in plan :: c.cb == EncodeHeaders)
  {
    var ws := Waits(Encode, Reverse(fs), oracle, false);
    var w := NextWait(ws, 0);
    var plan := ResponsePlan(fs, oracle, false, chunks, trailers);
    if chunks != [] {
      ResponseServesEveryFilter(fs, oracle, false, chunks, trailers, i);
      hide ResponsePlan;
      OfMembers(plan, Call(fs[i], EncodeResponse, Last(chunks), false));
    }
  }

  /** Streamed response trailers run in chain order, which is the reversed
      order the response is documented to have only for a chain of at most one. */
  lemma StreamedTrailersReversedIff(fs: seq<Filter>)
    requires DistinctFilters(fs)
    ensures TrailersPlan(Encode, fs, true) == TrailersPlan(Encode, Reverse(fs), true) <==> |fs| <= 1
  {
    var a, b := TrailersPlan(Encode, fs, true), TrailersPlan(Encode, Reverse(fs), true);
    if |fs| > 1 {
      assert a[0].filter == fs[0] && b[0].filter == fs[|fs| - 1];
    }
  }
}
