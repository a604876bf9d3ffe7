/** The callbacks of one HTTP stream, and the schedule the filter manager owes
    to its chain: which callback of which plugin runs, and when. */
module Chain {

  import opened Options

  datatype Callback =
    | DecodeHeaders | DecodeData | DecodeTrailers | DecodeRequest
    | EncodeHeaders | EncodeData | EncodeTrailers | EncodeResponse
    | OnLog

  /** A plugin instance in the chain: which callbacks it overrides, and which of
      them it declares non-blocking (`NonBlockingPhases`). */
  datatype Filter = Filter(name: string, overridden: set<Callback>, nonBlocking: set<Callback>)

  datatype Action = Continue | WaitAllData | WaitData | LocalResponse(code: int) | Unrecognised

  /** One callback with its arguments. `body` is the buffer it is handed, if
      any; `flag` is endStream, or for a whole-body callback "has trailers". */
  datatype Call = Call(filter: Filter, cb: Callback, body: Option<nat>, flag: bool)

  datatype Event = Called(call: Call) | LocalReply(plugin: string)

  /** How the plugins answer. No callback is made twice with the same arguments
      in one stream, so a function of the call is as general as plugins with state. */
  type Oracle = Call -> Action

  datatype Direction = Decode | Encode {
    function Headers(): Callback { if Decode? then DecodeHeaders else EncodeHeaders }
    function Data(): Callback { if Decode? then DecodeData else EncodeData }
    function Trailers(): Callback { if Decode? then DecodeTrailers else EncodeTrailers }
    function Whole(): Callback { if Decode? then DecodeRequest else EncodeResponse }
    function HeadersCall(f: Filter, endStream: bool): Call { Call(f, Headers(), None, endStream) }
    function DataCall(f: Filter, buf: nat, endStream: bool): Call { Call(f, Data(), Some(buf), endStream) }
    function TrailersCall(f: Filter): Call { Call(f, Trailers(), None, false) }
    // EncodeResponse is always handed nil trailers
    function WholeCall(f: Filter, body: Option<nat>, trailers: bool): Call {
      Call(f, Whole(), body, Decode? && trailers)
    }
  }

  // ------------------------------------------------------------- the schedule

  /** One callback made on filters lo..hi-1 in order. */
  function Sweep(fs: seq<Filter>, lo: nat, hi: nat, m: Callback, body: Option<nat>, flag: bool): (s: seq<Call>)
    requires hi <= |fs|
    ensures |s| == if lo < hi then hi - lo else 0
    ensures forall k | 0 <= k < |s| :: s[k] == Call(fs[lo + k], m, body, flag)
  {
    seq(if lo < hi then hi - lo else 0, k requires 0 <= k && lo + k < hi => Call(fs[lo + k], m, body, flag))
  }

  /** First waiting filter at or after lo. */
  function NextWait(ws: seq<bool>, lo: nat): (w: nat)
    ensures w == |ws| || (lo <= w < |ws| && ws[w]) || lo >= |ws|
    ensures lo <= |ws| ==> lo <= w <= |ws|
    ensures lo >= |ws| ==> w == |ws|
    ensures forall i | lo <= i < w && i < |ws| :: !ws[i]
    decreases |ws| - lo
  {
    if lo >= |ws| then |ws| else if ws[lo] then lo else NextWait(ws, lo + 1)
  }

  /** Body and trailers handed to filters lo..hi-1. */
  function Tail(d: Direction, fs: seq<Filter>, lo: nat, hi: nat, body: Option<nat>, trailers: bool): seq<Call>
    requires hi <= |fs|
  {
    (if body.Some? then Sweep(fs, lo, hi, d.Data(), body, !trailers) else [])
    + (if trailers then Sweep(fs, lo, hi, d.Trailers(), None, false) else [])
  }

  /** Headers for filters lo..w, w included unless it is past the end. */
  function HeadersUpTo(d: Direction, fs: seq<Filter>, lo: nat, w: nat, endStream: bool): seq<Call>
    requires w <= |fs|
  {
    Sweep(fs, lo, if w < |fs| then w + 1 else w, d.Headers(), None, endStream)
  }

  /** Headers for filters lo..w, the buffered body for those before w, and
      then the whole-body callback of w, unless w is past the end. */
  function Segment(d: Direction, fs: seq<Filter>, lo: nat, w: nat, endStream: bool,
                   body: Option<nat>, trailers: bool): seq<Call>
    requires w <= |fs|
  {
    HeadersUpTo(d, fs, lo, w, endStream)
    + Tail(d, fs, lo, w, body, trailers)
    + WholeAt(d, fs, w, body, trailers)
  }

  function WholeAt(d: Direction, fs: seq<Filter>, w: nat, body: Option<nat>, trailers: bool): seq<Call>
  {
    if w < |fs| then [d.WholeCall(fs[w], body, trailers)] else []
  }

  /** The whole-body schedule from filter lo on: one segment per waiting filter. */
  function Plan(d: Direction, fs: seq<Filter>, ws: seq<bool>, lo: nat, endStream: bool,
                body: Option<nat>, trailers: bool): seq<Call>
    requires |ws| == |fs|
    decreases |fs| - lo
  {
    if lo >= |fs| then []
    else
      var w := NextWait(ws, lo);
      Segment(d, fs, lo, w, endStream, body, trailers) + Plan(d, fs, ws, w + 1, endStream, body, trailers)
  }

  lemma PlanUnfold(d: Direction, fs: seq<Filter>, ws: seq<bool>, lo: nat, endStream: bool, body: Option<nat>,
                   trailers: bool)
    requires |ws| == |fs|
    ensures lo >= |fs| ==> Plan(d, fs, ws, lo, endStream, body, trailers) == []
    ensures lo < |fs| ==>
      Plan(d, fs, ws, lo, endStream, body, trailers) ==
      Segment(d, fs, lo, NextWait(ws, lo), endStream, body, trailers)
      + Plan(d, fs, ws, NextWait(ws, lo) + 1, endStream, body, trailers)
  {
    hide Segment;
    hide NextWait;
  }

  /** A schedule is its first headers and what follows them. */
  lemma PlanFrom(d: Direction, fs: seq<Filter>, ws: seq<bool>, lo: nat, endStream: bool, body: Option<nat>,
                 trailers: bool)
    requires |ws| == |fs| && lo <= |fs|
    ensures var w := NextWait(ws, lo);
            Plan(d, fs, ws, lo, endStream, body, trailers) ==
            HeadersUpTo(d, fs, lo, w, endStream)
            + (Tail(d, fs, lo, w, body, trailers) + WholeAt(d, fs, w, body, trailers)
               + Plan(d, fs, ws, w + 1, endStream, body, trailers))
  {
    hide Plan;
    hide NextWait;
    hide Segment;
    hide HeadersUpTo;
    hide Tail;
    hide WholeAt;
    var w := NextWait(ws, lo);
    PlanUnfold(d, fs, ws, lo, endStream, body, trailers);
    PlanUnfold(d, fs, ws, w + 1, endStream, body, trailers);
    var h, t := HeadersUpTo(d, fs, lo, w, endStream), Tail(d, fs, lo, w, body, trailers);
    var c := WholeAt(d, fs, w, body, trailers);
    var r := Plan(d, fs, ws, w + 1, endStream, body, trailers);
    if lo == |fs| {
      SegmentPastEnd(d, fs, endStream, body, trailers);
    } else {
      SegmentParts(d, fs, lo, w, endStream, body, trailers);
      assert ((h + t) + c) + r == h + ((t + c) + r);
    }
  }

  lemma SegmentParts(d: Direction, fs: seq<Filter>, lo: nat, w: nat, endStream: bool, body: Option<nat>, trailers: bool)
    requires w <= |fs|
    ensures Segment(d, fs, lo, w, endStream, body, trailers) ==
            (HeadersUpTo(d, fs, lo, w, endStream) + Tail(d, fs, lo, w, body, trailers)) +
                WholeAt(d, fs, w, body, trailers)
  {
  }

  lemma SegmentPastEnd(d: Direction, fs: seq<Filter>, endStream: bool, body: Option<nat>, trailers: bool)
    ensures HeadersUpTo(d, fs, |fs|, |fs|, endStream) == [] == Tail(d, fs, |fs|, |fs|, body, trailers)
    ensures WholeAt(d, fs, |fs|, body, trailers) == []
  {
  }

  /** What is left of Plan once filter w has stopped the headers. */
  function Resume(d: Direction, fs: seq<Filter>, ws: seq<bool>, w: nat, body: Option<nat>, trailers: bool): seq<Call>
    requires |ws| == |fs| && w < |fs|
  {
    Tail(d, fs, 0, w, body, trailers) + WholeAt(d, fs, w, body, trailers)
    + Plan(d, fs, ws, w + 1, false, body, trailers)
  }

  /** Streaming: every chunk to every filter. */
  function Chunks(d: Direction, fs: seq<Filter>, chunks: seq<nat>, trailers: bool): seq<Call>
  {
    if chunks == [] then []
    else Sweep(fs, 0, |fs|, d.Data(), Some(chunks[0]), |chunks| == 1 && !trailers)
         + Chunks(d, fs, chunks[1..], trailers)
  }

  // ----------------------------------------------------- stopping at a reply

  predicate Replies(plan: seq<Call>, oracle: Oracle) {
    exists i | 0 <= i < |plan| :: oracle(plan[i]).LocalResponse?
  }

  /** What is observed of a schedule: all of it, or up to the first local reply. */
  function Cut(plan: seq<Call>, oracle: Oracle): seq<Event> {
    if plan == [] then []
    else if oracle(plan[0]).LocalResponse? then [Called(plan[0]), LocalReply(plan[0].filter.name)]
    else [Called(plan[0])] + Cut(plan[1..], oracle)
  }

  lemma {:induction false} CutConcat(a: seq<Call>, b: seq<Call>, oracle: Oracle)
    ensures Replies(a + b, oracle) <==> Replies(a, oracle) || Replies(b, oracle)
    ensures Replies(a, oracle) ==> Cut(a + b, oracle) == Cut(a, oracle)
    ensures !Replies(a, oracle) ==> Cut(a + b, oracle) == Cut(a, oracle) + Cut(b, oracle)
  {
    forall i | 0 <= i < |a| ensures (a + b)[i] == a[i] {}
    forall i | 0 <= i < |b| ensures (a + b)[|a| + i] == b[i] {}
    if a == [] {
      assert a + b == b;
    } else {
      assert (a + b)[1..] == a[1..] + b;
      CutConcat(a[1..], b, oracle);
      forall i | 0 <= i < |a| - 1 ensures a[1..][i] == a[i + 1] {}
    }
  }

  /** A local reply ends the trace: what precedes it is a prefix of the
      schedule in which nobody replied, and nothing follows. */
  lemma {:induction false} CutShape(plan: seq<Call>, oracle: Oracle)
    ensures !Replies(plan, oracle) ==> Cut(plan, oracle) == Events(plan)
    ensures Replies(plan, oracle) ==> exists k: nat :: RepliedAt(plan, oracle, k)
  {
    if plan == [] {
    } else if oracle(plan[0]).LocalResponse? {
      assert plan[..1] == [plan[0]];
      assert RepliedAt(plan, oracle, 0);
    } else {
      var rest := plan[1..];
      assert plan == [plan[0]] + rest;
      CutConcat([plan[0]], rest, oracle);
      CutShape(rest, oracle);
      if Replies(rest, oracle) {
        var k: nat :| RepliedAt(rest, oracle, k);
        RepliedLater(plan, oracle, k);
      }
    }
  }

  lemma RepliedLater(plan: seq<Call>, oracle: Oracle, k: nat)
    requires plan != [] && !oracle(plan[0]).LocalResponse? && RepliedAt(plan[1..], oracle, k)
    ensures RepliedAt(plan, oracle, k + 1)
  {
    var rest := plan[1..];
    assert plan[..k + 1] == [plan[0]] + rest[..k];
    CutConcat([plan[0]], rest[..k], oracle);
    assert Events(plan[..k + 2]) == [Called(plan[0])] + Events(rest[..k + 1]);
  }

  function Events(calls: seq<Call>): (s: seq<Event>)
    ensures |s| == |calls|
    ensures forall i | 0 <= i < |s| :: s[i] == Called(calls[i])
  {
    seq(|calls|, i requires 0 <= i < |calls| => Called(calls[i]))
  }

  /** Callback k is the first to be answered by a local reply, and the trace
      is everything up to it and the reply. */
  ghost predicate RepliedAt(plan: seq<Call>, oracle: Oracle, k: nat) {
    && k < |plan|
    && oracle(plan[k]).LocalResponse?
    && !Replies(plan[..k], oracle)
    && Cut(plan, oracle) == Events(plan[..k + 1]) + [LocalReply(plan[k].filter.name)]
  }

  // -------------------------------------------- what the schedule gives each plugin

  /** The callbacks of one filter, in order. */
  function Of(plan: seq<Call>, f: Filter): seq<Call> {
    if plan == [] then []
    else if plan[0].filter == f then [plan[0]] + Of(plan[1..], f)
    else Of(plan[1..], f)
  }

  /** The callbacks of one kind, in order. */
  function Only(plan: seq<Call>, m: Callback): seq<Call> {
    if plan == [] then []
    else if plan[0].cb == m then [plan[0]] + Only(plan[1..], m)
    else Only(plan[1..], m)
  }

  lemma Assoc<T>(a: seq<T>, b: seq<T>, c: seq<T>)
    ensures (a + b) + c == a + (b + c)
  {
  }

  lemma {:induction false} OfConcat(a: seq<Call>, b: seq<Call>, f: Filter)
    ensures Of(a + b, f) == Of(a, f) + Of(b, f)
  {
    if a == [] {
      assert a + b == b;
    } else {
      OfConcat(a[1..], b, f);
      assert a + b == [a[0]] + (a[1..] + b);
      Assoc([a[0]], Of(a[1..], f), Of(b, f));
    }
  }

  lemma OfOne(c: Call, f: Filter)
    ensures Of([c], f) == if c.filter == f then [c] else []
  {
    assert [c][1..] == [];
  }

  lemma {:induction false} OnlyConcat(a: seq<Call>, b: seq<Call>, m: Callback)
    ensures Only(a + b, m) == Only(a, m) + Only(b, m)
  {
    if a == [] {
      assert a + b == b;
    } else {
      OnlyConcat(a[1..], b, m);
      assert a + b == [a[0]] + (a[1..] + b);
      Assoc([a[0]], Only(a[1..], m), Only(b, m));
    }
  }

  ghost predicate DistinctFilters(fs: seq<Filter>) {
    forall i, j | 0 <= i < j < |fs| :: fs[i] != fs[j]
  }

  lemma SweepHead(fs: seq<Filter>, lo: nat, hi: nat, m: Callback, body: Option<nat>, flag: bool)
    requires lo < hi <= |fs|
    ensures Sweep(fs, lo, hi, m, body, flag)[0] == Call(fs[lo], m, body, flag)
    ensures Sweep(fs, lo, hi, m, body, flag)[1..] == Sweep(fs, lo + 1, hi, m, body, flag)
    ensures Sweep(fs, lo, hi, m, body, flag) == [Call(fs[lo], m, body, flag)] + Sweep(fs, lo + 1, hi, m, body, flag)
  {
  }

  lemma {:induction false} OfSweep(fs: seq<Filter>, lo: nat, hi: nat, m: Callback, body: Option<nat>, flag: bool,
                                   i: nat)
    requires hi <= |fs| && i < |fs| && DistinctFilters(fs)
    ensures Of(Sweep(fs, lo, hi, m, body, flag), fs[i]) == if lo <= i < hi then [Call(fs[i], m, body, flag)] else []
    decreases hi - lo
  {
    if lo < hi {
      SweepHead(fs, lo, hi, m, body, flag);
      OfSweep(fs, lo + 1, hi, m, body, flag, i);
      assert fs[lo] == fs[i] <==> lo == i;
    }
  }

  lemma {:induction false} OnlySweep(fs: seq<Filter>, lo: nat, hi: nat, m: Callback, body: Option<nat>, flag: bool,
                                     q: Callback)
    requires hi <= |fs|
    ensures Only(Sweep(fs, lo, hi, m, body, flag), q) == if m == q then Sweep(fs, lo, hi, m, body, flag) else []
    decreases hi - lo
  {
    if lo < hi {
      SweepHead(fs, lo, hi, m, body, flag);
      OnlySweep(fs, lo + 1, hi, m, body, flag, q);
    }
  }

  lemma OfTail(d: Direction, fs: seq<Filter>, lo: nat, hi: nat, body: Option<nat>, trailers: bool, i: nat)
    requires hi <= |fs| && i < |fs| && DistinctFilters(fs)
    ensures Of(Tail(d, fs, lo, hi, body, trailers), fs[i]) ==
            if lo <= i < hi then BodyLog(d, fs[i], body, trailers) else []
  {
    var a := if body.Some? then Sweep(fs, lo, hi, d.Data(), body, !trailers) else [];
    var b := if trailers then Sweep(fs, lo, hi, d.Trailers(), None, false) else [];
    OfConcat(a, b, fs[i]);
    OfSweep(fs, lo, hi, d.Data(), body, !trailers, i);
    OfSweep(fs, lo, hi, d.Trailers(), None, false, i);
  }

  lemma OnlyTail(d: Direction, fs: seq<Filter>, lo: nat, hi: nat, body: Option<nat>, trailers: bool, q: Callback)
    requires hi <= |fs| && q != d.Data() && q != d.Trailers()
    ensures Only(Tail(d, fs, lo, hi, body, trailers), q) == []
  {
    var a := if body.Some? then Sweep(fs, lo, hi, d.Data(), body, !trailers) else [];
    var b := if trailers then Sweep(fs, lo, hi, d.Trailers(), None, false) else [];
    OnlyConcat(a, b, q);
    OnlySweep(fs, lo, hi, d.Data(), body, !trailers, q);
    OnlySweep(fs, lo, hi, d.Trailers(), None, false, q);
  }

  /** The buffered body in one piece, then the trailers, as far as there are any. */
  function BodyLog(d: Direction, f: Filter, body: Option<nat>, trailers: bool): seq<Call> {
    (if body.None? then []
     else [Call(f, if d == Decode then DecodeData else EncodeData, Some(body.value), !trailers)])
    + (if trailers then [Call(f, if d == Decode then DecodeTrailers else EncodeTrailers, None, false)] else [])
  }

  /** Everything a filter is owed in a whole-body run, call by call. */
  function FilterLog(d: Direction, f: Filter, waits: bool, endStream: bool, body: Option<nat>,
                     trailers: bool): seq<Call> {
    [Call(f, if d == Decode then DecodeHeaders else EncodeHeaders, None, endStream)]
    + (if !waits then BodyLog(d, f, body, trailers)
       else if d == Decode then [Call(f, DecodeRequest, body, trailers)]
       else [Call(f, EncodeResponse, body, false)])
  }

  lemma SegmentOf(d: Direction, fs: seq<Filter>, lo: nat, w: nat, endStream: bool, body: Option<nat>, trailers: bool,
                  i: nat)
    requires lo <= w <= |fs| && i < |fs| && DistinctFilters(fs)
    ensures Of(Segment(d, fs, lo, w, endStream, body, trailers), fs[i]) ==
            if lo <= i <= w then FilterLog(d, fs[i], i == w, endStream, body, trailers) else []
  {
    var hi := if w < |fs| then w + 1 else w;
    var a := Sweep(fs, lo, hi, d.Headers(), None, endStream);
    var b := Tail(d, fs, lo, w, body, trailers);
    var c := WholeAt(d, fs, w, body, trailers);
    OfSweep(fs, lo, hi, d.Headers(), None, endStream, i);
    OfTail(d, fs, lo, w, body, trailers, i);
    if w < |fs| {
      OfOne(d.WholeCall(fs[w], body, trailers), fs[i]);
      assert fs[w] == fs[i] <==> w == i;
    }
    OfConcat(a, b, fs[i]);
    OfConcat(a + b, c, fs[i]);
  }

  /** Every filter gets its headers once; a waiting one then its whole-body
      callback once and no data or trailers; any other the body once, if there
      is one, then the trailers once, if there are any. */
  lemma {:induction false} PlanServesEveryFilter(d: Direction, fs: seq<Filter>, ws: seq<bool>, lo: nat, endStream: bool,
                                                 body: Option<nat>, trailers: bool, i: nat)
    requires |ws| == |fs| && i < |fs| && DistinctFilters(fs)
    ensures Of(Plan(d, fs, ws, lo, endStream, body, trailers), fs[i]) ==
            if i < lo then [] else FilterLog(d, fs[i], ws[i], endStream, body, trailers)
    decreases |fs| - lo
  {
    hide Segment;
    hide FilterLog;
    if lo < |fs| {
      var w := NextWait(ws, lo);
      SegmentOf(d, fs, lo, w, endStream, body, trailers, i);
      PlanServesEveryFilter(d, fs, ws, w + 1, endStream, body, trailers, i);
      OfConcat(Segment(d, fs, lo, w, endStream, body, trailers), Plan(d, fs, ws, w + 1, endStream, body, trailers),
               fs[i]);
    }
  }

  lemma {:induction false} OfMembers(plan: seq<Call>, c: Call)
    ensures c in plan <==> c in Of(plan, c.filter)
  {
    if plan != [] {
      OfMembers(plan[1..], c);
      assert plan == [plan[0]] + plan[1..];
    }
  }

  /** The whole-body callback hands over the very body that was buffered: the
      request's trailers with it, the response's never. */
  lemma {:induction false} WaitingGetsTheBody(d: Direction, fs: seq<Filter>, ws: seq<bool>, lo: nat, endStream: bool,
                                              body: Option<nat>, trailers: bool, i: nat)
    requires |ws| == |fs| && lo <= i < |fs| && ws[i]
    ensures var c := if d == Decode then Call(fs[i], DecodeRequest, body, trailers)
                     else Call(fs[i], EncodeResponse, body, false);
      c in Plan(d, fs, ws, lo, endStream, body, trailers)
    decreases |fs| - lo
  {
    hide Segment;
    var w := NextWait(ws, lo);
    SegmentEnds(d, fs, lo, w, endStream, body, trailers);
    if w < i {
      WaitingGetsTheBody(d, fs, ws, w + 1, endStream, body, trailers, i);
    }
  }

  lemma SegmentHeaders(d: Direction, fs: seq<Filter>, lo: nat, w: nat, endStream: bool, body: Option<nat>,
                       trailers: bool)
    requires lo <= w <= |fs|
    ensures Only(Segment(d, fs, lo, w, endStream, body, trailers), d.Headers()) ==
            Sweep(fs, lo, if w < |fs| then w + 1 else w, d.Headers(), None, endStream)
  {
    var h := d.Headers();
    var hi := if w < |fs| then w + 1 else w;
    var a := Sweep(fs, lo, hi, h, None, endStream);
    var b := Tail(d, fs, lo, w, body, trailers);
    var c := WholeAt(d, fs, w, body, trailers);
    OnlySweep(fs, lo, hi, h, None, endStream, h);
    OnlyTail(d, fs, lo, w, body, trailers, h);
    assert Only(c, h) == [] by { assert c != [] ==> c[1..] == []; }
    OnlyConcat(a, b, h);
    OnlyConcat(a + b, c, h);
  }

  /** Headers are seen by all filters, once each, in chain order. */
  lemma {:induction false} PlanHeadersInOrder(d: Direction, fs: seq<Filter>, ws: seq<bool>, lo: nat, endStream: bool,
                                              body: Option<nat>, trailers: bool)
    requires |ws| == |fs|
    ensures Only(Plan(d, fs, ws, lo, endStream, body, trailers), d.Headers()) ==
            Sweep(fs, lo, |fs|, d.Headers(), None, endStream)
    decreases |fs| - lo
  {
    hide Segment;
    if lo < |fs| {
      var h := d.Headers();
      var w := NextWait(ws, lo);
      SegmentHeaders(d, fs, lo, w, endStream, body, trailers);
      PlanHeadersInOrder(d, fs, ws, w + 1, endStream, body, trailers);
      OnlyConcat(Segment(d, fs, lo, w, endStream, body, trailers), Plan(d, fs, ws, w + 1, endStream, body, trailers),
                 h);
      assert w < |fs| ==>
        Sweep(fs, lo, w + 1, h, None, endStream) + Sweep(fs, w + 1, |fs|, h, None, endStream) ==
            Sweep(fs, lo, |fs|, h, None, endStream);
    }
  }

  lemma SegmentStaysBelow(d: Direction, fs: seq<Filter>, lo: nat, w: nat, endStream: bool,
                          body: Option<nat>, trailers: bool, q: nat) returns (x: nat)
    requires lo <= w < |fs|
    requires q < |Segment(d, fs, lo, w, endStream, body, trailers)|
    ensures lo <= x <= w && Segment(d, fs, lo, w, endStream, body, trailers)[q].filter == fs[x]
  {
    var n := w - lo;
    var b := if body.Some? then n else 0;
    var t := if trailers then n else 0;
    x := if q <= n then lo + q
         else if q <= n + b then lo + q - n - 1
         else if q <= n + b + t then lo + q - n - 1 - b
         else w;
  }

  lemma SegmentEnds(d: Direction, fs: seq<Filter>, lo: nat, w: nat, endStream: bool, body: Option<nat>, trailers: bool)
    requires lo <= w < |fs|
    ensures var s := Segment(d, fs, lo, w, endStream, body, trailers);
            s != [] && s[|s| - 1] == d.WholeCall(fs[w], body, trailers)
  {
  }

  /** No filter behind a waiting one is called at all before that one's
      whole-body callback. */
  lemma {:induction false} PlanBarrier(d: Direction, fs: seq<Filter>, ws: seq<bool>, lo: nat, endStream: bool,
                                       body: Option<nat>, trailers: bool, p: nat, i: nat, j: nat)
    requires |ws| == |fs| && DistinctFilters(fs)
    requires p < |Plan(d, fs, ws, lo, endStream, body, trailers)|
    requires lo <= i < j < |fs| && ws[i]
    requires Plan(d, fs, ws, lo, endStream, body, trailers)[p].filter == fs[j]
    ensures d.WholeCall(fs[i], body, trailers) in Plan(d, fs, ws, lo, endStream, body, trailers)[..p]
    decreases |fs| - lo
  {
    hide Segment;
    var w := NextWait(ws, lo);
    var a := Segment(d, fs, lo, w, endStream, body, trailers);
    var rest := Plan(d, fs, ws, w + 1, endStream, body, trailers);
    var plan := a + rest;
    if p < |a| {
      var x := SegmentStaysBelow(d, fs, lo, w, endStream, body, trailers, p);
    } else if i == w {
      SegmentEnds(d, fs, lo, w, endStream, body, trailers);
      assert plan[..p][|a| - 1] == a[|a| - 1];
    } else {
      PlanBarrier(d, fs, ws, w + 1, endStream, body, trailers, p - |a|, i, j);
      assert plan[..p] == a + rest[..p - |a|];
    }
  }

  lemma {:induction false} ChunksServeEveryFilter(d: Direction, fs: seq<Filter>, chunks: seq<nat>, trailers: bool,
                                                  i: nat)
    requires i < |fs| && DistinctFilters(fs)
    ensures Of(Chunks(d, fs, chunks, trailers), fs[i]) ==
            seq(|chunks|, k requires 0 <= k < |chunks| => d.DataCall(fs[i], chunks[k], k == |chunks| - 1 && !trailers))
  {
    if chunks != [] {
      OfConcat(Sweep(fs, 0, |fs|, d.Data(), Some(chunks[0]), |chunks| == 1 && !trailers),
               Chunks(d, fs, chunks[1..], trailers), fs[i]);
      OfSweep(fs, 0, |fs|, d.Data(), Some(chunks[0]), |chunks| == 1 && !trailers, i);
      ChunksServeEveryFilter(d, fs, chunks[1..], trailers, i);
    }
  }

  // ------------------------------------------------------ who waits, and joins

  /** Which filters answer their headers with WaitAllData. */
  function Waits(d: Direction, fs: seq<Filter>, oracle: Oracle, endStream: bool): (ws: seq<bool>)
    ensures |ws| == |fs|
    ensures forall i | 0 <= i < |fs| :: ws[i] <==> oracle(d.HeadersCall(fs[i], endStream)).WaitAllData?
  {
    seq(|fs|, i requires 0 <= i < |fs| => oracle(d.HeadersCall(fs[i], endStream)).WaitAllData?)
  }

  lemma SweepEmpty(fs: seq<Filter>, lo: nat, hi: nat, m: Callback, body: Option<nat>, flag: bool)
    requires hi <= lo && hi <= |fs|
    ensures Sweep(fs, lo, hi, m, body, flag) == []
  {
  }

  lemma SweepSplit(fs: seq<Filter>, lo: nat, mid: nat, hi: nat, m: Callback, body: Option<nat>, flag: bool)
    requires lo <= mid <= hi <= |fs|
    ensures Sweep(fs, lo, hi, m, body, flag) == Sweep(fs, lo, mid, m, body, flag) + Sweep(fs, mid, hi, m, body, flag)
  {
  }

  lemma SweepSnoc(fs: seq<Filter>, lo: nat, i: nat, m: Callback, body: Option<nat>, flag: bool)
    requires lo <= i < |fs|
    ensures Sweep(fs, lo, i + 1, m, body, flag) == Sweep(fs, lo, i, m, body, flag) + [Call(fs[i], m, body, flag)]
  {
  }

  /** From trace t0, the schedule was carried out as far as the plugins let it:
      t is the trace now, and ok says that nobody replied. */
  ghost predicate Outcome(t0: seq<Event>, plan: seq<Call>, oracle: Oracle, t: seq<Event>, ok: bool) {
    t == t0 + Cut(plan, oracle) && ok == !Replies(plan, oracle)
  }

  lemma OutcomeNothing(t0: seq<Event>, oracle: Oracle)
    ensures Outcome(t0, [], oracle, t0, true)
  {
  }

  lemma OutcomeEmpty(t0: seq<Event>, oracle: Oracle, t: seq<Event>, ok: bool)
    requires Outcome(t0, [], oracle, t, ok)
    ensures t == t0 && ok
  {
  }

  lemma OutcomeOf(t0: seq<Event>, plan: seq<Call>, oracle: Oracle)
    ensures Outcome(t0, plan, oracle, t0 + Cut(plan, oracle), !Replies(plan, oracle))
  {
  }

  lemma OutcomeOne(t0: seq<Event>, c: Call, oracle: Oracle)
    ensures Outcome(t0, [c], oracle,
                    t0 + [Called(c)] + (if oracle(c).LocalResponse? then [LocalReply(c.filter.name)] else []),
                    !oracle(c).LocalResponse?)
  {
    assert [c][0] == c;
    assert [c][1..] == [];
  }

  lemma OutcomeThen(t0: seq<Event>, done: seq<Call>, t1: seq<Event>, part: seq<Call>, oracle: Oracle, t2: seq<Event>,
                    ok: bool)
    requires Outcome(t0, done, oracle, t1, true) && Outcome(t1, part, oracle, t2, ok)
    ensures Outcome(t0, done + part, oracle, t2, ok)
  {
    CutConcat(done, part, oracle);
    Assoc(t0, Cut(done, oracle), Cut(part, oracle));
  }

  /** Of what is left after w, `done` is done, and filter i is next. */
  ghost predicate Resumed(d: Direction, fs: seq<Filter>, ws: seq<bool>, w: nat, body: Option<nat>, trailers: bool,
                          i: nat, done: seq<Call>)
    requires |ws| == |fs| && w < |fs|
  {
    Resume(d, fs, ws, w, body, trailers) == done + Plan(d, fs, ws, i, false, body, trailers)
  }

  lemma ResumeBegins(d: Direction, fs: seq<Filter>, ws: seq<bool>, w: nat, body: Option<nat>, trailers: bool)
    requires |ws| == |fs| && w < |fs|
    ensures var tail, whole := Tail(d, fs, 0, w, body, trailers), [d.WholeCall(fs[w], body, trailers)];
      && tail <= tail + whole <= Resume(d, fs, ws, w, body, trailers)
      && tail <= Resume(d, fs, ws, w, body, trailers)
      && Resumed(d, fs, ws, w, body, trailers, w + 1, tail + whole)
  {
    hide Plan;
    hide Tail;
  }

  lemma ResumeStep(d: Direction, fs: seq<Filter>, ws: seq<bool>, w: nat, body: Option<nat>, trailers: bool, i: nat,
                   done: seq<Call>, next: nat)
    requires |ws| == |fs| && w < |fs| && i < |fs| && Resumed(d, fs, ws, w, body, trailers, i, done)
    requires var n := NextWait(ws, i); next == if n < |fs| then n + 1 else n
    ensures var more := done + Segment(d, fs, i, NextWait(ws, i), false, body, trailers);
      more <= Resume(d, fs, ws, w, body, trailers) && Resumed(d, fs, ws, w, body, trailers, next, more)
  {
    hide Segment;
    hide Plan;
    hide Resume;
    hide NextWait;
    var n := NextWait(ws, i);
    PlanUnfold(d, fs, ws, i, false, body, trailers);
    PlanUnfold(d, fs, ws, n + 1, false, body, trailers);
    PlanUnfold(d, fs, ws, next, false, body, trailers);
    Assoc(done, Segment(d, fs, i, n, false, body, trailers), Plan(d, fs, ws, n + 1, false, body, trailers));
  }

  lemma ResumeEnds(d: Direction, fs: seq<Filter>, ws: seq<bool>, w: nat, body: Option<nat>, trailers: bool, i: nat,
                   done: seq<Call>)
    requires |ws| == |fs| && w < |fs| <= i && Resumed(d, fs, ws, w, body, trailers, i, done)
    ensures done == Resume(d, fs, ws, w, body, trailers)
  {
    hide Resume;
    PlanUnfold(d, fs, ws, i, false, body, trailers);
  }

  /** Resuming at w hands it the body, and in full: if nobody replies it is seen to. */
  lemma ResumeHandsOver(d: Direction, fs: seq<Filter>, ws: seq<bool>, w: nat, body: Option<nat>, trailers: bool,
                        t0: seq<Event>, oracle: Oracle, t: seq<Event>)
    requires |ws| == |fs| && w < |fs|
    requires Outcome(t0, Resume(d, fs, ws, w, body, trailers), oracle, t, true)
    ensures |t| >= |t0|
    ensures d == Decode ==> Called(Call(fs[w], DecodeRequest, body, trailers)) in t[|t0|..]
    ensures d == Encode ==> Called(Call(fs[w], EncodeResponse, body, false)) in t[|t0|..]
  {
    hide Plan;
    hide Tail;
    hide Outcome;
    var plan := Resume(d, fs, ws, w, body, trailers);
    var at := |Tail(d, fs, 0, w, body, trailers)|;
    assert plan[at] == d.WholeCall(fs[w], body, trailers);
    PlannedIsSeen(t0, plan, oracle, t, plan[at]);
  }

  lemma PlannedIsSeen(t0: seq<Event>, plan: seq<Call>, oracle: Oracle, t: seq<Event>, c: Call)
    requires Outcome(t0, plan, oracle, t, true) && c in plan
    ensures |t| >= |t0| && Called(c) in t[|t0|..]
  {
    CutShape(plan, oracle);
    var i :| 0 <= i < |plan| && plan[i] == c;
    assert t[|t0|..][i] == Called(c);
  }

  /** A schedule stopped inside one of its prefixes is stopped for good. */
  lemma OutcomeStopped(t0: seq<Event>, p: seq<Call>, plan: seq<Call>, oracle: Oracle, t: seq<Event>)
    requires Outcome(t0, p, oracle, t, false) && p <= plan
    ensures Outcome(t0, plan, oracle, t, false)
  {
    assert plan == p + plan[|p|..];
    CutConcat(p, plan[|p|..], oracle);
  }

  /** The schedule from lo on depends only on who waits from lo on. */
  lemma {:induction false} PlanDependsOnSuffix(d: Direction, fs: seq<Filter>, ws: seq<bool>, vs: seq<bool>, lo: nat,
                                               endStream: bool, body: Option<nat>, trailers: bool)
    requires |ws| == |vs| == |fs|
    requires forall i | lo <= i < |fs| :: ws[i] == vs[i]
    ensures Plan(d, fs, ws, lo, endStream, body, trailers) == Plan(d, fs, vs, lo, endStream, body, trailers)
    decreases |fs| - lo
  {
    hide Segment;
    if lo < |fs| {
      assert NextWait(ws, lo) == NextWait(vs, lo);
      PlanDependsOnSuffix(d, fs, ws, vs, NextWait(ws, lo) + 1, endStream, body, trailers);
    }
  }
}
