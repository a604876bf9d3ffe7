/** The filter manager of one HTTP stream (`filtermanager.go`). */
module FilterManagers {
  import opened Orders
  import opened Chain
  import opened Options
  import opened ConsumerMerge
  import opened FastPaths
  import opened Schedules

  datatype Mode = Skipped | Inline | Goroutine

  /** The order of the tests at the head of every Envoy callback. */
  function Dispatch(skip: bool, sync: bool): Mode {
    if skip then Skipped else if sync then Inline else Goroutine
  }

  const NO_SKIP := SkipFlags(false, false, false, false, false, false, false)
  const NO_SYNC := SyncFlags(false, false, false, false, false, false)

  datatype Status = GoOn | Replied | StopAndBuffer | StopAndBufferWatermark

  class FilterManager {
    const oracle: Oracle
    const reg: Registry
    const consumerFiltersEndAt: nat

    var filters: seq<Filter>
    var decodeRequestNeeded: bool
    var decodeIdx: int
    var reqBuf: Option<nat>
    var encodeResponseNeeded: bool
    var encodeWaitFirstData: bool
    var encodeIdx: int

    var skip: SkipFlags
    var sync: SyncFlags
    /** `canSkipMethods` and `canSyncRunMethods`, computed once per pooled manager. */
    var tables: Option<(Table, Table)>
    /** The consumer in the callbacks. */
    var consumer: Option<FilterConfigs>

    /** Every callback made, and every local reply sent. */
    ghost var trace: seq<Event>

    /** The constructor of the object pool. */
    constructor (oracle: Oracle, reg: Registry, consumerFiltersEndAt: nat)
      ensures Recycled() && tables == None && trace == []
      ensures this.oracle == oracle && this.reg == reg
      ensures this.consumerFiltersEndAt == consumerFiltersEndAt
    {
      this.oracle := oracle;
      this.reg := reg;
      this.consumerFiltersEndAt := consumerFiltersEndAt;
      filters := [];
      decodeRequestNeeded, decodeIdx, reqBuf := false, -1, None;
      encodeResponseNeeded, encodeWaitFirstData, encodeIdx := false, false, -1;
      skip, sync := NO_SKIP, NO_SYNC;
      tables, consumer := None, None;
      trace := [];
    }

    /** As the pool hands it out: nothing of an earlier request is left, except
        the method tables. */
    ghost predicate Recycled()
      reads this
    {
      && filters == []
      && !decodeRequestNeeded && decodeIdx == -1 && reqBuf == None
      && !encodeResponseNeeded && !encodeWaitFirstData && encodeIdx == -1
      && skip == NO_SKIP && sync == NO_SYNC && consumer == None
    }

    /** `Reset`: whatever state a request left behind. */
    method Reset()
      modifies this
      ensures Recycled() && tables == old(tables) && trace == old(trace)
    {
      filters := [];
      decodeRequestNeeded, decodeIdx, reqBuf := false, -1, None;
      encodeResponseNeeded, encodeWaitFirstData, encodeIdx := false, false, -1;
      skip, sync := NO_SKIP, NO_SYNC;
      // tables are reused across requests of the same config
      consumer := None;
    }

    /** The tables, if there, are those of the configured plugins. */
    ghost predicate TablesFit(configured: seq<Filter>)
      reads this
    {
      tables.Some? ==> IsSkipTable(tables.value.0, configured) && IsSyncTable(tables.value.1, configured)
    }

    /** Ready for a request on the configured chain, with the flags its tables give. */
    ghost predicate Armed(configured: seq<Filter>, initNeeded: bool)
      reads this
    {
      && filters == configured
      && !decodeRequestNeeded && decodeIdx == -1 && reqBuf == None
      && !encodeResponseNeeded && !encodeWaitFirstData && encodeIdx == -1 && consumer == None
      && tables.Some? && IsSkipTable(tables.value.0, configured) && IsSyncTable(tables.value.1, configured)
      && tables.value.0.Keys == tables.value.1.Keys == ALL_METHODS
      && skip == DeriveSkip(tables.value.0, initNeeded) && sync == DeriveSync(tables.value.1, initNeeded)
    }

    /** `FilterManagerFactory`: fresh or recycled, the manager ends up armed, with sound flags. */
    method Arm(configured: seq<Filter>, initNeeded: bool)
      requires Recycled() && TablesFit(configured)
      modifies this
      ensures Armed(configured, initNeeded) && TablesFit(configured) && trace == old(trace)
      ensures SkipSound(skip, filters) && SyncSound(sync, filters)
      ensures FactoryFlags(skip, sync, Elems(configured), initNeeded)
    {
      hide FactoryFlags;
      hide IsSkipTable;
      hide IsSyncTable;
      hide SkipSound;
      hide SyncSound;
      if tables.None? {
        var t, y := ComputeTables(configured);
        tables := Some((t, y));
      }
      filters := configured;
      FactoryFlagsAreSound(configured, tables.value.0, tables.value.1, initNeeded);
      FactoryFlagsAreExact(configured, tables.value.0, tables.value.1, initNeeded);
      skip := DeriveSkip(tables.value.0, initNeeded);
      sync := DeriveSync(tables.value.1, initNeeded);
    }

    // ------------------------------------------------------------- one callback

    method HandleAction(res: Action, phase: Callback, f: Filter) returns (needReturn: bool)
      modifies `trace, `decodeRequestNeeded, `encodeResponseNeeded, `encodeWaitFirstData
      ensures needReturn == res.LocalResponse?
      ensures trace == old(trace) + (if res.LocalResponse? then [LocalReply(f.name)] else [])
      ensures decodeRequestNeeded == (old(decodeRequestNeeded) || (res.WaitAllData? && phase == DecodeHeaders))
      ensures encodeResponseNeeded == (old(encodeResponseNeeded) || (res.WaitAllData? && phase == EncodeHeaders))
      ensures encodeWaitFirstData == (old(encodeWaitFirstData) || (res.WaitData? && phase == EncodeHeaders))
    {
      match res
      case Continue => needReturn := false;
      case WaitAllData =>
        if phase == DecodeHeaders {
          decodeRequestNeeded := true;
        } else if phase == EncodeHeaders {
          encodeResponseNeeded := true;
        }
        needReturn := false;
      case WaitData =>
        if phase == EncodeHeaders {
          encodeWaitFirstData := true;
        }
        needReturn := false;
      case LocalResponse(_) =>
        trace := trace + [LocalReply(f.name)];
        needReturn := true;
      case Unrecognised => needReturn := false;
    }

    method Invoke(c: Call) returns (needReturn: bool)
      modifies `trace, `decodeRequestNeeded, `encodeResponseNeeded, `encodeWaitFirstData
      ensures needReturn == oracle(c).LocalResponse?
      ensures Outcome(old(trace), [c], oracle, trace, !needReturn)
      ensures decodeRequestNeeded == (old(decodeRequestNeeded) || (oracle(c).WaitAllData? && c.cb == DecodeHeaders))
      ensures encodeResponseNeeded == (old(encodeResponseNeeded) || (oracle(c).WaitAllData? && c.cb == EncodeHeaders))
      ensures encodeWaitFirstData == (old(encodeWaitFirstData) || (oracle(c).WaitData? && c.cb == EncodeHeaders))
    {
      hide Outcome;
      trace := trace + [Called(c)];
      needReturn := HandleAction(oracle(c), c.cb, c.filter);
      OutcomeOne(old(trace), c, oracle);
    }

    // ------------------------------------------------------------------ decoding

    /** `for i := lo; i < hi; i++` over a body or trailers callback. */
    method SweepForward(m: Callback, lo: nat, hi: nat, body: Option<nat>, flag: bool) returns (ok: bool)
      requires m != DecodeHeaders && m != EncodeHeaders && hi <= |filters|
      modifies `trace, `decodeRequestNeeded, `encodeResponseNeeded, `encodeWaitFirstData
      ensures unchanged(`decodeRequestNeeded, `encodeResponseNeeded, `encodeWaitFirstData)
      ensures Outcome(old(trace), Sweep(filters, lo, hi, m, body, flag), oracle, trace, ok)
    {
      hide Outcome;
      hide Sweep;
      ghost var plan := Sweep(filters, lo, hi, m, body, flag);
      OutcomeNothing(trace, oracle);
      SweepEmpty(filters, lo, if lo <= hi then lo else hi, m, body, flag);
      if lo > hi { SweepEmpty(filters, lo, hi, m, body, flag); return true; }
      var i := lo;
      while i < hi
        invariant lo <= i <= hi
        invariant unchanged(`decodeRequestNeeded, `encodeResponseNeeded, `encodeWaitFirstData)
        invariant Outcome(old(trace), Sweep(filters, lo, i, m, body, flag), oracle, trace, true)
      {
        var c := Call(filters[i], m, body, flag);
        ghost var before := trace;
        var stop := Invoke(c);
        OutcomeThen(old(trace), Sweep(filters, lo, i, m, body, flag), before, [c], oracle, trace, !stop);
        SweepSnoc(filters, lo, i, m, body, flag);
        if stop {
          SweepSplit(filters, lo, i + 1, hi, m, body, flag);
          OutcomeStopped(old(trace), Sweep(filters, lo, i + 1, m, body, flag), plan, oracle, trace);
          return false;
        }
        i := i + 1;
      }
      return true;
    }

    /** The buffered body, then the trailers, for filters lo..hi-1. */
    method DecodeTail(lo: nat, hi: nat, body: Option<nat>, trailers: bool) returns (ok: bool)
      requires hi <= |filters|
      modifies `trace, `decodeRequestNeeded, `encodeResponseNeeded, `encodeWaitFirstData
      ensures unchanged(`decodeRequestNeeded, `encodeResponseNeeded, `encodeWaitFirstData)
      ensures Outcome(old(trace), Tail(Decode, filters, lo, hi, body, trailers), oracle, trace, ok)
    {
      hide Outcome;
      hide Sweep;
      ghost var a := if body.Some? then Sweep(filters, lo, hi, DecodeData, body, !trailers) else [];
      ghost var b := if trailers then Sweep(filters, lo, hi, DecodeTrailers, None, false) else [];
      OutcomeNothing(trace, oracle);
      ok := true;
      if body.Some? {
        ok := SweepForward(DecodeData, lo, hi, body, !trailers);
        if !ok { OutcomeStopped(old(trace), a, a + b, oracle, trace); return; }
      }
      ghost var mid := trace;
      OutcomeNothing(mid, oracle);
      if trailers {
        ok := SweepForward(DecodeTrailers, lo, hi, None, false);
      }
      OutcomeThen(old(trace), a, mid, b, oracle, trace, ok);
    }

    /** `for ; i < n; i++` over DecodeHeaders, left at the first waiting filter. */
    method DecodeHeadersUntilWait(lo: nat) returns (ok: bool, i: nat)
      requires !decodeRequestNeeded && lo <= |filters|
      modifies `trace, `decodeRequestNeeded, `encodeResponseNeeded, `encodeWaitFirstData
      ensures unchanged(`encodeResponseNeeded, `encodeWaitFirstData)
      ensures var w := NextWait(Waits(Decode, filters, oracle, false), lo);
              && Outcome(old(trace), HeadersUpTo(Decode, filters, lo, w, false), oracle, trace, ok)
              && (ok ==> i == w && decodeRequestNeeded == (w < |filters|))
    {
      hide Outcome;
      hide Sweep;
      hide NextWait;
      ghost var ws := Waits(Decode, filters, oracle, false);
      ghost var w := NextWait(ws, lo);
      ghost var hi := if w < |filters| then w + 1 else w;
      OutcomeNothing(trace, oracle);
      SweepEmpty(filters, lo, lo, DecodeHeaders, None, false);
      i := lo;
      while i < |filters|
        invariant lo <= i <= w && !decodeRequestNeeded
        invariant unchanged(`encodeResponseNeeded, `encodeWaitFirstData)
        invariant Outcome(old(trace), Sweep(filters, lo, i, DecodeHeaders, None, false), oracle, trace, true)
      {
        var c := Decode.HeadersCall(filters[i], false);
        ghost var before := trace;
        var stop := Invoke(c);
        OutcomeThen(old(trace), Sweep(filters, lo, i, DecodeHeaders, None, false), before, [c], oracle, trace, !stop);
        SweepSnoc(filters, lo, i, DecodeHeaders, None, false);
        if stop {
          SweepSplit(filters, lo, i + 1, hi, DecodeHeaders, None, false);
          OutcomeStopped(old(trace), Sweep(filters, lo, i + 1, DecodeHeaders, None, false),
                         Sweep(filters, lo, hi, DecodeHeaders, None, false), oracle, trace);
          return false, i;
        }
        if decodeRequestNeeded {
          assert ws[i] && i == w;
          return true, i;
        }
        assert !ws[i];
        i := i + 1;
      }
      return true, i;
    }

    /** The nested loop that resumes the chain once the whole request is there. */
    method DecodeRequest(body: Option<nat>, trailers: bool) returns (conti: bool)
      requires 0 <= decodeIdx < |filters| && !decodeRequestNeeded
      modifies `trace, `decodeRequestNeeded, `encodeResponseNeeded, `encodeWaitFirstData, `decodeIdx
      ensures unchanged(`encodeResponseNeeded, `encodeWaitFirstData)
      ensures Outcome(old(trace), Resume(Decode, filters, Waits(Decode, filters, oracle, false), old(decodeIdx), body,
                                         trailers),
                      oracle, trace, conti)
      ensures conti ==>
        |trace| >= |old(trace)|
        && Called(Call(filters[old(decodeIdx)], Callback.DecodeRequest, body, trailers)) in trace[|old(trace)|..]
    {
      hide Outcome;
      hide Segment;
      hide Tail;
      hide Plan;
      hide Resume;
      hide Resumed;
      hide NextWait;
      ghost var t0 := trace;
      ghost var fs := filters;
      ghost var w: nat := decodeIdx;
      ghost var ws := Waits(Decode, fs, oracle, false);
      ghost var plan := Resume(Decode, fs, ws, w, body, trailers);
      ghost var tail := Tail(Decode, fs, 0, w, body, trailers);
      ghost var done := tail + [Decode.WholeCall(fs[w], body, trailers)];
      ResumeBegins(Decode, fs, ws, w, body, trailers);

      conti := DecodeTail(0, decodeIdx, body, trailers);
      if !conti { OutcomeStopped(t0, tail, plan, oracle, trace); return; }

      ghost var before := trace;
      var stop := Invoke(Decode.WholeCall(filters[decodeIdx], body, trailers));
      OutcomeThen(t0, tail, before, [Decode.WholeCall(fs[w], body, trailers)], oracle, trace, !stop);
      if stop { OutcomeStopped(t0, done, plan, oracle, trace); return false; }

      var n := |filters|;
      var i := decodeIdx + 1;
      while i < n
        invariant 0 <= decodeIdx < |filters| && i <= n == |filters| && !decodeRequestNeeded
        invariant i < n ==> i == decodeIdx + 1
        invariant filters == fs
        invariant unchanged(`encodeResponseNeeded, `encodeWaitFirstData)
        invariant Outcome(t0, done, oracle, trace, true)
        invariant Resumed(Decode, fs, ws, w, body, trailers, i, done)
        decreases n - i
      {
        var ok: bool;
        ghost var from: nat := i;
        ghost var seg := Segment(Decode, fs, from, NextWait(ws, from), false, body, trailers);
        before := trace;
        ok, i := ResumeSegment(i, body, trailers);
        OutcomeThen(t0, done, before, seg, oracle, trace, ok);
        ResumeStep(Decode, fs, ws, w, body, trailers, from, done,
                   if NextWait(ws, from) < n then NextWait(ws, from) + 1 else n);
        done := done + seg;
        if !ok { OutcomeStopped(t0, done, plan, oracle, trace); return false; }
      }
      ResumeEnds(Decode, fs, ws, w, body, trailers, i, done);
      ResumeHandsOver(Decode, fs, ws, w, body, trailers, t0, oracle, trace);
      return true;
    }

    /** One turn of the outer loop of DecodeRequest. */
    method ResumeSegment(lo: nat, body: Option<nat>, trailers: bool) returns (ok: bool, i: nat)
      requires !decodeRequestNeeded && lo == decodeIdx + 1 && lo < |filters|
      modifies `trace, `decodeRequestNeeded, `encodeResponseNeeded, `encodeWaitFirstData, `decodeIdx
      ensures unchanged(`encodeResponseNeeded, `encodeWaitFirstData)
      ensures var w := NextWait(Waits(Decode, filters, oracle, false), lo);
              && Outcome(old(trace), Segment(Decode, filters, lo, w, false, body, trailers), oracle, trace, ok)
              && (ok ==> !decodeRequestNeeded && i == (if w < |filters| then w + 1 else w)
                         && decodeIdx == (if w < |filters| then w else old(decodeIdx)))
    {
      hide Outcome;
      hide Tail;
      hide HeadersUpTo;
      hide NextWait;
      ghost var t0 := trace;
      ghost var w := NextWait(Waits(Decode, filters, oracle, false), lo);
      ghost var a := HeadersUpTo(Decode, filters, lo, w, false);
      ghost var b := Tail(Decode, filters, lo, w, body, trailers);
      ghost var c := WholeAt(Decode, filters, w, body, trailers);
      ghost var seg := a + b + c;
      ok, i := DecodeHeadersUntilWait(lo);
      if !ok { OutcomeStopped(t0, a, seg, oracle, trace); return; }
      // run the part of DecodeData and DecodeTrailers which is before the waiting filter
      ghost var t1 := trace;
      ok := DecodeTail(decodeIdx + 1, i, body, trailers);
      OutcomeThen(t0, a, t1, b, oracle, trace, ok);
      if !ok { OutcomeStopped(t0, a + b, seg, oracle, trace); return; }
      ghost var t2 := trace;
      OutcomeNothing(t2, oracle);
      if decodeRequestNeeded {
        decodeRequestNeeded := false;
        decodeIdx := i;
        var stop := Invoke(Decode.WholeCall(filters[decodeIdx], body, trailers));
        ok := !stop;
        i := i + 1;
      }
      OutcomeThen(t0, a + b, t2, c, oracle, trace, ok);
    }

    /** The authn prefix: WaitAllData is noted but never acted upon here. */
    method AuthnSweep(k: nat, endStream: bool) returns (ok: bool)
      requires k <= |filters| && !decodeRequestNeeded
      modifies `trace, `decodeRequestNeeded, `encodeResponseNeeded, `encodeWaitFirstData
      ensures unchanged(`encodeResponseNeeded, `encodeWaitFirstData)
      ensures Outcome(old(trace), AuthnPlan(filters, k, endStream), oracle, trace, ok)
      ensures ok ==> decodeRequestNeeded == Stale(filters, k, oracle, endStream)
    {
      hide Outcome;
      hide Sweep;
      OutcomeNothing(trace, oracle);
      SweepEmpty(filters, 0, 0, DecodeHeaders, None, endStream);
      var i := 0;
      while i < k
        invariant 0 <= i <= k
        invariant unchanged(`encodeResponseNeeded, `encodeWaitFirstData)
        invariant decodeRequestNeeded == exists j | 0 <= j < i :: Waits(Decode, filters, oracle, endStream)[j]
        invariant Outcome(old(trace), Sweep(filters, 0, i, DecodeHeaders, None, endStream), oracle, trace, true)
      {
        var c := Decode.HeadersCall(filters[i], endStream);
        ghost var before := trace;
        var stop := Invoke(c);
        OutcomeThen(old(trace), Sweep(filters, 0, i, DecodeHeaders, None, endStream), before, [c], oracle, trace,
                    !stop);
        SweepSnoc(filters, 0, i, DecodeHeaders, None, endStream);
        assert Waits(Decode, filters, oracle, endStream)[i] == oracle(c).WaitAllData?;
        if stop {
          SweepSplit(filters, 0, i + 1, k, DecodeHeaders, None, endStream);
          OutcomeStopped(old(trace), Sweep(filters, 0, i + 1, DecodeHeaders, None, endStream),
                         AuthnPlan(filters, k, endStream), oracle, trace);
          return false;
        }
        i := i + 1;
      }
      return true;
    }

    /** `for i := consumerFiltersEndAt; i < len(m.filters); i++` of decodeHeaders. */
    method HeadersFrom(k: nat, endStream: bool, ghost stale: bool) returns (st: Status)
      requires decodeRequestNeeded == stale && decodeIdx == -1
      modifies `trace, `decodeRequestNeeded, `encodeResponseNeeded, `encodeWaitFirstData, `decodeIdx
      ensures unchanged(`encodeResponseNeeded, `encodeWaitFirstData)
      ensures var ws := Treated(filters, k, stale, oracle, endStream);
              && Outcome(old(trace), HeadersPlan(Decode, filters, ws, k, endStream), oracle, trace, st != Replied)
              && (st != Replied ==> HeadersDone(ws, k, endStream, st))
    {
      hide Outcome;
      hide NextWait;
      hide HeadersPlan;
      hide Waits;
      hide HeaderLoop;
      hide LoopAt;
      ghost var ws := Treated(filters, k, stale, oracle, endStream);
      ghost var plan := HeaderLoop(Decode, filters, ws, k, endStream);
      HeaderLoopIsPlan(Decode, filters, ws, k, endStream);
      OutcomeNothing(trace, oracle);
      LoopBegins(Decode, filters, ws, k, endStream);
      ghost var done: seq<Call> := [];
      var i := k;
      while i < |filters|
        invariant k <= i && (k <= |filters| ==> i <= |filters|) && (|filters| < k ==> i == k)
        invariant unchanged(`encodeResponseNeeded, `encodeWaitFirstData, `decodeIdx)
        invariant decodeRequestNeeded == (stale && i == k)
        invariant forall j | k <= j < i && j < |filters| && !endStream :: !ws[j]
        invariant Outcome(old(trace), done, oracle, trace, true)
        invariant LoopAt(Decode, filters, ws, k, endStream, i, done)
      {
        var c := Decode.HeadersCall(filters[i], endStream);
        ghost var before := trace;
        var stop := Invoke(c);
        OutcomeThen(old(trace), done, before, [c], oracle, trace, !stop);
        LoopStep(Decode, filters, ws, k, endStream, i, done);
        done := done + [c];
        if stop {
          OutcomeStopped(old(trace), done, plan, oracle, trace);
          return Replied;
        }
        assert decodeRequestNeeded == ws[i];
        if decodeRequestNeeded {
          decodeRequestNeeded := false;
          if !endStream {
            decodeIdx := i;
            FirstWait(ws, k, i);
            return StopAndBuffer;
          }
          // no body and no trailers
          before := trace;
          stop := Invoke(Decode.WholeCall(filters[i], None, false));
          ghost var whole := [Decode.WholeCall(filters[i], None, false)];
          OutcomeThen(old(trace), done, before, whole, oracle, trace, !stop);
          done := done + whole;
          if stop {
            OutcomeStopped(old(trace), done, plan, oracle, trace);
            return Replied;
          }
        }
        i := i + 1;
      }
      LoopStops(Decode, filters, ws, k, endStream, i, done);
      return GoOn;
    }

    /** Where decodeHeaders leaves the manager. */
    ghost predicate HeadersDone(ws: seq<bool>, k: nat, endStream: bool, st: Status)
      reads this
    {
      var w := NextWait(ws, k);
      if !endStream && w < |filters| then st == StopAndBuffer && decodeIdx == w && !decodeRequestNeeded
      else st == GoOn && decodeIdx == -1
    }

    /** The chain after decodeHeaders: merged with the filters of the consumer
        that authentication found, if the route has consumer plugins. */
    ghost predicate Joined(fs0: seq<Filter>, fs: seq<Filter>, who: Option<FilterConfigs>)
    {
      if consumerFiltersEndAt != 0 && who.Some? && who.value != map[] then
        IsMerge(fs, fs0, who.value, reg)
      else
        fs == fs0
    }

    /** A consumer was looked for: its filters joined, if it has any, and the flags with them. */
    ghost predicate Met(fs0: seq<Filter>, s0: SkipFlags, y0: SyncFlags, who: Option<FilterConfigs>)
      reads this
    {
      && consumer == who
      && if who.Some? && who.value != map[] then
           IsMerge(filters, fs0, who.value, reg) && JoinedFlags(skip, sync, s0, y0, Wrappers(who.value))
         else
           filters == fs0 && skip == s0 && sync == y0
    }

    /** Sound flags stay sound; a skip flag of the request is never gained. */
    ghost predicate FlagsKept(fs0: seq<Filter>, fs: seq<Filter>, s: SkipFlags, y: SyncFlags)
      reads this
    {
      && (SkipSoundButEncodeHeaders(s, fs0) ==> SkipSoundButEncodeHeaders(skip, fs))
      && (SyncSound(y, fs0) ==> SyncSound(sync, fs))
      && (skip.decodeData ==> s.decodeData) && (skip.decodeTrailers ==> s.decodeTrailers)
      && skip.decodeHeaders == s.decodeHeaders
    }

    /** The consumer's filters join the chain in the middle of decodeHeaders. */
    method MergeConsumer(cfg: FilterConfigs)
      modifies `filters, `skip, `sync
      ensures IsMerge(filters, old(filters), cfg, reg)
      ensures FlagsKept(old(filters), filters, old(skip), old(sync))
      ensures JoinedFlags(skip, sync, old(skip), old(sync), Wrappers(cfg))
    {
      hide JoinedFlags;
      hide IsMerge;
      hide SkipSoundButEncodeHeaders;
      hide SyncSound;
      hide IsSkipTable;
      hide IsSyncTable;
      hide Wrappers;
      var wrappers := WrapAll(cfg);
      var t, y := ComputeTables(wrappers);
      ghost var s0, y0 := skip, sync;
      TableKeys(t, wrappers);
      TableKeys(y, wrappers);
      JoinedFlagsAreExact(wrappers, s0, y0, t, y);
      skip := MergeSkip(skip, t);
      sync := MergeSync(sync, y);
      filters := Merge(filters, wrappers, cfg, reg);
      MergeKeepsFlagsSound(filters, old(filters), cfg, reg, wrappers, s0, y0, t, y);
    }

    /** `decodeHeaders`; `who` is the consumer the authn filters set, if any. */
    method RunDecodeHeaders(endStream: bool, who: Option<FilterConfigs>) returns (st: Status)
      requires consumerFiltersEndAt <= |filters| && !decodeRequestNeeded && decodeIdx == -1
      modifies `trace, `decodeRequestNeeded, `encodeResponseNeeded, `encodeWaitFirstData, `decodeIdx, `filters,
               `skip, `sync, `consumer
      ensures unchanged(`encodeResponseNeeded, `encodeWaitFirstData)
      ensures FlagsKept(old(filters), filters, old(skip), old(sync))
      ensures filters == old(filters) || Joined(old(filters), filters, who)
      ensures st != Replied ==> Joined(old(filters), filters, who)
      ensures unchanged(`filters, `skip, `sync, `consumer)
        || (consumerFiltersEndAt != 0 && Met(old(filters), old(skip), old(sync), who))
      ensures st != Replied && consumerFiltersEndAt != 0 ==> Met(old(filters), old(skip), old(sync), who)
      ensures var k := consumerFiltersEndAt;
              var ws := Treated(filters, k, Stale(old(filters), k, oracle, endStream), oracle, endStream);
              && Outcome(old(trace),
                         AuthnPlan(old(filters), k, endStream) + HeadersPlan(Decode, filters, ws, k, endStream),
                         oracle, trace, st != Replied)
              && (st != Replied ==> HeadersDone(ws, k, endStream, st))
    {
      hide Outcome;
      hide HeadersPlan;
      hide AuthnPlan;
      hide IsMerge;
      hide Treated;
      hide JoinedFlags;
      var k := consumerFiltersEndAt;
      ghost var fs0 := filters;
      ghost var authn := AuthnPlan(fs0, k, endStream);
      ghost var stale := Stale(fs0, k, oracle, endStream);
      if k != 0 {
        var ok := AuthnSweep(k, endStream);
        if !ok {
          ghost var ws := Treated(filters, k, stale, oracle, endStream);
          OutcomeStopped(old(trace), authn, authn + HeadersPlan(Decode, filters, ws, k, endStream), oracle, trace);
          return Replied;
        }
        consumer := who;
        if who.Some? && who.value != map[] {
          MergeConsumer(who.value);
        }
      } else {
        NoAuthn(fs0, endStream);
        OutcomeNothing(trace, oracle);
      }
      ghost var before := trace;
      st := HeadersFrom(k, endStream, stale);
      ghost var ws := Treated(filters, k, stale, oracle, endStream);
      OutcomeThen(old(trace), authn, before, HeadersPlan(Decode, filters, ws, k, endStream), oracle, trace,
                  st != Replied);
    }

    /** The schedule of one DecodeData call. */
    ghost function DataStep(buf: nat, endStream: bool): seq<Call>
      requires -1 <= decodeIdx < |filters|
      reads this
    {
      if decodeIdx == -1 then Sweep(filters, 0, |filters|, DecodeData, Some(buf), endStream)
      else if endStream then Resume(Decode, filters, Waits(Decode, filters, oracle, false), decodeIdx, Some(buf), false)
      else []
    }

    ghost function TrailersStep(): seq<Call>
      requires -1 <= decodeIdx < |filters|
      reads this
    {
      if decodeIdx == -1 then Sweep(filters, 0, |filters|, DecodeTrailers, None, false)
      else Resume(Decode, filters, Waits(Decode, filters, oracle, false), decodeIdx, reqBuf, true)
    }

    /** `decodeData` */
    method RunDecodeData(buf: nat, endStream: bool) returns (st: Status)
      requires -1 <= decodeIdx < |filters| && (decodeIdx >= 0 ==> !decodeRequestNeeded)
      modifies `trace, `decodeRequestNeeded, `encodeResponseNeeded, `encodeWaitFirstData, `decodeIdx, `reqBuf
      ensures unchanged(`encodeResponseNeeded, `encodeWaitFirstData)
      ensures Outcome(old(trace), old(DataStep(buf, endStream)), oracle, trace, st != Replied)
      ensures old(decodeIdx) == -1 ==> unchanged(`decodeIdx, `reqBuf, `decodeRequestNeeded)
      ensures old(decodeIdx) >= 0 && !endStream ==>
        unchanged(`decodeIdx, `decodeRequestNeeded) && st == StopAndBuffer && reqBuf == Some(buf)
      ensures !(old(decodeIdx) >= 0 && !endStream) ==> (st == GoOn || st == Replied) && unchanged(`reqBuf)
    {
      hide Outcome;
      hide Sweep;
      hide Resume;
      var ok := true;
      if decodeIdx == -1 {
        ok := SweepForward(DecodeData, 0, |filters|, Some(buf), endStream);
      } else if endStream {
        ok := DecodeRequest(Some(buf), false);
      } else {
        reqBuf := Some(buf);
        OutcomeNothing(trace, oracle);
        return StopAndBuffer;
      }
      return if ok then GoOn else Replied;
    }

    /** `decodeTrailers` */
    method RunDecodeTrailers() returns (st: Status)
      requires -1 <= decodeIdx < |filters| && (decodeIdx >= 0 ==> !decodeRequestNeeded)
      modifies `trace, `decodeRequestNeeded, `encodeResponseNeeded, `encodeWaitFirstData, `decodeIdx
      ensures unchanged(`encodeResponseNeeded, `encodeWaitFirstData)
      ensures Outcome(old(trace), old(TrailersStep()), oracle, trace, st != Replied)
      ensures old(decodeIdx) == -1 ==> unchanged(`decodeIdx)
      ensures st == GoOn || st == Replied
    {
      hide Outcome;
      hide Sweep;
      hide Resume;
      var ok: bool;
      if decodeIdx == -1 {
        ok := SweepForward(DecodeTrailers, 0, |filters|, None, false);
      } else {
        ok := DecodeRequest(reqBuf, trailers := true);
      }
      return if ok then GoOn else Replied;
    }

    // -------------------------------------------------------------- a whole request

    /** Nothing is skipped, or what is skipped may be. */
    ghost predicate SkipsAreSafe()
      reads this
    {
      || (!skip.decodeHeaders && !skip.decodeData && !skip.decodeTrailers)
      || (SkipSoundButEncodeHeaders(skip, filters) && (skip.decodeHeaders ==> SkipSound(skip, filters))
          && PassThrough(oracle) && WaitsOnlyWithWhole(Decode, oracle))
    }

    /** Envoy's DecodeHeaders. */
    method OnDecodeHeaders(endStream: bool, who: Option<FilterConfigs>) returns (st: Status, mode: Mode)
      requires consumerFiltersEndAt <= |filters| && !decodeRequestNeeded && decodeIdx == -1
      modifies `trace, `decodeRequestNeeded, `encodeResponseNeeded, `encodeWaitFirstData, `decodeIdx, `filters,
               `skip, `sync, `consumer
      ensures mode ==
        if old(skip.decodeHeaders) then Skipped else if old(sync.decodeHeaders) then Inline else Goroutine
      ensures mode != Skipped && st != Replied && consumerFiltersEndAt != 0 ==>
        Met(old(filters), old(skip), old(sync), who)
      ensures unchanged(`encodeResponseNeeded, `encodeWaitFirstData)
      ensures mode == Skipped ==> unchanged(this) && st == GoOn
      ensures FlagsKept(old(filters), filters, old(skip), old(sync))
      ensures mode != Skipped ==> filters == old(filters) || Joined(old(filters), filters, who)
      ensures mode != Skipped && st != Replied ==> Joined(old(filters), filters, who)
      ensures mode != Skipped ==>
        var k := consumerFiltersEndAt;
        var ws := Treated(filters, k, Stale(old(filters), k, oracle, endStream), oracle, endStream);
        && Outcome(old(trace), AuthnPlan(old(filters), k, endStream) + HeadersPlan(Decode, filters, ws, k, endStream),
                   oracle, trace, st != Replied)
        && (st != Replied ==> HeadersDone(ws, k, endStream, st))
      ensures mode == Inline && SyncSound(old(sync), old(filters)) && filters == old(filters) ==>
        var k := consumerFiltersEndAt;
        var ws := Treated(filters, k, Stale(filters, k, oracle, endStream), oracle, endStream);
        NonBlocking(AuthnPlan(filters, k, endStream) + HeadersPlan(Decode, filters, ws, k, endStream))
      ensures (mode == Inline && SyncSound(old(sync), old(filters)) && who.Some?
               && IsMerge(filters, old(filters), who.value, reg)) ==>
        var k := consumerFiltersEndAt;
        var ws := Treated(filters, k, Stale(old(filters), k, oracle, endStream), oracle, endStream);
        NonBlocking(AuthnPlan(old(filters), k, endStream) + HeadersPlan(Decode, filters, ws, k, endStream)) <==>
        ConsumerIsQuiet(filters, who.value, ws, k, endStream)
    {
      hide Outcome;
      hide HeadersPlan;
      hide AuthnPlan;
      hide IsMerge;
      hide Treated;
      hide SyncSound;
      hide NonBlocking;
      hide ConsumerIsQuiet;
      hide JoinedFlags;
      ghost var fs0, s0 := filters, sync;
      mode := Dispatch(skip.decodeHeaders, sync.decodeHeaders);
      if skip.decodeHeaders {
        return GoOn, mode;
      }
      if SyncSound(sync, filters) && sync.decodeHeaders {
        ghost var k := consumerFiltersEndAt;
        ghost var ws := Treated(filters, k, Stale(filters, k, oracle, endStream), oracle, endStream);
        InlineRequestHeadersAreSound(sync, filters, ws, k, endStream);
      }
      st := RunDecodeHeaders(endStream, who);
      if SyncSound(s0, fs0) && s0.decodeHeaders && who.Some? && IsMerge(filters, fs0, who.value, reg) {
        ghost var k := consumerFiltersEndAt;
        ghost var ws := Treated(filters, k, Stale(fs0, k, oracle, endStream), oracle, endStream);
        InlineDecodeHeadersAfterMergeIff(filters, fs0, who.value, reg, s0, ws, k, endStream);
      }
    }

    /** Envoy's DecodeData: inline only if nothing it reaches blocks. */
    method OnDecodeData(buf: nat, endStream: bool) returns (st: Status, mode: Mode)
      requires -1 <= decodeIdx < |filters| && (decodeIdx >= 0 ==> !decodeRequestNeeded)
      modifies `trace, `decodeRequestNeeded, `encodeResponseNeeded, `encodeWaitFirstData, `decodeIdx, `reqBuf
      ensures mode == if skip.decodeData then Skipped
        else if sync.decodeData && (old(decodeIdx) == -1 || (sync.decodeHeaders && sync.decodeTrailers)) then Inline
        else Goroutine
      ensures unchanged(`encodeResponseNeeded, `encodeWaitFirstData)
      ensures mode == Skipped ==> unchanged(this) && st == GoOn
      ensures mode != Skipped ==> Outcome(old(trace), old(DataStep(buf, endStream)), oracle, trace, st != Replied)
      ensures mode == Inline && SyncSound(sync, filters) ==> NonBlocking(old(DataStep(buf, endStream)))
      ensures old(decodeIdx) == -1 ==> unchanged(`decodeIdx, `reqBuf, `decodeRequestNeeded)
      ensures mode != Skipped && old(decodeIdx) >= 0 && !endStream ==>
        unchanged(`decodeIdx, `decodeRequestNeeded) && st == StopAndBuffer && reqBuf == Some(buf)
      ensures !(old(decodeIdx) >= 0 && !endStream) ==> (st == GoOn || st == Replied) && unchanged(`reqBuf)
    {
      hide Outcome;
      hide Sweep;
      hide Resume;
      hide SyncSound;
      hide NonBlocking;
      mode := Dispatch(skip.decodeData, InlineDecodeData(sync, decodeIdx));
      if skip.decodeData {
        return GoOn, mode;
      }
      if SyncSound(sync, filters) && InlineDecodeData(sync, decodeIdx) {
        InlineDataIsSound(Decode, sync, filters, Waits(Decode, filters, oracle, false), decodeIdx, buf, endStream);
        NothingBlocks();
      }
      st := RunDecodeData(buf, endStream);
    }

    /** There is no buffered body, or none of the filters it goes to blocks in DecodeData. */
    ghost predicate NobodyBlocksInData()
      requires 0 <= decodeIdx < |filters|
      reads this
    {
      reqBuf.None? || forall i | 0 <= i < |filters|
        && (i < decodeIdx || (i > decodeIdx && !Waits(Decode, filters, oracle, false)[i])) ::
            NoneBlocks([filters[i]], DecodeData)
    }

    /** Envoy's DecodeTrailers: inline is safe when streaming, and otherwise
        exactly when nobody who is handed the buffered body blocks on it. */
    method OnDecodeTrailers() returns (st: Status, mode: Mode)
      requires -1 <= decodeIdx < |filters| && (decodeIdx >= 0 ==> !decodeRequestNeeded)
      modifies `trace, `decodeRequestNeeded, `encodeResponseNeeded, `encodeWaitFirstData, `decodeIdx
      ensures mode == if skip.decodeTrailers then Skipped
        else if sync.decodeTrailers && (old(decodeIdx) == -1 || sync.decodeHeaders) then Inline
        else Goroutine
      ensures unchanged(`encodeResponseNeeded, `encodeWaitFirstData)
      ensures mode == Skipped ==> unchanged(this) && st == GoOn
      ensures mode != Skipped ==> Outcome(old(trace), old(TrailersStep()), oracle, trace, st != Replied)
      ensures old(decodeIdx) == -1 ==> unchanged(`decodeIdx)
      ensures st == GoOn || st == Replied
      ensures mode == Inline && SyncSound(sync, filters) && (old(decodeIdx) == -1 || sync.decodeData) ==>
        NonBlocking(old(TrailersStep()))
      ensures mode == Inline && SyncSound(sync, filters) && old(decodeIdx) >= 0 && DistinctFilters(filters) ==>
        (NonBlocking(old(TrailersStep())) <==> old(NobodyBlocksInData()))
    {
      hide Outcome;
      hide Sweep;
      hide Resume;
      hide SyncSound;
      hide NonBlocking;
      mode := Dispatch(skip.decodeTrailers, InlineDecodeTrailers(sync, decodeIdx));
      if skip.decodeTrailers {
        return GoOn, mode;
      }
      if SyncSound(sync, filters) && InlineDecodeTrailers(sync, decodeIdx) {
        if decodeIdx == -1 {
          InlineDecodeStreamedTrailersAreSound(sync, filters);
        } else {
          ghost var ws := Waits(Decode, filters, oracle, false);
          if sync.decodeData {
            InlineDecodeTrailersNeedsDataFlag(sync, filters, ws, decodeIdx, reqBuf);
          }
          if DistinctFilters(filters) {
            InlineDecodeTrailersSoundIff(sync, filters, ws, decodeIdx, reqBuf);
          }
        }
      }
      st := RunDecodeTrailers();
    }

    /** A whole request as Envoy drives it. `full` is the trace it would have left
        with nothing skipped: the schedule, as far as the plugins let it; and
        what plugins can observe is the same. */
    method RunRequest(endStream: bool, chunks: seq<nat>, trailers: bool, who: Option<FilterConfigs>)
      returns (ok: bool, ghost full: seq<Event>)
      requires Wellformed(endStream, chunks, trailers)
      requires consumerFiltersEndAt <= |filters| && !decodeRequestNeeded && decodeIdx == -1 && reqBuf == None
      requires SkipsAreSafe()
      requires skip.decodeHeaders ==> who.None? // nobody runs who could set a consumer
      modifies `trace, `decodeRequestNeeded, `encodeResponseNeeded, `encodeWaitFirstData, `decodeIdx, `reqBuf, `filters,
               `skip, `sync, `consumer
      ensures filters == old(filters) || Joined(old(filters), filters, who)
      ensures ok ==> Joined(old(filters), filters, who)
      ensures Outcome(old(trace), RequestPlan(old(filters), filters, consumerFiltersEndAt, oracle, endStream, chunks,
                                              trailers),
                      oracle, full, ok)
      ensures Visible(trace) == Visible(full)
      ensures old(!skip.decodeHeaders && !skip.decodeData && !skip.decodeTrailers) ==> trace == full
      ensures FlagsKept(old(filters), filters, old(skip), old(sync))
    {
      hide Outcome;
      hide HeadersPlan;
      hide AuthnPlan;
      hide BodyPlan;
      hide IsMerge;
      hide Treated;
      hide Visible;
      hide SkipSoundButEncodeHeaders;
      hide SkipSound;
      hide PassThrough;
      hide WaitsOnlyWithWhole;
      hide SyncSound;
      hide Waits;
      hide NextWait;
      hide Cut;
      hide Stale;
      ghost var t0 := trace;
      ghost var fs0 := filters;
      ghost var k := consumerFiltersEndAt;
      var st, mode := OnDecodeHeaders(endStream, who);
      ghost var ws := Treated(filters, k, Stale(fs0, k, oracle, endStream), oracle, endStream);
      ghost var heads := AuthnPlan(fs0, k, endStream) + HeadersPlan(Decode, filters, ws, k, endStream);
      ghost var plan := RequestPlan(fs0, filters, k, oracle, endStream, chunks, trailers);
      full := trace;
      if mode == Skipped {
        full := t0 + Cut(heads, oracle);
        HeadersSkippedSafely(t0, full, endStream);
      }
      if st == Replied {
        OutcomeStopped(t0, heads, plan, oracle, full);
        return false, full;
      }
      if endStream {
        assert heads + [] == heads;
        return true, full;
      }
      if decodeIdx >= 0 {
        SomebodyWaits(fs0, filters, old(skip), skip, oracle, k, decodeIdx);
      }
      ghost var mid := full;
      ok, full := RunBody(chunks, trailers, full);
      OutcomeThen(t0, heads, mid, BodyPlan(filters, NextWait(ws, k), oracle, chunks, trailers), oracle, full, ok);
    }

    lemma HeadersSkippedSafely(t0: seq<Event>, full: seq<Event>, endStream: bool)
      requires consumerFiltersEndAt <= |filters| && skip.decodeHeaders && SkipsAreSafe() && decodeIdx == -1
      requires var k := consumerFiltersEndAt;
               var ws := Treated(filters, k, Stale(filters, k, oracle, endStream), oracle, endStream);
               full == t0 + Cut(AuthnPlan(filters, k, endStream) + HeadersPlan(Decode, filters, ws, k, endStream),
                                oracle)
      ensures var k := consumerFiltersEndAt;
              var ws := Treated(filters, k, Stale(filters, k, oracle, endStream), oracle, endStream);
              && Outcome(t0, AuthnPlan(filters, k, endStream) + HeadersPlan(Decode, filters, ws, k, endStream), oracle,
                         full, true)
              && NextWait(ws, k) == |filters|
      ensures Visible(full) == Visible(t0)
    {
      var k := consumerFiltersEndAt;
      SkippingMeansNobodyWaits(Decode, skip, filters, oracle, endStream);
      hide Waits;
      hide Visible;
      hide Outcome;
      var ws := Treated(filters, k, Stale(filters, k, oracle, endStream), oracle, endStream);
      assert forall i | 0 <= i < |filters| :: !ws[i];
      NobodyWaitsPlan(filters, ws, k, endStream);
      var plan := Sweep(filters, 0, |filters|, DecodeHeaders, None, endStream);
      OutcomeOf(t0, plan, oracle);
      SkippingHeadersRefines(Decode, filters, oracle, endStream, t0, full, !Replies(plan, oracle));
    }

    /** Body and trailers as Envoy drives them, on the heels of headers that let them through. */
    method RunBody(chunks: seq<nat>, trailers: bool, ghost soFar: seq<Event>) returns (ok: bool, ghost full: seq<Event>)
      requires Wellformed(false, chunks, trailers)
      requires -1 <= decodeIdx < |filters| && (decodeIdx >= 0 ==> !decodeRequestNeeded) && reqBuf == None
      requires SkipsAreSafe()
      requires decodeIdx >= 0 ==> !skip.decodeData && !skip.decodeTrailers
      requires Visible(trace) == Visible(soFar)
      modifies `trace, `decodeRequestNeeded, `encodeResponseNeeded, `encodeWaitFirstData, `decodeIdx, `reqBuf
      ensures var w := if old(decodeIdx) >= 0 then old(decodeIdx) else |filters|;
              Outcome(soFar, BodyPlan(filters, w, oracle, chunks, trailers), oracle, full, ok)
      ensures Visible(trace) == Visible(full)
      ensures !skip.decodeHeaders && !skip.decodeData && !skip.decodeTrailers && old(trace) == soFar ==> trace == full
    {
      hide Outcome;
      if decodeIdx >= 0 {
        ok, full := RunBufferedBody(chunks, trailers, soFar);
      } else {
        ok, full := RunStreamedBody(chunks, trailers, soFar);
      }
    }

    method RunStreamedBody(chunks: seq<nat>, trailers: bool, ghost soFar: seq<Event>)
      returns (ok: bool, ghost full: seq<Event>)
      requires decodeIdx == -1 && SkipsAreSafe() && Visible(trace) == Visible(soFar)
      modifies `trace, `decodeRequestNeeded, `encodeResponseNeeded, `encodeWaitFirstData, `decodeIdx, `reqBuf
      ensures Outcome(soFar, BodyPlan(filters, |filters|, oracle, chunks, trailers), oracle, full, ok)
      ensures Visible(trace) == Visible(full)
      ensures !skip.decodeHeaders && !skip.decodeData && !skip.decodeTrailers && old(trace) == soFar ==> trace == full
    {
      hide Outcome;
      hide Visible;
      hide Sweep;
      hide Cut;
      hide SkipsAreSafe;
      hide Chunks;
      hide BodyPlan;
      hide Streamed;
      ghost var tail := TrailersPlan(Decode, filters, trailers);
      ghost var plan := Chunks(Decode, filters, chunks, trailers) + tail;
      ghost var done: seq<Call> := [];
      StreamBegins(Decode, filters, chunks, trailers, tail);
      BodyPlanStreams(filters, |filters|, oracle, chunks, trailers);
      full := soFar;
      OutcomeNothing(soFar, oracle);
      var i := 0;
      while i < |chunks|
        invariant 0 <= i <= |chunks| && decodeIdx == -1
        invariant SkipsAreSafe()
        invariant Outcome(soFar, done, oracle, full, true) && Visible(trace) == Visible(full)
        invariant Streamed(Decode, filters, chunks, trailers, tail, i, done)
        invariant !skip.decodeHeaders && !skip.decodeData && !skip.decodeTrailers && old(trace) == soFar ==>
            trace == full
      {
        var last := i == |chunks| - 1 && !trailers;
        ghost var step := Sweep(filters, 0, |filters|, DecodeData, Some(chunks[i]), last);
        ghost var before := full;
        ok, full := StreamStep(DecodeData, chunks[i], last, full);
        OutcomeThen(soFar, done, before, step, oracle, full, ok);
        Schedules.StreamStep(Decode, filters, chunks, trailers, tail, i, done);
        done := done + step;
        i := i + 1;
        if !ok {
          OutcomeStopped(soFar, done, plan, oracle, full);
          return;
        }
      }
      StreamEnds(Decode, filters, chunks, trailers, tail, done);
      ok := true;
      ghost var before := full;
      OutcomeNothing(full, oracle);
      if trailers {
        ok, full := StreamStep(DecodeTrailers, 0, false, full);
      }
      OutcomeThen(soFar, done, before, tail, oracle, full, ok);
    }

    /** One streamed DecodeData or DecodeTrailers, beside the full run. */
    method StreamStep(m: Callback, buf: nat, flag: bool, ghost fullBefore: seq<Event>)
      returns (ok: bool, ghost full: seq<Event>)
      requires m == DecodeData || (m == DecodeTrailers && !flag)
      requires decodeIdx == -1 && SkipsAreSafe() && Visible(trace) == Visible(fullBefore)
      modifies `trace, `decodeRequestNeeded, `encodeResponseNeeded, `encodeWaitFirstData, `decodeIdx, `reqBuf
      ensures decodeIdx == -1 && SkipsAreSafe()
      ensures Outcome(fullBefore, Sweep(filters, 0, |filters|, m, if m == DecodeData then Some(buf) else None, flag),
                      oracle, full, ok)
      ensures Visible(trace) == Visible(full)
      ensures !skip.decodeHeaders && !skip.decodeData && !skip.decodeTrailers && old(trace) == fullBefore ==>
          trace == full
    {
      hide Outcome;
      hide Visible;
      hide Sweep;
      hide Cut;
      hide SkipSoundButEncodeHeaders;
      hide SkipSound;
      hide PassThrough;
      hide WaitsOnlyWithWhole;
      var body := if m == DecodeData then Some(buf) else None;
      full := fullBefore + Cut(Sweep(filters, 0, |filters|, m, body, flag), oracle);
      var st, mode;
      if m == DecodeData {
        st, mode := OnDecodeData(buf, flag);
      } else {
        st, mode := OnDecodeTrailers();
      }
      ok := st != Replied;
      StepAlike(m, body, flag, mode == Skipped, old(trace), fullBefore, trace, full, ok);
    }

    /** One streamed step, run or skipped, beside the full run. */
    lemma StepAlike(m: Callback, body: Option<nat>, flag: bool, skipped: bool,
                    before: seq<Event>, fullBefore: seq<Event>, now: seq<Event>, full: seq<Event>, ok: bool)
      requires SkipsAreSafe() && Visible(before) == Visible(fullBefore)
      requires m == DecodeData || m == DecodeTrailers
      requires skipped == if m == DecodeData then skip.decodeData else skip.decodeTrailers
      requires full == fullBefore + Cut(Sweep(filters, 0, |filters|, m, body, flag), oracle)
      requires skipped ==> now == before && ok
      requires !skipped ==> Outcome(before, Sweep(filters, 0, |filters|, m, body, flag), oracle, now, ok)
      ensures Outcome(fullBefore, Sweep(filters, 0, |filters|, m, body, flag), oracle, full, ok)
      ensures Visible(now) == Visible(full)
      ensures !skipped && before == fullBefore ==> now == full
    {
      hide Sweep;
      hide Visible;
      hide Cut;
      var plan := Sweep(filters, 0, |filters|, m, body, flag);
      if skipped {
        OutcomeOf(fullBefore, plan, oracle);
        SkippingBodyRefines(Decode, skip, filters, oracle, m, body, flag, fullBefore, full, !Replies(plan, oracle));
      } else {
        RunningAlike(before, fullBefore, plan, oracle, now, full, ok);
      }
    }

    method RunBufferedBody(chunks: seq<nat>, trailers: bool, ghost soFar: seq<Event>)
      returns (ok: bool, ghost full: seq<Event>)
      requires Wellformed(false, chunks, trailers)
      requires 0 <= decodeIdx < |filters| && !decodeRequestNeeded && reqBuf == None
      requires SkipsAreSafe() && Visible(trace) == Visible(soFar)
      requires !skip.decodeData && !skip.decodeTrailers
      modifies `trace, `decodeRequestNeeded, `encodeResponseNeeded, `encodeWaitFirstData, `decodeIdx, `reqBuf
      ensures Outcome(soFar, BodyPlan(filters, old(decodeIdx), oracle, chunks, trailers), oracle, full, ok)
      ensures Visible(trace) == Visible(full)
      ensures !skip.decodeHeaders && !skip.decodeData && !skip.decodeTrailers && old(trace) == soFar ==> trace == full
    {
      hide Outcome;
      hide Visible;
      hide Resume;
      hide Cut;
      ghost var plan := BodyPlan(filters, decodeIdx, oracle, chunks, trailers);
      full := soFar + Cut(plan, oracle);
      var st, mode;
      var i := 0;
      while i < |chunks| && (i < |chunks| - 1 || trailers)
        invariant 0 <= i <= |chunks| && (trailers || i < |chunks|)
        invariant unchanged(`trace, `decodeIdx, `decodeRequestNeeded)
        invariant reqBuf == Last(chunks[..i])
      {
        OutcomeNothing(trace, oracle);
        ghost var before := trace;
        st, mode := OnDecodeData(chunks[i], false);
        OutcomeEmpty(before, oracle, trace, st != Replied);
        assert chunks[..i + 1] == chunks[..i] + [chunks[i]];
        i := i + 1;
      }
      if trailers {
        assert chunks[..i] == chunks;
        st, mode := OnDecodeTrailers();
      } else {
        st, mode := OnDecodeData(chunks[i], true);
      }
      ok := st != Replied;
      RunningAlike(old(trace), soFar, plan, oracle, trace, full, ok);
    }

    // ------------------------------------------------------------------ encoding

    /** `for i := hi; i > lo; i--` over EncodeData or EncodeTrailers. */
    method SweepBackward(m: Callback, hi: int, lo: int, body: Option<nat>, flag: bool) returns (ok: bool)
      requires m != DecodeHeaders && m != EncodeHeaders && -1 <= lo <= hi < |filters|
      modifies `trace, `decodeRequestNeeded, `encodeResponseNeeded, `encodeWaitFirstData
      ensures unchanged(`decodeRequestNeeded, `encodeResponseNeeded, `encodeWaitFirstData)
      ensures Outcome(old(trace), Sweep(Reverse(filters), |filters| - 1 - hi, |filters| - 1 - lo, m, body, flag),
                      oracle, trace, ok)
    {
      hide Outcome;
      hide Sweep;
      ghost var rs := Reverse(filters);
      var n := |filters|;
      ghost var from, to := n - 1 - hi, n - 1 - lo;
      ghost var plan := Sweep(rs, from, to, m, body, flag);
      OutcomeNothing(trace, oracle);
      SweepEmpty(rs, from, from, m, body, flag);
      var i := hi;
      while i > lo
        invariant lo <= i <= hi
        invariant unchanged(`decodeRequestNeeded, `encodeResponseNeeded, `encodeWaitFirstData)
        invariant Outcome(old(trace), Sweep(rs, from, n - 1 - i, m, body, flag), oracle, trace, true)
      {
        var c := Call(filters[i], m, body, flag);
        ghost var r := n - 1 - i;
        ghost var before := trace;
        var stop := Invoke(c);
        OutcomeThen(old(trace), Sweep(rs, from, r, m, body, flag), before, [c], oracle, trace, !stop);
        SweepSnoc(rs, from, r, m, body, flag);
        if stop {
          SweepSplit(rs, from, r + 1, to, m, body, flag);
          OutcomeStopped(old(trace), Sweep(rs, from, r + 1, m, body, flag), plan, oracle, trace);
          return false;
        }
        i := i - 1;
      }
      return true;
    }

    /** The buffered body, then the trailers, for filters hi down to lo+1. */
    method EncodeTail(hi: int, lo: int, body: Option<nat>, trailers: bool) returns (ok: bool)
      requires -1 <= lo <= hi < |filters|
      modifies `trace, `decodeRequestNeeded, `encodeResponseNeeded, `encodeWaitFirstData
      ensures unchanged(`decodeRequestNeeded, `encodeResponseNeeded, `encodeWaitFirstData)
      ensures Outcome(old(trace), Tail(Encode, Reverse(filters), |filters| - 1 - hi, |filters| - 1 - lo, body,
                                       trailers), oracle, trace, ok)
    {
      hide Outcome;
      hide Sweep;
      ghost var rs, from, to := Reverse(filters), |filters| - 1 - hi, |filters| - 1 - lo;
      ghost var a := if body.Some? then Sweep(rs, from, to, EncodeData, body, !trailers) else [];
      ghost var b := if trailers then Sweep(rs, from, to, EncodeTrailers, None, false) else [];
      OutcomeNothing(trace, oracle);
      ok := true;
      if body.Some? {
        ok := SweepBackward(EncodeData, hi, lo, body, !trailers);
        if !ok { OutcomeStopped(old(trace), a, a + b, oracle, trace); return; }
      }
      ghost var mid := trace;
      OutcomeNothing(mid, oracle);
      if trailers {
        ok := SweepBackward(EncodeTrailers, hi, lo, None, false);
      }
      OutcomeThen(old(trace), a, mid, b, oracle, trace, ok);
    }

    /** `for ; i >= 0; i--` over EncodeHeaders, left at the first waiting filter. */
    method EncodeHeadersUntilWait(hi: int) returns (ok: bool, i: int)
      requires !encodeResponseNeeded && -1 <= hi < |filters|
      modifies `trace, `decodeRequestNeeded, `encodeResponseNeeded, `encodeWaitFirstData
      ensures unchanged(`decodeRequestNeeded)
      ensures var rs := Reverse(filters);
              var w := NextWait(Waits(Encode, rs, oracle, false), |filters| - 1 - hi);
              && Outcome(old(trace), HeadersUpTo(Encode, rs, |filters| - 1 - hi, w, false), oracle, trace, ok)
              && (ok ==> i == |filters| - 1 - w && encodeResponseNeeded == (w < |filters|))
    {
      hide Outcome;
      hide Sweep;
      hide NextWait;
      var n := |filters|;
      ghost var rs := Reverse(filters);
      ghost var lo := n - 1 - hi;
      ghost var ws := Waits(Encode, rs, oracle, false);
      ghost var w := NextWait(ws, lo);
      ghost var to := if w < n then w + 1 else w;
      OutcomeNothing(trace, oracle);
      SweepEmpty(rs, lo, lo, EncodeHeaders, None, false);
      i := hi;
      while i >= 0
        invariant -1 <= i <= hi && lo <= n - 1 - i <= w && !encodeResponseNeeded
        invariant unchanged(`decodeRequestNeeded)
        invariant Outcome(old(trace), Sweep(rs, lo, n - 1 - i, EncodeHeaders, None, false), oracle, trace, true)
      {
        ghost var r := n - 1 - i;
        var c := Encode.HeadersCall(filters[i], false);
        ghost var before := trace;
        var stop := Invoke(c);
        OutcomeThen(old(trace), Sweep(rs, lo, r, EncodeHeaders, None, false), before, [c], oracle, trace, !stop);
        SweepSnoc(rs, lo, r, EncodeHeaders, None, false);
        if stop {
          SweepSplit(rs, lo, r + 1, to, EncodeHeaders, None, false);
          OutcomeStopped(old(trace), Sweep(rs, lo, r + 1, EncodeHeaders, None, false),
                         Sweep(rs, lo, to, EncodeHeaders, None, false), oracle, trace);
          return false, i;
        }
        if encodeResponseNeeded {
          assert ws[r] && r == w;
          return true, i;
        }
        assert !ws[r];
        i := i - 1;
      }
      return true, i;
    }

    /** The mirror image of DecodeRequest; encodeIdx only ever moves down. */
    method EncodeResponse(body: Option<nat>, trailers: bool) returns (conti: bool)
      requires 0 <= encodeIdx < |filters| && !encodeResponseNeeded
      modifies `trace, `decodeRequestNeeded, `encodeResponseNeeded, `encodeWaitFirstData, `encodeIdx
      ensures unchanged(`decodeRequestNeeded) && 0 <= encodeIdx <= old(encodeIdx)
      ensures conti ==> !encodeResponseNeeded
      ensures conti ==>
        |trace| >= |old(trace)|
        && Called(Call(filters[old(encodeIdx)], Callback.EncodeResponse, body, false)) in trace[|old(trace)|..]
      ensures var rs := Reverse(filters);
              Outcome(old(trace), Resume(Encode, rs, Waits(Encode, rs, oracle, false), |filters| - 1 - old(encodeIdx),
                                         body, trailers),
                      oracle, trace, conti)
    {
      hide Outcome;
      hide Segment;
      hide Tail;
      hide Plan;
      hide Resume;
      hide Resumed;
      hide NextWait;
      hide Reverse;
      ghost var t0 := trace;
      ghost var n := |filters|;
      ghost var rs := Reverse(filters);
      ghost var ws := Waits(Encode, rs, oracle, false);
      ghost var w: nat := n - 1 - encodeIdx;
      ghost var plan := Resume(Encode, rs, ws, w, body, trailers);
      ghost var tail := Tail(Encode, rs, 0, w, body, trailers);
      ghost var done := tail + [Encode.WholeCall(rs[w], body, trailers)];
      ResumeBegins(Encode, rs, ws, w, body, trailers);

      conti := EncodeTail(|filters| - 1, encodeIdx, body, trailers);
      if !conti { OutcomeStopped(t0, tail, plan, oracle, trace); return; }

      ghost var before := trace;
      // the trailers are not handed over
      var stop := Invoke(Encode.WholeCall(filters[encodeIdx], body, false));
      OutcomeThen(t0, tail, before, [Encode.WholeCall(rs[w], body, trailers)], oracle, trace, !stop);
      if stop { OutcomeStopped(t0, done, plan, oracle, trace); return false; }

      var i := encodeIdx - 1;
      while i >= 0
        invariant 0 <= encodeIdx <= old(encodeIdx) && -1 <= i < n && !encodeResponseNeeded
        invariant i >= 0 ==> i == encodeIdx - 1
        invariant unchanged(`decodeRequestNeeded)
        invariant Outcome(t0, done, oracle, trace, true)
        invariant Resumed(Encode, rs, ws, w, body, trailers, n - 1 - i, done)
        decreases i
      {
        var ok: bool;
        ghost var from: nat := n - 1 - i;
        ghost var seg := Segment(Encode, rs, from, NextWait(ws, from), false, body, trailers);
        before := trace;
        ok, i := EncodeSegment(i, body, trailers);
        OutcomeThen(t0, done, before, seg, oracle, trace, ok);
        ResumeStep(Encode, rs, ws, w, body, trailers, from, done,
                   if NextWait(ws, from) < n then NextWait(ws, from) + 1 else n);
        done := done + seg;
        if !ok { OutcomeStopped(t0, done, plan, oracle, trace); return false; }
      }
      ResumeEnds(Encode, rs, ws, w, body, trailers, n - 1 - i, done);
      ResumeHandsOver(Encode, rs, ws, w, body, trailers, t0, oracle, trace);
      return true;
    }

    /** One turn of the outer loop of EncodeResponse. */
    method EncodeSegment(hi: int, body: Option<nat>, trailers: bool) returns (ok: bool, i: int)
      requires !encodeResponseNeeded && hi == encodeIdx - 1 && 0 <= hi < encodeIdx < |filters|
      modifies `trace, `decodeRequestNeeded, `encodeResponseNeeded, `encodeWaitFirstData, `encodeIdx
      ensures unchanged(`decodeRequestNeeded) && 0 <= encodeIdx <= old(encodeIdx)
      ensures var rs := Reverse(filters);
              var w := NextWait(Waits(Encode, rs, oracle, false), |filters| - 1 - hi);
              && Outcome(old(trace), Segment(Encode, rs, |filters| - 1 - hi, w, false, body, trailers), oracle, trace,
                         ok)
              && (ok ==> !encodeResponseNeeded && i == (if w < |filters| then |filters| - 2 - w else -1)
                         && encodeIdx == (if w < |filters| then |filters| - 1 - w else old(encodeIdx)))
    {
      hide Outcome;
      hide Tail;
      hide HeadersUpTo;
      hide NextWait;
      ghost var t0 := trace;
      ghost var n := |filters|;
      ghost var rs := Reverse(filters);
      ghost var lo := n - 1 - hi;
      ghost var w := NextWait(Waits(Encode, rs, oracle, false), lo);
      ghost var a := HeadersUpTo(Encode, rs, lo, w, false);
      ghost var b := Tail(Encode, rs, lo, w, body, trailers);
      ghost var c := WholeAt(Encode, rs, w, body, trailers);
      ghost var seg := a + b + c;
      ok, i := EncodeHeadersUntilWait(hi);
      if !ok { OutcomeStopped(t0, a, seg, oracle, trace); return; }
      ghost var t1 := trace;
      ok := EncodeTail(encodeIdx - 1, i, body, trailers);
      OutcomeThen(t0, a, t1, b, oracle, trace, ok);
      if !ok { OutcomeStopped(t0, a + b, seg, oracle, trace); return; }
      ghost var t2 := trace;
      OutcomeNothing(t2, oracle);
      if encodeResponseNeeded {
        encodeResponseNeeded := false;
        encodeIdx := i;
        var stop := Invoke(Encode.WholeCall(filters[encodeIdx], body, false));
        ok := !stop;
        i := i - 1;
      }
      OutcomeThen(t0, a + b, t2, c, oracle, trace, ok);
    }

    /** Among the filters from `from` on, one answers the response headers with WaitData. */
    ghost predicate AskedToWait(from: int, endStream: bool)
      reads `filters
    {
      exists i: nat ::
        from <= i < |filters| && oracle(Call(filters[i], EncodeHeaders, None, endStream)) == WaitData
    }

    lemma AskOneMore(i: nat, endStream: bool)
      requires i < |filters|
      ensures AskedToWait(i, endStream) <==>
        AskedToWait(i + 1, endStream) || oracle(Call(filters[i], EncodeHeaders, None, endStream)) == WaitData
    {
    }

    lemma AskNobody(endStream: bool)
      ensures !AskedToWait(|filters|, endStream)
      ensures AskedToWait(0, endStream) <==> AskedToWait(-1, endStream)
    {
    }

    /** `encodeHeaders` */
    method RunEncodeHeaders(endStream: bool) returns (st: Status)
      requires !encodeResponseNeeded && encodeIdx == -1
      modifies `trace, `decodeRequestNeeded, `encodeResponseNeeded, `encodeWaitFirstData, `encodeIdx
      ensures unchanged(`decodeRequestNeeded)
      ensures var rs := Reverse(filters);
              var ws := Waits(Encode, rs, oracle, endStream);
              var w := NextWait(ws, 0);
              && Outcome(old(trace), HeadersPlan(Encode, rs, ws, 0, endStream), oracle, trace, st != Replied)
              && (st != Replied ==>
                    !encodeResponseNeeded &&
                    if !endStream && w < |filters| then st == StopAndBuffer && encodeIdx == |filters| - 1 - w
                    else st == (if encodeWaitFirstData then StopAndBufferWatermark else GoOn) && encodeIdx == -1)
      ensures st != Replied ==>
        (encodeWaitFirstData <==> old(encodeWaitFirstData) || AskedToWait(encodeIdx, endStream))
    {
      hide AskedToWait;
      AskNobody(endStream);
      hide Outcome;
      hide NextWait;
      hide HeadersPlan;
      hide HeaderLoop;
      hide LoopAt;
      hide Waits;
      hide Reverse;
      ghost var n := |filters|;
      ghost var rs := Reverse(filters);
      ghost var ws := Waits(Encode, rs, oracle, endStream);
      ghost var plan := HeaderLoop(Encode, rs, ws, 0, endStream);
      HeaderLoopIsPlan(Encode, rs, ws, 0, endStream);
      OutcomeNothing(trace, oracle);
      LoopBegins(Encode, rs, ws, 0, endStream);
      ghost var done: seq<Call> := [];
      var i := |filters| - 1;
      while i >= 0
        invariant -1 <= i < n
        invariant unchanged(`decodeRequestNeeded, `encodeIdx) && !encodeResponseNeeded
        invariant encodeWaitFirstData <==> old(encodeWaitFirstData) || AskedToWait(i + 1, endStream)
        invariant forall j | 0 <= j < n - 1 - i && !endStream :: !ws[j]
        invariant Outcome(old(trace), done, oracle, trace, true)
        invariant LoopAt(Encode, rs, ws, 0, endStream, n - 1 - i, done)
      {
        ghost var r := n - 1 - i;
        AskOneMore(i, endStream);
        var c := Encode.HeadersCall(filters[i], endStream);
        ghost var before := trace;
        var stop := Invoke(c);
        OutcomeThen(old(trace), done, before, [c], oracle, trace, !stop);
        LoopStep(Encode, rs, ws, 0, endStream, r, done);
        done := done + [c];
        if stop {
          OutcomeStopped(old(trace), done, plan, oracle, trace);
          return Replied;
        }
        assert encodeResponseNeeded == ws[r];
        if encodeResponseNeeded {
          encodeResponseNeeded := false;
          if !endStream {
            encodeIdx := i;
            FirstWait(ws, 0, r);
            return StopAndBuffer;
          }
          // no body
          before := trace;
          stop := Invoke(Encode.WholeCall(filters[i], None, false));
          ghost var whole := [Encode.WholeCall(rs[r], None, false)];
          OutcomeThen(old(trace), done, before, whole, oracle, trace, !stop);
          done := done + whole;
          if stop {
            OutcomeStopped(old(trace), done, plan, oracle, trace);
            return Replied;
          }
        }
        i := i - 1;
      }
      LoopStops(Encode, rs, ws, 0, endStream, n - 1 - i, done);
      if encodeWaitFirstData {
        return StopAndBufferWatermark;
      }
      return GoOn;
    }

    /** `encodeData`: a buffered response is resumed at once, endStream or not. */
    method RunEncodeData(buf: nat, endStream: bool) returns (st: Status)
      requires -1 <= encodeIdx < |filters| && !encodeResponseNeeded
      modifies `trace, `decodeRequestNeeded, `encodeResponseNeeded, `encodeWaitFirstData, `encodeIdx
      ensures unchanged(`decodeRequestNeeded) && (st == GoOn || st == Replied)
      ensures var rs := Reverse(filters);
              Outcome(old(trace),
                      if old(encodeIdx) == -1 then Sweep(rs, 0, |filters|, EncodeData, Some(buf), endStream)
                      else Resume(Encode, rs, Waits(Encode, rs, oracle, false), |filters| - 1 - old(encodeIdx),
                                  Some(buf), false),
                      oracle, trace, st != Replied)
      ensures old(encodeIdx) == -1 ==> unchanged(`encodeIdx, `encodeResponseNeeded)
      ensures old(encodeIdx) >= 0 ==> 0 <= encodeIdx < |filters|
      ensures st != Replied ==> !encodeResponseNeeded
    {
      hide Outcome;
      hide Sweep;
      hide Resume;
      var ok: bool;
      if encodeIdx == -1 {
        ok := SweepBackward(EncodeData, |filters| - 1, -1, Some(buf), endStream);
      } else {
        ok := EncodeResponse(Some(buf), false);
      }
      return if ok then GoOn else Replied;
    }

    /** `encodeTrailers`: in chain order, and only when streaming. */
    method RunEncodeTrailers() returns (st: Status)
      requires -1 <= encodeIdx < |filters|
      modifies `trace, `decodeRequestNeeded, `encodeResponseNeeded, `encodeWaitFirstData
      ensures unchanged(`decodeRequestNeeded, `encodeResponseNeeded, `encodeWaitFirstData)
          && (st == GoOn || st == Replied)
      ensures Outcome(old(trace),
                      if encodeIdx == -1 then Sweep(filters, 0, |filters|, EncodeTrailers, None, false) else [],
                      oracle, trace, st != Replied)
    {
      hide Outcome;
      hide Sweep;
      OutcomeNothing(trace, oracle);
      var ok := true;
      if encodeIdx == -1 {
        ok := SweepForward(EncodeTrailers, 0, |filters|, None, false);
      }
      return if ok then GoOn else Replied;
    }

    /** The schedule of one EncodeData call. */
    ghost function ResponseDataStep(buf: nat, endStream: bool): seq<Call>
      requires -1 <= encodeIdx < |filters|
      reads this
    {
      var rs := Reverse(filters);
      if encodeIdx == -1 then Sweep(rs, 0, |filters|, EncodeData, Some(buf), endStream)
      else Resume(Encode, rs, Waits(Encode, rs, oracle, false), |filters| - 1 - encodeIdx, Some(buf), false)
    }

    /** Where encodeHeaders leaves the manager. */
    ghost predicate ResponseHeadersDone(endStream: bool, st: Status)
      reads this
    {
      var w := NextWait(Waits(Encode, Reverse(filters), oracle, endStream), 0);
      && !encodeResponseNeeded
      && if !endStream && w < |filters| then st == StopAndBuffer && encodeIdx == |filters| - 1 - w
         else st == (if encodeWaitFirstData then StopAndBufferWatermark else GoOn) && encodeIdx == -1
    }

    /** Envoy's EncodeHeaders: inline only if nothing in the chain blocks. */
    method OnEncodeHeaders(endStream: bool) returns (st: Status, mode: Mode)
      requires !encodeResponseNeeded && encodeIdx == -1
      modifies `trace, `decodeRequestNeeded, `encodeResponseNeeded, `encodeWaitFirstData, `encodeIdx
      ensures mode == if skip.encodeHeaders then Skipped else if sync.encodeHeaders then Inline else Goroutine
      ensures mode == Skipped ==> unchanged(this) && st == GoOn
      ensures mode != Skipped ==>
        var rs := Reverse(filters);
        Outcome(old(trace), HeadersPlan(Encode, rs, Waits(Encode, rs, oracle, endStream), 0, endStream), oracle, trace,
                st != Replied)
      ensures unchanged(`decodeRequestNeeded)
      ensures mode != Skipped && st != Replied ==> ResponseHeadersDone(endStream, st)
      ensures mode != Skipped && st != Replied ==>
        (encodeWaitFirstData <==> old(encodeWaitFirstData) || AskedToWait(encodeIdx, endStream))
      ensures mode == Inline && SyncSound(sync, filters) ==>
        var rs := Reverse(filters);
        NonBlocking(HeadersPlan(Encode, rs, Waits(Encode, rs, oracle, endStream), 0, endStream))
    {
      hide Outcome;
      hide HeadersPlan;
      hide SyncSound;
      hide NonBlocking;
      hide NextWait;
      mode := Dispatch(skip.encodeHeaders, sync.encodeHeaders);
      if skip.encodeHeaders {
        return GoOn, mode;
      }
      if SyncSound(sync, filters) && sync.encodeHeaders {
        InlineResponseHeadersAreSound(sync, filters, Waits(Encode, Reverse(filters), oracle, endStream), endStream);
      }
      st := RunEncodeHeaders(endStream);
    }

    /** Envoy's EncodeData. */
    method OnEncodeData(buf: nat, endStream: bool) returns (st: Status, mode: Mode)
      requires -1 <= encodeIdx < |filters| && !encodeResponseNeeded
      modifies `trace, `decodeRequestNeeded, `encodeResponseNeeded, `encodeWaitFirstData, `encodeIdx
      ensures mode == if skip.encodeData then Skipped
        else if sync.encodeData && (old(encodeIdx) == -1 || (sync.encodeHeaders && sync.encodeTrailers)) then Inline
        else Goroutine
      ensures mode == Skipped ==> unchanged(this) && st == GoOn
      ensures mode != Skipped ==> Outcome(old(trace), old(ResponseDataStep(buf, endStream)), oracle, trace,
                                          st != Replied)
      ensures mode == Inline && SyncSound(sync, filters) ==> NonBlocking(old(ResponseDataStep(buf, endStream)))
      ensures unchanged(`decodeRequestNeeded) && (st == GoOn || st == Replied)
      ensures old(encodeIdx) == -1 ==> unchanged(`encodeIdx, `encodeResponseNeeded)
      ensures old(encodeIdx) >= 0 ==> 0 <= encodeIdx < |filters|
      ensures st != Replied ==> !encodeResponseNeeded
    {
      hide Outcome;
      hide Sweep;
      hide Resume;
      hide SyncSound;
      hide NonBlocking;
      mode := Dispatch(skip.encodeData, InlineEncodeData(sync, encodeIdx));
      if skip.encodeData {
        return GoOn, mode;
      }
      if SyncSound(sync, filters) && InlineEncodeData(sync, encodeIdx) {
        ghost var rs := Reverse(filters);
        SyncSoundReversed(sync, filters);
        InlineDataIsSound(Encode, sync, rs, Waits(Encode, rs, oracle, false),
                          if encodeIdx == -1 then -1 else |filters| - 1 - encodeIdx, buf, endStream);
      }
      st := RunEncodeData(buf, endStream);
    }

    /** Envoy's EncodeTrailers. */
    method OnEncodeTrailers() returns (st: Status, mode: Mode)
      requires -1 <= encodeIdx < |filters|
      modifies `trace, `decodeRequestNeeded, `encodeResponseNeeded, `encodeWaitFirstData
      ensures var plan := if encodeIdx == -1 then Sweep(filters, 0, |filters|, EncodeTrailers, None, false) else [];
        && mode == (if skip.encodeTrailers then Skipped
             else if sync.encodeTrailers && (encodeIdx == -1 || (sync.encodeHeaders && sync.encodeData)) then Inline
             else Goroutine)
        && (mode == Skipped ==> unchanged(this) && st == GoOn)
        && (mode != Skipped ==> Outcome(old(trace), plan, oracle, trace, st != Replied))
        && unchanged(`decodeRequestNeeded, `encodeResponseNeeded, `encodeWaitFirstData) && (st == GoOn || st == Replied)
        && (mode == Inline && SyncSound(sync, filters) ==> NonBlocking(plan))
    {
      hide Outcome;
      hide Sweep;
      hide SyncSound;
      mode := Dispatch(skip.encodeTrailers, InlineEncodeTrailers(sync, encodeIdx));
      if skip.encodeTrailers {
        return GoOn, mode;
      }
      if SyncSound(sync, filters) && encodeIdx == -1 && InlineEncodeTrailers(sync, -1) {
        InlineEncodeTrailersIsSound(sync, filters);
      }
      st := RunEncodeTrailers();
    }

    /** The log phase: every filter once, in chain order, and nothing can be
        answered any more. Skipping it hides nothing if the flag is sound. */
    method OnLogPhase()
      modifies `trace
      ensures trace == old(trace) + (if skip.onLog then []
                                     else Events(Sweep(filters, 0, |filters|, OnLog, None, false)))
      ensures SkipSound(skip, filters) && skip.onLog ==>
        Visible(old(trace) + Events(Sweep(filters, 0, |filters|, OnLog, None, false))) == Visible(trace)
    {
      if skip.onLog {
        if SkipSound(skip, filters) {
          VisibleUnchanged(trace, Events(Sweep(filters, 0, |filters|, OnLog, None, false)));
        }
        return;
      }
      hide SkipSound;
      for i := 0 to |filters|
        invariant trace == old(trace) + Events(Sweep(filters, 0, i, OnLog, None, false))
      {
        trace := trace + [Called(Call(filters[i], OnLog, None, false))];
        SweepSnoc(filters, 0, i, OnLog, None, false);
      }
    }

    /** A whole response as Envoy drives it. `full` is the trace it would have
        left with nothing skipped: the schedule, as far as the plugins let it;
        and what plugins can observe is the same. */
    method RunResponse(endStream: bool, chunks: seq<nat>, trailers: bool) returns (ok: bool, ghost full: seq<Event>)
      requires WellformedResponse(filters, oracle, endStream, chunks, trailers)
      requires !encodeResponseNeeded && encodeIdx == -1
      requires ResponseSkipsSafe(skip, filters, oracle)
      modifies `trace, `decodeRequestNeeded, `encodeResponseNeeded, `encodeWaitFirstData, `encodeIdx
      ensures Outcome(old(trace), ResponsePlan(filters, oracle, endStream, chunks, trailers), oracle, full, ok)
      ensures Visible(trace) == Visible(full)
      ensures NoResponseSkips() ==> trace == full
    {
      hide Outcome;
      hide Sweep;
      hide Resume;
      hide Plan;
      hide HeadersUpTo;
      hide NextWait;
      hide Chunks;
      hide Waits;
      hide Reverse;
      hide Cut;
      hide Visible;
      hide ResponseSkipsSafe;
      ghost var t0 := trace;
      ghost var rs := Reverse(filters);
      ghost var ws := Waits(Encode, rs, oracle, endStream);
      ghost var heads := HeadersPlan(Encode, rs, ws, 0, endStream);
      ghost var plan := ResponsePlan(filters, oracle, endStream, chunks, trailers);
      var st, mode := OnEncodeHeaders(endStream);
      full := trace;
      if mode == Skipped {
        full := t0 + Cut(heads, oracle);
        ResponseHeadersSkippedSafely(skip, filters, oracle, endStream, t0, full);
      }
      if st == Replied {
        OutcomeStopped(t0, heads, plan, oracle, full);
        return false, full;
      }
      if endStream {
        return true, full;
      }
      ghost var before := full;
      if encodeIdx >= 0 {
        BufferedIsNotSkipped(ws);
        ok := RunBufferedResponse(chunks, trailers);
        full := trace;
        OutcomeThen(t0, heads, before, BufferedPlan(rs, ws, NextWait(ws, 0), chunks), oracle, full, ok);
        return ok, full;
      }
      ok, full := RunStreamedResponse(chunks, trailers, full);
      OutcomeThen(t0, heads, before, Chunks(Encode, rs, chunks, trailers) + TrailersPlan(Encode, filters, trailers),
                  oracle, full, ok);
    }

    predicate NoResponseSkips()
      reads this
    {
      !skip.encodeHeaders && !skip.encodeData && !skip.encodeTrailers
    }

    /** A response is buffered only if somebody waits, and then nothing is skipped. */
    lemma BufferedIsNotSkipped(ws: seq<bool>)
      requires ResponseSkipsSafe(skip, filters, oracle)
      requires ws == Waits(Encode, Reverse(filters), oracle, false) && NextWait(ws, 0) < |filters|
      ensures NoResponseSkips()
    {
      if !NoResponseSkips() {
        SkippedResponseNobodyWaits(skip, filters, oracle, false);
        assert false;
      }
    }

    static ghost function BufferedPlan(rs: seq<Filter>, ws: seq<bool>, w: nat, chunks: seq<nat>): seq<Call>
      requires |ws| == |rs| && w < |rs|
    {
      if chunks == [] then [] else Resume(Encode, rs, ws, w, Some(chunks[0]), false)
    }

    method RunBufferedResponse(chunks: seq<nat>, trailers: bool) returns (ok: bool)
      requires 0 <= encodeIdx < |filters| && !encodeResponseNeeded && |chunks| <= 1 && NoResponseSkips()
      modifies `trace, `decodeRequestNeeded, `encodeResponseNeeded, `encodeWaitFirstData, `encodeIdx
      ensures var rs := Reverse(filters);
        Outcome(old(trace), BufferedPlan(rs, Waits(Encode, rs, oracle, false), |filters| - 1 - old(encodeIdx), chunks),
                oracle, trace, ok)
    {
      hide Outcome;
      hide Sweep;
      hide Resume;
      hide Waits;
      hide Reverse;
      OutcomeNothing(trace, oracle);
      ok := true;
      if chunks != [] {
        var st, _ := OnEncodeData(chunks[0], !trailers);
        if st == Replied {
          return false;
        }
      }
      if trailers {
        ghost var mid := trace;
        var st, _ := OnEncodeTrailers();
        OutcomeEmpty(mid, oracle, trace, st != Replied);
      }
    }

    method RunStreamedResponse(chunks: seq<nat>, trailers: bool, ghost soFar: seq<Event>)
      returns (ok: bool, ghost full: seq<Event>)
      requires encodeIdx == -1 && !encodeResponseNeeded
      requires ResponseSkipsSafe(skip, filters, oracle) && Visible(trace) == Visible(soFar)
      modifies `trace, `decodeRequestNeeded, `encodeResponseNeeded, `encodeWaitFirstData, `encodeIdx
      ensures Outcome(soFar, Chunks(Encode, Reverse(filters), chunks, trailers) +
                      TrailersPlan(Encode, filters, trailers), oracle, full, ok)
      ensures Visible(trace) == Visible(full)
      ensures NoResponseSkips() && old(trace) == soFar ==> trace == full
    {
      hide Outcome;
      hide Sweep;
      hide Chunks;
      hide Cut;
      hide Visible;
      hide Reverse;
      hide ResponseSkipsSafe;
      hide Streamed;
      ghost var rs := Reverse(filters);
      ghost var tail := TrailersPlan(Encode, filters, trailers);
      ghost var plan := Chunks(Encode, rs, chunks, trailers) + tail;
      ghost var done: seq<Call> := [];
      StreamBegins(Encode, rs, chunks, trailers, tail);
      full := soFar;
      OutcomeNothing(soFar, oracle);
      var i := 0;
      while i < |chunks|
        invariant 0 <= i <= |chunks| && encodeIdx == -1 && !encodeResponseNeeded
        invariant Outcome(soFar, done, oracle, full, true) && Visible(trace) == Visible(full)
        invariant Streamed(Encode, rs, chunks, trailers, tail, i, done)
        invariant NoResponseSkips() && old(trace) == soFar ==> trace == full
      {
        var last := i == |chunks| - 1 && !trailers;
        ghost var step := Sweep(rs, 0, |rs|, EncodeData, Some(chunks[i]), last);
        ghost var before := full;
        ok, full := ResponseStep(EncodeData, chunks[i], last, full);
        OutcomeThen(soFar, done, before, step, oracle, full, ok);
        Schedules.StreamStep(Encode, rs, chunks, trailers, tail, i, done);
        done := done + step;
        i := i + 1;
        if !ok {
          OutcomeStopped(soFar, done, plan, oracle, full);
          return;
        }
      }
      StreamEnds(Encode, rs, chunks, trailers, tail, done);
      ok := true;
      ghost var before := full;
      OutcomeNothing(full, oracle);
      if trailers {
        ok, full := ResponseStep(EncodeTrailers, 0, false, full);
      }
      OutcomeThen(soFar, done, before, tail, oracle, full, ok);
    }

    /** One streamed EncodeData or EncodeTrailers, beside the full run. */
    method ResponseStep(m: Callback, buf: nat, flag: bool, ghost fullBefore: seq<Event>)
      returns (ok: bool, ghost full: seq<Event>)
      requires m == EncodeData || (m == EncodeTrailers && !flag)
      requires encodeIdx == -1 && !encodeResponseNeeded
      requires ResponseSkipsSafe(skip, filters, oracle) && Visible(trace) == Visible(fullBefore)
      modifies `trace, `decodeRequestNeeded, `encodeResponseNeeded, `encodeWaitFirstData, `encodeIdx
      ensures encodeIdx == -1 && !encodeResponseNeeded
      ensures var chain := if m == EncodeData then Reverse(filters) else filters;
        Outcome(fullBefore, Sweep(chain, 0, |chain|, m, if m == EncodeData then Some(buf) else None, flag), oracle,
                full, ok)
      ensures Visible(trace) == Visible(full)
      ensures NoResponseSkips() && old(trace) == fullBefore ==> trace == full
    {
      hide Outcome;
      hide Visible;
      hide Sweep;
      hide Cut;
      hide Reverse;
      hide ResponseSkipsSafe;
      var body := if m == EncodeData then Some(buf) else None;
      ghost var chain := if m == EncodeData then Reverse(filters) else filters;
      full := fullBefore + Cut(Sweep(chain, 0, |chain|, m, body, flag), oracle);
      var st, mode;
      if m == EncodeData {
        st, mode := OnEncodeData(buf, flag);
      } else {
        st, mode := OnEncodeTrailers();
      }
      ok := st != Replied;
      ResponseStepAlike(skip, filters, chain, oracle, m, body, flag, mode == Skipped,
                        old(trace), fullBefore, trace, full, ok);
    }
  }
}
