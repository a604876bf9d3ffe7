/** From a configuration as it is delivered to a request that is served: what
    parsing, registration, the consumer merge and the filter manager guarantee
    together. */
module RequestService {
  import opened Options
  import opened Orders
  import opened Chain
  import opened ConsumerMerge
  import opened FastPaths
  import opened Schedules
  import opened FilterManagers
  import ConfigMerge

  /** What is configured: a chain of registered plugins in order, where consumer
      plugins are at Authn and k is what Parse or Merge computed. */
  ghost predicate Configured(fs: seq<Filter>, parsed: seq<ConfigMerge.Parsed>, t: ConfigMerge.Tables, k: nat) {
    && WellFormedChain(fs, t.order)
    && |parsed| == |fs| && (forall i | 0 <= i < |fs| :: parsed[i].name == fs[i].name)
    && t.consumers <= t.order.Keys
    && (forall c | c in t.consumers :: t.order[c].position == POSITION_AUTHN)
    && (k == ConfigMerge.EndOfLast(parsed, t.consumers) || k == ConfigMerge.LeadingRun(parsed, t.consumers))
  }

  /** The chain in the end: merged with the filters of a validated consumer, if one was found. */
  ghost predicate Final(fs0: seq<Filter>, fs: seq<Filter>, who: Option<FilterConfigs>, reg: Registry) {
    fs == fs0 || (who.Some? && WellFormedConsumer(who.value, reg) && IsMerge(fs, fs0, who.value, reg))
  }

  lemma FinalChain(fs0: seq<Filter>, fs: seq<Filter>, who: Option<FilterConfigs>, parsed: seq<ConfigMerge.Parsed>,
                   t: ConfigMerge.Tables, k: nat)
    requires Configured(fs0, parsed, t, k) && Final(fs0, fs, who, t.order)
    ensures SamePrefix(fs0, fs, k) && DistinctFilters(fs)
  {
    if k > 0 {
      ConfigMerge.PrefixEndsAtAuthn(parsed, t, k);
      assert parsed[k - 1].name == fs0[k - 1].name;
    }
    if fs != fs0 {
      MergeKeepsPrefix(fs, fs0, who.value, t.order, k);
      MergeDistinct(fs, fs0, who.value, t.order);
    }
    NamesTellFiltersApart(fs);
  }

  lemma NamesTellFiltersApart(fs: seq<Filter>)
    requires DistinctNames(fs)
    ensures DistinctFilters(fs)
  {
  }

  /** Every plugin of the final chain, those a consumer brought included, is
      called for exactly what it is owed. */
  ghost predicate EveryoneServed(plan: seq<Call>, fs0: seq<Filter>, fs: seq<Filter>, k: nat, oracle: Oracle,
                                 endStream: bool, chunks: seq<nat>, trailers: bool)
    requires k <= |fs0|
  {
    var ws := Treated(fs, k, Stale(fs0, k, oracle, endStream), oracle, endStream);
    forall i | 0 <= i < |fs| ::
      Of(plan, fs[i]) == MessageLog(Decode, fs[i], endStream || NextWait(ws, 0) < |fs|, ws[i], endStream, chunks,
                                    trailers)
  }

  lemma MergedChainIsServed(fs0: seq<Filter>, fs: seq<Filter>, who: Option<FilterConfigs>,
                            parsed: seq<ConfigMerge.Parsed>, t: ConfigMerge.Tables, k: nat, oracle: Oracle,
                            endStream: bool, chunks: seq<nat>, trailers: bool)
    requires Configured(fs0, parsed, t, k) && Final(fs0, fs, who, t.order)
    requires Wellformed(endStream, chunks, trailers)
    ensures k <= |fs0|
    ensures EveryoneServed(RequestPlan(fs0, fs, k, oracle, endStream, chunks, trailers), fs0, fs, k, oracle, endStream,
                           chunks, trailers)
  {
    FinalChain(fs0, fs, who, parsed, t, k);
    hide Configured;
    hide Final;
    hide RequestPlan;
    forall i | 0 <= i < |fs| {
      RequestServesEveryFilter(fs0, fs, k, oracle, endStream, chunks, trailers, i);
    }
  }

  /** A request on a configured chain, whatever consumer shows up: unless a
      plugin replies, what is left in the trace serves every plugin of the
      chain, and a skipped phase hides nothing of it. */
  method Serve(m: FilterManager, parsed: seq<ConfigMerge.Parsed>, t: ConfigMerge.Tables, endStream: bool,
               chunks: seq<nat>, trailers: bool, who: Option<FilterConfigs>)
    returns (ok: bool, ghost full: seq<Event>, ghost plan: seq<Call>)
    requires Configured(m.filters, parsed, t, m.consumerFiltersEndAt) && m.reg == t.order
    requires who.Some? ==> WellFormedConsumer(who.value, t.order)
    requires Wellformed(endStream, chunks, trailers)
    requires !m.decodeRequestNeeded && m.decodeIdx == -1 && m.reqBuf == None
    requires m.SkipsAreSafe() && (m.skip.decodeHeaders ==> who.None?)
    modifies m
    ensures Final(old(m.filters), m.filters, who, t.order) && m.consumerFiltersEndAt <= |old(m.filters)|
    ensures EveryoneServed(plan, old(m.filters), m.filters, m.consumerFiltersEndAt, m.oracle, endStream, chunks,
                           trailers)
    ensures full == old(m.trace) + Cut(plan, m.oracle) && (ok <==> !Replies(plan, m.oracle))
    ensures ok ==> full == old(m.trace) + Events(plan)
    ensures Visible(m.trace) == Visible(full)
  {
    hide Configured;
    hide WellFormedConsumer;
    hide IsMerge;
    hide RequestPlan;
    hide Visible;
    hide EveryoneServed;
    ghost var fs0, k := m.filters, m.consumerFiltersEndAt;
    FinalChain(fs0, fs0, None, parsed, t, k);
    ok, full := m.RunRequest(endStream, chunks, trailers, who);
    plan := RequestPlan(fs0, m.filters, k, m.oracle, endStream, chunks, trailers);
    MergedChainIsServed(fs0, m.filters, who, parsed, t, k, m.oracle, endStream, chunks, trailers);
    CutShape(plan, m.oracle);
  }
}
