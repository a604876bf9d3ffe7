/** Which gateways trigger a reconciliation: the index built while policies are
    resolved into the init state. */
module TriggerIndex {
  import opened Options
  import opened Strings

  datatype NsName = NsName(ns: string, name: string)

  function K8sKey(ns: string, name: string): string { ns + "/" + name }

  /** A namespace has no slash, so the key tells namespace and name apart. */
  lemma KeysTellApart(ns: string, name: string, otherNs: string, other: string)
    requires '/' !in ns && '/' !in otherNs && K8sKey(ns, name) == K8sKey(otherNs, other)
    ensures ns == otherNs && name == other
  {
    SplitUnique(ns, '/', name, otherNs, other);
  }

  /** What reading a gateway gives: a valid one, an invalid one, none, or an error. */
  datatype Lookup = Valid | Invalid | NotFound | Failed

  /** The cluster as one policy sees it. */
  type Cluster = NsName -> Lookup

  datatype VirtualService = VirtualService(ns: string, name: string, gateways: seq<string>) {
    function Id(): NsName { NsName(ns, name) }
  }

  /** A VirtualService of the init state, with the gateways found valid. */
  datatype Recorded = Recorded(vs: VirtualService, gateways: seq<string>)

  type InitState = map<NsName, Recorded>

  /** Gateway key to the policies that depend on it. */
  type Index = map<string, seq<int>>

  predicate Supported(gateway: string) { gateway != "mesh" && '/' !in gateway }

  function Append(idx: Index, key: string, policy: int): Index {
    idx[key := (if key in idx then idx[key] else []) + [policy]]
  }

  function AppendAll(idx: Index, ns: string, gateways: seq<string>, policy: int): Index {
    if gateways == [] then idx
    else
      var last := gateways[|gateways| - 1];
      var rest := AppendAll(idx, ns, gateways[..|gateways| - 1], policy);
      if Supported(last) then Append(rest, K8sKey(ns, last), policy) else rest
  }

  function ValidOnes(cluster: Cluster, ns: string, gateways: seq<string>): seq<string> {
    if gateways == [] then []
    else
      var last := gateways[|gateways| - 1];
      var rest := ValidOnes(cluster, ns, gateways[..|gateways| - 1]);
      if Supported(last) && cluster(NsName(ns, last)) == Valid then rest + [last] else rest
  }

  predicate SomeFails(cluster: Cluster, ns: string, gateways: seq<string>) {
    exists i :: 0 <= i < |gateways| && Supported(gateways[i]) && cluster(NsName(ns, gateways[i])) == Failed
  }

  predicate Cached(init: InitState, vs: VirtualService) {
    vs.Id() in init && init[vs.Id()].gateways != []
  }

  datatype Progress = Progress(init: InitState, idx: Index)

  /** One policy for a VirtualService. */
  function Resolved(p: Progress, vs: VirtualService, policy: int, cluster: Cluster): Option<Progress> {
    if Cached(p.init, vs) then
      Some(Progress(p.init, AppendAll(p.idx, vs.ns, p.init[vs.Id()].gateways, policy)))
    else if SomeFails(cluster, vs.ns, vs.gateways) then None
    else
      var gws := ValidOnes(cluster, vs.ns, vs.gateways);
      Some(Progress(if gws != [] && vs.Id() !in p.init then p.init[vs.Id() := Recorded(vs, gws)] else p.init,
                    AppendAll(p.idx, vs.ns, vs.gateways, policy)))
  }

  /** `resolveWithVirtualService`: a VirtualService met before brings its gateways
      along; otherwise each of its gateways is indexed, then looked up. */
  method ResolveWithVirtualService(p: Progress, vs: VirtualService, policy: int, cluster: Cluster)
    returns (r: Option<Progress>, accepted: bool)
    requires CachedGatewaysSupported(p.init)
    ensures r == Resolved(p, vs, policy, cluster)
    ensures r.Some? ==> (accepted <==> Cached(p.init, vs) || ValidOnes(cluster, vs.ns, vs.gateways) != [])
  {
    var idx := p.idx;
    accepted := false;
    if vs.Id() in p.init && |p.init[vs.Id()].gateways| > 0 {
      var gws := p.init[vs.Id()].gateways;
      for i := 0 to |gws|
        invariant idx == AppendAll(p.idx, vs.ns, gws[..i], policy)
      {
        assert gws[..i + 1][..i] == gws[..i];
        assert Supported(gws[i]);
        idx := Append(idx, K8sKey(vs.ns, gws[i]), policy);
      }
      assert gws[..|gws|] == gws;
      return Some(Progress(p.init, idx)), true;
    }
    var gws := [];
    for i := 0 to |vs.gateways|
      invariant idx == AppendAll(p.idx, vs.ns, vs.gateways[..i], policy)
      invariant gws == ValidOnes(cluster, vs.ns, vs.gateways[..i])
      invariant accepted <==> gws != []
      invariant forall k | 0 <= k < i :: Supported(vs.gateways[k]) ==> cluster(NsName(vs.ns, vs.gateways[k])) != Failed
    {
      var gw := vs.gateways[i];
      assert vs.gateways[..i + 1][..i] == vs.gateways[..i];
      if gw == "mesh" || '/' in gw {
        continue;
      }
      idx := Append(idx, K8sKey(vs.ns, gw), policy);
      match cluster(NsName(vs.ns, gw)) {
        case Failed => return None, false;
        case NotFound =>
        case Invalid =>
        case Valid =>
          gws := gws + [gw];
          accepted := true;
      }
    }
    assert vs.gateways[..|vs.gateways|] == vs.gateways;
    var init := p.init;
    if accepted && vs.Id() !in init {
      init := init[vs.Id() := Recorded(vs, gws)];
    }
    r := Some(Progress(init, idx));
  }

  ghost predicate CachedGatewaysSupported(init: InitState) {
    forall id, i | id in init && 0 <= i < |init[id].gateways| :: Supported(init[id].gateways[i])
  }

  // ---------------------------------------------------------- the whole pass

  /** One policy of the list, after its own checks. */
  datatype Step =
    | ForVirtualService(vs: VirtualService, policy: int, cluster: Cluster)
      // the VirtualService is missing, unsupported, or unreadable
    | Unresolved(target: NsName, policy: int, fails: bool)
    | ForGateway(ns: string, gateway: string, policy: int, fails: bool)
    | Skipped

  function StepOnce(p: Progress, s: Step): Option<Progress> {
    match s
    case ForVirtualService(vs, policy, cluster) => Resolved(p, vs, policy, cluster)
    case Unresolved(_, _, fails) => if fails then None else Some(p)
    case ForGateway(ns, gateway, policy, fails) =>
      if fails then None else Some(p.(idx := Append(p.idx, K8sKey(ns, gateway), policy)))
    case Skipped => Some(p)
  }

  function After(steps: seq<Step>): Option<Progress> {
    if steps == [] then Some(Progress(map[], map[]))
    else
      match After(steps[..|steps| - 1])
      case None => None
      case Some(p) => StepOnce(p, steps[|steps| - 1])
  }

  /** Every gateway a recorded VirtualService names in its own namespace. */
  ghost predicate Complete(p: Progress) {
    forall id, i | id in p.init && 0 <= i < |p.init[id].vs.gateways| && Supported(p.init[id].vs.gateways[i]) ::
      Indexed(p.idx, K8sKey(p.init[id].vs.ns, p.init[id].vs.gateways[i]))
  }

  predicate Indexed(idx: Index, key: string) { key in idx && idx[key] != [] }

  ghost predicate Sane(p: Progress) {
    forall id | id in p.init ::
      && p.init[id].vs.Id() == id && p.init[id].gateways != []
      && forall i | 0 <= i < |p.init[id].gateways| :: Supported(p.init[id].gateways[i])
  }

  lemma {:induction false} AppendAllIndexes(idx: Index, ns: string, gateways: seq<string>, policy: int)
    ensures forall i | 0 <= i < |gateways| && Supported(gateways[i]) ::
      Indexed(AppendAll(idx, ns, gateways, policy), K8sKey(ns, gateways[i]))
    ensures forall k | Indexed(idx, k) :: Indexed(AppendAll(idx, ns, gateways, policy), k)
    ensures forall k | k in AppendAll(idx, ns, gateways, policy) ::
      k in idx || exists i :: 0 <= i < |gateways| && Supported(gateways[i]) && k == K8sKey(ns, gateways[i])
  {
    if gateways != [] {
      var n := |gateways| - 1;
      AppendAllIndexes(idx, ns, gateways[..n], policy);
      var rest := AppendAll(idx, ns, gateways[..n], policy);
      var all := AppendAll(idx, ns, gateways, policy);
      forall k | k in all
        ensures k in idx || exists i :: 0 <= i < |gateways| && Supported(gateways[i]) && k == K8sKey(ns, gateways[i])
      {
        if k in rest && k !in idx {
          var i :| 0 <= i < n && Supported(gateways[..n][i]) && k == K8sKey(ns, gateways[..n][i]);
          assert Supported(gateways[i]);
        }
      }
    }
  }

  lemma {:induction false} ValidOnesSupported(cluster: Cluster, ns: string, gateways: seq<string>)
    ensures forall i | 0 <= i < |ValidOnes(cluster, ns, gateways)| :: Supported(ValidOnes(cluster, ns, gateways)[i])
  {
    if gateways != [] {
      ValidOnesSupported(cluster, ns, gateways[..|gateways| - 1]);
    }
  }

  /** After a successful pass every same-namespace gateway named by a recorded
      VirtualService has a non-empty entry, be it valid, invalid or missing. */
  lemma {:induction false} IndexIsComplete(steps: seq<Step>)
    requires After(steps).Some?
    ensures Sane(After(steps).value) && Complete(After(steps).value)
  {
    if steps != [] {
      var n := |steps| - 1;
      IndexIsComplete(steps[..n]);
      StepKeepsComplete(After(steps[..n]).value, steps[n]);
    }
  }

  lemma StepKeepsComplete(p: Progress, s: Step)
    requires Sane(p) && Complete(p) && StepOnce(p, s).Some?
    ensures Sane(StepOnce(p, s).value) && Complete(StepOnce(p, s).value)
  {
    match s
    case Skipped =>
    case Unresolved(_, _, _) =>
    case ForGateway(_, _, _, _) =>
    case ForVirtualService(vs, policy, cluster) =>
      ValidOnesSupported(cluster, vs.ns, vs.gateways);
      if Cached(p.init, vs) {
        AppendAllIndexes(p.idx, vs.ns, p.init[vs.Id()].gateways, policy);
      } else {
        AppendAllIndexes(p.idx, vs.ns, vs.gateways, policy);
      }
  }

  // --------------------------------------------------------------- the indexers

  class Reconciler {
    var gatewayIndex: Index
    var virtualServiceIndex: Index
    const everyGateway: bool   // EnableLDSPluginViaECDS

    constructor (everyGateway: bool)
      ensures gatewayIndex == map[] && virtualServiceIndex == map[] && this.everyGateway == everyGateway
    {
      gatewayIndex, virtualServiceIndex := map[], map[];
      this.everyGateway := everyGateway;
    }

    /** `policyToTranslationState`: an error leaves the gateway index as it was. */
    method PolicyToTranslationState(steps: seq<Step>) returns (r: Option<InitState>)
      modifies this
      ensures r.Some? <==> After(steps).Some?
      ensures r.Some? ==> r.value == After(steps).value.init && gatewayIndex == After(steps).value.idx
      ensures r.None? ==> gatewayIndex == old(gatewayIndex)
      ensures virtualServiceIndex == Targets(steps)
    {
      var vsIdx: Index := map[];
      for i := 0 to |steps|
        invariant vsIdx == Targets(steps[..i])
      {
        assert steps[..i + 1][..i] == steps[..i];
        match steps[i] {
          case ForVirtualService(vs, policy, _) => vsIdx := Append(vsIdx, K8sKey(vs.ns, vs.name), policy);
          case Unresolved(target, policy, _) => vsIdx := Append(vsIdx, K8sKey(target.ns, target.name), policy);
          case _ =>
        }
      }
      assert steps[..|steps|] == steps;
      virtualServiceIndex := vsIdx;

      var p := Progress(map[], map[]);
      for i := 0 to |steps|
        invariant After(steps[..i]) == Some(p) && gatewayIndex == old(gatewayIndex)
            && virtualServiceIndex == Targets(steps)
      {
        assert steps[..i + 1][..i] == steps[..i];
        IndexIsComplete(steps[..i]);
        match steps[i] {
          case Skipped =>
          case Unresolved(_, _, fails) =>
            if fails {
              ErrorStays(steps, i);
              return None;
            }
          case ForGateway(ns, gateway, policy, fails) =>
            p := p.(idx := Append(p.idx, K8sKey(ns, gateway), policy));
            if fails {
              ErrorStays(steps, i);
              return None;
            }
          case ForVirtualService(vs, policy, cluster) =>
            var next, _ := ResolveWithVirtualService(p, vs, policy, cluster);
            if next.None? {
              ErrorStays(steps, i);
              return None;
            }
            p := next.value;
        }
      }
      gatewayIndex := p.idx;
      r := Some(p.init);
    }

    /** Does a change of this gateway trigger a reconciliation? After a pass over
        a fixed snapshot it does exactly when some policy of that pass depends on
        the gateway: it targets it, or a VirtualService that names it. */
    method NeedReconcile(ns: string, gateway: string) returns (r: bool)
      ensures r <==> everyGateway || K8sKey(ns, gateway) in gatewayIndex
      ensures forall steps, cluster | Snapshot(steps, cluster) && After(steps).Some?
          && After(steps).value.idx == gatewayIndex ::
        r <==> everyGateway || SomeDepends(steps, K8sKey(ns, gateway))
    {
      forall steps, cluster | Snapshot(steps, cluster) && After(steps).Some? && After(steps).value.idx == gatewayIndex
        ensures K8sKey(ns, gateway) in gatewayIndex <==> SomeDepends(steps, K8sKey(ns, gateway))
      {
        IndexedIffDependedOn(steps, cluster, K8sKey(ns, gateway));
      }
      if everyGateway {
        return true;
      }
      r := K8sKey(ns, gateway) in gatewayIndex;
    }

    /** After a pass, whatever gateway a recorded VirtualService names in its own
        namespace: when it changes, appears or becomes valid, that is noticed. */
    method GatewayChangeIsNoticed(steps: seq<Step>, id: NsName, gateway: string) returns (r: bool)
      requires After(steps).Some? && gatewayIndex == After(steps).value.idx
      requires id in After(steps).value.init && gateway in After(steps).value.init[id].vs.gateways && Supported(gateway)
      ensures r
    {
      IndexIsComplete(steps);
      var p := After(steps).value;
      var i :| 0 <= i < |p.init[id].vs.gateways| && p.init[id].vs.gateways[i] == gateway;
      assert Indexed(p.idx, K8sKey(p.init[id].vs.ns, gateway));
      r := NeedReconcile(id.ns, gateway);
    }
  }

  /** The policies for each VirtualService, resolved or not. */
  function Targets(steps: seq<Step>): Index {
    if steps == [] then map[]
    else
      var last := steps[|steps| - 1];
      var rest := Targets(steps[..|steps| - 1]);
      match last
      case ForVirtualService(vs, policy, _) => Append(rest, K8sKey(vs.ns, vs.name), policy)
      case Unresolved(target, policy, _) => Append(rest, K8sKey(target.ns, target.name), policy)
      case _ => rest
  }

  lemma {:induction false} ErrorStays(steps: seq<Step>, i: nat)
    requires i < |steps| && After(steps[..i + 1]).None?
    ensures After(steps).None?
    decreases |steps|
  {
    if i + 1 == |steps| {
      assert steps[..i + 1] == steps;
    } else {
      assert steps[..|steps| - 1][..i + 1] == steps[..i + 1];
      ErrorStays(steps[..|steps| - 1], i);
    }
  }

  // ------------------------------------------------------------ the cached path

  /** All policies see the same cluster and the same VirtualServices. */
  ghost predicate Snapshot(steps: seq<Step>, cluster: Cluster) {
    && (forall i | 0 <= i < |steps| && steps[i].ForVirtualService? :: steps[i].cluster == cluster)
    && (forall i, j | 0 <= i < |steps| && 0 <= j < |steps| && steps[i].ForVirtualService? && steps[j].ForVirtualService?
          && steps[i].vs.Id() == steps[j].vs.Id() :: steps[i].vs == steps[j].vs)
  }

  /** On a fixed snapshot the gateways kept with a VirtualService are those that
      looking them up again would give. */
  lemma {:induction false} CachedEqualsRecomputed(steps: seq<Step>, cluster: Cluster, id: NsName)
    requires Snapshot(steps, cluster) && After(steps).Some? && id in After(steps).value.init
    ensures var r := After(steps).value.init[id];
      && r.gateways == ValidOnes(cluster, r.vs.ns, r.vs.gateways)
      && exists i :: 0 <= i < |steps| && steps[i].ForVirtualService? && steps[i].vs == r.vs && r.vs.Id() == id
  {
    var n := |steps| - 1;
    var earlier := steps[..n];
    assert Snapshot(earlier, cluster);
    if id in After(earlier).value.init {
      CachedEqualsRecomputed(earlier, cluster, id);
      var i :| 0 <= i < n && earlier[i].ForVirtualService? && earlier[i].vs == After(earlier).value.init[id].vs;
      assert steps[i] == earlier[i];
    } else {
      assert steps[n].ForVirtualService?;
    }
  }

  /** The policy of this step depends on the gateway with this key. */
  predicate Depends(s: Step, key: string) {
    match s
    case ForVirtualService(vs, _, _) =>
      exists i :: 0 <= i < |vs.gateways| && Supported(vs.gateways[i]) && key == K8sKey(vs.ns, vs.gateways[i])
    case ForGateway(ns, gateway, _, _) => key == K8sKey(ns, gateway)
    case _ => false
  }

  predicate SomeDepends(steps: seq<Step>, key: string) {
    exists i :: 0 <= i < |steps| && Depends(steps[i], key)
  }

  /** Of the gateways named, those of the same namespace that are found and valid. */
  lemma {:induction false} ValidOnesAreNamed(cluster: Cluster, ns: string, gateways: seq<string>)
    ensures forall g :: g in ValidOnes(cluster, ns, gateways) <==>
      g in gateways && g != "mesh" && '/' !in g && cluster(NsName(ns, g)) == Valid
  {
    if gateways != [] {
      ValidOnesAreNamed(cluster, ns, gateways[..|gateways| - 1]);
      assert gateways == gateways[..|gateways| - 1] + [gateways[|gateways| - 1]];
    }
  }

  /** After a pass over a snapshot, the gateways kept with a VirtualService are
      exactly its valid ones. */
  lemma RecordedAreValid(steps: seq<Step>, cluster: Cluster, id: NsName, g: string)
    requires Snapshot(steps, cluster) && After(steps).Some? && id in After(steps).value.init
    ensures var r := After(steps).value.init[id];
      id == NsName(r.vs.ns, r.vs.name)
    ensures var r := After(steps).value.init[id];
      g in r.gateways <==> g in r.vs.gateways && g != "mesh" && '/' !in g && cluster(NsName(id.ns, g)) == Valid
  {
    CachedEqualsRecomputed(steps, cluster, id);
    var r := After(steps).value.init[id];
    ValidOnesAreNamed(cluster, r.vs.ns, r.vs.gateways);
  }

  // ------------------------------------------------- which policies an entry lists

  predicate Lists(idx: Index, key: string, policy: int) { key in idx && policy in idx[key] }

  lemma {:induction false} AppendAllLists(idx: Index, ns: string, gateways: seq<string>, policy: int, key: string,
                                          other: int)
    ensures Lists(AppendAll(idx, ns, gateways, policy), key, other) <==>
      || Lists(idx, key, other)
      || (other == policy && exists g :: g in gateways && Supported(g) && key == ns + "/" + g)
  {
    if gateways != [] {
      var n := |gateways| - 1;
      assert gateways == gateways[..n] + [gateways[n]];
      AppendAllLists(idx, ns, gateways[..n], policy, key, other);
      if g :| g in gateways[..n] && Supported(g) && key == ns + "/" + g {
        assert g in gateways;
      }
    }
  }

  /** What a step adds: the policy, under the gateway it is for, or under the
      gateways of its VirtualService (only the valid ones if it was met before). */
  ghost predicate AddedBy(p: Progress, s: Step, key: string, policy: int) {
    match s
    case ForGateway(ns, gateway, one, _) => policy == one && key == ns + "/" + gateway
    case ForVirtualService(vs, one, _) =>
      var gateways := if Cached(p.init, vs) then p.init[vs.Id()].gateways else vs.gateways;
      policy == one && exists g :: g in gateways && g != "mesh" && '/' !in g && key == vs.ns + "/" + g
    case _ => false
  }

  ghost predicate AddsAt(steps: seq<Step>, i: int, key: string, policy: int) {
    0 <= i < |steps| && After(steps[..i]).Some? && AddedBy(After(steps[..i]).value, steps[i], key, policy)
  }

  lemma AddsEarlier(steps: seq<Step>, n: nat, i: int, key: string, policy: int)
    requires i < n <= |steps|
    ensures AddsAt(steps[..n], i, key, policy) <==> AddsAt(steps, i, key, policy)
  {
    hide After;
    hide AddedBy;
    if 0 <= i {
      assert steps[..n][..i] == steps[..i] && steps[..n][i] == steps[i];
    }
  }

  /** The entry of a gateway lists exactly the policies that some step added, and loses none. */
  lemma {:induction false} EntriesListPolicies(steps: seq<Step>, key: string, policy: int)
    requires After(steps).Some?
    ensures Lists(After(steps).value.idx, key, policy) <==> exists i :: AddsAt(steps, i, key, policy)
  {
    hide Lists;
    hide AddedBy;
    if steps == [] {
      NothingListed(key, policy);
    } else {
      var n := |steps| - 1;
      var earlier := steps[..n];
      EntriesListPolicies(earlier, key, policy);
      StepLists(After(earlier).value, steps[n], key, policy);
      assert AddsAt(steps, n, key, policy) <==> AddedBy(After(earlier).value, steps[n], key, policy);
      forall i | i < n ensures AddsAt(earlier, i, key, policy) <==> AddsAt(steps, i, key, policy) {
        AddsEarlier(steps, n, i, key, policy);
      }
      hide AddsAt;
      if i :| AddsAt(steps, i, key, policy) {
        BeforeTheEnd(steps, i, key, policy);
      }
      if i :| AddsAt(earlier, i, key, policy) {
        BeforeTheEnd(earlier, i, key, policy);
      }
    }
  }

  lemma NothingListed(key: string, policy: int)
    ensures !Lists(map[], key, policy)
  {
  }

  lemma BeforeTheEnd(steps: seq<Step>, i: int, key: string, policy: int)
    requires AddsAt(steps, i, key, policy)
    ensures 0 <= i < |steps|
  {
  }

  lemma StepLists(p: Progress, s: Step, key: string, policy: int)
    requires StepOnce(p, s).Some?
    ensures Lists(StepOnce(p, s).value.idx, key, policy) <==> Lists(p.idx, key, policy) || AddedBy(p, s, key, policy)
  {
    match s
    case ForVirtualService(vs, one, _) =>
      var gateways := if Cached(p.init, vs) then p.init[vs.Id()].gateways else vs.gateways;
      AppendAllLists(p.idx, vs.ns, gateways, one, key, policy);
    case _ =>
  }

  /** A gateway is indexed exactly when some policy depends on it. */
  lemma {:induction false} IndexedIffDependedOn(steps: seq<Step>, cluster: Cluster, key: string)
    requires Snapshot(steps, cluster) && After(steps).Some?
    ensures key in After(steps).value.idx <==> SomeDepends(steps, key)
  {
    if steps != [] {
      var n := |steps| - 1;
      var earlier := steps[..n];
      assert Snapshot(earlier, cluster);
      IndexedIffDependedOn(earlier, cluster, key);
      StepIndexes(steps, cluster, key);
      if i :| 0 <= i < |steps| && Depends(steps[i], key) {
        assert i < n ==> Depends(earlier[i], key);
      }
      if i :| 0 <= i < n && Depends(earlier[i], key) {
        assert Depends(steps[i], key);
      }
    }
  }

  lemma StepIndexes(steps: seq<Step>, cluster: Cluster, key: string)
    requires steps != [] && Snapshot(steps, cluster) && After(steps).Some?
    ensures var n := |steps| - 1;
      key in After(steps).value.idx <==> key in After(steps[..n]).value.idx || Depends(steps[n], key)
  {
    hide Snapshot;
    hide AppendAll;
    var n := |steps| - 1;
    var p := After(steps[..n]).value;
    match steps[n]
    case ForVirtualService(vs, policy, _) =>
      if Cached(p.init, vs) {
        CachedVirtualService(steps, cluster);
        CachedIndexes(p, vs, p.init[vs.Id()].gateways, policy, key);
      } else {
        FreshIndexes(p.idx, vs, policy, key);
      }
    case _ =>
  }

  lemma FreshIndexes(idx: Index, vs: VirtualService, policy: int, key: string)
    ensures key in AppendAll(idx, vs.ns, vs.gateways, policy) <==>
            key in idx || exists i ::
              0 <= i < |vs.gateways| && Supported(vs.gateways[i]) && key == K8sKey(vs.ns, vs.gateways[i])
  {
    AppendAllIndexes(idx, vs.ns, vs.gateways, policy);
    AppendAllKeeps(idx, vs.ns, vs.gateways, policy, key);
  }

  /** On a snapshot a VirtualService met again is the recorded one, and its
      gateways are indexed already. */
  lemma CachedVirtualService(steps: seq<Step>, cluster: Cluster)
    requires steps != [] && Snapshot(steps, cluster) && After(steps).Some?
    requires var n := |steps| - 1; steps[n].ForVirtualService? && Cached(After(steps[..n]).value.init, steps[n].vs)
    ensures var n := |steps| - 1; var p := After(steps[..n]).value; var vs := steps[n].vs;
      && (forall g | g in p.init[vs.Id()].gateways :: g in vs.gateways)
      && forall i | 0 <= i < |vs.gateways| && Supported(vs.gateways[i]) :: K8sKey(vs.ns, vs.gateways[i]) in p.idx
  {
    var n := |steps| - 1;
    var vs := steps[n].vs;
    var r := After(steps[..n]).value.init[vs.Id()];
    assert Snapshot(steps[..n], cluster);
    CachedEqualsRecomputed(steps[..n], cluster, vs.Id());
    var i :| 0 <= i < n && steps[..n][i].ForVirtualService? && steps[..n][i].vs == r.vs && r.vs.Id() == vs.Id();
    assert steps[i] == steps[..n][i] && r.vs == vs;
    hide Snapshot;
    IndexIsComplete(steps[..n]);
    ValidOnesAreNamed(cluster, vs.ns, vs.gateways);
  }

  lemma CachedIndexes(p: Progress, vs: VirtualService, gateways: seq<string>, policy: int, key: string)
    requires forall g | g in gateways :: g in vs.gateways
    requires forall i | 0 <= i < |vs.gateways| && Supported(vs.gateways[i]) :: K8sKey(vs.ns, vs.gateways[i]) in p.idx
    ensures key in AppendAll(p.idx, vs.ns, gateways, policy) <==>
            key in p.idx || exists i ::
              0 <= i < |vs.gateways| && Supported(vs.gateways[i]) && key == K8sKey(vs.ns, vs.gateways[i])
  {
    AppendAllKeeps(p.idx, vs.ns, gateways, policy, key);
    if key in AppendAll(p.idx, vs.ns, gateways, policy) {
      CachedKeysNamed(p, vs, gateways, policy, key);
    }
  }

  lemma {:induction false} AppendAllKeeps(idx: Index, ns: string, gateways: seq<string>, policy: int, key: string)
    ensures key in idx ==> key in AppendAll(idx, ns, gateways, policy)
  {
    if gateways != [] {
      AppendAllKeeps(idx, ns, gateways[..|gateways| - 1], policy, key);
    }
  }

  lemma CachedKeysNamed(p: Progress, vs: VirtualService, gateways: seq<string>, policy: int, key: string)
    requires forall g | g in gateways :: g in vs.gateways
    requires key in AppendAll(p.idx, vs.ns, gateways, policy)
    ensures key in p.idx || exists i ::
        0 <= i < |vs.gateways| && Supported(vs.gateways[i]) && key == K8sKey(vs.ns, vs.gateways[i])
  {
    AppendAllIndexes(p.idx, vs.ns, gateways, policy);
    if key !in p.idx {
      var i :| 0 <= i < |gateways| && Supported(gateways[i]) && key == K8sKey(vs.ns, gateways[i]);
      assert gateways[i] in gateways;
      var j :| 0 <= j < |vs.gateways| && vs.gateways[j] == gateways[i];
    }
  }

  /** So the cached path and the long one come to the same verdict and record
      the same gateways for every later policy of the same VirtualService. */
  lemma CachedPathIsFaithful(steps: seq<Step>, cluster: Cluster, vs: VirtualService, policy: int)
    requires Snapshot(steps + [ForVirtualService(vs, policy, cluster)], cluster)
    requires After(steps).Some? && Cached(After(steps).value.init, vs)
    ensures After(steps).value.init[vs.Id()] == Recorded(vs, ValidOnes(cluster, vs.ns, vs.gateways))
  {
    var all := steps + [ForVirtualService(vs, policy, cluster)];
    assert Snapshot(steps, cluster) by {
      forall i | 0 <= i < |steps| ensures steps[i] == all[i] {}
    }
    CachedEqualsRecomputed(steps, cluster, vs.Id());
    var r := After(steps).value.init[vs.Id()];
    var i :| 0 <= i < |steps| && steps[i].ForVirtualService? && steps[i].vs == r.vs && r.vs.Id() == vs.Id();
    assert all[i] == steps[i] && all[|steps|] == ForVirtualService(vs, policy, cluster);
  }

  /** A change of a VirtualService that any listed policy targets is noticed too,
      whatever became of the policy. */
  lemma {:induction false} EveryTargetIsIndexed(steps: seq<Step>, i: nat)
    requires i < |steps|
    ensures steps[i].ForVirtualService? ==>
      Lists(Targets(steps), steps[i].vs.ns + "/" + steps[i].vs.name, steps[i].policy)
    ensures steps[i].Unresolved? ==>
      Lists(Targets(steps), steps[i].target.ns + "/" + steps[i].target.name, steps[i].policy)
  {
    if i + 1 < |steps| {
      EveryTargetIsIndexed(steps[..|steps| - 1], i);
    }
  }
}
