/** The Nacos registry, from first fetch to Stop, and the store of service
    entries it fills. */
module NacosRegistry {
  import opened Options
  import opened Strings

  // ------------------------------------------------------------------ the store

  /** An opaque service entry. */
  type ServiceEntry = int

  class ServiceEntryStore {
    var entries: map<string, ServiceEntry>

    /** What `FromServiceRegistry` was handed, oldest first. */
    ghost var published: seq<map<string, ServiceEntry>>

    /** The last snapshot is the store's content, and no two in a row are equal. */
    ghost predicate Valid()
      reads this
    {
      && entries == (if published == [] then map[] else published[|published| - 1])
      && (published != [] ==> published[0] != map[])
      && forall i | 0 < i < |published| :: published[i] != published[i - 1]
    }

    constructor ()
      ensures Valid() && entries == map[] && published == []
    {
      entries := map[];
      published := [];
    }

    method Update(service: string, se: ServiceEntry)
      requires Valid()
      modifies this
      ensures Valid() && entries == old(entries)[service := se]
      ensures published == old(published) + (if entries == old(entries) then [] else [entries])
    {
      if service in entries && entries[service] == se {
        assert entries == entries[service := se];
        return;
      }
      ghost var before := entries;
      entries := entries[service := se];
      assert entries != before by { assert service in entries && entries[service] == se; }
      published := published + [entries];
    }

    method Delete(service: string)
      requires Valid()
      modifies this
      ensures Valid() && entries == old(entries) - {service}
      ensures published == old(published) + (if entries == old(entries) then [] else [entries])
    {
      if service !in entries {
        assert entries == entries - {service};
        return;
      }
      ghost var before := entries;
      entries := entries - {service};
      assert entries != before by { assert service !in entries; }
      published := published + [entries];
    }
  }

  // ------------------------------------------------------- services and callbacks

  datatype Service = Service(group: string, name: string)

  /** A subscription is held by the client it was made with: Reload makes a new one. */
  datatype Subscription = Subscription(client: nat, service: Service)

  /** What a callback delivers: hosts, no hosts, or another error. */
  datatype Event = Event(subscription: Subscription, content: Content)

  datatype Content = Hosts(se: ServiceEntry) | NoHosts | Failed

  /** How clients answer while one operation runs: whether a new one can be made,
      what it fetches, and which calls fail. */
  datatype World = World(connects: bool, fetched: Option<set<Service>>, subscribeFails: set<Service>,
                         unsubscribeFails: set<Service>)

  function Replaced(s: string): string
  {
    seq(|s|, i requires 0 <= i < |s| => if s[i] == '_' then '-' else s[i])
  }

  /** `getServiceEntryKey`: the keys of one registry in one Nacos namespace. */
  datatype Naming = Naming(namespace: string, registry: string) {
    function Key(s: Service): string {
      Lower(s.name + "." + Replaced(s.group + "." + namespace + "." + registry + ".nacos"))
    }

    function Keys(s: set<Service>): set<string> {
      set x | x in s :: Key(x)
    }
  }

  function Made(client: nat, services: set<Service>): set<Subscription> {
    set s | s in services :: Subscription(client, s)
  }

  function ServicesOf(live: set<Subscription>): set<Service> {
    set s | s in live :: s.service
  }

  // ------------------------------------------ what the operations do, callbacks apart

  /** The registry's sets, its current client, and the subscriptions that still
      call back, with whatever client. */
  datatype Control = Control(client: nat, watching: set<Service>, softDeleted: set<Service>, live: set<Subscription>)

  const IDLE := Control(0, {}, {}, {})

  datatype Operation = DoRefresh(w: World) | DoReload(w: World)

  function Started(w: World): Control {
    if !w.connects then IDLE
    else if w.fetched.None? then Control(1, {}, {}, {})
    else Control(1, w.fetched.value - w.subscribeFails, {}, Made(1, w.fetched.value - w.subscribeFails))
  }

  /** The client an operation talks to. */
  function ClientOf(c: Control, op: Operation): nat {
    if op.DoReload? && op.w.connects then c.client + 1 else c.client
  }

  predicate Succeeds(op: Operation) {
    op.w.fetched.Some? && (op.DoReload? ==> op.w.connects)
  }

  function Subscribes(c: Control, op: Operation): set<Subscription> {
    if !Succeeds(op) then {}
    else Made(ClientOf(c, op), op.w.fetched.value - (if op.DoRefresh? then c.watching else {}) - op.w.subscribeFails)
  }

  /** What it unsubscribes, if it is there: with the client it talks to. */
  function Unsubscribes(c: Control, op: Operation): set<Subscription> {
    if !Succeeds(op) then {}
    else Made(ClientOf(c, op), c.watching - (if op.DoRefresh? then op.w.fetched.value else {}) - op.w.unsubscribeFails)
  }

  function Next(c: Control, op: Operation): Control {
    var live := (c.live - Unsubscribes(c, op)) + Subscribes(c, op);
    if !Succeeds(op) then c.(client := ClientOf(c, op))
    else Control(ClientOf(c, op), op.w.fetched.value,
                 if op.DoRefresh? then c.softDeleted + (c.watching - op.w.fetched.value) else {}, live)
  }

  function After(start: World, ops: seq<Operation>): Control {
    if ops == [] then Started(start) else Next(After(start, ops[..|ops| - 1]), ops[|ops| - 1])
  }

  // --------------------------------------------------------- the store over a life

  type Entries = map<string, ServiceEntry>

  /** What can happen to the store: a callback, heard while the registry runs or
      after Stop; or the registry drops a service. */
  datatype Change = Heard(e: Event, running: bool) | Dropped(s: Service)

  function Changed(naming: Naming, entries: Entries, c: Change): Entries {
    match c
    case Dropped(s) => entries - {naming.Key(s)}
    case Heard(e, running) =>
      match e.content
      case Failed => entries
      case NoHosts => entries - {naming.Key(e.subscription.service)}
      case Hosts(se) => if running then entries[naming.Key(e.subscription.service) := se] else entries
  }

  function Replay(naming: Naming, log: seq<Change>): Entries {
    if log == [] then map[] else Changed(naming, Replay(naming, log[..|log| - 1]), log[|log| - 1])
  }

  lemma ReplaySnoc(naming: Naming, log: seq<Change>, c: Change)
    ensures Replay(naming, log + [c]) == Changed(naming, Replay(naming, log), c)
  {
    assert (log + [c])[..|log|] == log;
  }

  predicate Allowed(c: Change, sources: set<Subscription>, drops: set<Service>, running: bool) {
    match c
    case Heard(e, r) => e.subscription in sources && r == running
    case Dropped(s) => s in drops
  }

  /** From `before` on, only these subscriptions were heard, and exactly these
      services were dropped. */
  ghost predicate Extends(now: seq<Change>, before: seq<Change>, sources: set<Subscription>, drops: set<Service>,
                          running: bool)
  {
    && before <= now
    && (forall i | |before| <= i < |now| :: Allowed(now[i], sources, drops, running))
    && (forall s | s in drops :: DroppedSince(now, |before|, s))
  }

  ghost predicate DroppedSince(log: seq<Change>, from: nat, s: Service) {
    exists i :: from <= i < |log| && log[i] == Dropped(s)
  }

  lemma ExtendsItself(log: seq<Change>, sources: set<Subscription>, running: bool)
    ensures Extends(log, log, sources, {}, running)
  {
  }

  lemma ExtendsThen(c: seq<Change>, b: seq<Change>, a: seq<Change>, sources: set<Subscription>,
                    d: set<Service>, e: set<Service>, running: bool)
    requires Extends(b, a, sources, d, running) && Extends(c, b, sources, e, running)
    ensures Extends(c, a, sources, d + e, running)
  {
    forall i | |a| <= i < |c| ensures Allowed(c[i], sources, d + e, running) {
      assert i < |b| ==> c[i] == b[i];
    }
    forall s | s in d + e ensures DroppedSince(c, |a|, s) {
      if s in d {
        var i :| |a| <= i < |b| && b[i] == Dropped(s);
        assert c[i] == b[i];
      } else {
        assert DroppedSince(c, |b|, s);
      }
    }
  }

  lemma ExtendsQuietly(c: seq<Change>, b: seq<Change>, a: seq<Change>, sources: set<Subscription>,
                       d: set<Service>, running: bool)
    requires Extends(b, a, sources, d, running) && Extends(c, b, sources, {}, running)
    ensures Extends(c, a, sources, d, running)
  {
    ExtendsThen(c, b, a, sources, d, {}, running);
    assert d + {} == d;
  }

  lemma ExtendsByOne(log: seq<Change>, c: Change, sources: set<Subscription>, running: bool)
    requires Allowed(c, sources, if c.Dropped? then {c.s} else {}, running)
    ensures Extends(log + [c], log, sources, if c.Dropped? then {c.s} else {}, running)
  {
    assert (log + [c])[|log|] == c;
  }

  /** A callback said that the service with this key has no hosts. */
  ghost predicate SaidEmpty(naming: Naming, log: seq<Change>, from: nat, k: string) {
    exists i :: from <= i < |log| && EmptiedBy(naming, log[i], k)
  }

  predicate EmptiedBy(naming: Naming, c: Change, k: string) {
    c.Heard? && c.e.content.NoHosts? && naming.Key(c.e.subscription.service) == k
  }

  /** An entry stays unless a callback empties it or the registry drops it; and
      after Stop its content stays, too. */
  lemma EntriesStay(naming: Naming, now: seq<Change>, before: seq<Change>, sources: set<Subscription>,
                    drops: set<Service>, running: bool, k: string)
    requires Extends(now, before, sources, drops, running) && k in Replay(naming, before)
    requires !SaidEmpty(naming, now, |before|, k) && k !in naming.Keys(drops)
    ensures k in Replay(naming, now)
    ensures !running ==> Replay(naming, now)[k] == Replay(naming, before)[k]
  {
    StaysBefore(naming, now, before, sources, drops, running, k, |now|);
    assert now[..|now|] == now;
  }

  lemma {:induction false} StaysBefore(naming: Naming, now: seq<Change>, before: seq<Change>,
                                       sources: set<Subscription>, drops: set<Service>, running: bool, k: string,
                                       n: nat)
    requires Extends(now, before, sources, drops, running) && k in Replay(naming, before)
    requires !SaidEmpty(naming, now, |before|, k) && k !in naming.Keys(drops)
    requires |before| <= n <= |now|
    ensures k in Replay(naming, now[..n])
    ensures !running ==> Replay(naming, now[..n])[k] == Replay(naming, before)[k]
    decreases n
  {
    if n == |before| {
      assert now[..n] == before;
    } else {
      StaysBefore(naming, now, before, sources, drops, running, k, n - 1);
      assert now[..n][..n - 1] == now[..n - 1];
      assert Allowed(now[n - 1], sources, drops, running) && !EmptiedBy(naming, now[n - 1], k);
    }
  }

  /** An entry is an old one that was not dropped, or was brought by a callback heard while running. */
  lemma {:induction false} EntriesFrom(naming: Naming, now: seq<Change>, before: seq<Change>,
                                       sources: set<Subscription>, drops: set<Service>, running: bool, n: nat,
                                       k: string)
    requires Extends(now, before, sources, drops, running) && |before| <= n <= |now|
    requires k in Replay(naming, now[..n])
    ensures (running && k in naming.Keys(ServicesOf(sources)))
      || (k in Replay(naming, before) && forall i | |before| <= i < n && now[i].Dropped? :: naming.Key(now[i].s) != k)
    decreases n
  {
    if n == |before| {
      assert now[..n] == before;
    } else {
      assert now[..n][..n - 1] == now[..n - 1];
      assert Allowed(now[n - 1], sources, drops, running);
      if k in Replay(naming, now[..n - 1]) {
        EntriesFrom(naming, now, before, sources, drops, running, n - 1, k);
      } else {
        assert now[n - 1].e.subscription.service in ServicesOf(sources);
      }
    }
  }

  /** After Stop nothing is added or changed. */
  lemma {:induction false} EntriesShrink(naming: Naming, now: seq<Change>, before: seq<Change>,
                                         sources: set<Subscription>, drops: set<Service>, n: nat)
    requires Extends(now, before, sources, drops, false) && |before| <= n <= |now|
    ensures forall k | k in Replay(naming, now[..n]) ::
      k in Replay(naming, before) && Replay(naming, now[..n])[k] == Replay(naming, before)[k]
    decreases n
  {
    if n == |before| {
      assert now[..n] == before;
    } else {
      EntriesShrink(naming, now, before, sources, drops, n - 1);
      assert now[..n][..n - 1] == now[..n - 1];
      assert Allowed(now[n - 1], sources, drops, false);
    }
  }

  lemma EntriesWithin(naming: Naming, now: seq<Change>, before: seq<Change>, sources: set<Subscription>,
                      drops: set<Service>, running: bool)
    requires Extends(now, before, sources, drops, running)
    ensures Replay(naming, now).Keys <=
      (Replay(naming, before).Keys - naming.Keys(drops)) + (if running then naming.Keys(ServicesOf(sources)) else {})
  {
    assert now[..|now|] == now;
    forall k | k in Replay(naming, now)
      ensures k in (Replay(naming, before).Keys - naming.Keys(drops))
        + (if running then naming.Keys(ServicesOf(sources)) else {})
    {
      EntriesFrom(naming, now, before, sources, drops, running, |now|, k);
      if k in naming.Keys(drops) {
        var s :| s in drops && naming.Key(s) == k;
        assert DroppedSince(now, |before|, s);
        var i :| |before| <= i < |now| && now[i] == Dropped(s);
      }
    }
  }

  // ------------------------------------------------------- what operations may do

  /** A successful Reload drops what it no longer fetches; Refresh drops nothing. */
  function Deletes(c: Control, op: Operation): set<Service> {
    if op.DoReload? && Succeeds(op) then (c.softDeleted + c.watching) - op.w.fetched.value else {}
  }

  /** Who can be heard while the operation runs, and until the next one begins. */
  function Heardable(c: Control, op: Operation): set<Subscription> { c.live + Subscribes(c, op) }

  /** A life up to Stop: the log after Start, and after each operation. */
  ghost predicate IsHistory(start: World, ops: seq<Operation>, logs: seq<seq<Change>>) {
    && |logs| == |ops| + 1
    && Extends(logs[0], [], Started(start).live, {}, true)
    && forall i | 0 <= i < |ops| :: Follows(start, ops, logs, i)
  }

  ghost predicate Follows(start: World, ops: seq<Operation>, logs: seq<seq<Change>>, i: nat)
    requires i < |ops| && |logs| == |ops| + 1
  {
    var c := After(start, ops[..i]);
    Extends(logs[i + 1], logs[i], Heardable(c, ops[i]), Deletes(c, ops[i]), true)
  }

  /** What Stop leaves, unless a late callback empties it. */
  function Left(naming: Naming, start: World, ops: seq<Operation>, log: seq<Change>): Entries {
    var c := After(start, ops);
    Replay(naming, log) - naming.Keys(c.watching + c.softDeleted)
  }

  /** Whoever still calls back writes under the key of a service that is watched or soft-deleted. */
  ghost predicate Accounted(naming: Naming, c: Control) {
    forall s | s in c.live :: naming.Key(s.service) in naming.Keys(c.watching + c.softDeleted)
  }

  function Owners(c: Control): set<Service> { c.watching + c.softDeleted + ServicesOf(c.live) }

  /** Nothing leaves the owners but what is dropped, or still calls back. */
  lemma NextOwners(c: Control, op: Operation)
    ensures Owners(c) - Deletes(c, op) <= Owners(Next(c, op))
  {
    var d := Next(c, op);
    forall s | s in Owners(c) && s !in Deletes(c, op) ensures s in Owners(d) {
      if s in ServicesOf(c.live) && Succeeds(op) {
        var x :| x in c.live && x.service == s;
        assert x in d.live || x in Unsubscribes(c, op);
      }
    }
  }

  /** Whoever is heard during an operation is an owner after it. */
  lemma HeardAreOwners(c: Control, op: Operation)
    requires forall x | x in c.live :: x.client <= c.client
    ensures ServicesOf(Heardable(c, op)) <= Owners(Next(c, op))
  {
    var d := Next(c, op);
    forall s | s in ServicesOf(Heardable(c, op)) ensures s in Owners(d) {
      var x :| x in Heardable(c, op) && x.service == s;
      if x !in d.live {
        assert x in Unsubscribes(c, op);
      }
    }
  }

  lemma ClientsStay(c: Control, op: Operation)
    requires forall x | x in c.live :: x.client <= c.client
    ensures forall x | x in Next(c, op).live :: x.client <= Next(c, op).client
  {
  }

  lemma KeysMinus(naming: Naming, a: set<Service>, b: set<Service>)
    ensures naming.Keys(a) - naming.Keys(b) <= naming.Keys(a - b)
  {
  }

  lemma KeysGrow(naming: Naming, a: set<Service>, b: set<Service>)
    requires a <= b
    ensures naming.Keys(a) <= naming.Keys(b)
  {
  }

  /** One operation: if the entries belonged to owners, they still do. */
  lemma OwnedAfter(naming: Naming, c: Control, op: Operation, now: seq<Change>, before: seq<Change>, running: bool)
    requires forall x | x in c.live :: x.client <= c.client
    requires Replay(naming, before).Keys <= naming.Keys(Owners(c))
    requires Extends(now, before, Heardable(c, op), Deletes(c, op), running)
    ensures Replay(naming, now).Keys <= naming.Keys(Owners(Next(c, op)))
  {
    hide Replay;
    hide Extends;
    EntriesWithin(naming, now, before, Heardable(c, op), Deletes(c, op), running);
    KeysMinus(naming, Owners(c), Deletes(c, op));
    NextOwners(c, op);
    HeardAreOwners(c, op);
    KeysGrow(naming, Owners(c) - Deletes(c, op), Owners(Next(c, op)));
    KeysGrow(naming, ServicesOf(Heardable(c, op)), Owners(Next(c, op)));
  }

  lemma EarlierHistory(start: World, ops: seq<Operation>, logs: seq<seq<Change>>)
    requires ops != [] && IsHistory(start, ops, logs)
    ensures IsHistory(start, ops[..|ops| - 1], logs[..|ops|])
    ensures var n := |ops| - 1; var c := After(start, ops[..n]);
      Extends(logs[n + 1], logs[n], Heardable(c, ops[n]), Deletes(c, ops[n]), true)
  {
    hide Extends;
    hide After;
    var n := |ops| - 1;
    var earlier, upTo := ops[..n], logs[..n + 1];
    assert Follows(start, ops, logs, n);
    forall i | 0 <= i < n ensures Follows(start, earlier, upTo, i) {
      assert Follows(start, ops, logs, i);
      assert earlier[..i] == ops[..i] && earlier[i] == ops[i];
    }
  }

  lemma {:induction false} EntriesAreOwned(naming: Naming, start: World, ops: seq<Operation>, logs: seq<seq<Change>>)
    requires IsHistory(start, ops, logs)
    ensures Replay(naming, logs[|ops|]).Keys <= naming.Keys(Owners(After(start, ops)))
  {
    var n := |ops|;
    if n == 0 {
      EntriesWithin(naming, logs[0], [], Started(start).live, {}, true);
      KeysGrow(naming, ServicesOf(Started(start).live), Owners(After(start, ops)));
    } else {
      hide IsHistory;
      hide Extends;
      hide Replay;
      EarlierHistory(start, ops, logs);
      EntriesAreOwned(naming, start, ops[..n - 1], logs[..n]);
      ClientsUpTo(start, ops[..n - 1]);
      OwnedAfter(naming, After(start, ops[..n - 1]), ops[n - 1], logs[n], logs[n - 1], true);
    }
  }

  /** Nothing is left behind, whatever the callbacks do, exactly when every
      subscription that still calls back is for a service known at Stop. */
  lemma NothingLeftIff(naming: Naming, start: World, ops: seq<Operation>)
    ensures (forall logs | IsHistory(start, ops, logs) :: Left(naming, start, ops, logs[|ops|]) == map[]) <==>
            Accounted(naming, After(start, ops))
  {
    hide Replay;
    hide After;
    hide Extends;
    hide Follows;
    var c := After(start, ops);
    if Accounted(naming, c) {
      forall logs | IsHistory(start, ops, logs) ensures Left(naming, start, ops, logs[|ops|]) == map[] {
        EntriesAreOwned(naming, start, ops, logs);
        AccountedKeys(naming, c);
      }
    } else {
      var s :| s in c.live && naming.Key(s.service) !in naming.Keys(c.watching + c.softDeleted);
      var logs := LastWord(naming, start, ops, s, 0);
      assert naming.Key(s.service) in Left(naming, start, ops, logs[|ops|]);
    }
  }

  lemma AccountedKeys(naming: Naming, c: Control)
    requires Accounted(naming, c)
    ensures naming.Keys(Owners(c)) <= naming.Keys(c.watching + c.softDeleted)
  {
    forall k | k in naming.Keys(Owners(c)) ensures k in naming.Keys(c.watching + c.softDeleted) {
      var s :| s in Owners(c) && naming.Key(s) == k;
      if s !in c.watching + c.softDeleted {
        var x :| x in c.live && x.service == s;
      }
    }
  }

  /** A life in which no callback is heard. */
  lemma {:induction false} SilentHistory(start: World, ops: seq<Operation>) returns (logs: seq<seq<Change>>)
    ensures IsHistory(start, ops, logs)
  {
    if ops == [] {
      logs := [[]];
    } else {
      var n := |ops| - 1;
      var c := After(start, ops[..n]);
      var earlier := SilentHistory(start, ops[..n]);
      var more := DropAll(earlier[n], Deletes(c, ops[n]), Heardable(c, ops[n]));
      logs := earlier + [more];
      hide Extends;
      hide After;
      forall i | 0 <= i < |ops| ensures Follows(start, ops, logs, i) {
        if i < n {
          assert Follows(start, ops[..n], earlier, i);
          assert ops[..n][..i] == ops[..i] && ops[..n][i] == ops[i];
        }
      }
    }
  }

  lemma DropAll(log: seq<Change>, drops: set<Service>, sources: set<Subscription>) returns (more: seq<Change>)
    ensures Extends(more, log, sources, drops, true)
    decreases drops
  {
    if drops == {} {
      more := log;
    } else {
      var s :| s in drops;
      var most := DropAll(log, drops - {s}, sources);
      more := most + [Dropped(s)];
      ExtendsByOne(most, Dropped(s), sources, true);
      ExtendsThen(more, most, log, sources, drops - {s}, {s}, true);
      assert drops - {s} + {s} == drops;
    }
  }

  /** Silence, and at the very end one update from s. */
  lemma LastWord(naming: Naming, start: World, ops: seq<Operation>, s: Subscription, se: ServiceEntry)
    returns (logs: seq<seq<Change>>)
    requires s in After(start, ops).live
    ensures IsHistory(start, ops, logs)
    ensures naming.Key(s.service) in Replay(naming, logs[|ops|])
  {
    var silent := SilentHistory(start, ops);
    var n := |ops|;
    var word := Heard(Event(s, Hosts(se)), true);
    logs := silent[n := silent[n] + [word]];
    ReplaySnoc(naming, silent[n], word);
    if n == 0 {
      ExtendsByOne(silent[0], word, Started(start).live, true);
      ExtendsQuietly(logs[0], silent[0], [], Started(start).live, {}, true);
    } else {
      var c := After(start, ops[..n - 1]);
      assert Follows(start, ops, silent, n - 1);
      ExtendsByOne(silent[n], word, Heardable(c, ops[n - 1]), true);
      ExtendsQuietly(logs[n], silent[n], silent[n - 1], Heardable(c, ops[n - 1]), Deletes(c, ops[n - 1]), true);
      hide Extends;
      forall i | 0 <= i < n ensures Follows(start, ops, logs, i) {
        assert Follows(start, ops, silent, i);
      }
    }
  }

  // ------------------------------------------------ which subscriptions stay behind

  /** Operation i - 1 (Start, if i is 0) makes the subscription. */
  ghost predicate MadeAt(start: World, ops: seq<Operation>, s: Subscription, i: int) {
    && 0 <= i <= |ops|
    && s in (if i == 0 then Started(start).live else Subscribes(After(start, ops[..i - 1]), ops[i - 1]))
  }

  ghost predicate UndoneAt(start: World, ops: seq<Operation>, s: Subscription, i: int) {
    0 < i <= |ops| && s in Unsubscribes(After(start, ops[..i - 1]), ops[i - 1])
  }

  /** A subscription calls back exactly if it was made, and not undone since with its own client. */
  lemma {:induction false} LiveIff(start: World, ops: seq<Operation>, s: Subscription)
    ensures s in After(start, ops).live <==>
            exists i :: MadeAt(start, ops, s, i) && forall j | i < j <= |ops| :: !UndoneAt(start, ops, s, j)
  {
    var n := |ops|;
    if n == 0 {
      assert MadeAt(start, ops, s, 0) <==> s in After(start, ops).live;
    } else {
      var earlier := ops[..n - 1];
      LiveIff(start, earlier, s);
      forall i | i < n ensures MadeAt(start, ops, s, i) <==> MadeAt(start, earlier, s, i) {
        if 0 < i { assert earlier[..i - 1] == ops[..i - 1] && earlier[i - 1] == ops[i - 1]; }
      }
      forall i | i < n ensures UndoneAt(start, ops, s, i) <==> UndoneAt(start, earlier, s, i) {
        if 0 < i { assert earlier[..i - 1] == ops[..i - 1] && earlier[i - 1] == ops[i - 1]; }
      }
      LiveStep(start, ops, s);
    }
  }

  lemma LiveStep(start: World, ops: seq<Operation>, s: Subscription)
    requires ops != []
    ensures var n := |ops|;
      s in After(start, ops).live <==>
      MadeAt(start, ops, s, n) || (s in After(start, ops[..n - 1]).live && !UndoneAt(start, ops, s, n))
  {
    var c := After(start, ops[..|ops| - 1]);
  }

  /** The registry leaves nothing behind, whatever the callbacks do, exactly when
      every service that is neither watched nor soft-deleted at Stop (nor shares
      its key with one) was unsubscribed with each client that subscribed it. */
  lemma RegistryLeavesNothingIff(naming: Naming, start: World, ops: seq<Operation>)
    ensures (forall logs | IsHistory(start, ops, logs) :: Left(naming, start, ops, logs[|ops|]) == map[]) <==>
            var c := After(start, ops);
            forall s, i | MadeAt(start, ops, s, i)
                && naming.Key(s.service) !in naming.Keys(c.watching + c.softDeleted) ::
              exists j :: i < j <= |ops| && UndoneAt(start, ops, s, j)
  {
    hide Left;
    hide Extends;
    hide Follows;
    hide After;
    hide MadeAt;
    hide UndoneAt;
    NothingLeftIff(naming, start, ops);
    forall s: Subscription ensures s in After(start, ops).live <==>
      exists i :: MadeAt(start, ops, s, i) && forall j | i < j <= |ops| :: !UndoneAt(start, ops, s, j)
    {
      LiveIff(start, ops, s);
    }
  }

  lemma {:induction false} ClientsUpTo(start: World, ops: seq<Operation>)
    ensures forall s | s in After(start, ops).live :: s.client <= After(start, ops).client
  {
    if ops != [] {
      ClientsUpTo(start, ops[..|ops| - 1]);
    }
  }

  /** Reload unsubscribes with the client it has just made, so what was subscribed
      before it calls back for ever. */
  lemma {:induction false} ReloadUndoesNothing(start: World, ops: seq<Operation>, w: World, more: seq<Operation>,
                                               s: Subscription)
    requires w.connects && s in After(start, ops).live
    ensures s in After(start, ops + [DoReload(w)] + more).live
  {
    var all := ops + [DoReload(w)] + more;
    ClientsUpTo(start, ops);
    if more == [] {
      assert all[..|all| - 1] == ops;
    } else {
      assert all[..|all| - 1] == ops + [DoReload(w)] + more[..|more| - 1];
      ReloadUndoesNothing(start, ops, w, more[..|more| - 1], s);
      ClientGrows(start, ops, w, more[..|more| - 1]);
    }
  }

  lemma {:induction false} ClientGrows(start: World, ops: seq<Operation>, w: World, more: seq<Operation>)
    requires w.connects
    ensures After(start, ops + [DoReload(w)] + more).client > After(start, ops).client
  {
    var all := ops + [DoReload(w)] + more;
    if more == [] {
      assert all[..|all| - 1] == ops;
    } else {
      assert all[..|all| - 1] == ops + [DoReload(w)] + more[..|more| - 1];
      ClientGrows(start, ops, w, more[..|more| - 1]);
    }
  }

  /** Without a Reload nothing is ever left. */
  lemma {:induction false} RefreshesAreAccounted(naming: Naming, start: World, ops: seq<Operation>)
    requires forall i | 0 <= i < |ops| :: ops[i].DoRefresh?
    ensures Accounted(naming, After(start, ops))
    ensures ServicesOf(After(start, ops).live) <= After(start, ops).watching + After(start, ops).softDeleted
  {
    if ops != [] {
      var b := After(start, ops[..|ops| - 1]);
      RefreshesAreAccounted(naming, start, ops[..|ops| - 1]);
      var c := After(start, ops);
      forall s | s in c.live ensures s.service in c.watching + c.softDeleted {
        assert s in b.live ==> s.service in ServicesOf(b.live);
      }
    }
    forall s | s in After(start, ops).live ensures s.service in ServicesOf(After(start, ops).live) {}
  }

  /** Start finds a service, Reload does not, every call succeeds; then the old
      callback speaks, and Stop leaves its entry in the store. */
  lemma StaleCallbackOutlivesStop(naming: Naming, a: Service, se: ServiceEntry)
    ensures var start := World(true, Some({a}), {}, {});
      var ops := [DoReload(World(true, Some({}), {}, {}))];
      var log := [Dropped(a), Heard(Event(Subscription(1, a), Hosts(se)), true)];
      IsHistory(start, ops, [[], log]) && Left(naming, start, ops, log) == map[naming.Key(a) := se]
  {
    var start := World(true, Some({a}), {}, {});
    var reload := DoReload(World(true, Some({}), {}, {}));
    var ops := [reload];
    var stale := Subscription(1, a);
    var word := Heard(Event(stale, Hosts(se)), true);
    var log := [Dropped(a), word];
    assert ops[..0] == [] && log[..1] == [Dropped(a)] && log[..1][..0] == [];
    assert After(start, []) == Control(1, {a}, {}, Made(1, {a}));
    assert stale in Made(1, {a});
    var c := After(start, ops[..0]);
    assert Deletes(c, reload) == {a} && stale in Heardable(c, reload);
    assert log[0] == Dropped(a);
    assert Follows(start, ops, [[], log], 0);
    assert Replay(naming, log[..1]) == map[];
    assert Replay(naming, log) == map[naming.Key(a) := se];
    assert After(start, ops).watching + After(start, ops).softDeleted == {};
  }

  // --------------------------------------------------------------- the registry

  class Nacos {
    const naming: Naming
    const store: ServiceEntryStore
    var client: nat
    var watching: set<Service>
    var softDeleted: set<Service>
    var stopped: bool

    /** The clients' side: the subscriptions that still call back. */
    var live: set<Subscription>

    /** Every callback, and every service the registry dropped, in order. */
    ghost var log: seq<Change>

    function State(): Control
      reads this
    {
      Control(client, watching, softDeleted, live)
    }

    /** The store holds what its history says. */
    ghost predicate Replayed()
      reads `log, store
    {
      store.Valid() && store.entries == Replay(naming, log)
    }

    /** Only services that are watched, were watched, or still call back have entries. */
    ghost predicate Valid()
      reads this, store
    {
      && Replayed() && store.entries.Keys <= naming.Keys(Owners(State()))
      && forall s | s in live :: s.client <= client
    }

    constructor (naming: Naming, store: ServiceEntryStore)
      requires store.Valid() && store.entries == map[]
      ensures Valid() && !stopped && State() == IDLE && log == []
      ensures this.naming == naming && this.store == store
    {
      this.naming, this.store := naming, store;
      client, watching, softDeleted, live := 0, {}, {}, {};
      stopped, log := false, [];
    }

    /** The callback: an empty service is deleted even after Stop, an update is not made then. */
    method Callback(e: Event)
      requires Replayed()
      modifies store, `log
      ensures Replayed() && log == old(log) + [Heard(e, !stopped)]
      ensures var k := naming.Key(e.subscription.service);
        store.entries == match e.content
          case Failed => old(store.entries)
          case NoHosts => old(store.entries) - {k}
          case Hosts(se) => if stopped then old(store.entries) else old(store.entries)[k := se]
    {
      ReplaySnoc(naming, log, Heard(e, !stopped));
      log := log + [Heard(e, !stopped)];
      match e.content {
        case Failed =>
        case NoHosts => store.Delete(naming.Key(e.subscription.service));
        case Hosts(se) =>
          if !stopped {
            store.Update(naming.Key(e.subscription.service), se);
          }
      }
    }

    /** Any callbacks the clients still make, between any two steps of an operation. */
    method Interleave(ghost sources: set<Subscription>)
      requires Replayed() && live <= sources
      modifies store, `log
      ensures Replayed() && Extends(log, old(log), sources, {}, !stopped)
    {
      hide Replayed;
      hide Extends;
      var events: seq<Event> := *;
      ExtendsItself(log, sources, !stopped);
      for i := 0 to |events|
        invariant Replayed() && Extends(log, old(log), sources, {}, !stopped)
      {
        if events[i].subscription in live {
          ghost var before := log;
          Callback(events[i]);
          ExtendsByOne(before, Heard(events[i], !stopped), sources, !stopped);
          ExtendsQuietly(log, before, old(log), sources, {}, !stopped);
        }
      }
    }

    method Subscribe(s: Service, fails: bool)
      modifies `live
      ensures live == old(live) + (if fails then {} else {Subscription(client, s)})
    {
      if !fails {
        live := live + {Subscription(client, s)};
      }
    }

    /** Only a subscription made with this client is reached; a failed call leaves it in place. */
    method Unsubscribe(s: Service, fails: bool)
      modifies `live
      ensures live == old(live) - (if fails then {} else {Subscription(client, s)})
    {
      if !fails {
        live := live - {Subscription(client, s)};
      }
    }

    method DeleteEntry(s: Service)
      requires Replayed()
      modifies store, `log
      ensures Replayed() && log == old(log) + [Dropped(s)]
      ensures store.entries == old(store.entries) - {naming.Key(s)}
    {
      ReplaySnoc(naming, log, Dropped(s));
      log := log + [Dropped(s)];
      store.Delete(naming.Key(s));
    }

    method RemoveService(s: Service, fails: bool, ghost sources: set<Subscription>)
      requires Replayed() && live <= sources
      modifies `live, store, `log
      ensures live == old(live) - (if fails then {} else {Subscription(client, s)})
      ensures Replayed() && Extends(log, old(log), sources, {s}, !stopped)
    {
      hide Replayed;
      hide Extends;
      Unsubscribe(s, fails);
      Interleave(sources);
      ghost var before := log;
      DeleteEntry(s);
      ExtendsByOne(before, Dropped(s), sources, !stopped);
      ExtendsThen(log, before, old(log), sources, {}, {s}, !stopped);
      assert {} + {s} == {s};
    }

    /** A service whose subscription fails is not watched, so it is retried later. */
    method Start(w: World) returns (ok: bool)
      requires Valid() && !stopped && State() == IDLE
      modifies this, store
      ensures Valid() && !stopped && State() == Started(w)
      ensures ok <==> w.connects && w.fetched.Some?
      ensures Extends(log, old(log), Started(w).live, {}, true)
    {
      hide Replayed;
      hide Extends;
      ExtendsItself(log, Started(w).live, true);
      KnowsStore();
      if !w.connects {
        return false;
      }
      client := 1;
      if w.fetched.None? {
        return false;
      }
      var fetchedServices := w.fetched.value;
      var todo := fetchedServices;
      assert fetchedServices - todo == {};
      while todo != {}
        invariant todo <= fetchedServices <= w.fetched.value
        invariant fetchedServices == w.fetched.value - (w.subscribeFails - todo)
        invariant live == Made(1, fetchedServices - todo) && client == 1
        invariant watching == softDeleted == {} && !stopped
        invariant Replayed() && Extends(log, old(log), Started(w).live, {}, true)
        decreases todo
      {
        var key :| key in todo;
        ghost var made := fetchedServices - todo;
        Subscribe(key, key in w.subscribeFails);
        if key in w.subscribeFails {
          fetchedServices := fetchedServices - {key};
        }
        todo := todo - {key};
        assert fetchedServices - todo == if key in w.subscribeFails then made else made + {key};
        MadeMore(1, made, key);
        ghost var before := log;
        assert fetchedServices - todo <= w.fetched.value - w.subscribeFails;
        Interleave(Started(w).live);
        ExtendsQuietly(log, before, old(log), Started(w).live, {}, true);
      }
      watching := fetchedServices;
      assert fetchedServices - todo == fetchedServices;
      OwnedAtStart(w, old(log));
      ok := true;
    }

    lemma OwnedAtStart(w: World, before: seq<Change>)
      requires Replayed() && State() == Started(w) && Extends(log, before, Started(w).live, {}, true)
      requires Replay(naming, before).Keys <= naming.Keys(Owners(IDLE))
      ensures store.entries.Keys <= naming.Keys(Owners(State()))
    {
      EntriesWithin(naming, log, before, Started(w).live, {}, true);
      KeysGrow(naming, ServicesOf(live), Owners(State()));
      assert Owners(IDLE) == {};
    }

    /** An operation's last step: what its log says, and who owns what. */
    lemma Settled(c: Control, op: Operation, before: seq<Change>)
      requires Replayed() && State() == Next(c, op)
      requires forall x | x in c.live :: x.client <= c.client
      requires Replay(naming, before).Keys <= naming.Keys(Owners(c))
      requires Extends(log, before, Heardable(c, op), Deletes(c, op), !stopped)
      ensures Valid()
      ensures forall k | k in Replay(naming, before) && k !in naming.Keys(Deletes(c, op))
          && !SaidEmpty(naming, log, |before|, k) :: k in store.entries
      ensures stopped ==> forall k | k in store.entries ::
        k in Replay(naming, before) && store.entries[k] == Replay(naming, before)[k]
    {
      ClientsStay(c, op);
      hide Next;
      hide Deletes;
      hide Heardable;
      hide Owners;
      hide Replay;
      OwnedAfter(naming, c, op, log, before, !stopped);
      if stopped {
        EntriesShrink(naming, log, before, Heardable(c, op), Deletes(c, op), |log|);
        assert log[..|log|] == log;
      }
      hide Extends;
      forall k | k in Replay(naming, before) && k !in naming.Keys(Deletes(c, op))
        && !SaidEmpty(naming, log, |before|, k) ensures k in store.entries
      {
        EntriesStay(naming, log, before, Heardable(c, op), Deletes(c, op), !stopped, k);
      }
    }

    /** `refresh`: new services are subscribed; those gone are unsubscribed and
        soft-deleted, keeping their entries. It may run once more after Stop. */
    method Refresh(w: World) returns (ok: bool)
      requires Valid()
      modifies this, store
      ensures Valid() && stopped == old(stopped)
      ensures ok <==> w.fetched.Some?
      ensures State() == Next(old(State()), DoRefresh(w))
      ensures Extends(log, old(log), Heardable(old(State()), DoRefresh(w)), {}, !stopped)
      ensures forall k | k in old(store.entries) && !SaidEmpty(naming, log, |old(log)|, k) :: k in store.entries
      ensures stopped ==> forall k | k in store.entries ::
        k in old(store.entries) && store.entries[k] == old(store.entries)[k]
    {
      hide Replayed;
      hide Extends;
      hide SaidEmpty;
      ghost var c, op, l0 := State(), DoRefresh(w), log;
      ghost var sources := Heardable(c, op);
      KnowsStore();
      Interleave(sources);
      if w.fetched.None? {
        Settled(c, op, l0);
        return false;
      }
      var fetchedServices := w.fetched.value;
      ghost var l1 := log;
      SubscribeAll(fetchedServices - watching, w.subscribeFails, sources);
      ExtendsQuietly(log, l1, l0, sources, {}, !stopped);
      var prevFetchServices := watching;
      watching := fetchedServices;
      ghost var l2 := log;
      SoftDelete(prevFetchServices - fetchedServices, w.unsubscribeFails, sources);
      ExtendsQuietly(log, l2, l0, sources, {}, !stopped);
      OrderMatters(old(live), Made(client, fetchedServices - prevFetchServices - w.subscribeFails),
                   Made(client, prevFetchServices - fetchedServices - w.unsubscribeFails));
      Settled(c, op, l0);
      ok := true;
    }

    lemma KnowsStore()
      requires Replayed()
      ensures store.Valid() && store.entries == Replay(naming, log)
    {
    }

    method SubscribeAll(services: set<Service>, fails: set<Service>, ghost sources: set<Subscription>)
      requires Replayed() && live + Made(client, services - fails) <= sources
      modifies `live, store, `log
      ensures Replayed() && Extends(log, old(log), sources, {}, !stopped)
      ensures live == old(live) + Made(client, services - fails)
    {
      hide Replayed;
      hide Extends;
      ExtendsItself(log, sources, !stopped);
      var todo := services;
      while todo != {}
        invariant todo <= services && live == old(live) + Made(client, services - todo - fails)
        invariant Replayed() && Extends(log, old(log), sources, {}, !stopped)
        decreases todo
      {
        var key :| key in todo;
        Subscribe(key, key in fails);
        ghost var before := log;
        assert key !in fails ==> Subscription(client, key) in Made(client, services - fails);
        Interleave(sources);
        ExtendsQuietly(log, before, old(log), sources, {}, !stopped);
        todo := todo - {key};
      }
    }

    method SoftDelete(services: set<Service>, fails: set<Service>, ghost sources: set<Subscription>)
      requires Replayed() && live <= sources
      modifies `live, `softDeleted, store, `log
      ensures Replayed() && Extends(log, old(log), sources, {}, !stopped)
      ensures live == old(live) - Made(client, services - fails) && softDeleted == old(softDeleted) + services
    {
      hide Replayed;
      hide Extends;
      ExtendsItself(log, sources, !stopped);
      var todo := services;
      while todo != {}
        invariant todo <= services && live == old(live) - Made(client, services - todo - fails)
        invariant softDeleted == old(softDeleted) + (services - todo)
        invariant Replayed() && Extends(log, old(log), sources, {}, !stopped)
        decreases todo
      {
        var key :| key in todo;
        Unsubscribe(key, key in fails);
        ghost var before := log;
        Interleave(sources);
        ExtendsQuietly(log, before, old(log), sources, {}, !stopped);
        softDeleted := softDeleted + {key};
        todo := todo - {key};
      }
    }

    /** `Reload`. Once it succeeds only watched services, and those still called
        back by an earlier client, have entries; and all that was neither dropped
        nor emptied has. */
    method Reload(w: World) returns (ok: bool)
      requires Valid() && !stopped
      modifies this, store
      ensures Valid() && !stopped
      ensures ok <==> w.connects && w.fetched.Some?
      ensures State() == Next(old(State()), DoReload(w))
      ensures var gone := if ok then (old(softDeleted) + old(watching)) - w.fetched.value else {};
        && Extends(log, old(log), Heardable(old(State()), DoReload(w)), gone, true)
        && forall k | k in old(store.entries) && k !in naming.Keys(gone) && !SaidEmpty(naming, log, |old(log)|, k) ::
             k in store.entries
    {
      hide Replayed;
      hide Extends;
      hide SaidEmpty;
      hide ServicesOf;
      ghost var c, op, l0 := State(), DoReload(w), log;
      ghost var sources := Heardable(c, op);
      KnowsStore();
      Interleave(sources);
      if !w.connects {
        Settled(c, op, l0);
        return false;
      }
      client := client + 1;
      if w.fetched.None? {
        Settled(c, op, l0);
        return false;
      }
      var fetchedServices := w.fetched.value;
      ghost var l1 := log;
      ForgetSoftDeleted(fetchedServices, sources);
      ghost var dropped := {} + (old(softDeleted) - fetchedServices);
      ExtendsThen(log, l1, l0, sources, {}, old(softDeleted) - fetchedServices, true);
      ghost var l2 := log;
      UnsubscribeAll(fetchedServices, w.unsubscribeFails, sources);
      ExtendsThen(log, l2, l0, sources, dropped, watching - fetchedServices, true);
      ghost var l3 := log;
      SubscribeAll(fetchedServices, w.subscribeFails, sources);
      dropped := dropped + (watching - fetchedServices);
      ExtendsQuietly(log, l3, l0, sources, dropped, true);
      assert dropped == (c.softDeleted + c.watching) - fetchedServices == Deletes(c, op);
      watching := fetchedServices;
      Settled(c, op, l0);
      ok := true;
    }

    method ForgetSoftDeleted(fetchedServices: set<Service>, ghost sources: set<Subscription>)
      requires Replayed() && live <= sources
      modifies `softDeleted, store, `log
      ensures Replayed() && softDeleted == {}
      ensures Extends(log, old(log), sources, old(softDeleted) - fetchedServices, !stopped)
    {
      hide Replayed;
      hide Extends;
      ExtendsItself(log, sources, !stopped);
      var todo := softDeleted;
      ghost var drops: set<Service> := {};
      while todo != {}
        invariant todo <= softDeleted && softDeleted == old(softDeleted)
        invariant drops == softDeleted - todo - fetchedServices
        invariant Replayed() && Extends(log, old(log), sources, drops, !stopped)
        decreases todo
      {
        var key :| key in todo;
        if key !in fetchedServices {
          ghost var before := log;
          DeleteEntry(key);
          ExtendsByOne(before, Dropped(key), sources, !stopped);
          ExtendsThen(log, before, old(log), sources, drops, {key}, !stopped);
          drops := drops + {key};
        }
        todo := todo - {key};
        ghost var before := log;
        Interleave(sources);
        ExtendsQuietly(log, before, old(log), sources, drops, !stopped);
      }
      assert drops == softDeleted - fetchedServices;
      softDeleted := {};
    }

    /** Services no longer fetched are removed, the others only unsubscribed. */
    method UnsubscribeAll(fetchedServices: set<Service>, fails: set<Service>, ghost sources: set<Subscription>)
      requires Replayed() && live <= sources
      modifies `live, store, `log
      ensures Replayed() && Extends(log, old(log), sources, watching - fetchedServices, !stopped)
      ensures live == old(live) - Made(client, watching - fails)
    {
      hide Replayed;
      hide Extends;
      ExtendsItself(log, sources, !stopped);
      var todo := watching;
      ghost var drops: set<Service> := {};
      while todo != {}
        invariant todo <= watching && live == old(live) - Made(client, watching - todo - fails)
        invariant drops == watching - todo - fetchedServices
        invariant Replayed() && Extends(log, old(log), sources, drops, !stopped)
        decreases todo
      {
        var key :| key in todo;
        ghost var before := log;
        if key !in fetchedServices {
          RemoveService(key, key in fails, sources);
          ExtendsThen(log, before, old(log), sources, drops, {key}, !stopped);
          drops := drops + {key};
        } else {
          Unsubscribe(key, key in fails);
          Interleave(sources);
          ExtendsQuietly(log, before, old(log), sources, drops, !stopped);
        }
        todo := todo - {key};
      }
      assert drops == watching - fetchedServices;
    }

    /** `Stop`: all known services are dropped, and nothing else is touched.
        Whatever still calls back cannot add anything any more. */
    method Stop(w: World)
      requires Valid()
      modifies this, store
      ensures stopped && client == old(client) && watching == old(watching) && softDeleted == old(softDeleted)
      ensures live == old(live) - Made(client, watching - w.unsubscribeFails)
      ensures Extends(log, old(log), old(live), watching + softDeleted, false)
      ensures forall k | k in store.entries ::
        && k in old(store.entries) && k !in naming.Keys(watching + softDeleted)
        && store.entries[k] == old(store.entries)[k]
      ensures forall k | k in old(store.entries) && k !in naming.Keys(watching + softDeleted)
          && !SaidEmpty(naming, log, |old(log)|, k) :: k in store.entries
      ensures Valid() && (Accounted(naming, old(State())) ==> store.entries == map[])
    {
      hide Replayed;
      hide Extends;
      hide SaidEmpty;
      ghost var sources, l0 := live, log;
      KnowsStore();
      stopped := true;
      Interleave(sources);
      var todo := softDeleted;
      ghost var drops: set<Service> := {};
      while todo != {}
        invariant todo <= softDeleted == old(softDeleted) && watching == old(watching) && stopped
        invariant live == old(live) && client == old(client)
        invariant drops == softDeleted - todo - watching
        invariant Replayed() && Extends(log, l0, sources, drops, false)
        decreases todo
      {
        var key :| key in todo;
        if key !in watching {
          ghost var before := log;
          DeleteEntry(key);
          ExtendsByOne(before, Dropped(key), sources, false);
          ExtendsThen(log, before, l0, sources, drops, {key}, false);
          drops := drops + {key};
        }
        todo := todo - {key};
        ghost var before := log;
        Interleave(sources);
        ExtendsQuietly(log, before, l0, sources, drops, false);
      }
      todo := watching;
      while todo != {}
        invariant todo <= watching == old(watching) && softDeleted == old(softDeleted) && stopped
        invariant live == old(live) - Made(client, watching - todo - w.unsubscribeFails) && client == old(client)
        invariant drops == (softDeleted - watching) + (watching - todo)
        invariant Replayed() && Extends(log, l0, sources, drops, false)
        decreases todo
      {
        var key :| key in todo;
        ghost var before := log;
        RemoveService(key, key in w.unsubscribeFails, sources);
        ExtendsThen(log, before, l0, sources, drops, {key}, false);
        drops := drops + {key};
        todo := todo - {key};
      }
      assert drops == watching + softDeleted;
      StoppedStore(old(State()), l0);
    }

    /** What is in the store once known services are dropped after Stop. */
    lemma StoppedStore(c: Control, before: seq<Change>)
      requires Replayed() && Replay(naming, before).Keys <= naming.Keys(Owners(c))
      requires Extends(log, before, c.live, c.watching + c.softDeleted, false)
      requires client == c.client && watching == c.watching && softDeleted == c.softDeleted
      requires exists gone :: live == c.live - Made(client, gone) && gone <= watching
      requires forall s | s in c.live :: s.client <= c.client
      ensures Valid()
      ensures forall k | k in store.entries ::
        && k in Replay(naming, before) && k !in naming.Keys(c.watching + c.softDeleted)
        && store.entries[k] == Replay(naming, before)[k]
      ensures forall k | k in Replay(naming, before) && k !in naming.Keys(c.watching + c.softDeleted)
          && !SaidEmpty(naming, log, |before|, k) :: k in store.entries
      ensures Accounted(naming, c) ==> store.entries == map[]
    {
      hide Replay;
      hide Owners;
      hide Made;
      hide Accounted;
      var known := c.watching + c.softDeleted;
      EntriesWithin(naming, log, before, c.live, known, false);
      EntriesShrink(naming, log, before, c.live, known, |log|);
      assert log[..|log|] == log;
      hide Extends;
      hide SaidEmpty;
      forall k | k in Replay(naming, before) && k !in naming.Keys(known) && !SaidEmpty(naming, log, |before|, k)
        ensures k in store.entries
      {
        EntriesStay(naming, log, before, c.live, known, false, k);
      }
      StoppedOwners(c);
      StoppedEmpty(c);
    }

    lemma StoppedEmpty(c: Control)
      requires forall k | k in store.entries ::
        k in naming.Keys(Owners(c)) && k !in naming.Keys(c.watching + c.softDeleted)
      ensures Accounted(naming, c) ==> store.entries == map[]
    {
      if Accounted(naming, c) {
        AccountedKeys(naming, c);
        assert store.entries.Keys == {};
      }
    }

    lemma StoppedOwners(c: Control)
      requires client == c.client && watching == c.watching && softDeleted == c.softDeleted
      requires exists gone :: live == c.live - Made(client, gone) && gone <= watching
      requires forall k | k in store.entries :: k in naming.Keys(Owners(c)) && k !in naming.Keys(watching + softDeleted)
      ensures forall k | k in store.entries :: k in naming.Keys(Owners(State()))
    {
      var known := watching + softDeleted;
      forall k | k in store.entries ensures k in naming.Keys(Owners(State())) {
        var s :| s in Owners(c) && naming.Key(s) == k;
        assert s !in known;
        var x :| x in c.live && x.service == s;
        assert x in live;
      }
    }

    /** A whole life: Start, any refreshes and reloads, Stop, late refreshes, and
        callbacks between any two steps of all of them. What is left is what Stop
        leaves of the history, unless a late callback empties it; nothing, if every
        subscription that calls back at Stop is accounted for. */
    method Lifetime(start: World, ops: seq<Operation>, stop: World, late: seq<World>)
      returns (ghost logs: seq<seq<Change>>)
      requires Valid() && !stopped && State() == IDLE && log == []
      modifies this, store
      ensures Valid() && IsHistory(start, ops, logs)
      ensures var left := Left(naming, start, ops, logs[|ops|]);
        && (forall k | k in store.entries :: k in left && store.entries[k] == left[k])
        && (forall k | k in left && !SaidEmpty(naming, log, |logs[|ops|]|, k) :: k in store.entries)
      ensures Accounted(naming, After(start, ops)) ==> store.entries == map[]
    {
      hide Replayed;
      hide Extends;
      hide SaidEmpty;
      hide IsHistory;
      var ok := Start(start);
      logs := [log];
      HistoryBegins(start, log);
      assert ops[..0] == [];
      for i := 0 to |ops|
        invariant Valid() && !stopped && State() == After(start, ops[..i])
        invariant IsHistory(start, ops[..i], logs) && |logs| == i + 1 && logs[i] == log
      {
        assert ops[..i + 1][..i] == ops[..i];
        ghost var c, before := State(), log;
        match ops[i] {
          case DoRefresh(w) => ok := Refresh(w);
          case DoReload(w) => ok := Reload(w);
        }
        assert Extends(log, before, Heardable(c, ops[i]), Deletes(c, ops[i]), true);
        HistoryGrows(start, ops, i, logs, log);
        logs := logs + [log];
      }
      assert ops[..|ops|] == ops;
      ghost var before := log;
      KnowsStore();
      ghost var left := Left(naming, start, ops, before);
      Stop(stop);
      ExtendsIsLater(log, before, After(start, ops).live, watching + softDeleted, false);
      for i := 0 to |late|
        invariant Valid() && stopped && before <= log
        invariant forall k | k in store.entries :: k in left && store.entries[k] == left[k]
        invariant forall k | k in left && !SaidEmpty(naming, log, |before|, k) :: k in store.entries
        invariant Accounted(naming, After(start, ops)) ==> store.entries == map[]
      {
        ghost var earlier, sources := log, Heardable(State(), DoRefresh(late[i]));
        ok := Refresh(late[i]);
        ExtendsIsLater(log, earlier, sources, {}, false);
        LaterEmpties(naming, log, earlier, |before|);
        if Accounted(naming, After(start, ops)) {
          assert store.entries.Keys == {};
        }
      }
    }
  }

  lemma HistoryBegins(start: World, log: seq<Change>)
    requires Extends(log, [], Started(start).live, {}, true)
    ensures IsHistory(start, [], [log])
  {
  }

  lemma HistoryGrows(start: World, ops: seq<Operation>, i: nat, logs: seq<seq<Change>>, now: seq<Change>)
    requires i < |ops| && IsHistory(start, ops[..i], logs)
    requires var c := After(start, ops[..i]); Extends(now, logs[i], Heardable(c, ops[i]), Deletes(c, ops[i]), true)
    ensures IsHistory(start, ops[..i + 1], logs + [now])
  {
    hide Extends;
    hide After;
    var more, all := ops[..i + 1], logs + [now];
    forall j | 0 <= j <= i ensures Follows(start, more, all, j) {
      assert more[..j] == ops[..j];
      if j < i {
        assert Follows(start, ops[..i], logs, j);
        assert ops[..i][..j] == ops[..j];
      }
    }
  }

  /** What was said by an earlier moment has been said. */
  lemma LaterEmpties(naming: Naming, now: seq<Change>, earlier: seq<Change>, from: nat)
    requires earlier <= now && from <= |earlier|
    ensures forall k | SaidEmpty(naming, earlier, from, k) :: SaidEmpty(naming, now, from, k)
    ensures forall k | SaidEmpty(naming, now, |earlier|, k) :: SaidEmpty(naming, now, from, k)
  {
    forall k | SaidEmpty(naming, earlier, from, k) ensures SaidEmpty(naming, now, from, k) {
      var i :| from <= i < |earlier| && EmptiedBy(naming, earlier[i], k);
      assert now[i] == earlier[i];
    }
  }

  lemma ExtendsIsLater(now: seq<Change>, before: seq<Change>, sources: set<Subscription>, drops: set<Service>,
                       running: bool)
    requires Extends(now, before, sources, drops, running)
    ensures before <= now
  {
  }

  lemma MadeMore(client: nat, services: set<Service>, s: Service)
    ensures Made(client, services) + {Subscription(client, s)} == Made(client, services + {s})
  {
  }

  lemma OrderMatters(live: set<Subscription>, made: set<Subscription>, undone: set<Subscription>)
    requires made * undone == {}
    ensures (live + made) - undone == (live - undone) + made
  {
    forall x | x in made ensures x !in undone {
      assert x in undone ==> x in made * undone;
    }
  }

  /** Under two namespaces a service has the same key exactly when they differ in
      case, or in "_" for "-", only; otherwise a Reload that changes the namespace
      looks for entries under names they do not have. */
  lemma SameKeyIff(s: Service, a: string, b: string, registry: string)
    ensures Naming(a, registry).Key(s) == Naming(b, registry).Key(s) <==> Lower(Replaced(a)) == Lower(Replaced(b))
  {
    var head, tail := s.name + "." + Replaced(s.group + "."), Replaced("." + registry + ".nacos");
    KeySplits(s, a, registry);
    KeySplits(s, b, registry);
    var l, r := Lower(Replaced(a)), Lower(Replaced(b));
    var h, t := Lower(head), Lower(tail);
    if h + l + t == h + r + t {
      assert |l| == |r|;
      assert (h + l + t)[|h|..|h| + |l|] == l && (h + r + t)[|h|..|h| + |r|] == r;
    }
  }

  function LowerCase(c: char): char { if 'A' <= c <= 'Z' then c + (32 as char) else c }

  /** The key of a service is "name.group.namespace.registry.nacos" in lower case,
      with a dash for every underscore behind the name. */
  lemma KeySpelled(n: Naming, s: Service, i: nat)
    ensures var raw := s.name + "." + s.group + "." + n.namespace + "." + n.registry + ".nacos";
      && |n.Key(s)| == |raw|
      && (i < |raw| ==> n.Key(s)[i] == LowerCase(if i > |s.name| && raw[i] == '_' then '-' else raw[i]))
  {
    var tail := s.group + "." + n.namespace + "." + n.registry + ".nacos";
    assert s.name + "." + s.group + "." + n.namespace + "." + n.registry + ".nacos" == s.name + "." + tail;
  }

  lemma KeySplits(s: Service, a: string, registry: string)
    ensures Naming(a, registry).Key(s) ==
            Lower(s.name + "." + Replaced(s.group + ".")) + Lower(Replaced(a)) +
                Lower(Replaced("." + registry + ".nacos"))
  {
    var x, y, z := s.group + ".", a, "." + registry + ".nacos";
    assert s.group + "." + a + "." + registry + ".nacos" == x + y + z;
    assert Replaced(x + y + z) == Replaced(x) + Replaced(y) + Replaced(z);
    var head := s.name + ".";
    assert head + (Replaced(x) + Replaced(y) + Replaced(z)) == (head + Replaced(x)) + Replaced(y) + Replaced(z);
    LowerConcat(head + Replaced(x), Replaced(y));
    LowerConcat((head + Replaced(x)) + Replaced(y), Replaced(z));
  }

  lemma LowerConcat(a: string, b: string)
    ensures Lower(a + b) == Lower(a) + Lower(b)
  {
  }
}
