/** Who may touch a filter manager when. Every stream takes a manager from its
    configuration's pool; callbacks that may block run in goroutines counted by
    `runningInGoThread`; OnLog puts the manager back only when that counter is
    zero. The steps below interleave freely between streams and goroutines. */
module ManagerPool {

  /** Where a stream's own thread is. Launching: the counter is raised, the `go`
      statement has not run. Recycling: the counter was read as zero. Clean:
      Reset has run, Put has not. */
  datatype Stage = Serving | Launching | Logging | Recycling | Clean | Finished

  datatype Stream = Stream(manager: nat, stage: Stage)

  datatype Goroutine = Goroutine(stream: nat, manager: nat)

  datatype State = State(
    streams: map<nat, Stream>,
    goroutines: map<nat, Goroutine>,
    counter: map<nat, int>,
    pool: multiset<nat>)

  const EMPTY := State(map[], map[], map[], multiset{})

  datatype Step =
    | Open(stream: nat, manager: nat)     // pool.Get, which allocates when it likes
    | Mark(stream: nat)                   // MarkRunningInGoThread(true)
    | Launch(stream: nat, routine: nat)   // go func() ...
    | Exit(routine: nat)                  // deferred MarkRunningInGoThread(false)
    | Log(stream: nat, canSkip: bool)     // OnLog begins, or is skipped
    | Check(stream: nat)                  // IsRunningInGoThread
    | Reset(stream: nat)
    | Put(stream: nat)
    | Evict(manager: nat)                 // a sync.Pool may drop what it holds

  predicate At(s: State, stream: nat, stage: Stage) {
    stream in s.streams && s.streams[stream].stage == stage
  }

  /** Envoy calls nothing on a stream after its OnLog, so goroutines start only
      while the stream is being served. */
  predicate Enabled(s: State, step: Step) {
    match step
    case Open(stream, manager) => stream !in s.streams && (manager in s.pool || manager !in s.counter)
    case Mark(stream) => At(s, stream, Serving)
    case Launch(stream, routine) => At(s, stream, Launching) && routine !in s.goroutines
    case Exit(routine) => routine in s.goroutines
    case Log(stream, _) => At(s, stream, Serving)
    case Check(stream) => At(s, stream, Logging)
    case Reset(stream) => At(s, stream, Recycling)
    case Put(stream) => At(s, stream, Clean)
    case Evict(manager) => manager in s.pool
  }

  function Move(s: State, stream: nat, stage: Stage): State
    requires stream in s.streams
  {
    s.(streams := s.streams[stream := s.streams[stream].(stage := stage)])
  }

  function Apply(s: State, step: Step): State
    requires Enabled(s, step)
  {
    match step
    case Open(stream, manager) =>
      s.(streams := s.streams[stream := Stream(manager, Serving)],
         counter := if manager in s.pool then s.counter else s.counter[manager := 0],
         pool := s.pool - multiset{manager})
    case Mark(stream) =>
      var m := s.streams[stream].manager;
      Move(s, stream, Launching).(counter := s.counter[m := Count(s, m) + 1])
    case Launch(stream, routine) =>
      Move(s, stream, Serving).(goroutines := s.goroutines[routine := Goroutine(stream, s.streams[stream].manager)])
    case Exit(routine) =>
      var m := s.goroutines[routine].manager;
      s.(goroutines := s.goroutines - {routine}, counter := s.counter[m := Count(s, m) - 1])
    case Log(stream, canSkip) =>
      Move(s, stream, if canSkip then Finished else Logging)
    case Check(stream) =>
      Move(s, stream, if Count(s, s.streams[stream].manager) != 0 then Finished else Recycling)
    case Reset(stream) =>
      Move(s, stream, Clean).(counter := s.counter[s.streams[stream].manager := 0])
    case Put(stream) =>
      Move(s, stream, Finished).(pool := s.pool + multiset{s.streams[stream].manager})
    case Evict(manager) =>
      s.(pool := s.pool - multiset{manager})
  }

  function Count(s: State, m: nat): int {
    if m in s.counter then s.counter[m] else 0
  }

  predicate Possible(s: State, steps: seq<Step>)
    decreases |steps|
  {
    steps == [] || (Enabled(s, steps[0]) && Possible(Apply(s, steps[0]), steps[1..]))
  }

  function Run(s: State, steps: seq<Step>): State
    requires Possible(s, steps)
    decreases |steps|
  {
    if steps == [] then s else Run(Apply(s, steps[0]), steps[1..])
  }

  // ------------------------------------------------------------- invariant

  function Holders(s: State, m: nat): set<nat> {
    set g | g in s.goroutines && s.goroutines[g].manager == m
  }

  function Launchers(s: State, m: nat): set<nat> {
    set t | t in s.streams && s.streams[t] == Stream(m, Launching)
  }

  predicate Owns(s: State, t: nat, m: nat) {
    t in s.streams && s.streams[t].manager == m && s.streams[t].stage != Finished
  }

  ghost predicate CounterExact(s: State) {
    forall m :: Count(s, m) == |Holders(s, m)| + |Launchers(s, m)|
  }

  ghost predicate OneOwner(s: State) {
    forall a, b, m :: Owns(s, a, m) && Owns(s, b, m) ==> a == b
  }

  ghost predicate PoolFree(s: State) {
    forall m | m in s.pool :: s.pool[m] == 1 && (forall t :: !Owns(s, t, m)) && Holders(s, m) == {}
  }

  /** A goroutine works for a stream that took the same manager and has not
      begun to recycle it; nobody else owns that manager. */
  ghost predicate GoroutinesAtHome(s: State) {
    forall g | g in s.goroutines :: Home(s, s.goroutines[g])
  }

  ghost predicate Home(s: State, r: Goroutine) {
    && r.stream in s.streams && s.streams[r.stream].manager == r.manager
    && s.streams[r.stream].stage != Recycling && s.streams[r.stream].stage != Clean
    && forall t :: Owns(s, t, r.manager) ==> t == r.stream
  }

  ghost predicate Known(s: State) {
    && (forall t | t in s.streams :: s.streams[t].manager in s.counter)
    && (forall g | g in s.goroutines :: s.goroutines[g].manager in s.counter)
    && (forall m | m in s.pool :: m in s.counter)
  }

  ghost predicate Inv(s: State) {
    Known(s) && CounterExact(s) && OneOwner(s) && PoolFree(s) && GoroutinesAtHome(s)
  }

  // What one step changes, population by population.

  predicate LaunchesFor(s: State, step: Step, m: nat) {
    step.Launch? && step.stream in s.streams && s.streams[step.stream].manager == m
  }

  predicate ExitsFrom(s: State, step: Step, m: nat) {
    step.Exit? && step.routine in s.goroutines && s.goroutines[step.routine].manager == m
  }

  predicate MarksFor(s: State, step: Step, m: nat) {
    step.Mark? && step.stream in s.streams && s.streams[step.stream].manager == m
  }

  lemma OwnersAfter(s: State, step: Step, t: nat, m: nat)
    requires Enabled(s, step)
    ensures Owns(Apply(s, step), t, m) ==> Owns(s, t, m) || step == Open(t, m)
    ensures step.Put? && step.stream == t ==> !Owns(Apply(s, step), t, m)
  {
  }

  lemma HoldersAfter(s: State, step: Step, m: nat)
    requires Enabled(s, step)
    ensures Holders(Apply(s, step), m) ==
            if LaunchesFor(s, step, m) then Holders(s, m) + {step.routine}
            else if ExitsFrom(s, step, m) then Holders(s, m) - {step.routine}
            else Holders(s, m)
  {
  }

  lemma LaunchersAfter(s: State, step: Step, m: nat)
    requires Enabled(s, step)
    ensures Launchers(Apply(s, step), m) ==
            if MarksFor(s, step, m) then Launchers(s, m) + {step.stream}
            else if LaunchesFor(s, step, m) then Launchers(s, m) - {step.stream}
            else Launchers(s, m)
  {
  }

  lemma CountAfter(s: State, step: Step, m: nat)
    requires Enabled(s, step)
    ensures Count(Apply(s, step), m) ==
            if MarksFor(s, step, m) then Count(s, m) + 1
            else if ExitsFrom(s, step, m) then Count(s, m) - 1
            else if step.Reset? && s.streams[step.stream].manager == m then 0
            else Count(s, m)
  {
  }

  lemma PoolAfter(s: State, step: Step, m: nat)
    requires Enabled(s, step)
    ensures Apply(s, step).pool[m] ==
            if step.Put? && s.streams[step.stream].manager == m then s.pool[m] + 1
            else if (step.Open? || step.Evict?) && step.manager == m && s.pool[m] > 0 then s.pool[m] - 1
            else s.pool[m]
  {
  }

  lemma StreamsAfter(s: State, step: Step, t: nat)
    requires Enabled(s, step)
    ensures var e := Apply(s, step);
      t in e.streams ==>
        || (t in s.streams && e.streams[t].manager == s.streams[t].manager)
        || step == Open(t, e.streams[t].manager)
  {
  }

  lemma CountersAfter(s: State, step: Step)
    requires Enabled(s, step)
    ensures s.counter.Keys <= Apply(s, step).counter.Keys
    ensures step.Open? ==> step.manager in s.pool || step.manager in Apply(s, step).counter
  {
  }

  lemma KnownKept(s: State, step: Step)
    requires Known(s) && Enabled(s, step)
    ensures Known(Apply(s, step))
  {
    hide Apply;
    var e := Apply(s, step);
    CountersAfter(s, step);
    forall t | t in e.streams ensures e.streams[t].manager in e.counter {
      StreamsAfter(s, step, t);
    }
    forall g | g in e.goroutines ensures e.goroutines[g].manager in e.counter {
      var m := e.goroutines[g].manager;
      HoldersAfter(s, step, m);
      assert g in Holders(e, m);
      if !LaunchesFor(s, step, m) {
        assert g in Holders(s, m);
      }
    }
    forall m | m in e.pool ensures m in e.counter {
      PoolAfter(s, step, m);
      assert m in s.pool || (step.Put? && s.streams[step.stream].manager == m);
    }
  }

  lemma OwnershipKept(s: State, step: Step)
    requires OneOwner(s) && PoolFree(s) && Known(s) && Enabled(s, step)
    ensures OneOwner(Apply(s, step))
  {
    hide Apply;
    var e := Apply(s, step);
    forall a, b, m | Owns(e, a, m) && Owns(e, b, m) ensures a == b {
      OwnersAfter(s, step, a, m);
      OwnersAfter(s, step, b, m);
      if step.Open? && step.manager == m {
        assert forall t :: !Owns(s, t, m) by { NobodyOwnsWhatOpens(s, step); }
      }
    }
  }

  lemma NobodyOwnsWhatOpens(s: State, step: Step)
    requires PoolFree(s) && Known(s) && Enabled(s, step) && step.Open?
    ensures forall t :: !Owns(s, t, step.manager)
    ensures Holders(s, step.manager) == {}
  {
    if step.manager !in s.pool {
      forall g ensures g !in Holders(s, step.manager) {
      }
    }
  }

  lemma GoroutinesKept(s: State, step: Step)
    requires Inv(s) && Enabled(s, step)
    ensures GoroutinesAtHome(Apply(s, step))
  {
    hide Apply;
    hide Inv;
    hide Home;
    var e := Apply(s, step);
    forall g | g in e.goroutines ensures Home(e, e.goroutines[g]) {
      var r := e.goroutines[g];
      RoutinesAfter(s, step, g);
      if g in s.goroutines && s.goroutines[g] == r {
        ResidentStays(s, step, g);
      } else {
        NewcomerAtHome(s, step, g);
      }
    }
  }

  lemma RoutinesAfter(s: State, step: Step, g: nat)
    requires Enabled(s, step)
    ensures var e := Apply(s, step);
      g in e.goroutines ==>
        || (g in s.goroutines && e.goroutines[g] == s.goroutines[g])
        || (step.Launch? && step.routine == g
            && e.goroutines[g] == Goroutine(step.stream, s.streams[step.stream].manager))
  {
  }

  lemma NewcomerAtHome(s: State, step: Step, g: nat)
    requires Inv(s) && Enabled(s, step)
    requires step.Launch? && step.routine == g
    ensures Home(Apply(s, step), Goroutine(step.stream, s.streams[step.stream].manager))
  {
    var e := Apply(s, step);
    var m := s.streams[step.stream].manager;
    assert Owns(s, step.stream, m);
    assert OneOwner(s);
    assert e.streams[step.stream] == Stream(m, Serving);
    hide Apply;
    hide Inv;
    hide CounterExact;
    hide PoolFree;
    hide GoroutinesAtHome;
    forall t | Owns(e, t, m) ensures t == step.stream {
      OwnersAfter(s, step, t, m);
    }
  }

  /** A goroutine at home stays so: its stream cannot pass the check, and the
      pool cannot hand its manager out. */
  lemma ResidentStays(s: State, step: Step, g: nat)
    requires Inv(s) && Enabled(s, step) && g in s.goroutines
    ensures Home(Apply(s, step), s.goroutines[g])
  {
    hide Apply;
    var e := Apply(s, step);
    var r := s.goroutines[g];
    assert Home(s, r);
    assert g in Holders(s, r.manager);
    assert Count(s, r.manager) > 0;
    StageAfter(s, step, r.stream);
    forall t | Owns(e, t, r.manager) ensures t == r.stream {
      OwnersAfter(s, step, t, r.manager);
      if step == Open(t, r.manager) {
        NobodyOwnsWhatOpens(s, step);
      }
    }
  }

  lemma StageAfter(s: State, step: Step, t: nat)
    requires Enabled(s, step) && t in s.streams
    ensures var e := Apply(s, step);
      && t in e.streams && e.streams[t].manager == s.streams[t].manager
      && (e.streams[t].stage == Recycling ==> s.streams[t].stage == Recycling || Count(s, s.streams[t].manager) == 0)
      && (e.streams[t].stage == Clean ==> s.streams[t].stage == Recycling || s.streams[t].stage == Clean)
  {
  }

  lemma PoolKept(s: State, step: Step)
    requires PoolFree(s) && OneOwner(s) && GoroutinesAtHome(s) && Known(s) && Enabled(s, step)
    ensures PoolFree(Apply(s, step))
  {
    hide Apply;
    hide GoroutinesAtHome;
    hide PoolFree;
    hide OneOwner;
    hide Known;
    var e := Apply(s, step);
    forall m | m in e.pool
      ensures e.pool[m] == 1 && (forall t :: !Owns(e, t, m)) && Holders(e, m) == {}
    {
      PoolAfter(s, step, m);
      HoldersAfter(s, step, m);
      if step.Put? && s.streams[step.stream].manager == m {
        PutIsFree(s, step);
      } else {
        assert m in s.pool;
        PooledStays(s, step, m);
      }
    }
    assert PoolFree(e) by { PoolFreeIntro(e); }
  }

  lemma PoolFreeIntro(s: State)
    requires forall m | m in s.pool :: s.pool[m] == 1 && (forall t :: !Owns(s, t, m)) && Holders(s, m) == {}
    ensures PoolFree(s)
  {
  }

  lemma PutIsFree(s: State, step: Step)
    requires PoolFree(s) && OneOwner(s) && GoroutinesAtHome(s) && Enabled(s, step) && step.Put?
    ensures var m := s.streams[step.stream].manager;
      s.pool[m] == 0 && Holders(s, m) == {} && forall t :: !Owns(Apply(s, step), t, m)
  {
    hide Apply;
    var e := Apply(s, step);
    var m := s.streams[step.stream].manager;
    assert Owns(s, step.stream, m);
    assert s.pool[m] == 0 by { assert m !in s.pool; }
    forall t ensures !Owns(e, t, m) {
      OwnersAfter(s, step, t, m);
    }
    forall g ensures g !in Holders(s, m) {
      assert g in Holders(s, m) ==> Home(s, s.goroutines[g]);
    }
  }

  lemma PooledStays(s: State, step: Step, m: nat)
    requires PoolFree(s) && Enabled(s, step) && m in s.pool && m in Apply(s, step).pool
    ensures s.pool[m] == 1 && Holders(s, m) == {}
    ensures !LaunchesFor(s, step, m)
    ensures forall t :: !Owns(Apply(s, step), t, m)
  {
    hide Apply;
    var e := Apply(s, step);
    PoolAfter(s, step, m);
    forall t ensures !Owns(e, t, m) {
      OwnersAfter(s, step, t, m);
      assert !Owns(s, t, m);
    }
    assert LaunchesFor(s, step, m) ==> Owns(s, step.stream, m);
  }

  /** The two counted populations change exactly where the counter does. */
  lemma CounterKept(s: State, step: Step)
    requires Inv(s) && Enabled(s, step)
    ensures CounterExact(Apply(s, step))
  {
    hide Apply;
    hide Inv;
    hide Enabled;
    forall m ensures var e := Apply(s, step); Count(e, m) == |Holders(e, m)| + |Launchers(e, m)| {
      CountKept(s, step, m);
    }
  }

  lemma CountKept(s: State, step: Step, m: nat)
    requires Inv(s) && Enabled(s, step)
    ensures var e := Apply(s, step); Count(e, m) == |Holders(e, m)| + |Launchers(e, m)|
  {
    hide Apply;
    assert CounterExact(s) && Count(s, m) == |Holders(s, m)| + |Launchers(s, m)|;
    CountAfter(s, step, m);
    HoldersAfter(s, step, m);
    LaunchersAfter(s, step, m);
    if step.Reset? && s.streams[step.stream].manager == m {
      RecyclingHasNoHolders(s, step.stream);
    }
    hide Inv;
    if LaunchesFor(s, step, m) {
      assert step.stream in Launchers(s, m) && step.routine !in Holders(s, m);
    } else if ExitsFrom(s, step, m) {
      assert step.routine in Holders(s, m);
    } else if MarksFor(s, step, m) {
      assert step.stream !in Launchers(s, m);
    }
  }

  lemma RecyclingHasNoHolders(s: State, stream: nat)
    requires Inv(s) && At(s, stream, Recycling)
    ensures var m := s.streams[stream].manager; Holders(s, m) == {} && Launchers(s, m) == {}
  {
    var m := s.streams[stream].manager;
    assert Owns(s, stream, m);
    forall t ensures t !in Launchers(s, m) {
      assert t in Launchers(s, m) ==> Owns(s, t, m);
    }
    forall g ensures g !in Holders(s, m) {
      assert g in Holders(s, m) ==> Home(s, s.goroutines[g]);
    }
  }

  lemma StepKeepsInv(s: State, step: Step)
    requires Inv(s) && Enabled(s, step)
    ensures Inv(Apply(s, step))
  {
    KnownKept(s, step);
    CounterKept(s, step);
    OwnershipKept(s, step);
    PoolKept(s, step);
    GoroutinesKept(s, step);
  }

  lemma {:induction false} RunKeepsInv(s: State, steps: seq<Step>)
    requires Inv(s) && Possible(s, steps)
    ensures Inv(Run(s, steps))
    decreases |steps|
  {
    hide Inv;
    if steps != [] {
      StepKeepsInv(s, steps[0]);
      RunKeepsInv(Apply(s, steps[0]), steps[1..]);
    }
  }

  ghost predicate Reachable(s: State) {
    exists steps :: Possible(EMPTY, steps) && Run(EMPTY, steps) == s
  }

  lemma ReachableInv(s: State)
    requires Reachable(s)
    ensures Inv(s)
  {
    hide Inv;
    hide Apply;
    var steps :| Possible(EMPTY, steps) && Run(EMPTY, steps) == s;
    EmptyInv();
    RunKeepsInv(EMPTY, steps);
  }

  lemma EmptyInv()
    ensures Inv(EMPTY)
  {
    forall m ensures Holders(EMPTY, m) == {} && Launchers(EMPTY, m) == {} {
    }
  }

  // ---------------------------------------------------------------- results

  /** In every reachable state the counter is the number of goroutines that
      hold the manager (plus the one its stream is about to start), so when
      OnLog looks it sees zero exactly when nobody else holds the manager. */
  lemma OnLogSeesEveryGoroutine(s: State, stream: nat)
    requires Reachable(s) && At(s, stream, Logging)
    ensures var m := s.streams[stream].manager;
            Count(s, m) == |Holders(s, m)| && (Count(s, m) == 0 <==> Holders(s, m) == {})
  {
    ReachableInv(s);
    var m := s.streams[stream].manager;
    assert Owns(s, stream, m);
    assert Count(s, m) == |Holders(s, m)| + |Launchers(s, m)|;
    forall t ensures t !in Launchers(s, m) {
      assert t in Launchers(s, m) ==> Owns(s, t, m);
    }
  }

  /** A finished request gives its manager back, clean and ready for any other,
      exactly if no goroutine holds it any more; otherwise it goes on without it. */
  lemma ManagerComesBackIff(s: State, t: nat)
    requires Reachable(s) && At(s, t, Logging)
    ensures var m := s.streams[t].manager; var back := [Check(t), Reset(t), Put(t)];
      && (Possible(s, back) <==> Holders(s, m) == {})
      && (Possible(s, back) ==>
            var e := Run(s, back);
            && At(e, t, Finished) && e.pool == s.pool + multiset{m} && Count(e, m) == 0
            && Enabled(e, Evict(m)) && forall u | u !in e.streams :: Enabled(e, Open(u, m)))
      && (!Possible(s, back) ==> Apply(s, Check(t)) == s.(streams := s.streams[t := Stream(m, Finished)]))
  {
    OnLogSeesEveryGoroutine(s, t);
    hide Reachable;
    hide Possible;
    hide Run;
    hide Apply;
    if Holders(s, s.streams[t].manager) == {} {
      ComesBack(s, t);
    } else {
      StaysAway(s, t);
    }
  }

  lemma ComesBack(s: State, t: nat)
    requires At(s, t, Logging) && Count(s, s.streams[t].manager) == 0
    ensures var m := s.streams[t].manager; var back := [Check(t), Reset(t), Put(t)];
      && Possible(s, back)
      && Run(s, back) ==
         s.(streams := s.streams[t := Stream(m, Finished)], counter := s.counter[m := 0], pool := s.pool + multiset{m})
  {
    OneStep(s, Check(t));
    assert [Check(t), Reset(t), Put(t)] == [Check(t)] + [Reset(t)] + [Put(t)];
    Recycled(s, t);
    RunSnoc(s, [Check(t)], Reset(t));
    RunSnoc(s, [Check(t)] + [Reset(t)], Put(t));
  }

  lemma StaysAway(s: State, t: nat)
    requires At(s, t, Logging) && Count(s, s.streams[t].manager) != 0
    ensures !Possible(s, [Check(t), Reset(t), Put(t)])
    ensures Apply(s, Check(t)) == s.(streams := s.streams[t := Stream(s.streams[t].manager, Finished)])
  {
    assert [Check(t), Reset(t), Put(t)][1..] == [Reset(t), Put(t)];
  }

  lemma Recycled(s: State, t: nat)
    requires At(s, t, Logging) && Count(s, s.streams[t].manager) == 0
    ensures var m := s.streams[t].manager; var a := Apply(s, Check(t));
      && Enabled(a, Reset(t)) && Enabled(Apply(a, Reset(t)), Put(t))
      && Apply(Apply(a, Reset(t)), Put(t)) ==
         s.(streams := s.streams[t := Stream(m, Finished)], counter := s.counter[m := 0], pool := s.pool + multiset{m})
  {
  }

  /** If OnLog is skipped the manager is not given back, whatever happens later. */
  lemma {:induction false} SkippedLogKeepsManager(s: State, t: nat, steps: seq<Step>)
    requires At(s, t, Serving) && Possible(Apply(s, Log(t, true)), steps)
    ensures At(Run(Apply(s, Log(t, true)), steps), t, Finished)
    ensures forall k | 0 <= k < |steps| :: steps[k] != Put(t)
  {
    FinishedStays(Apply(s, Log(t, true)), t, steps);
  }

  lemma {:induction false} FinishedStays(s: State, t: nat, steps: seq<Step>)
    requires At(s, t, Finished) && Possible(s, steps)
    ensures At(Run(s, steps), t, Finished)
    ensures forall k | 0 <= k < |steps| :: steps[k] != Put(t)
    decreases |steps|
  {
    if steps != [] {
      FinishedStep(s, t, steps[0]);
      hide Apply;
      hide Enabled;
      FinishedStays(Apply(s, steps[0]), t, steps[1..]);
    }
  }

  lemma FinishedStep(s: State, t: nat, step: Step)
    requires At(s, t, Finished) && Enabled(s, step)
    ensures At(Apply(s, step), t, Finished) && step != Put(t)
  {
  }

  /** One stream with manager 7, and a goroutine at work for it. */
  const AT_WORK := State(map[0 := Stream(7, Serving)], map[5 := Goroutine(0, 7)], map[7 := 1], multiset{})

  /** A run in which a goroutine outlives its request: the request ends without
      giving the manager back. */
  lemma GoroutineOutlivesRequest()
    ensures Possible(EMPTY, [Open(0, 7), Mark(0), Launch(0, 5)])
    ensures Run(EMPTY, [Open(0, 7), Mark(0), Launch(0, 5)]) == AT_WORK
    ensures Possible(AT_WORK, [Log(0, false), Check(0)])
    ensures Run(AT_WORK, [Log(0, false), Check(0)]) == AT_WORK.(streams := map[0 := Stream(7, Finished)])
    ensures Enabled(AT_WORK.(streams := map[0 := Stream(7, Finished)]), Exit(5))
  {
    GoroutineStarts();
    var d := AT_WORK.(streams := map[0 := Stream(7, Logging)]);
    var e := AT_WORK.(streams := map[0 := Stream(7, Finished)]);
    assert Enabled(AT_WORK, Log(0, false)) && Apply(AT_WORK, Log(0, false)) == d;
    assert Enabled(d, Check(0)) && Apply(d, Check(0)) == e;
    hide Apply;
    hide Enabled;
    hide Run;
    hide Possible;
    OneStep(d, Check(0));
    StepFirst(AT_WORK, Log(0, false), [Check(0)]);
  }

  lemma GoroutineStarts()
    ensures Possible(EMPTY, [Open(0, 7), Mark(0), Launch(0, 5)])
    ensures Run(EMPTY, [Open(0, 7), Mark(0), Launch(0, 5)]) == AT_WORK
  {
    var a := State(map[0 := Stream(7, Serving)], map[], map[7 := 0], multiset{});
    var b := State(map[0 := Stream(7, Launching)], map[], map[7 := 1], multiset{});
    assert Enabled(EMPTY, Open(0, 7)) && Apply(EMPTY, Open(0, 7)) == a;
    assert Enabled(a, Mark(0)) && Apply(a, Mark(0)) == b;
    assert Enabled(b, Launch(0, 5)) && Apply(b, Launch(0, 5)) == AT_WORK;
    hide Apply;
    hide Enabled;
    hide Run;
    hide Possible;
    OneStep(b, Launch(0, 5));
    StepFirst(a, Mark(0), [Launch(0, 5)]);
    StepFirst(EMPTY, Open(0, 7), [Mark(0), Launch(0, 5)]);
  }

  lemma StepFirst(s: State, step: Step, steps: seq<Step>)
    requires Enabled(s, step) && Possible(Apply(s, step), steps)
    ensures Possible(s, [step] + steps) && Run(s, [step] + steps) == Run(Apply(s, step), steps)
  {
    assert ([step] + steps)[1..] == steps;
  }

  lemma OneStep(s: State, step: Step)
    requires Enabled(s, step)
    ensures Possible(s, [step]) && Run(s, [step]) == Apply(s, step)
  {
    var e := Apply(s, step);
    assert [step][1..] == [];
    assert Possible(e, []) && Run(e, []) == e;
  }

  /** Two requests never share a manager. */
  lemma RequestsNeverShare(s: State, a: nat, b: nat, m: nat)
    requires Reachable(s) && Owns(s, a, m) && Owns(s, b, m)
    ensures a == b
  {
    ReachableInv(s);
  }

  /** What the pool holds is held by nobody else, and only once. */
  lemma PooledMeansFree(s: State, m: nat)
    requires Reachable(s) && m in s.pool
    ensures s.pool[m] == 1 && Count(s, m) == 0 && Holders(s, m) == {}
    ensures forall t :: !Owns(s, t, m)
  {
    ReachableInv(s);
    forall t ensures t !in Launchers(s, m) {
      assert t in Launchers(s, m) ==> Owns(s, t, m);
    }
    assert Count(s, m) == |Holders(s, m)| + |Launchers(s, m)|;
  }

  /** A goroutine left over from one request never meets another request,
      however late it ends: from the moment it holds a manager, no run hands
      that manager to another stream before the goroutine exits. */
  lemma {:induction false} LateGoroutineMeetsNobody(s: State, steps: seq<Step>, g: nat, t: nat)
    requires Reachable(s) && Possible(s, steps)
    requires g in s.goroutines
    requires forall k | 0 <= k < |steps| :: steps[k] != Exit(g)
    ensures var e := Run(s, steps);
      && g in e.goroutines && e.goroutines[g] == s.goroutines[g]
      && (Owns(e, t, s.goroutines[g].manager) ==> t == s.goroutines[g].stream)
    decreases |steps|
  {
    hide Inv;
    hide Apply;
    if steps == [] {
      ReachableInv(s);
      assert GoroutinesAtHome(s) by { InvParts(s); }
    } else {
      assert steps[0] != Exit(g);
      RoutineStays(s, steps[0], g);
      ReachableStep(s, steps[0]);
      LateGoroutineMeetsNobody(Apply(s, steps[0]), steps[1..], g, t);
    }
  }

  lemma RoutineStays(s: State, step: Step, g: nat)
    requires Enabled(s, step) && g in s.goroutines && step != Exit(g)
    ensures var e := Apply(s, step); g in e.goroutines && e.goroutines[g] == s.goroutines[g]
  {
  }

  lemma InvParts(s: State)
    requires Inv(s)
    ensures GoroutinesAtHome(s)
  {
  }

  lemma ReachableStep(s: State, step: Step)
    requires Reachable(s) && Enabled(s, step)
    ensures Reachable(Apply(s, step))
  {
    var steps :| Possible(EMPTY, steps) && Run(EMPTY, steps) == s;
    RunSnoc(EMPTY, steps, step);
  }

  lemma {:induction false} RunSnoc(s: State, steps: seq<Step>, step: Step)
    requires Possible(s, steps) && Enabled(Run(s, steps), step)
    ensures Possible(s, steps + [step]) && Run(s, steps + [step]) == Apply(Run(s, steps), step)
    decreases |steps|
  {
    if steps == [] {
      assert ([step])[1..] == [];
    } else {
      assert (steps + [step])[1..] == steps[1..] + [step];
      RunSnoc(Apply(s, steps[0]), steps[1..], step);
    }
  }
}
