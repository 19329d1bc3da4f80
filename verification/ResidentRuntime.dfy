/** The resident applications of the runtime, as a system of steps taken by any number of loads and unloads
    (src/holo.rs:342-399). The resident map is only touched under its lock, so every access is one step;
    starting and stopping an application happen outside the lock. */
module ResidentRuntime {
  import opened Basics

  datatype Thread =
    | LoadCheck(kappa: Kappa)
    | LoadStart(kappa: Kappa)
    | LoadInsert(kappa: Kappa, app: nat)
    | LoadStop(app: nat)
    | UnloadTake(kappa: Kappa)
    | UnloadStop(app: nat)
    | Done

  /** A stop call and the thread that made it. */
  datatype StopCall = StopCall(app: nat, caller: nat)

  /** `kappas[a]` is the archive of the a-th application ever started. */
  datatype System = System(resident: map<Kappa, nat>, kappas: seq<Kappa>, threads: seq<Thread>, stops: seq<StopCall>)

  datatype Call = Load(kappa: Kappa) | Unload(kappa: Kappa)

  function Entry(call: Call): Thread {
    match call
    case Load(kappa) => LoadCheck(kappa)
    case Unload(kappa) => UnloadTake(kappa)
  }

  function To(s: System, t: nat, thread: Thread): System
    requires t < |s.threads|
  {
    s.(threads := s.threads[t := thread])
  }

  /** The next step of thread `t`. `started` is whether planning, admission and start-up succeed, if they run;
      a failed start-up has rolled back and leaves nothing behind. */
  function Step(s: System, t: nat, started: bool): System
    requires t < |s.threads|
  {
    match s.threads[t]
    case LoadCheck(kappa) => To(s, t, if kappa in s.resident then Done else LoadStart(kappa))
    case LoadStart(kappa) =>
      if started then To(s, t, LoadInsert(kappa, |s.kappas|)).(kappas := s.kappas + [kappa])
      else To(s, t, Done)
    case LoadInsert(kappa, app) =>
      if kappa in s.resident then To(s, t, LoadStop(app))
      else To(s, t, Done).(resident := s.resident[kappa := app])
    case LoadStop(app) => To(s, t, Done).(stops := s.stops + [StopCall(app, t)])
    case UnloadTake(kappa) =>
      if kappa in s.resident then To(s, t, UnloadStop(s.resident[kappa])).(resident := s.resident - {kappa})
      else To(s, t, Done)
    case UnloadStop(app) => To(s, t, Done).(stops := s.stops + [StopCall(app, t)])
    case Done => s
  }

  ghost predicate StepsBy(s: System, s': System, t: nat, started: bool) {
    t < |s.threads| && s' == Step(s, t, started)
  }

  ghost predicate Steps(s: System, s': System) {
    exists t, started :: StepsBy(s, s', t, started)
  }

  ghost predicate Next(s: System, s': System) {
    || Steps(s, s')
    || (exists call :: s' == s.(threads := s.threads + [Entry(call)]))
  }

  ghost predicate IsRun(run: seq<System>) {
    run != [] && run[0] == System(map[], [], [], []) && forall i :: 0 <= i < |run| - 1 ==> Next(run[i], run[i + 1])
  }

  // ---------- Where an application is ----------

  function Owned(thread: Thread): Option<nat> {
    match thread
    case LoadInsert(_, app) => Some(app)
    case LoadStop(app) => Some(app)
    case UnloadStop(app) => Some(app)
    case _ => None
  }

  predicate IsResident(s: System, app: nat) {
    app < |s.kappas| && s.kappas[app] in s.resident && s.resident[s.kappas[app]] == app
  }

  predicate Owns(s: System, t: nat, app: nat) {
    t < |s.threads| && Owned(s.threads[t]) == Some(app)
  }

  predicate StopCalled(s: System, i: nat, app: nat) {
    i < |s.stops| && s.stops[i].app == app
  }

  /** Every entry of the map is a started application of that archive. */
  ghost predicate Catalogued(s: System) {
    && (forall k :: k in s.resident ==> s.resident[k] < |s.kappas| && s.kappas[s.resident[k]] == k)
    && (forall t :: 0 <= t < |s.threads| ==>
      && (s.threads[t].LoadInsert? ==> s.threads[t].app < |s.kappas| && s.kappas[s.threads[t].app] == s.threads[t].kappa)
      && (Owned(s.threads[t]).Some? ==> Owned(s.threads[t]).value < |s.kappas|))
    && (forall i :: 0 <= i < |s.stops| ==> s.stops[i].app < |s.kappas|)
  }

  ghost predicate OneOwner(s: System) {
    forall t, u, app :: Owns(s, t, app) && Owns(s, u, app) ==> t == u
  }

  ghost predicate OneStop(s: System) {
    forall i, j, app :: StopCalled(s, i, app) && StopCalled(s, j, app) ==> i == j
  }

  ghost predicate Disjoint(s: System) {
    && (forall t, app :: Owns(s, t, app) ==> !IsResident(s, app))
    && (forall i, app :: StopCalled(s, i, app) ==> !IsResident(s, app))
    && (forall i, t, app :: StopCalled(s, i, app) && Owns(s, t, app) ==> false)
  }

  ghost predicate Somewhere(s: System, app: nat) {
    IsResident(s, app) || (exists t :: Owns(s, t, app)) || exists i :: StopCalled(s, i, app)
  }

  ghost predicate AllSomewhere(s: System) {
    forall app :: 0 <= app < |s.kappas| ==> Somewhere(s, app)
  }

  ghost predicate Invariant(s: System) {
    Catalogued(s) && OneOwner(s) && OneStop(s) && Disjoint(s) && AllSomewhere(s)
  }

  // ---------- Every step keeps it ----------

  lemma {:induction false} StepCatalogued(s: System, t: nat, started: bool)
    requires t < |s.threads| && Catalogued(s)
    ensures Catalogued(Step(s, t, started))
  {
    var s' := Step(s, t, started);
    forall u | 0 <= u < |s'.threads|
      ensures s'.threads[u].LoadInsert? ==> s'.threads[u].app < |s'.kappas| && s'.kappas[s'.threads[u].app] == s'.threads[u].kappa
      ensures Owned(s'.threads[u]).Some? ==> Owned(s'.threads[u]).value < |s'.kappas|
    {
      if u != t {
        assert s'.threads[u] == s.threads[u];
      }
    }
  }

  /** Other threads keep what they own. */
  lemma {:induction false} OthersOwn(s: System, t: nat, started: bool, u: nat, app: nat)
    requires t < |s.threads| && u != t
    ensures Owns(Step(s, t, started), u, app) == Owns(s, u, app)
  {
    hide Owned;
  }

  /** What a step can newly own: the application it just started, the one it just took out of the map, or the
      one it already owned. */
  lemma {:induction false} OwnSource(s: System, t: nat, started: bool, app: nat)
    requires t < |s.threads| && Catalogued(s) && Owns(Step(s, t, started), t, app)
    ensures Owns(s, t, app) || app == |s.kappas| || (s.threads[t].UnloadTake? && IsResident(s, app))
  {
  }

  lemma {:induction false} StepOneOwner(s: System, t: nat, started: bool)
    requires t < |s.threads| && Invariant(s)
    ensures OneOwner(Step(s, t, started))
  {
    hide Step, Owns, IsResident, StopCalled, AllSomewhere, OneStop;
    var s' := Step(s, t, started);
    forall u, v, app | Owns(s', u, app) && Owns(s', v, app)
      ensures u == v
    {
      if u != t && v != t {
        OthersOwn(s, t, started, u, app);
        OthersOwn(s, t, started, v, app);
      } else if u != v {
        var other := if u == t then v else u;
        OthersOwn(s, t, started, other, app);
        OwnSource(s, t, started, app);
        OwnedExists(s, other, app);
      }
    }
  }

  lemma {:induction false} OwnedExists(s: System, t: nat, app: nat)
    requires Catalogued(s) && Owns(s, t, app)
    ensures app < |s.kappas|
  {
  }

  lemma {:induction false} StopSource(s: System, t: nat, started: bool, i: nat, app: nat)
    requires t < |s.threads| && StopCalled(Step(s, t, started), i, app)
    ensures StopCalled(s, i, app) || (i == |s.stops| && Owns(s, t, app) && Stopping(s, t))
  {
  }

  predicate Stopping(s: System, t: nat)
    requires t < |s.threads|
  {
    s.threads[t].LoadStop? || s.threads[t].UnloadStop?
  }

  lemma {:induction false} StepOneStop(s: System, t: nat, started: bool)
    requires t < |s.threads| && Invariant(s)
    ensures OneStop(Step(s, t, started))
  {
    hide Step, Owns, IsResident, AllSomewhere, OneOwner, Catalogued;
    var s' := Step(s, t, started);
    forall i, j, app | StopCalled(s', i, app) && StopCalled(s', j, app)
      ensures i == j
    {
      StopSource(s, t, started, i, app);
      StopSource(s, t, started, j, app);
    }
  }

  /** What a step can newly make resident: the application its thread owned. */
  lemma {:induction false} ResidentSource(s: System, t: nat, started: bool, app: nat)
    requires t < |s.threads| && Catalogued(s) && IsResident(Step(s, t, started), app)
    ensures IsResident(s, app) || (s.threads[t].LoadInsert? && Owns(s, t, app) && !Owns(Step(s, t, started), t, app))
  {
  }

  lemma {:induction false} StepDisjoint(s: System, t: nat, started: bool)
    requires t < |s.threads| && Invariant(s)
    ensures Disjoint(Step(s, t, started))
  {
    var s' := Step(s, t, started);
    forall u: nat, app: nat | Owns(s', u, app)
      ensures !IsResident(s', app)
    {
      OwnedNotResident(s, t, started, u, app);
    }
    forall i: nat, app: nat | StopCalled(s', i, app)
      ensures !IsResident(s', app)
    {
      StoppedNotResident(s, t, started, i, app);
    }
    forall i: nat, u: nat, app: nat | StopCalled(s', i, app) && Owns(s', u, app)
      ensures false
    {
      StoppedNotOwned(s, t, started, i, u, app);
    }
  }

  lemma {:induction false} OwnedNotResident(s: System, t: nat, started: bool, u: nat, app: nat)
    requires t < |s.threads| && Invariant(s) && Owns(Step(s, t, started), u, app)
    ensures !IsResident(Step(s, t, started), app)
  {
    hide AllSomewhere, OneStop, StopCalled;
    if IsResident(Step(s, t, started), app) {
      ResidentSource(s, t, started, app);
      if u != t {
        OthersOwn(s, t, started, u, app);
      } else {
        OwnSource(s, t, started, app);
      }
    }
  }

  lemma {:induction false} StoppedNotResident(s: System, t: nat, started: bool, i: nat, app: nat)
    requires t < |s.threads| && Invariant(s) && StopCalled(Step(s, t, started), i, app)
    ensures !IsResident(Step(s, t, started), app)
  {
    hide Step, AllSomewhere, OneStop, Owns, IsResident;
    if IsResident(Step(s, t, started), app) {
      ResidentSource(s, t, started, app);
      StopSource(s, t, started, i, app);
    }
  }

  lemma {:induction false} StoppedNotOwned(s: System, t: nat, started: bool, i: nat, u: nat, app: nat)
    requires t < |s.threads| && Invariant(s) && StopCalled(Step(s, t, started), i, app)
    ensures !Owns(Step(s, t, started), u, app)
  {
    StopSource(s, t, started, i, app);
    if Owns(Step(s, t, started), u, app) {
      if u != t {
        OthersOwn(s, t, started, u, app);
      } else {
        OwnSource(s, t, started, app);
      }
    }
  }

  lemma {:induction false} StepSomewhere(s: System, t: nat, started: bool, app: nat)
    requires t < |s.threads| && Invariant(s) && app < |Step(s, t, started).kappas|
    ensures Somewhere(Step(s, t, started), app)
  {
    var s' := Step(s, t, started);
    if app == |s.kappas| {
      assert Owns(s', t, app);
    } else {
      assert Somewhere(s, app);
      hide OneOwner, OneStop, Disjoint, AllSomewhere;
      if IsResident(s, app) {
        assert IsResident(s', app) || Owns(s', t, app);
      } else if u: nat :| Owns(s, u, app) {
        if u != t {
          OthersOwn(s, t, started, u, app);
        } else {
          assert Owns(s', t, app) || IsResident(s', app) || StopCalled(s', |s.stops|, app);
        }
      } else {
        var i :| StopCalled(s, i, app);
        assert StopCalled(s', i, app);
      }
    }
  }

  lemma {:induction false} StepKeeps(s: System, t: nat, started: bool)
    requires t < |s.threads| && Invariant(s)
    ensures Invariant(Step(s, t, started))
  {
    StepCatalogued(s, t, started);
    StepOneOwner(s, t, started);
    StepOneStop(s, t, started);
    StepDisjoint(s, t, started);
    hide *;
    forall app | 0 <= app < |Step(s, t, started).kappas|
      ensures Somewhere(Step(s, t, started), app)
    {
      StepSomewhere(s, t, started, app);
    }
    Assemble(Step(s, t, started));
  }

  lemma {:induction false} Assemble(s: System)
    requires Catalogued(s) && OneOwner(s) && OneStop(s) && Disjoint(s)
    requires forall app :: 0 <= app < |s.kappas| ==> Somewhere(s, app)
    ensures Invariant(s)
  {
  }

  lemma {:induction false} SpawnOwns(s: System, thread: Thread, t: nat, app: nat)
    requires Owned(thread).None?
    ensures Owns(s.(threads := s.threads + [thread]), t, app) == Owns(s, t, app)
  {
  }

  lemma {:induction false} SpawnKeeps(s: System, call: Call)
    requires Invariant(s)
    ensures Invariant(s.(threads := s.threads + [Entry(call)]))
  {
    var s' := s.(threads := s.threads + [Entry(call)]);
    forall t: nat, app: nat
      ensures Owns(s', t, app) == Owns(s, t, app)
    {
      SpawnOwns(s, Entry(call), t, app);
    }
    assert forall app :: IsResident(s', app) == IsResident(s, app);
    assert forall i, app :: StopCalled(s', i, app) == StopCalled(s, i, app);
    forall app | 0 <= app < |s'.kappas|
      ensures Somewhere(s', app)
    {
      assert Somewhere(s, app);
    }
  }

  lemma {:induction false} RunKeeps(run: seq<System>, i: nat)
    requires IsRun(run) && i < |run|
    ensures Invariant(run[i])
    decreases i
  {
    hide Invariant, Step;
    if i == 0 {
      EmptyHolds();
    } else {
      RunKeeps(run, i - 1);
      assert Next(run[i - 1], run[i]);
      if Steps(run[i - 1], run[i]) {
        var t, started :| StepsBy(run[i - 1], run[i], t, started);
        StepKeeps(run[i - 1], t, started);
      } else {
        var call :| run[i] == run[i - 1].(threads := run[i - 1].threads + [Entry(call)]);
        SpawnKeeps(run[i - 1], call);
      }
    }
  }

  lemma {:induction false} EmptyHolds()
    ensures Invariant(System(map[], [], [], []))
  {
  }

  // ---------- What holds in every run ----------

  /** Every entry of the resident map is a started application of that very archive, and no application is
      resident under two labels. */
  lemma {:induction false} OneResidentPerKappa(run: seq<System>, i: nat)
    requires IsRun(run) && i < |run|
    ensures forall k :: k in run[i].resident ==> IsResident(run[i], run[i].resident[k]) && run[i].kappas[run[i].resident[k]] == k
    ensures forall k, m :: k in run[i].resident && m in run[i].resident && run[i].resident[k] == run[i].resident[m] ==> k == m
  {
    hide IsRun, OneOwner, OneStop, Disjoint, AllSomewhere;
    RunKeeps(run, i);
  }

  /** Every application ever started is in exactly one place: resident, owned by exactly one load or unload in
      flight, or handed exactly one stop call. */
  lemma {:induction false} StartedIsAccountedFor(run: seq<System>, i: nat, app: nat)
    requires IsRun(run) && i < |run| && app < |run[i].kappas|
    ensures var s := run[i];
      && (IsResident(s, app) || (exists t :: Owns(s, t, app)) || (exists j :: StopCalled(s, j, app)))
      && (IsResident(s, app) ==> (forall t :: !Owns(s, t, app)) && (forall j :: !StopCalled(s, j, app)))
      && (forall t, u :: Owns(s, t, app) && Owns(s, u, app) ==> t == u)
      && (forall t, j :: Owns(s, t, app) ==> !StopCalled(s, j, app))
      && (forall j, k :: StopCalled(s, j, app) && StopCalled(s, k, app) ==> j == k)
  {
    hide IsRun, Step, IsResident, Owns, StopCalled;
    RunKeeps(run, i);
    assert Somewhere(run[i], app);
  }

  /** Each stop call is made by the thread that owned the application just before, and ends that ownership. */
  lemma {:induction false} OnlyOwnersStop(run: seq<System>, i: nat, j: nat)
    requires IsRun(run) && i + 1 < |run| && |run[i].stops| <= j < |run[i + 1].stops|
    ensures Owns(run[i], run[i + 1].stops[j].caller, run[i + 1].stops[j].app)
    ensures !Owns(run[i + 1], run[i + 1].stops[j].caller, run[i + 1].stops[j].app)
  {
    assert Next(run[i], run[i + 1]);
  }

  /** When nothing is in flight, no started application has leaked: each is resident or was stopped. */
  lemma {:induction false} NothingLeaks(run: seq<System>, i: nat, app: nat)
    requires IsRun(run) && i < |run| && app < |run[i].kappas|
    requires forall t :: 0 <= t < |run[i].threads| ==> run[i].threads[t] == Done
    ensures IsResident(run[i], app) <==> !exists j :: StopCalled(run[i], j, app)
  {
    hide IsRun, Step, IsResident, StopCalled;
    StartedIsAccountedFor(run, i, app);
    assert forall t :: !Owns(run[i], t, app);
  }

  // ---------- What one call does ----------

  /** `steps` steps of one thread, with nothing in between. */
  ghost function Alone(s: System, t: nat, started: bool, steps: nat): System
    requires t < |s.threads|
    ensures |Alone(s, t, started, steps).threads| == |s.threads|
    decreases steps
  {
    if steps == 0 then s else Alone(Step(s, t, started), t, started, steps - 1)
  }

  /** A load that nothing interferes with leaves its archive resident: it starts one application when there is none,
      and nothing at all happens when there is one already or the start fails. */
  lemma {:induction false} LoadAlone(s: System, t: nat, kappa: Kappa, started: bool)
    requires t < |s.threads| && s.threads[t] == LoadCheck(kappa)
    ensures Alone(s, t, started, 4) ==
      if kappa in s.resident || !started then s.(threads := s.threads[t := Done])
      else System(s.resident[kappa := |s.kappas|], s.kappas + [kappa], s.threads[t := Done], s.stops)
  {
    var s1 := Step(s, t, started);
    var s2 := Step(s1, t, started);
    var s3 := Step(s2, t, started);
    assert Alone(s, t, started, 4) == Alone(s1, t, started, 3) == Alone(s2, t, started, 2) == Alone(s3, t, started, 1) == Step(s3, t, started);
  }

  /** A load that finds its archive resident after starting it stops what it started and changes nothing else. */
  lemma {:induction false} LateLoadAlone(s: System, t: nat, kappa: Kappa, app: nat, started: bool)
    requires t < |s.threads| && s.threads[t] == LoadInsert(kappa, app) && kappa in s.resident
    ensures Alone(s, t, started, 2) == s.(threads := s.threads[t := Done], stops := s.stops + [StopCall(app, t)])
  {
    var s1 := Step(s, t, started);
    assert Alone(s, t, started, 2) == Alone(s1, t, started, 1) == Step(s1, t, started);
  }

  /** An unload that nothing interferes with removes the archive and stops its application, if it is resident. */
  lemma {:induction false} UnloadAlone(s: System, t: nat, kappa: Kappa, started: bool)
    requires t < |s.threads| && s.threads[t] == UnloadTake(kappa)
    ensures Alone(s, t, started, 2) ==
      if kappa in s.resident then System(s.resident - {kappa}, s.kappas, s.threads[t := Done], s.stops + [StopCall(s.resident[kappa], t)])
      else s.(threads := s.threads[t := Done])
  {
    var s1 := Step(s, t, started);
    assert Alone(s, t, started, 2) == Alone(s1, t, started, 1) == Step(s1, t, started);
  }

  /** Steps a call has left at most. */
  ghost function StepsLeft(thread: Thread): nat {
    match thread
    case LoadCheck(_) => 4
    case LoadStart(_) => 3
    case LoadInsert(_, _) => 2
    case LoadStop(_) => 1
    case UnloadTake(_) => 2
    case UnloadStop(_) => 1
    case Done => 0
  }

  /** Whatever the other threads do: a call moves towards its end, touches the map only under its own label, starts or
      stops at most one application in a step, and leaves the other threads alone. A load that starts an application
      and ends without stopping it has made that application resident. */
  lemma {:induction false} StepEffects(s: System, t: nat, started: bool)
    requires t < |s.threads|
    ensures var s' := Step(s, t, started);
      && |s'.threads| == |s.threads| && (forall u :: 0 <= u < |s.threads| && u != t ==> s'.threads[u] == s.threads[u])
      && (s.threads[t] != Done ==> StepsLeft(s'.threads[t]) < StepsLeft(s.threads[t]))
      && s.kappas <= s'.kappas && s.stops <= s'.stops
      && (s'.kappas != s.kappas ==> started && s.threads[t].LoadStart? && s'.kappas == s.kappas + [s.threads[t].kappa])
      && (s.threads[t].LoadStart? && started ==> s'.threads[t] == LoadInsert(s.threads[t].kappa, |s.kappas|) && |s'.kappas| == |s.kappas| + 1)
      && (s.threads[t].LoadStart? && !started ==> s'.threads[t] == Done)
      && (s'.resident != s.resident ==>
        && (s.threads[t].LoadInsert? || s.threads[t].UnloadTake?)
        && s'.resident - {s.threads[t].kappa} == s.resident - {s.threads[t].kappa})
      && (s.threads[t].LoadInsert? ==> s.threads[t].kappa in s'.resident && (s'.threads[t] == Done || s'.threads[t] == LoadStop(s.threads[t].app)))
      && (s.threads[t].LoadInsert? && s'.threads[t] == Done ==> s'.resident[s.threads[t].kappa] == s.threads[t].app)
      && (s.threads[t].LoadCheck? && s'.threads[t] == Done ==> s.threads[t].kappa in s.resident)
      && (s.threads[t].UnloadTake? ==> s.threads[t].kappa !in s'.resident)
  {
  }
}
