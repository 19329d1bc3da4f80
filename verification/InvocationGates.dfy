/** Invocations, View intents and stops of a running application, as a system of steps taken by any number of
    threads (src/holo_provider.rs:304-353, 386-481). Gate 0 is the root's; a step that waits for a held gate is
    not enabled. */
module InvocationGates {
  import opened Basics

  /** `LifecycleState` */
  datatype Life = Planned | Preparing | Running | Stopping | Stopped | Failed

  datatype Outcome = Invoked | Refused | IntentAnswered | StopSucceeded | StopFailed | AlreadyStopping | CannotStop

  /** Where a call is. `thenStop` marks `invoke_then_stop`. */
  datatype Thread =
    | InvokeWait(thenStop: bool)
    | InvokeHeld(thenStop: bool)
    | Invoking(thenStop: bool)
    | IntentWait(gate: nat)
    | IntentInvoking(gate: nat)
    | StopAcquire(next: nat)
    | StopCheck
    | StopExchange(seen: Life)
    | ReverseStop(left: nat, failures: nat)
    | StopRelease(from: nat, outcome: Outcome)
    | Done(outcome: Outcome)

  /** `gates[g]` is the thread that holds gate `g`; `completed` counts the stops that stored a final state. */
  datatype System = System(layers: nat, life: Life, gates: seq<Option<nat>>, threads: seq<Thread>, completed: nat)

  datatype Call = Invoke(thenStop: bool) | Intent(gate: nat) | Stop

  function Entry(call: Call): Thread {
    match call
    case Invoke(thenStop) => InvokeWait(thenStop)
    case Intent(gate) => IntentWait(gate)
    case Stop => StopAcquire(0)
  }

  function Free(s: System, gate: nat): bool {
    gate < |s.gates| && s.gates[gate].None?
  }

  /** Thread `t` moves on. */
  function To(s: System, t: nat, thread: Thread): System
    requires t < |s.threads|
  {
    s.(threads := s.threads[t := thread])
  }

  function Take(s: System, t: nat, gate: nat, thread: Thread): System
    requires t < |s.threads| && gate < |s.gates|
  {
    To(s, t, thread).(gates := s.gates[gate := Some(t)])
  }

  function Release(s: System, t: nat, gate: nat, thread: Thread): System
    requires t < |s.threads| && gate < |s.gates|
  {
    To(s, t, thread).(gates := s.gates[gate := None])
  }

  function AfterInvoke(thenStop: bool, outcome: Outcome): Thread {
    if thenStop then StopAcquire(0) else Done(outcome)
  }

  /** The next step of thread `t`, or `None` while it waits for a gate or is done. `ok` is the answer of the
      layer that is asked to stop, if one is. */
  function Step(s: System, t: nat, ok: bool): Option<System>
    requires t < |s.threads|
  {
    match s.threads[t]
    case InvokeWait(thenStop) => if Free(s, 0) then Some(Take(s, t, 0, InvokeHeld(thenStop))) else None
    case InvokeHeld(thenStop) =>
      if |s.gates| == 0 then None
      else if s.life != Running then Some(Release(s, t, 0, AfterInvoke(thenStop, Refused)))
      else Some(To(s, t, Invoking(thenStop)))
    case Invoking(thenStop) => if |s.gates| == 0 then None else Some(Release(s, t, 0, AfterInvoke(thenStop, Invoked)))
    case IntentWait(gate) => if Free(s, gate) then Some(Take(s, t, gate, IntentInvoking(gate))) else None
    case IntentInvoking(gate) => if gate < |s.gates| then Some(Release(s, t, gate, Done(IntentAnswered))) else None
    case StopAcquire(next) =>
      if next >= |s.gates| then Some(To(s, t, StopCheck))
      else if Free(s, next) then Some(Take(s, t, next, StopAcquire(next + 1))) else None
    case StopCheck =>
      Some(match s.life
        case Stopped => To(s, t, StopRelease(0, StopSucceeded))
        case Stopping => To(s, t, StopRelease(0, AlreadyStopping))
        case Running => To(s, t, StopExchange(Running))
        case Failed => To(s, t, StopExchange(Failed))
        case Planned => To(s, t, StopRelease(0, CannotStop))
        case Preparing => To(s, t, StopRelease(0, CannotStop)))
    case StopExchange(seen) =>
      if s.life == seen then Some(To(s, t, ReverseStop(s.layers, 0)).(life := Stopping))
      else Some(To(s, t, StopCheck))
    case ReverseStop(left, failures) =>
      if left > 0 then Some(To(s, t, ReverseStop(left - 1, if ok then failures else failures + 1)))
      else if failures == 0 then Some(To(s, t, StopRelease(0, StopSucceeded)).(life := Stopped, completed := s.completed + 1))
      else Some(To(s, t, StopRelease(0, StopFailed)).(life := Failed, completed := s.completed + 1))
    case StopRelease(from, outcome) =>
      if from < |s.gates| then Some(Release(s, t, from, StopRelease(from + 1, outcome)))
      else Some(To(s, t, Done(outcome)))
    case Done(_) => None
  }

  ghost predicate Steps(s: System, s': System) {
    exists t, ok :: 0 <= t < |s.threads| && Step(s, t, ok) == Some(s')
  }

  /** A new call; intents name the gate of an existing application. */
  ghost predicate Spawns(s: System, s': System) {
    exists call: Call :: (call.Intent? ==> call.gate < |s.gates|) && s' == s.(threads := s.threads + [Entry(call)])
  }

  /** A started tree: at least the root's primary layer runs, with one gate per application, all free. */
  ghost predicate Initial(s: System) {
    s.layers > 0 && s.life == Running && s.threads == [] && s.completed == 0 && |s.gates| > 0 && forall g :: 0 <= g < |s.gates| ==> s.gates[g].None?
  }

  ghost predicate IsRun(run: seq<System>) {
    run != [] && Initial(run[0]) && forall i :: 0 <= i < |run| - 1 ==> Steps(run[i], run[i + 1]) || Spawns(run[i], run[i + 1])
  }

  // ---------- The invariant ----------

  predicate Holds(thread: Thread, gate: nat) {
    match thread
    case InvokeHeld(_) => gate == 0
    case Invoking(_) => gate == 0
    case IntentInvoking(g) => gate == g
    case StopAcquire(next) => gate < next
    case StopCheck => true
    case StopExchange(_) => true
    case ReverseStop(_, _) => true
    case StopRelease(from, _) => gate >= from
    case _ => false
  }

  /** Every gate is held by exactly the thread it names. */
  ghost predicate Owned(s: System) {
    forall g, t :: 0 <= g < |s.gates| && 0 <= t < |s.threads| ==> (s.gates[g] == Some(t) <==> Holds(s.threads[t], g))
  }

  ghost predicate OwnersExist(s: System) {
    forall g :: 0 <= g < |s.gates| && s.gates[g].Some? ==> s.gates[g].value < |s.threads|
  }

  /** What each thread may assume of the shared state. */
  ghost predicate Sound(s: System, thread: Thread) {
    match thread
    case Invoking(_) => s.life == Running
    case IntentWait(gate) => gate < |s.gates|
    case IntentInvoking(gate) => gate < |s.gates|
    case StopAcquire(next) => next <= |s.gates|
    case StopCheck => s.life != Stopping
    case StopExchange(seen) => seen == s.life && seen != Stopping
    case ReverseStop(_, _) => s.life == Stopping
    case StopRelease(from, outcome) => from <= |s.gates| && outcome != AlreadyStopping && outcome != CannotStop
    case Done(outcome) => outcome != AlreadyStopping && outcome != CannotStop
    case _ => true
  }

  ghost predicate AllSound(s: System) {
    forall t :: 0 <= t < |s.threads| ==> Sound(s, s.threads[t])
  }

  ghost predicate StoppingIsOwned(s: System) {
    s.life == Stopping ==> exists t :: 0 <= t < |s.threads| && s.threads[t].ReverseStop?
  }

  ghost predicate Invariant(s: System) {
    && |s.gates| > 0 && s.life != Planned && s.life != Preparing
    && Owned(s) && OwnersExist(s) && AllSound(s) && StoppingIsOwned(s)
    && (s.completed > 0 ==> s.life != Running)
  }

  /** A thread that holds every gate excludes every other gated thread. */
  lemma {:induction false} Exclusive(s: System, t: nat, u: nat, g: nat)
    requires Owned(s) && g < |s.gates| && t < |s.threads| && u < |s.threads|
    requires Holds(s.threads[t], g) && Holds(s.threads[u], g)
    ensures t == u
  {
    assert s.gates[g] == Some(t) && s.gates[g] == Some(u);
  }

  /** Moving one thread without touching the gates. */
  lemma {:induction false} MoveOwned(s: System, t: nat, thread: Thread)
    requires t < |s.threads| && Owned(s) && OwnersExist(s)
    requires forall g :: 0 <= g < |s.gates| ==> Holds(s.threads[t], g) == Holds(thread, g)
    ensures Owned(To(s, t, thread)) && OwnersExist(To(s, t, thread))
  {
    hide Holds;
  }

  lemma {:induction false} TakeOwned(s: System, t: nat, gate: nat, thread: Thread)
    requires t < |s.threads| && gate < |s.gates| && s.gates[gate].None? && Owned(s) && OwnersExist(s)
    requires forall g :: 0 <= g < |s.gates| ==> (Holds(thread, g) <==> Holds(s.threads[t], g) || g == gate)
    ensures Owned(Take(s, t, gate, thread)) && OwnersExist(Take(s, t, gate, thread))
  {
    hide Holds;
    var after := Take(s, t, gate, thread);
    forall g, u | 0 <= g < |s.gates| && 0 <= u < |s.threads|
      ensures after.gates[g] == Some(u) <==> Holds(after.threads[u], g)
    {
      assert s.gates[g] == Some(u) <==> Holds(s.threads[u], g);
    }
  }

  lemma {:induction false} ReleaseOwned(s: System, t: nat, gate: nat, thread: Thread)
    requires t < |s.threads| && gate < |s.gates| && Holds(s.threads[t], gate) && Owned(s) && OwnersExist(s)
    requires forall g :: 0 <= g < |s.gates| ==> (Holds(thread, g) <==> Holds(s.threads[t], g) && g != gate)
    ensures Owned(Release(s, t, gate, thread)) && OwnersExist(Release(s, t, gate, thread))
  {
    hide Holds;
    var after := Release(s, t, gate, thread);
    forall g, u | 0 <= g < |s.gates| && 0 <= u < |s.threads|
      ensures after.gates[g] == Some(u) <==> Holds(after.threads[u], g)
    {
      assert s.gates[g] == Some(u) <==> Holds(s.threads[u], g);
      assert s.gates[gate] == Some(t);
    }
  }

  lemma {:induction false} StepOwned(s: System, t: nat, ok: bool)
    requires t < |s.threads| && Invariant(s) && Step(s, t, ok).Some?
    ensures Owned(Step(s, t, ok).value) && OwnersExist(Step(s, t, ok).value)
  {
    hide Owned, OwnersExist, StoppingIsOwned;
    var thread := s.threads[t];
    assert Sound(s, thread);
    match thread {
      case InvokeWait(thenStop) => TakeOwned(s, t, 0, InvokeHeld(thenStop));
      case InvokeHeld(thenStop) =>
        if s.life != Running {
          ReleaseOwned(s, t, 0, AfterInvoke(thenStop, Refused));
        } else {
          MoveOwned(s, t, Invoking(thenStop));
        }
      case Invoking(thenStop) => ReleaseOwned(s, t, 0, AfterInvoke(thenStop, Invoked));
      case IntentWait(gate) => TakeOwned(s, t, gate, IntentInvoking(gate));
      case IntentInvoking(gate) => ReleaseOwned(s, t, gate, Done(IntentAnswered));
      case StopAcquire(next) =>
        if next >= |s.gates| {
          MoveOwned(s, t, StopCheck);
        } else {
          TakeOwned(s, t, next, StopAcquire(next + 1));
        }
      case StopRelease(from, outcome) =>
        if from < |s.gates| {
          ReleaseOwned(s, t, from, StopRelease(from + 1, outcome));
        } else {
          MoveOwned(s, t, Done(outcome));
        }
      case StopCheck => MovedOwned(s, t, ok);
      case StopExchange(_) => MovedOwned(s, t, ok);
      case ReverseStop(_, _) => MovedOwned(s, t, ok);
      case Done(_) =>
    }
  }

  lemma {:induction false} MovedOwned(s: System, t: nat, ok: bool)
    requires t < |s.threads| && Owned(s) && OwnersExist(s) && Step(s, t, ok).Some?
    requires s.threads[t].StopCheck? || s.threads[t].StopExchange? || s.threads[t].ReverseStop?
    ensures Owned(Step(s, t, ok).value) && OwnersExist(Step(s, t, ok).value)
  {
    hide Owned, OwnersExist;
    var after := Step(s, t, ok).value;
    MoveOwned(s, t, after.threads[t]);
    GatesOnly(after, To(s, t, after.threads[t]));
  }

  lemma {:induction false} GatesOnly(a: System, b: System)
    requires a.gates == b.gates && a.threads == b.threads && Owned(b) && OwnersExist(b)
    ensures Owned(a) && OwnersExist(a)
  {
    hide Holds;
  }

  /** While one thread is past its checks with every gate in hand, the others assume nothing about the state
      that its exchange could break. */
  lemma {:induction false} OthersUnaffected(s: System, t: nat, u: nat, life: Life)
    requires Invariant(s) && t < |s.threads| && u < |s.threads| && t != u
    requires forall g :: 0 <= g < |s.gates| ==> Holds(s.threads[t], g)
    ensures Sound(s.(life := life), s.threads[u])
  {
    assert Sound(s, s.threads[u]);
    if Holds(s.threads[u], 0) {
      Exclusive(s, t, u, 0);
    }
  }

  /** Every step keeps what the threads rely on. */
  lemma {:induction false} StepSound(s: System, t: nat, ok: bool)
    requires t < |s.threads| && Invariant(s) && Step(s, t, ok).Some?
    ensures AllSound(Step(s, t, ok).value)
  {
    hide Owned, OwnersExist, StoppingIsOwned;
    var after := Step(s, t, ok).value;
    assert Sound(s, s.threads[t]);
    NotStoppingWhenAllHeld(s, t);
    forall u | 0 <= u < |after.threads|
      ensures Sound(after, after.threads[u])
    {
      if u != t {
        assert Sound(s, s.threads[u]);
        if after.life != s.life {
          OthersUnaffected(s, t, u, after.life);
        }
      }
    }
  }

  lemma {:induction false} NotStoppingWhenAllHeld(s: System, t: nat)
    requires t < |s.threads| && Invariant(s)
    ensures s.threads[t] == StopAcquire(|s.gates|) ==> s.life != Stopping
  {
    if s.threads[t] == StopAcquire(|s.gates|) && s.life == Stopping {
      var u :| 0 <= u < |s.threads| && s.threads[u].ReverseStop?;
      Exclusive(s, t, u, 0);
    }
  }

  lemma {:induction false} StepStoppingOwned(s: System, t: nat, ok: bool)
    requires t < |s.threads| && Invariant(s) && Step(s, t, ok).Some?
    ensures StoppingIsOwned(Step(s, t, ok).value)
  {
    hide Owned, OwnersExist, AllSound;
    var after := Step(s, t, ok).value;
    if after.life == Stopping {
      if s.life == Stopping {
        var u :| 0 <= u < |s.threads| && s.threads[u].ReverseStop?;
        if u == t {
          assert after.threads[t].ReverseStop?;
        } else {
          assert after.threads[u] == s.threads[u];
        }
      } else {
        assert after.threads[t].ReverseStop?;
      }
    }
  }

  lemma {:induction false} StepKeeps(s: System, t: nat, ok: bool)
    requires t < |s.threads| && Invariant(s) && Step(s, t, ok).Some?
    ensures Invariant(Step(s, t, ok).value)
    ensures s.life != Running ==> Step(s, t, ok).value.life != Running
  {
    StepOwned(s, t, ok);
    StepSound(s, t, ok);
    StepStoppingOwned(s, t, ok);
    hide Owned, OwnersExist, StoppingIsOwned;
    assert Sound(s, s.threads[t]);
    hide AllSound;
  }

  lemma {:induction false} SpawnKeeps(s: System, s': System)
    requires Invariant(s) && Spawns(s, s')
    ensures Invariant(s')
  {
    forall t | 0 <= t < |s'.threads|
      ensures Sound(s', s'.threads[t])
    {
      if t < |s.threads| {
        assert Sound(s, s.threads[t]);
      }
    }
    if s.life == Stopping {
      var u :| 0 <= u < |s.threads| && s.threads[u].ReverseStop?;
      assert s'.threads[u] == s.threads[u];
    }
  }

  lemma {:induction false} RunKeeps(run: seq<System>, i: nat)
    requires IsRun(run) && i < |run|
    ensures Invariant(run[i])
    decreases i
  {
    hide Invariant, Step;
    if i == 0 {
      InitialHolds(run[0]);
    } else {
      RunKeeps(run, i - 1);
      if Spawns(run[i - 1], run[i]) {
        SpawnKeeps(run[i - 1], run[i]);
      } else {
        var t, ok :| 0 <= t < |run[i - 1].threads| && Step(run[i - 1], t, ok) == Some(run[i]);
        StepKeeps(run[i - 1], t, ok);
      }
    }
  }

  lemma {:induction false} InitialHolds(s: System)
    requires Initial(s)
    ensures Invariant(s)
  {
  }

  // ---------- What holds in every run ----------

  predicate InLayer(thread: Thread) {
    thread.Invoking? || thread.IntentInvoking?
  }

  /** In every reachable state of every interleaving: no layer invocation overlaps a reverse stop, only one
      reverse stop runs at a time, and no call ends with "already stopping" or "cannot stop". */
  lemma {:induction false} NoOverlap(run: seq<System>, i: nat, t: nat, u: nat)
    requires IsRun(run) && i < |run| && t < |run[i].threads| && u < |run[i].threads|
    requires run[i].threads[t].ReverseStop? && (InLayer(run[i].threads[u]) || run[i].threads[u].ReverseStop?)
    ensures t == u
  {
    hide IsRun, StoppingIsOwned;
    RunKeeps(run, i);
    assert Sound(run[i], run[i].threads[u]);
    var g := if run[i].threads[u].IntentInvoking? then run[i].threads[u].gate else 0;
    Exclusive(run[i], t, u, g);
  }

  lemma {:induction false} NeverAlreadyStopping(run: seq<System>, i: nat, t: nat)
    requires IsRun(run) && i < |run| && t < |run[i].threads|
    ensures run[i].threads[t] != Done(AlreadyStopping) && run[i].threads[t] != Done(CannotStop)
    ensures run[i].threads[t].StopCheck? ==> run[i].life != Stopping
    ensures run[i].threads[t].StopExchange? ==> run[i].life == run[i].threads[t].seen
  {
    hide IsRun, Owned, OwnersExist, StoppingIsOwned;
    RunKeeps(run, i);
    assert Sound(run[i], run[i].threads[t]);
  }

  /** The state never returns to `Running`. */
  lemma {:induction false} NeverRunningAgain(run: seq<System>, i: nat, j: nat)
    requires IsRun(run) && i <= j < |run| && run[i].life != Running
    ensures run[j].life != Running
    decreases j
  {
    hide Invariant, Step;
    if i < j {
      NeverRunningAgain(run, i, j - 1);
      if !Spawns(run[j - 1], run[j]) {
        var t, ok :| 0 <= t < |run[j - 1].threads| && Step(run[j - 1], t, ok) == Some(run[j]);
        RunKeeps(run, j - 1);
        StepKeeps(run[j - 1], t, ok);
      }
    }
  }

  /** Once a stop has completed, no root invocation is ever inside its layer again, and every root invoke that
      holds its gate is refused at its next step. */
  lemma {:induction false} RefusedAfterStop(run: seq<System>, i: nat, j: nat, t: nat, ok: bool)
    requires IsRun(run) && i <= j < |run| && run[i].completed > 0 && t < |run[j].threads|
    ensures !run[j].threads[t].Invoking?
    ensures run[j].threads[t].InvokeHeld? ==>
      && Step(run[j], t, ok).Some?
      && Step(run[j], t, ok).value.threads[t] == AfterInvoke(run[j].threads[t].thenStop, Refused)
  {
    RunKeeps(run, i);
    NeverRunningAgain(run, i, j);
    RunKeeps(run, j);
    hide IsRun, Owned, OwnersExist, StoppingIsOwned;
    assert Sound(run[j], run[j].threads[t]);
  }

  // ---------- View intents after a stop ----------

  /** Thread `t` takes its gate for a View intent at step `k`. */
  ghost predicate IntentEnters(run: seq<System>, k: nat, t: nat) {
    && k + 1 < |run| && t < |run[k].threads| && t < |run[k + 1].threads|
    && run[k].threads[t].IntentWait? && run[k + 1].threads[t].IntentInvoking?
  }

  ghost predicate AnyoneInLayer(s: System) {
    exists t :: 0 <= t < |s.threads| && InLayer(s.threads[t])
  }

  /** One application with a primary and a View layer: a stop runs to its end, then a View intent arrives. */
  function Witness(i: nat): System {
    var free: seq<Option<nat>>, held: seq<Option<nat>> := [None], [Some(0)];
    match i
    case 0 => System(2, Running, free, [], 0)
    case 1 => System(2, Running, free, [StopAcquire(0)], 0)
    case 2 => System(2, Running, held, [StopAcquire(1)], 0)
    case 3 => System(2, Running, held, [StopCheck], 0)
    case 4 => System(2, Running, held, [StopExchange(Running)], 0)
    case 5 => System(2, Stopping, held, [ReverseStop(2, 0)], 0)
    case 6 => System(2, Stopping, held, [ReverseStop(1, 0)], 0)
    case 7 => System(2, Stopping, held, [ReverseStop(0, 0)], 0)
    case 8 => System(2, Stopped, held, [StopRelease(0, StopSucceeded)], 1)
    case 9 => System(2, Stopped, free, [StopRelease(1, StopSucceeded)], 1)
    case 10 => System(2, Stopped, free, [StopRelease(1, StopSucceeded), IntentWait(0)], 1)
    case _ => System(2, Stopped, [Some(1)], [StopRelease(1, StopSucceeded), IntentInvoking(0)], 1)
  }

  lemma {:induction false} WitnessSpawns()
    ensures Spawns(Witness(0), Witness(1)) && Spawns(Witness(9), Witness(10))
  {
    assert Witness(1) == Witness(0).(threads := Witness(0).threads + [Entry(Stop)]);
    var call := Intent(0);
    assert Witness(10) == Witness(9).(threads := Witness(9).threads + [Entry(call)]);
  }

  lemma {:induction false} WitnessStops(i: nat)
    requires 1 <= i < 9
    ensures Step(Witness(i), 0, true) == Some(Witness(i + 1))
  {
    var s, s' := Witness(i), Witness(i + 1);
    assert s.threads[0 := s'.threads[0]] == s'.threads;
    assert s.gates[0 := s'.gates[0]] == s'.gates;
    assert i != 1 && i != 8 ==> s.gates == s'.gates;
  }

  lemma {:induction false} WitnessEnters()
    ensures Step(Witness(10), 1, true) == Some(Witness(11))
  {
    var s, s' := Witness(10), Witness(11);
    assert s.gates[0 := Some(1)] == s'.gates;
    assert s.threads[1 := IntentInvoking(0)] == s'.threads;
  }

  /** A View intent reads no lifecycle state, so it can enter the primary layer of an application whose layers
      were all stopped already: this run does. */
  lemma {:induction false} IntentAfterStop() returns (run: seq<System>)
    ensures IsRun(run) && |run| == 12 && run[0].layers == 2
    ensures run[7].completed < run[8].completed && run[11].life == Stopped && AnyoneInLayer(run[11])
  {
    run := seq(12, i requires 0 <= i < 12 => Witness(i));
    assert InLayer(run[11].threads[1]);
    assert Initial(run[0]);
    WitnessSpawns();
    WitnessEnters();
    hide Step, Spawns, Witness, Initial;
    forall i | 0 <= i < |run| - 1
      ensures Steps(run[i], run[i + 1]) || Spawns(run[i], run[i + 1])
    {
      if 1 <= i < 9 {
        WitnessStops(i);
        StepsOf(run[i], run[i + 1], 0);
      } else if i == 10 {
        StepsOf(run[i], run[i + 1], 1);
      }
    }
  }

  lemma {:induction false} StepsOf(s: System, s': System, t: nat)
    requires t < |s.threads| && Step(s, t, true) == Some(s')
    ensures Steps(s, s')
  {
    hide Step;
  }

  /** When a stop completes, it still holds every gate, so nobody is in a layer. */
  lemma {:induction false} NobodyAtCompletion(run: seq<System>, i: nat)
    requires IsRun(run) && 0 < i < |run| && run[i - 1].completed < run[i].completed
    ensures !AnyoneInLayer(run[i])
  {
    RunKeeps(run, i);
    var t, ok :| 0 <= t < |run[i - 1].threads| && Step(run[i - 1], t, ok) == Some(run[i]);
    assert run[i].threads[t].StopRelease? && run[i].threads[t].from == 0;
    hide IsRun, StoppingIsOwned, Step;
    forall u | 0 <= u < |run[i].threads|
      ensures !InLayer(run[i].threads[u])
    {
      assert Sound(run[i], run[i].threads[u]);
      if InLayer(run[i].threads[u]) {
        var g := if run[i].threads[u].IntentInvoking? then run[i].threads[u].gate else 0;
        Exclusive(run[i], t, u, g);
      }
    }
  }

  lemma {:induction false} StepEnters(s: System, t: nat, ok: bool, u: nat)
    requires t < |s.threads| && u < |s.threads| && Step(s, t, ok).Some? && s.life != Running && !InLayer(s.threads[u])
    ensures |Step(s, t, ok).value.threads| == |s.threads|
    ensures InLayer(Step(s, t, ok).value.threads[u]) ==> s.threads[u].IntentWait? && Step(s, t, ok).value.threads[u].IntentInvoking?
  {
  }

  lemma {:induction false} SpawnEnters(s: System, s': System)
    requires Spawns(s, s') && !AnyoneInLayer(s)
    ensures !AnyoneInLayer(s')
  {
    forall u | 0 <= u < |s'.threads|
      ensures !InLayer(s'.threads[u])
    {
      assert u < |s.threads| ==> s'.threads[u] == s.threads[u];
    }
  }

  /** Once the state has left `Running`, the only way into a layer is a View intent taking its gate. */
  lemma {:induction false} EntersByIntent(run: seq<System>, j: nat)
    requires IsRun(run) && j + 1 < |run| && run[j].life != Running && !AnyoneInLayer(run[j])
    ensures AnyoneInLayer(run[j + 1]) ==> exists t :: IntentEnters(run, j, t)
  {
    hide Step, Spawns, InLayer;
    if Spawns(run[j], run[j + 1]) {
      SpawnEnters(run[j], run[j + 1]);
    } else {
      var t, ok :| 0 <= t < |run[j].threads| && Step(run[j], t, ok) == Some(run[j + 1]);
      StepLength(run[j], t, ok);
      if AnyoneInLayer(run[j + 1]) {
        var u :| 0 <= u < |run[j + 1].threads| && InLayer(run[j + 1].threads[u]);
        StepEnters(run[j], t, ok, u);
        assert IntentEnters(run, j, u);
      }
    }
  }

  lemma {:induction false} StepLength(s: System, t: nat, ok: bool)
    requires t < |s.threads| && Step(s, t, ok).Some?
    ensures |Step(s, t, ok).value.threads| == |s.threads|
  {
  }

  lemma {:induction false} NobodyWithoutIntents(run: seq<System>, i: nat, j: nat)
    requires IsRun(run) && 0 < i <= j < |run| && run[i - 1].completed < run[i].completed
    requires forall k, t :: i <= k < j ==> !IntentEnters(run, k, t)
    ensures !AnyoneInLayer(run[j])
    decreases j
  {
    hide Step, IntentEnters, AnyoneInLayer;
    if i == j {
      NobodyAtCompletion(run, i);
    } else {
      NobodyWithoutIntents(run, i, j - 1);
      CompletedIsStopped(run, i);
      NeverRunningAgain(run, i, j - 1);
      EntersByIntent(run, j - 1);
    }
  }

  lemma {:induction false} CompletedIsStopped(run: seq<System>, i: nat)
    requires IsRun(run) && i < |run| && run[i].completed > 0
    ensures run[i].life != Running
  {
    hide IsRun;
    RunKeeps(run, i);
  }

  /** A View intent arrives at step `k`. */
  ghost predicate IntentArrives(run: seq<System>, k: nat) {
    && k + 1 < |run| && |run[k + 1].threads| == |run[k].threads| + 1
    && run[k + 1].threads[|run[k].threads|].IntentWait?
  }

  /** From step `i` on no View intent waits and none arrives. */
  ghost predicate IntentsAreOver(run: seq<System>, i: nat) {
    && i < |run|
    && (forall t :: 0 <= t < |run[i].threads| ==> !run[i].threads[t].IntentWait?)
    && (forall k :: i <= k ==> !IntentArrives(run, k))
  }

  /** From step `i` on nobody is in a layer. */
  ghost predicate Quiet(run: seq<System>, i: nat) {
    forall j :: i <= j < |run| ==> !AnyoneInLayer(run[j])
  }

  ghost predicate AllDone(s: System) {
    forall t :: 0 <= t < |s.threads| ==> s.threads[t].Done?
  }

  ghost predicate AllReturned(run: seq<System>) {
    run != [] && AllDone(run[|run| - 1])
  }

  lemma {:induction false} NoneWaits(run: seq<System>, i: nat, j: nat, t: nat)
    requires IsRun(run) && i <= j < |run| && IntentsAreOver(run, i) && t < |run[j].threads|
    ensures !run[j].threads[t].IntentWait?
    decreases j
  {
    if i < j {
      if t < |run[j - 1].threads| {
        NoneWaits(run, i, j - 1, t);
      }
      hide IsRun;
      assert !IntentArrives(run, j - 1);
      if Spawns(run[j - 1], run[j]) {
        SpawnedThreads(run[j - 1], run[j]);
      } else {
        var u, ok :| 0 <= u < |run[j - 1].threads| && Step(run[j - 1], u, ok) == Some(run[j]);
        WaitStays(run[j - 1], u, ok, t);
      }
    }
  }

  lemma {:induction false} SpawnedThreads(s: System, s': System)
    requires Spawns(s, s')
    ensures |s'.threads| == |s.threads| + 1 && forall t :: 0 <= t < |s.threads| ==> s'.threads[t] == s.threads[t]
  {
  }

  /** A thread waits for an intent's gate until it takes it, and nothing else starts to wait. */
  lemma {:induction false} WaitStays(s: System, u: nat, ok: bool, t: nat)
    requires u < |s.threads| && Step(s, u, ok).Some?
    ensures |Step(s, u, ok).value.threads| == |s.threads|
    ensures t < |s.threads| && Step(s, u, ok).value.threads[t].IntentWait? ==> s.threads[t].IntentWait?
    ensures t < |s.threads| && s.threads[t].IntentWait? ==>
      Step(s, u, ok).value.threads[t].IntentWait? || Step(s, u, ok).value.threads[t].IntentInvoking?
  {
  }

  /** A View intent that has returned was in its layer before. */
  lemma {:induction false} WaitingEnters(run: seq<System>, k: nat, t: nat) returns (j: nat)
    requires IsRun(run) && AllReturned(run) && k < |run| && t < |run[k].threads| && run[k].threads[t].IntentWait?
    ensures k < j < |run| && AnyoneInLayer(run[j])
    decreases |run| - k
  {
    assert k < |run| - 1;
    if Spawns(run[k], run[k + 1]) {
      SpawnedThreads(run[k], run[k + 1]);
    } else {
      var u, ok :| 0 <= u < |run[k].threads| && Step(run[k], u, ok) == Some(run[k + 1]);
      WaitStays(run[k], u, ok, t);
    }
    if run[k + 1].threads[t].IntentInvoking? {
      j := k + 1;
      assert InLayer(run[j].threads[t]);
    } else {
      j := WaitingEnters(run, k + 1, t);
    }
  }

  /** After a completed stop nobody is ever in a layer again if no View intent waits then and none arrives later;
      in a run whose calls have all returned, only if. */
  lemma {:induction false} QuietAfterStopIff(run: seq<System>, i: nat)
    requires IsRun(run) && 0 < i < |run| && run[i - 1].completed < run[i].completed
    ensures IntentsAreOver(run, i) ==> Quiet(run, i)
    ensures AllReturned(run) ==> (Quiet(run, i) <==> IntentsAreOver(run, i))
  {
    hide IsRun, Step;
    if IntentsAreOver(run, i) {
      forall j | i <= j < |run|
        ensures !AnyoneInLayer(run[j])
      {
        forall k: nat, t: nat | i <= k < j
          ensures !IntentEnters(run, k, t)
        {
          if t < |run[k].threads| {
            NoneWaits(run, i, k, t);
          }
        }
        NobodyWithoutIntents(run, i, j);
      }
    }
    if AllReturned(run) && Quiet(run, i) {
      forall t | 0 <= t < |run[i].threads|
        ensures !run[i].threads[t].IntentWait?
      {
        if run[i].threads[t].IntentWait? {
          var j := WaitingEnters(run, i, t);
        }
      }
      forall k: nat | i <= k
        ensures !IntentArrives(run, k)
      {
        if IntentArrives(run, k) {
          var j := WaitingEnters(run, k + 1, |run[k].threads|);
        }
      }
    }
  }

  // ---------- No deadlock and no livelock ----------

  /** The owner of the highest held gate can always move. */
  lemma {:induction false} HighestOwnerMoves(s: System, t: nat, gate: nat)
    requires Invariant(s) && gate < |s.gates| && s.gates[gate] == Some(t)
    requires forall g :: gate < g < |s.gates| ==> s.gates[g].None?
    ensures t < |s.threads| && Step(s, t, true).Some?
  {
    assert Holds(s.threads[t], gate);
    assert Sound(s, s.threads[t]);
    hide Owned, OwnersExist, StoppingIsOwned, AllSound;
    HoldsBelow(s, t, gate);
  }

  lemma {:induction false} HoldsBelow(s: System, t: nat, gate: nat)
    requires Owned(s) && gate < |s.gates| && t < |s.threads|
    requires forall g :: gate < g < |s.gates| ==> s.gates[g].None?
    ensures s.threads[t].StopAcquire? && Holds(s.threads[t], gate) ==>
      s.threads[t].next >= |s.gates| || Free(s, s.threads[t].next)
  {
  }

  lemma {:induction false} SomeMoves(s: System, t: nat, top: nat) returns (u: nat)
    requires Invariant(s) && t < |s.threads| && !s.threads[t].Done? && top <= |s.gates|
    requires forall g :: top <= g < |s.gates| ==> s.gates[g].None?
    ensures u < |s.threads| && Step(s, u, true).Some?
    decreases top
  {
    if top == 0 {
      u := t;
      assert Sound(s, s.threads[t]);
    } else if s.gates[top - 1].None? {
      u := SomeMoves(s, t, top - 1);
    } else {
      u := s.gates[top - 1].value;
      HighestOwnerMoves(s, u, top - 1);
    }
  }

  /** No deadlock: while any call is unfinished, some call can take a step. */
  lemma {:induction false} NoDeadlock(run: seq<System>, i: nat, t: nat)
    requires IsRun(run) && i < |run| && t < |run[i].threads| && !run[i].threads[t].Done?
    ensures exists u :: 0 <= u < |run[i].threads| && Step(run[i], u, true).Some?
  {
    hide IsRun, Step, Invariant;
    RunKeeps(run, i);
    InvariantGates(run[i]);
    var u := SomeMoves(run[i], t, |run[i].gates|);
  }

  lemma {:induction false} InvariantGates(s: System)
    requires Invariant(s)
    ensures |s.gates| > 0
  {
  }

  /** An upper bound on the steps a call still needs. */
  function Rank(s: System, thread: Thread): nat {
    var n := |s.gates|;
    var stop := 2 * n + s.layers + 6;
    match thread
    case InvokeWait(thenStop) => 3 + (if thenStop then stop else 0)
    case InvokeHeld(thenStop) => 2 + (if thenStop then stop else 0)
    case Invoking(thenStop) => 1 + (if thenStop then stop else 0)
    case IntentWait(_) => 2
    case IntentInvoking(_) => 1
    case StopAcquire(next) => if next <= n then stop - next else 0
    case StopCheck => n + s.layers + 5
    case StopExchange(_) => n + s.layers + 4
    case ReverseStop(left, _) => n + left + 3
    case StopRelease(from, _) => if from <= n then n - from + 1 else 1
    case Done(_) => 0
  }

  function TotalRank(s: System, count: nat): nat
    requires count <= |s.threads|
  {
    if count == 0 then 0 else TotalRank(s, count - 1) + Rank(s, s.threads[count - 1])
  }

  lemma {:induction false} TotalDrops(s: System, s': System, t: nat, count: nat)
    requires |s.threads| == |s'.threads| && t < |s.threads| && count <= |s.threads|
    requires forall u :: 0 <= u < |s.threads| && u != t ==> Rank(s', s'.threads[u]) == Rank(s, s.threads[u])
    requires Rank(s', s'.threads[t]) < Rank(s, s.threads[t])
    ensures TotalRank(s', count) <= TotalRank(s, count)
    ensures t < count ==> TotalRank(s', count) < TotalRank(s, count)
    decreases count
  {
    hide Rank;
    if count > 0 {
      TotalDrops(s, s', t, count - 1);
    }
  }

  /** Every step brings its own call closer to its end; in particular the exchange never retries. */
  lemma {:induction false} StepDrops(s: System, t: nat, ok: bool)
    requires Invariant(s) && t < |s.threads| && Step(s, t, ok).Some?
    ensures var s' := Step(s, t, ok).value;
      |s'.threads| == |s.threads| && TotalRank(s', |s'.threads|) < TotalRank(s, |s.threads|)
  {
    hide Owned, OwnersExist, StoppingIsOwned, TotalRank;
    var s' := Step(s, t, ok).value;
    assert Sound(s, s.threads[t]);
    RankDrops(s, t, ok);
    hide Step, AllSound, Sound;
    OthersStay(s, t, ok);
    TotalDrops(s, s', t, |s.threads|);
  }

  lemma {:induction false} RankDrops(s: System, t: nat, ok: bool)
    requires t < |s.threads| && Sound(s, s.threads[t]) && Step(s, t, ok).Some?
    ensures |Step(s, t, ok).value.threads| == |s.threads|
    ensures Rank(Step(s, t, ok).value, Step(s, t, ok).value.threads[t]) < Rank(s, s.threads[t])
  {
  }

  lemma {:induction false} OthersStay(s: System, t: nat, ok: bool)
    requires t < |s.threads| && Step(s, t, ok).Some?
    ensures var s' := Step(s, t, ok).value;
      |s'.threads| == |s.threads| &&
      forall u :: 0 <= u < |s.threads| && u != t ==> Rank(s', s'.threads[u]) == Rank(s, s.threads[u])
  {
    var s' := Step(s, t, ok).value;
    assert |s'.gates| == |s.gates| && s'.layers == s.layers;
  }

  /** No livelock: from any reachable state on, the calls in flight take at most `TotalRank` further steps, so
      with no new calls every call returns. */
  lemma {:induction false} CallsReturn(run: seq<System>, from: nat, j: nat)
    requires IsRun(run) && from <= j < |run|
    requires forall i :: from <= i < j ==> !Spawns(run[i], run[i + 1])
    ensures |run[from].threads| == |run[j].threads|
    ensures j - from + TotalRank(run[j], |run[j].threads|) <= TotalRank(run[from], |run[from].threads|)
    decreases j
  {
    hide Invariant, Step, TotalRank;
    if from < j {
      CallsReturn(run, from, j - 1);
      assert !Spawns(run[j - 1], run[j]);
      var t, ok :| 0 <= t < |run[j - 1].threads| && Step(run[j - 1], t, ok) == Some(run[j]);
      RunKeeps(run, j - 1);
      StepDrops(run[j - 1], t, ok);
    }
  }

  // ---------- What one call does ----------

  /** One step of thread `t` for each answer, with nothing in between; `None` when it cannot take one of them. */
  ghost function Alone(s: System, t: nat, answers: seq<bool>): Option<System>
    requires t < |s.threads|
    decreases |answers|
  {
    if answers == [] then Some(s)
    else
      match Step(s, t, answers[0])
      case None => None
      case Some(next) => if t < |next.threads| then Alone(next, t, answers[1..]) else None
  }

  lemma {:induction false} StepKeepsThreads(s: System, t: nat, ok: bool)
    requires t < |s.threads|
    ensures Step(s, t, ok).Some? ==> |Step(s, t, ok).value.threads| == |s.threads|
  {
  }

  lemma {:induction false} AloneThen(s: System, t: nat, first: seq<bool>, second: seq<bool>, middle: System)
    requires t < |s.threads| && Alone(s, t, first) == Some(middle)
    ensures t < |middle.threads| && Alone(s, t, first + second) == Alone(middle, t, second)
    decreases |first|
  {
    hide Step;
    if first == [] {
      assert first + second == second;
    } else {
      StepKeepsThreads(s, t, first[0]);
      assert (first + second)[0] == first[0] && (first + second)[1..] == first[1..] + second;
      AloneThen(Step(s, t, first[0]).value, t, first[1..], second, middle);
    }
  }

  /** One step of a thread alone. */
  lemma {:induction false} AloneOne(s: System, t: nat, answer: bool, next: System)
    requires t < |s.threads| && Step(s, t, answer) == Some(next) && t < |next.threads|
    ensures Alone(s, t, [answer]) == Some(next)
  {
    hide Step;
    assert [answer][1..] == [];
  }

  ghost predicate AllFree(s: System) {
    forall g :: 0 <= g < |s.gates| ==> s.gates[g].None?
  }

  /** An invocation that nothing interferes with is carried out while the tree runs, and refused in any other state;
      it gives its gate back, changes nothing else, and goes on to the stop exactly when it was asked to. */
  lemma {:induction false} InvokeAlone(s: System, t: nat, thenStop: bool, answers: seq<bool>)
    requires t < |s.threads| && s.threads[t] == InvokeWait(thenStop) && |s.gates| > 0 && s.gates[0].None?
    requires |answers| == if s.life == Running then 3 else 2
    ensures Alone(s, t, answers) == Some(s.(threads :=
      s.threads[t := if thenStop then StopAcquire(0) else Done(if s.life == Running then Invoked else Refused)]))
  {
    var thread := AfterInvoke(thenStop, if s.life == Running then Invoked else Refused);
    var s1 := Take(s, t, 0, InvokeHeld(thenStop));
    assert s1.gates[0 := None] == s.gates && s1.threads[t := thread] == s.threads[t := thread];
    if s.life == Running {
      var s2 := To(s1, t, Invoking(thenStop));
      var s3 := Release(s2, t, 0, thread);
      assert s3 == s.(threads := s.threads[t := thread]);
      assert Step(s, t, answers[0]) == Some(s1) && Step(s1, t, answers[1]) == Some(s2) && Step(s2, t, answers[2]) == Some(s3);
      hide Step;
      assert answers[1..][0] == answers[1] && answers[1..][1..][0] == answers[2] && answers[1..][1..][1..] == [];
      assert Alone(s2, t, answers[1..][1..]) == Some(s3);
      assert Alone(s1, t, answers[1..]) == Some(s3);
    } else {
      var s2 := Release(s1, t, 0, thread);
      assert s2 == s.(threads := s.threads[t := thread]);
      assert Step(s, t, answers[0]) == Some(s1) && Step(s1, t, answers[1]) == Some(s2);
      hide Step;
      assert answers[1..][0] == answers[1] && answers[1..][1..] == [];
      assert Alone(s1, t, answers[1..]) == Some(s2);
    }
  }

  /** A View intent that nothing interferes with is answered whatever the state of the tree. */
  lemma {:induction false} IntentAlone(s: System, t: nat, gate: nat, answers: seq<bool>)
    requires t < |s.threads| && s.threads[t] == IntentWait(gate) && gate < |s.gates| && s.gates[gate].None? && |answers| == 2
    ensures Alone(s, t, answers) == Some(s.(threads := s.threads[t := Done(IntentAnswered)]))
  {
    var s1 := Take(s, t, gate, IntentInvoking(gate));
    var s2 := Release(s1, t, gate, Done(IntentAnswered));
    assert s2.gates == s.gates && s2.threads == s.threads[t := Done(IntentAnswered)];
    assert Step(s, t, answers[0]) == Some(s1) && Step(s1, t, answers[1]) == Some(s2);
    hide Step;
    assert answers[1..][0] == answers[1] && answers[1..][1..] == [];
    assert Alone(s1, t, answers[1..]) == Some(s2);
  }

  /** The gates while a stop holds the first `next` of them. */
  function Held(gates: seq<Option<nat>>, t: nat, next: nat): seq<Option<nat>>
    requires next <= |gates|
  {
    seq(next, i => Some(t)) + gates[next..]
  }

  /** The gates while a stop has given back the first `from` of them. */
  function Released(count: nat, t: nat, from: nat): seq<Option<nat>>
    requires from <= count
  {
    seq(from, i => None) + seq(count - from, i => Some(t))
  }

  /** A stop takes every gate before it looks at the state. */
  lemma {:induction false} AcquireAlone(s: System, t: nat, next: nat, answers: seq<bool>, free: seq<Option<nat>>)
    requires t < |s.threads| && s.threads[t] == StopAcquire(next) && next <= |free| && s.gates == Held(free, t, next)
    requires (forall g :: 0 <= g < |free| ==> free[g].None?) && |answers| == |free| - next + 1
    ensures Alone(s, t, answers) == Some(s.(gates := Held(free, t, |free|), threads := s.threads[t := StopCheck]))
    decreases |free| - next
  {
    if next == |free| {
      AloneOne(s, t, answers[0], To(s, t, StopCheck));
      assert answers == [answers[0]];
    } else {
      assert s.gates[next] == free[next];
      var s1 := Take(s, t, next, StopAcquire(next + 1));
      assert s1.gates == Held(free, t, next + 1);
      assert Step(s, t, answers[0]) == Some(s1);
      AcquireAlone(s1, t, next + 1, answers[1..], free);
      assert s1.threads[t := StopCheck] == s.threads[t := StopCheck];
    }
  }

  /** The reverse stop asks every layer once, and ends failed exactly when one refused. */
  lemma {:induction false} ReverseAlone(s: System, t: nat, failures: nat, answers: seq<bool>, last: bool)
    requires t < |s.threads| && s.threads[t] == ReverseStop(|answers|, failures)
    ensures var stopped := failures == 0 && forall i :: 0 <= i < |answers| ==> answers[i];
      Alone(s, t, answers + [last]) == Some(s.(
        life := if stopped then Stopped else Failed,
        threads := s.threads[t := StopRelease(0, if stopped then StopSucceeded else StopFailed)],
        completed := s.completed + 1))
    decreases |answers|
  {
    if answers == [] {
      assert [] + [last] == [last];
      AloneOne(s, t, last, Step(s, t, last).value);
    } else {
      var s1 := Step(s, t, answers[0]).value;
      assert s1 == To(s, t, ReverseStop(|answers| - 1, if answers[0] then failures else failures + 1));
      ReverseAlone(s1, t, if answers[0] then failures else failures + 1, answers[1..], last);
      assert (answers + [last])[0] == answers[0] && (answers + [last])[1..] == answers[1..] + [last];
      assert answers == [answers[0]] + answers[1..];
      hide Step;
      var ended := StopRelease(0, if failures == 0 && forall i :: 0 <= i < |answers| ==> answers[i] then StopSucceeded else StopFailed);
      assert s1.threads[t := ended] == s.threads[t := ended];
    }
  }

  lemma {:induction false} ReleaseAlone(s: System, t: nat, from: nat, outcome: Outcome, answers: seq<bool>)
    requires t < |s.threads| && s.threads[t] == StopRelease(from, outcome) && from <= |s.gates|
    requires s.gates == Released(|s.gates|, t, from) && |answers| == |s.gates| - from + 1
    ensures Alone(s, t, answers) == Some(s.(gates := Released(|s.gates|, t, |s.gates|), threads := s.threads[t := Done(outcome)]))
    decreases |s.gates| - from
  {
    if from == |s.gates| {
      AloneOne(s, t, answers[0], To(s, t, Done(outcome)));
      assert answers == [answers[0]];
    } else {
      var s1 := Release(s, t, from, StopRelease(from + 1, outcome));
      assert s1.gates == Released(|s.gates|, t, from + 1);
      assert Step(s, t, answers[0]) == Some(s1);
      ReleaseAlone(s1, t, from + 1, outcome, answers[1..]);
      assert s1.threads[t := Done(outcome)] == s.threads[t := Done(outcome)];
    }
  }

  /** How a stop ends, and the state it leaves, given how its layers answer. */
  ghost predicate StopsAs(s: System, outcome: Outcome, life: Life, layers: seq<bool>) {
    if s.life == Running || s.life == Failed then
      && |layers| == s.layers
      && if forall i :: 0 <= i < |layers| ==> layers[i] then outcome == StopSucceeded && life == Stopped
         else outcome == StopFailed && life == Failed
    else
      && layers == [] && life == s.life
      && outcome == if s.life == Stopped then StopSucceeded else if s.life == Stopping then AlreadyStopping else CannotStop
  }

  /** A stop that nothing interferes with takes every gate, asks every layer of a running or failed tree to stop and no
      layer of any other, gives every gate back, and says how it went. */
  lemma {:induction false} StopAlone(s: System, t: nat, begin: seq<bool>, layers: seq<bool>, last: bool, end: seq<bool>, outcome: Outcome, life: Life)
    requires t < |s.threads| && s.threads[t] == StopAcquire(0) && AllFree(s) && StopsAs(s, outcome, life, layers)
    requires var stops := s.life == Running || s.life == Failed;
      |begin| == |s.gates| + (if stops then 3 else 2) && |end| == |s.gates| + 1
    ensures var stops := s.life == Running || s.life == Failed;
      Alone(s, t, begin + (if stops then layers + [last] else []) + end) == Some(s.(
        life := life, threads := s.threads[t := Done(outcome)], completed := if stops then s.completed + 1 else s.completed))
  {
    hide Alone, Step, Held, Released, StopsAs;
    var n := |s.gates|;
    var stops := s.life == Running || s.life == Failed;
    var acquire, rest := begin[..n + 1], begin[n + 1..];
    GatesOfStop(s, t);
    AcquireAlone(s, t, 0, acquire, s.gates);
    var s1 := s.(gates := Held(s.gates, t, n), threads := s.threads[t := StopCheck]);
    var middle := if stops then layers + [last] else [];
    StopsLike(s, s1, outcome, life, layers);
    var s3 := StopMiddle(s1, t, rest, layers, last, outcome, life);
    assert begin + middle + end == acquire + ((rest + middle) + end);
    AloneThen(s, t, acquire, (rest + middle) + end, s1);
    AloneThen(s1, t, rest + middle, end, s3);
    ReleaseAlone(s3, t, 0, outcome, end);
    assert s3.threads[t := Done(outcome)] == s.threads[t := Done(outcome)];
  }

  lemma {:induction false} StopsLike(s: System, s': System, outcome: Outcome, life: Life, layers: seq<bool>)
    requires StopsAs(s, outcome, life, layers) && s'.life == s.life && s'.layers == s.layers
    ensures StopsAs(s', outcome, life, layers)
  {
  }

  /** The gates before the first, after the last, and between taking and giving back. */
  lemma {:induction false} GatesOfStop(s: System, t: nat)
    requires AllFree(s)
    ensures Held(s.gates, t, 0) == s.gates
    ensures Held(s.gates, t, |s.gates|) == Released(|s.gates|, t, 0)
    ensures Released(|s.gates|, t, |s.gates|) == s.gates
    ensures |Held(s.gates, t, |s.gates|)| == |s.gates|
  {
  }

  /** From the check to the release of the gates. */
  lemma {:induction false} StopMiddle(s: System, t: nat, rest: seq<bool>, layers: seq<bool>, last: bool, outcome: Outcome, life: Life) returns (after: System)
    requires t < |s.threads| && s.threads[t] == StopCheck && StopsAs(s, outcome, life, layers)
    requires |rest| == if s.life == Running || s.life == Failed then 2 else 1
    ensures var stops := s.life == Running || s.life == Failed;
      && Alone(s, t, rest + (if stops then layers + [last] else [])) == Some(after)
      && after == s.(life := life, threads := s.threads[t := StopRelease(0, outcome)], completed := if stops then s.completed + 1 else s.completed)
  {
    if s.life == Running || s.life == Failed {
      var s1 := To(s, t, StopExchange(s.life));
      var s2 := To(s1, t, ReverseStop(s.layers, 0)).(life := Stopping);
      assert Step(s, t, rest[0]) == Some(s1) && Step(s1, t, rest[1]) == Some(s2);
      ReverseAlone(s2, t, 0, layers, last);
      hide Step;
      assert rest[1..] == [rest[1]] && rest == [rest[0]] + [rest[1]];
      AloneOne(s1, t, rest[1], s2);
      AloneOne(s, t, rest[0], s1);
      AloneThen(s, t, [rest[0]], [rest[1]] + (layers + [last]), s1);
      AloneThen(s1, t, [rest[1]], layers + [last], s2);
      assert rest + (layers + [last]) == [rest[0]] + ([rest[1]] + (layers + [last]));
      after := Alone(s2, t, layers + [last]).value;
      assert s2.threads[t := StopRelease(0, outcome)] == s.threads[t := StopRelease(0, outcome)];
    } else {
      after := Step(s, t, rest[0]).value;
      AloneOne(s, t, rest[0], after);
      assert rest + [] == [rest[0]];
    }
  }
}
