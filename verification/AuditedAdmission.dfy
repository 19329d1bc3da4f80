/** Admission with an audit log, and the starts that follow it (src/holo.rs:342-390, 640-709). */
module AuditedAdmission {
  import opened Basics
  import opened PlanReport
  import opened Registry
  import opened GrantAdmission
  import opened Startup

  datatype AuditEvent =
    | Recorded(principal: string, decision: Decision)
    | RecordFailed(principal: string, decision: Decision, error: LiveError)
    | Flushed
    | FlushFailed(error: LiveError)

  /** What the audit log answers; every answer may depend on everything written before. */
  datatype AuditLog = AuditLog(
    principal: string,
    record: (seq<AuditEvent>, Decision) -> Option<LiveError>,
    flush: seq<AuditEvent> -> Option<LiveError>)

  /** The log after the first `count` decisions were recorded. */
  function Records(principal: string, decisions: seq<Decision>, count: nat): (r: seq<AuditEvent>)
    requires count <= |decisions|
    ensures |r| == count && forall i :: 0 <= i < count ==> r[i] == Recorded(principal, decisions[i])
  {
    if count == 0 then [] else Records(principal, decisions, count - 1) + [Recorded(principal, decisions[count - 1])]
  }

  /** Every decision was recorded in order and the log was flushed. */
  ghost predicate FullyAudited(audit: AuditLog, decisions: seq<Decision>, log: seq<AuditEvent>) {
    && (forall i :: 0 <= i < |decisions| ==> audit.record(Records(audit.principal, decisions, i), decisions[i]) == None)
    && audit.flush(Records(audit.principal, decisions, |decisions|)) == None
    && log == Records(audit.principal, decisions, |decisions|) + [Flushed]
  }

  ghost predicate RecordBroke(audit: AuditLog, decisions: seq<Decision>, log: seq<AuditEvent>, error: LiveError, n: nat) {
    && n < |decisions|
    && audit.record(Records(audit.principal, decisions, n), decisions[n]) == Some(error)
    && log == Records(audit.principal, decisions, n) + [RecordFailed(audit.principal, decisions[n], error)]
  }

  /** Recording stopped at the first answer that was an error. */
  ghost predicate AuditBroke(audit: AuditLog, decisions: seq<Decision>, log: seq<AuditEvent>, error: LiveError) {
    || (exists n :: RecordBroke(audit, decisions, log, error, n))
    || (&& audit.flush(Records(audit.principal, decisions, |decisions|)) == Some(error)
        && log == Records(audit.principal, decisions, |decisions|) + [FlushFailed(error)])
  }

  /** The recording loop of `admit_with_audit`. */
  method WriteAudit(audit: AuditLog, decisions: seq<Decision>) returns (error: Option<LiveError>, log: seq<AuditEvent>)
    ensures error.None? ==> FullyAudited(audit, decisions, log)
    ensures error.Some? ==> AuditBroke(audit, decisions, log, error.value)
  {
    log := [];
    for i := 0 to |decisions|
      invariant log == Records(audit.principal, decisions, i)
      invariant forall j :: 0 <= j < i ==> audit.record(Records(audit.principal, decisions, j), decisions[j]) == None
    {
      match audit.record(log, decisions[i]) {
        case Some(e) =>
          log := log + [RecordFailed(audit.principal, decisions[i], e)];
          assert RecordBroke(audit, decisions, log, e, i);
          return Some(e), log;
        case None => log := log + [Recorded(audit.principal, decisions[i])];
      }
    }
    match audit.flush(log) {
      case Some(e) => return Some(e), log + [FlushFailed(e)];
      case None => return None, log + [Flushed];
    }
  }

  /** `admit_with_audit`: a denial always wins over an audit failure, every observed decision is offered to the
      log, and success means all decisions allowed and, when auditing, all recorded and flushed. */
  method AdmitWithAudit(plan: ApplicationPlan, grant: EffectiveGrant, audit: Option<AuditLog>)
    returns (r: Result<map<nat, EffectiveGrant>>, log: seq<AuditEvent>)
    ensures var run := AdmitAll(plan, grant);
      && (run.error.Some? ==> r == Err(run.error.value))
      && (r.Ok? ==> r.value == run.grants && run.error.None?)
      && (audit.None? ==> log == [] && (run.error.None? ==> r.Ok?))
      && (audit.Some? ==>
        || (FullyAudited(audit.value, run.decisions, log) && (run.error.None? ==> r.Ok?))
        || (exists e :: AuditBroke(audit.value, run.decisions, log, e) && r == Err(if run.error.Some? then run.error.value else e)))
  {
    hide AdmitAll, AuditBroke, FullyAudited;
    var admission, decisions := AdmittedGrants(plan, grant);
    var failed: Option<LiveError> := None;
    log := [];
    if audit.Some? {
      failed, log := WriteAudit(audit.value, decisions);
    }
    if admission.Err? {
      return Err(admission.error), log;
    }
    if failed.Some? {
      return Err(failed.value), log;
    }
    return Ok(admission.value), log;
  }

  /** Audit events and provider events, in the order they happen. */
  datatype Happening = Audited(audit: AuditEvent) | Provided(event: Event)

  function Audits(log: seq<AuditEvent>): (r: seq<Happening>)
    ensures |r| == |log| && forall i :: 0 <= i < |log| ==> r[i] == Audited(log[i])
  {
    seq(|log|, i requires 0 <= i < |log| => Audited(log[i]))
  }

  function Provisions(trace: seq<Event>): (r: seq<Happening>)
    ensures |r| == |trace| && forall i :: 0 <= i < |trace| ==> r[i] == Provided(trace[i])
  {
    seq(|trace|, i requires 0 <= i < |trace| => Provided(trace[i]))
  }

  /** The audit events of a history, in order. */
  function AuditPart(history: seq<Happening>): seq<AuditEvent> {
    if history == [] then []
    else
      var n := |history| - 1;
      AuditPart(history[..n]) + (if history[n].Audited? then [history[n].audit] else [])
  }

  /** The provider events of a history, in order. */
  function ProviderPart(history: seq<Happening>): seq<Event> {
    if history == [] then []
    else
      var n := |history| - 1;
      ProviderPart(history[..n]) + (if history[n].Provided? then [history[n].event] else [])
  }

  lemma {:induction false} AuditsOnly(log: seq<AuditEvent>)
    ensures AuditPart(Audits(log)) == log && ProviderPart(Audits(log)) == []
    decreases |log|
  {
    if log != [] {
      var n := |log| - 1;
      assert Audits(log)[..n] == Audits(log[..n]);
      AuditsOnly(log[..n]);
    }
  }

  lemma {:induction false} ThenProvisions(log: seq<AuditEvent>, trace: seq<Event>)
    ensures AuditPart(Audits(log) + Provisions(trace)) == log && ProviderPart(Audits(log) + Provisions(trace)) == trace
    decreases |trace|
  {
    hide Audits, Provisions;
    if trace == [] {
      assert Audits(log) + Provisions(trace) == Audits(log);
      AuditsOnly(log);
    } else {
      var n := |trace| - 1;
      var whole := Audits(log) + Provisions(trace);
      assert whole[..|whole| - 1] == Audits(log) + Provisions(trace[..n]);
      ThenProvisions(log, trace[..n]);
    }
  }

  /** Before every provider event all decisions were allowed and, when auditing, all of them were recorded and the
      log was flushed. */
  ghost predicate AuditedFirst(run: Run, audit: Option<AuditLog>, history: seq<Happening>) {
    forall i :: 0 <= i < |history| && history[i].Provided? ==>
      AllAllowed(run) && (audit.Some? ==> FullyAudited(audit.value, run.decisions, AuditPart(history[..i])))
  }

  lemma {:induction false} AuditPrecedes(run: Run, audit: Option<AuditLog>, log: seq<AuditEvent>, trace: seq<Event>)
    requires trace != [] ==> AllAllowed(run) && (audit.Some? ==> FullyAudited(audit.value, run.decisions, log))
    ensures AuditedFirst(run, audit, Audits(log) + Provisions(trace))
  {
    hide AllAllowed, FullyAudited, Audits, Provisions;
    var history := Audits(log) + Provisions(trace);
    forall i | 0 <= i < |history| && history[i].Provided?
      ensures AllAllowed(run) && (audit.Some? ==> FullyAudited(audit.value, run.decisions, AuditPart(history[..i])))
    {
      assert i >= |log|;
      assert history[..i] == Audits(log) + Provisions(trace[..i - |log|]);
      ThenProvisions(log, trace[..i - |log|]);
    }
  }

  /** The tail of `load_for` and of `start_session_internal`: admission, then start-up. Every provider event comes
      after all decisions were allowed and, when auditing, recorded and flushed. */
  method AdmitAndStart(plan: ApplicationPlan, registry: ProviderRegistry, grant: EffectiveGrant, audit: Option<AuditLog>, world: World)
    returns (r: Result<Running>, history: seq<Happening>)
    requires Indexed(plan.children) && SiblingsOrdered(plan.children) && PlanChosen(registry, plan)
    ensures AuditedFirst(AdmitAll(plan, grant), audit, history)
    ensures Faithful(world, ProviderPart(history))
    ensures r.Ok? ==>
      && AllAllowed(AdmitAll(plan, grant))
      && (audit.Some? ==> FullyAudited(audit.value, AdmitAll(plan, grant).decisions, AuditPart(history)))
    ensures var s := Setup(plan, registry, AdmitAll(plan, grant).grants, world);
      var trace := ProviderPart(history);
      (r.Ok? ==> Completed(s, trace) && Holds(s, r.value) && Reported(trace, r.value)) && (r.Err? && trace != [] ==> RolledBack(s, trace, r.error))
  {
    hide AdmitAll, Completed, RolledBack, PlanChosen, Holds, Reported, AuditBroke, FullyAudited, CheckPrimary, SiblingsOrdered, Faithful, AuditedFirst, AuditPart, ProviderPart, Audits, Provisions, AllAllowed;
    NothingYet(world);
    var grants, log := AdmitWithAudit(plan, grant, audit);
    history := Audits(log);
    assert Audits(log) + Provisions([]) == Audits(log);
    AuditPrecedes(AdmitAll(plan, grant), audit, log, []);
    AuditsOnly(log);
    if grants.Err? {
      return Err(grants.error), history;
    }
    GrantsReady(plan, grant);
    var trace;
    r, trace := PrepareAndStart(Setup(plan, registry, grants.value, world));
    history := history + Provisions(trace);
    AuditPrecedes(AdmitAll(plan, grant), audit, log, trace);
    ThenProvisions(log, trace);
  }

  ghost predicate AllAllowed(run: Run) {
    run.error.None? && forall i :: 0 <= i < |run.decisions| ==> run.decisions[i].allowed
  }

  lemma {:induction false} NothingYet(world: World)
    ensures Faithful(world, [])
  {
  }

  lemma {:induction false} GrantsReady(plan: ApplicationPlan, grant: EffectiveGrant)
    requires Indexed(plan.children) && AdmitAll(plan, grant).error.None?
    ensures AllAllowed(AdmitAll(plan, grant))
    ensures forall a: nat :: a <= |plan.children| ==> a in AdmitAll(plan, grant).grants
  {
    hide AdmitAll;
    AdmissionAttenuates(plan, grant);
  }
}
