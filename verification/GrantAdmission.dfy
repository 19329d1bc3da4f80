/** Capability admission over a planned application tree (src/application_plan.rs:557-624,
    src/holo_capability.rs:190-226, 260-368). */
module GrantAdmission {
  import opened Basics
  import opened Capability
  import opened Upstream
  import opened PlanReport

  datatype GrantSource = LocalBaseline | DirectDevelopmentFile | ServiceDevelopmentFile | ChildDelegation

  datatype EffectiveGrant = EffectiveGrant(kappa: Kappa, canonical: Bytes, capabilities: Capabilities, source: GrantSource)

  datatype Relation = ApplicationRequest | DelegationToChild

  /** `CapabilityDecision` */
  datatype Decision = Decision(
    application: Kappa, parent: Option<Kappa>, requested: Kappa, grant: Kappa, source: GrantSource,
    relation: Relation, allowed: bool)

  /** `EffectiveGrant::from_delegation` */
  function FromDelegation(delegated: CapabilityObject): EffectiveGrant {
    EffectiveGrant(delegated.kappa, delegated.canonical, delegated.capabilities, ChildDelegation)
  }

  function RequestDecision(application: Kappa, parent: Option<Kappa>, request: CapabilityObject, grant: EffectiveGrant): Decision {
    Decision(application, parent, request.kappa, grant.kappa, grant.source, ApplicationRequest,
             Admits(grant.capabilities, request.capabilities))
  }

  function DelegationDecision(child: ResolvedChild, grant: EffectiveGrant): Decision {
    Decision(child.application, Some(child.parent), child.delegated.kappa, grant.kappa, grant.source, DelegationToChild,
             Admits(grant.capabilities, child.delegated.capabilities))
  }

  /** The state of an admission run: grants so far, decisions observed so far, and the error that ended it. */
  datatype Run = Run(grants: map<nat, EffectiveGrant>, decisions: seq<Decision>, error: Option<LiveError>)

  function AdmitRoot(plan: ApplicationPlan, grant: EffectiveGrant): Run {
    var decision := RequestDecision(plan.application, None, plan.requested, grant);
    if decision.allowed then Run(map[0 := grant], [decision], None) else Run(map[], [decision], Some(Authorization))
  }

  function AdmitChild(run: Run, child: ResolvedChild): Run {
    if run.error.Some? then run
    else if child.parentIndex !in run.grants then run.(error := Some(Conflict))
    else
      var delegation := DelegationDecision(child, run.grants[child.parentIndex]);
      if !delegation.allowed then run.(decisions := run.decisions + [delegation], error := Some(Authorization))
      else
        var grant := FromDelegation(child.delegated);
        var request := RequestDecision(child.application, Some(child.parent), child.requested, grant);
        var observed := run.decisions + [delegation, request];
        if request.allowed then run.(grants := run.grants[child.index := grant], decisions := observed)
        else run.(decisions := observed, error := Some(Authorization))
  }

  /** The run over the first `count` children. */
  function AdmitFirst(plan: ApplicationPlan, grant: EffectiveGrant, count: nat): Run
    requires count <= |plan.children|
  {
    if count == 0 then AdmitRoot(plan, grant)
    else AdmitChild(AdmitFirst(plan, grant, count - 1), plan.children[count - 1])
  }

  function AdmitAll(plan: ApplicationPlan, grant: EffectiveGrant): Run {
    AdmitFirst(plan, grant, |plan.children|)
  }

  /** `admitted_grants_with`, with the observed decisions as a second result. */
  method AdmittedGrants(plan: ApplicationPlan, grant: EffectiveGrant)
    returns (r: Result<map<nat, EffectiveGrant>>, decisions: seq<Decision>)
    ensures var run := AdmitAll(plan, grant);
      decisions == run.decisions && r == if run.error.None? then Ok(run.grants) else Err(run.error.value)
  {
    hide Admits;
    var root := RequestDecision(plan.application, None, plan.requested, grant);
    decisions := [root];
    if !root.allowed {
      ErrorStays(plan, grant, 0);
      return Err(Authorization), decisions;
    }
    var grants: map<nat, EffectiveGrant> := map[0 := grant];
    for i := 0 to |plan.children|
      invariant AdmitFirst(plan, grant, i) == Run(grants, decisions, None)
    {
      var child := plan.children[i];
      if child.parentIndex !in grants {
        ErrorStays(plan, grant, i + 1);
        return Err(Conflict), decisions;
      }
      var parentGrant := grants[child.parentIndex];
      var delegation := DelegationDecision(child, parentGrant);
      decisions := decisions + [delegation];
      if delegation.allowed {
        decisions := decisions + [RequestDecision(child.application, Some(child.parent), child.requested, FromDelegation(child.delegated))];
      }
      if !Admits(parentGrant.capabilities, child.delegated.capabilities)
         || !Admits(child.delegated.capabilities, child.requested.capabilities) {
        assert AdmitFirst(plan, grant, i + 1).decisions == decisions;
        ErrorStays(plan, grant, i + 1);
        return Err(Authorization), decisions;
      }
      assert AdmitFirst(plan, grant, i + 1).decisions == decisions;
      grants := grants[child.index := FromDelegation(child.delegated)];
    }
    return Ok(grants), decisions;
  }

  lemma {:induction false} ErrorStays(plan: ApplicationPlan, grant: EffectiveGrant, count: nat)
    requires count <= |plan.children| && AdmitFirst(plan, grant, count).error.Some?
    ensures AdmitAll(plan, grant) == AdmitFirst(plan, grant, count)
    decreases |plan.children| - count
  {
    if count < |plan.children| {
      ErrorStays(plan, grant, count + 1);
    }
  }

  function RequestOf(plan: ApplicationPlan, i: nat): Capabilities
    requires i <= |plan.children|
  {
    if i == 0 then plan.requested.capabilities else plan.children[i - 1].requested.capabilities
  }

  /** Every application so far holds a grant that admits its request and that all its ancestors' grants admit. */
  ghost predicate Attenuated(plan: ApplicationPlan, grants: map<nat, EffectiveGrant>, count: nat)
    requires Indexed(plan.children) && count <= |plan.children|
  {
    && (forall i :: i in grants <==> 0 <= i <= count)
    && (forall i :: 0 <= i <= count ==> Admits(grants[i].capabilities, RequestOf(plan, i)))
    && (forall a, i :: 0 <= i <= count && Ancestor(plan.children, a, i) ==> a in grants && Admits(grants[a].capabilities, grants[i].capabilities))
  }

  ghost predicate OnlyLastDenied(run: Run) {
    && run.decisions != []
    && (forall i :: 0 <= i < |run.decisions| - 1 ==> run.decisions[i].allowed)
    && (run.error.Some? ==> run.error == Some(Authorization) && !run.decisions[|run.decisions| - 1].allowed)
    && (run.error.None? ==> run.decisions[|run.decisions| - 1].allowed)
  }

  lemma {:induction false} AttenuatedStep(plan: ApplicationPlan, grants: map<nat, EffectiveGrant>, count: nat)
    requires Indexed(plan.children) && count < |plan.children| && Attenuated(plan, grants, count)
    requires var child := plan.children[count];
      && Admits(grants[child.parentIndex].capabilities, child.delegated.capabilities)
      && Admits(child.delegated.capabilities, child.requested.capabilities)
    ensures Attenuated(plan, grants[count + 1 := FromDelegation(plan.children[count].delegated)], count + 1)
  {
    hide Admits;
    var child := plan.children[count];
    var after := grants[count + 1 := FromDelegation(child.delegated)];
    forall a: nat, i: nat | 0 <= i <= count + 1 && Ancestor(plan.children, a, i)
      ensures a in after && Admits(after[a].capabilities, after[i].capabilities)
    {
      AncestorBefore(plan.children, a, i);
      if i == count + 1 && a != i {
        AdmitsTransitive(grants[a].capabilities, grants[child.parentIndex].capabilities, child.delegated.capabilities);
      } else if i == count + 1 {
        AdmitsReflexive(child.delegated.capabilities);
      }
    }
  }

  lemma {:induction false} DecisionStep(run: Run, child: ResolvedChild)
    requires OnlyLastDenied(run) && (run.error.None? ==> child.parentIndex in run.grants)
    ensures OnlyLastDenied(AdmitChild(run, child))
    ensures AdmitChild(run, child).error.None? ==> run.error.None? && |AdmitChild(run, child).decisions| == |run.decisions| + 2
  {
    hide Admits;
  }

  /** After any number of children: no lost parent; at most one denial, and it comes last; and while nothing
      is denied, two decisions per child and full attenuation. */
  lemma {:induction false} AdmitFirstKeeps(plan: ApplicationPlan, grant: EffectiveGrant, count: nat)
    requires Indexed(plan.children) && count <= |plan.children|
    ensures var run := AdmitFirst(plan, grant, count);
      && OnlyLastDenied(run)
      && (run.error.None? ==>
        && |run.decisions| == 1 + 2 * count
        && Attenuated(plan, run.grants, count)
        && 0 in run.grants && run.grants[0] == grant)
  {
    hide Admits, OnlyLastDenied, Attenuated, AdmitRoot, DelegationDecision, RequestDecision, FromDelegation;
    if count == 0 {
      RootKeeps(plan, grant);
    } else {
      AdmitFirstKeeps(plan, grant, count - 1);
      var before, child := AdmitFirst(plan, grant, count - 1), plan.children[count - 1];
      if before.error.None? {
        ParentHasGrant(plan, before.grants, count - 1);
      }
      DecisionStep(before, child);
      if AdmitChild(before, child).error.None? {
        AttenuatedAfter(plan, before, count - 1);
      }
    }
  }

  lemma {:induction false} RootKeeps(plan: ApplicationPlan, grant: EffectiveGrant)
    requires Indexed(plan.children)
    ensures var run := AdmitRoot(plan, grant);
      && OnlyLastDenied(run) && |run.decisions| == 1
      && (run.error.None? ==> 0 in run.grants && run.grants[0] == grant && Attenuated(plan, run.grants, 0))
  {
    hide Admits;
    AdmitsReflexive(grant.capabilities);
  }

  lemma {:induction false} ParentHasGrant(plan: ApplicationPlan, grants: map<nat, EffectiveGrant>, count: nat)
    requires Indexed(plan.children) && count < |plan.children| && Attenuated(plan, grants, count)
    ensures plan.children[count].parentIndex in grants
  {
    hide Admits;
  }

  lemma {:induction false} AttenuatedAfter(plan: ApplicationPlan, run: Run, count: nat)
    requires Indexed(plan.children) && count < |plan.children| && run.error.None? && Attenuated(plan, run.grants, count)
    requires AdmitChild(run, plan.children[count]).error.None?
    ensures Attenuated(plan, AdmitChild(run, plan.children[count]).grants, count + 1)
    ensures var after := AdmitChild(run, plan.children[count]).grants;
      0 in run.grants ==> 0 in after && after[0] == run.grants[0]
  {
    hide Admits, Attenuated;
    ParentHasGrant(plan, run.grants, count);
    AttenuatedStep(plan, run.grants, count);
  }

  /** Admission of a planner-made tree of any depth: it succeeds exactly when every decision is allowed; then
      there are 1 + 2n of them, every request is admitted by its own grant, and every grant is admitted by the
      grants of all its ancestors up to the trusted root grant. A refusal is always an authorization error
      with exactly one denied decision, the last. */
  lemma {:induction false} AdmissionAttenuates(plan: ApplicationPlan, grant: EffectiveGrant)
    requires Indexed(plan.children)
    ensures var run := AdmitAll(plan, grant);
      && OnlyLastDenied(run)
      && (run.error.None? <==> forall i :: 0 <= i < |run.decisions| ==> run.decisions[i].allowed)
      && (run.error.None? ==>
        && |run.decisions| == 1 + 2 * |plan.children|
        && 0 in run.grants && run.grants[0] == grant
        && forall i :: 0 <= i <= |plan.children| ==>
          && i in run.grants
          && Admits(run.grants[i].capabilities, RequestOf(plan, i))
          && forall a :: Ancestor(plan.children, a, i) ==> a in run.grants && Admits(run.grants[a].capabilities, run.grants[i].capabilities))
  {
    hide Admits, AdmitFirst;
    AdmitFirstKeeps(plan, grant, |plan.children|);
  }

  // ---------- What the decisions say ----------

  /** The grant an application is admitted under: the root's is given, and a child's is its delegation. */
  ghost predicate HeldBy(plan: ApplicationPlan, root: EffectiveGrant, index: nat, grant: EffectiveGrant)
    requires index <= |plan.children|
  {
    if index == 0 then grant == root
    else
      var delegated := plan.children[index - 1].delegated;
      && grant.kappa == delegated.kappa && grant.canonical == delegated.canonical
      && grant.capabilities == delegated.capabilities && grant.source == ChildDelegation
  }

  /** Decision 0 is the root's request under the given grant; decision 2i + 1 is the delegation to child i under its
      parent's grant, and decision 2i + 2 the request of child i under that delegation. */
  ghost predicate DecisionIs(plan: ApplicationPlan, root: EffectiveGrant, j: nat, d: Decision)
    requires Indexed(plan.children) && j <= 2 * |plan.children|
  {
    if j == 0 then
      && d.application == plan.application && d.parent == None && d.relation == ApplicationRequest
      && d.requested == plan.requested.kappa && d.grant == root.kappa && d.source == root.source
      && (d.allowed <==> Admits(root.capabilities, plan.requested.capabilities))
    else
      var child := plan.children[(j - 1) / 2];
      && d.application == child.application && d.parent == Some(child.parent)
      && if j % 2 == 1 then
        exists grant :: HeldBy(plan, root, child.parentIndex, grant)
          && d.relation == DelegationToChild && d.requested == child.delegated.kappa
          && d.grant == grant.kappa && d.source == grant.source
          && (d.allowed <==> Admits(grant.capabilities, child.delegated.capabilities))
      else
        && d.relation == ApplicationRequest && d.requested == child.requested.kappa
        && d.grant == child.delegated.kappa && d.source == ChildDelegation
        && (d.allowed <==> Admits(child.delegated.capabilities, child.requested.capabilities))
  }

  /** A child asks for no more than its delegation, and is delegated no more than its parent's grant. */
  ghost predicate Narrows(plan: ApplicationPlan, root: EffectiveGrant, i: nat)
    requires Indexed(plan.children) && i < |plan.children|
  {
    var child := plan.children[i];
    && Admits(child.delegated.capabilities, child.requested.capabilities)
    && Admits(if child.parentIndex == 0 then root.capabilities else plan.children[child.parentIndex - 1].delegated.capabilities,
              child.delegated.capabilities)
  }

  /** The root grant admits the root's request, and authority narrows along the first `count` children. */
  ghost predicate Attenuates(plan: ApplicationPlan, root: EffectiveGrant, count: nat)
    requires Indexed(plan.children) && count <= |plan.children|
  {
    Admits(root.capabilities, plan.requested.capabilities) && forall i :: 0 <= i < count ==> Narrows(plan, root, i)
  }

  /** What is known after the first `count` children. */
  ghost predicate Decided(plan: ApplicationPlan, root: EffectiveGrant, count: nat, run: Run)
    requires Indexed(plan.children) && count <= |plan.children|
  {
    && |run.decisions| <= 2 * count + 1
    && (forall j :: 0 <= j < |run.decisions| ==> DecisionIs(plan, root, j, run.decisions[j]))
    && (run.error.None? <==> Attenuates(plan, root, count))
    && (run.error.None? ==>
      && |run.decisions| == 2 * count + 1
      && (forall i :: i in run.grants <==> 0 <= i <= count)
      && forall i :: 0 <= i <= count ==> HeldBy(plan, root, i, run.grants[i]))
  }

  lemma {:induction false} RootDecides(plan: ApplicationPlan, root: EffectiveGrant)
    requires Indexed(plan.children)
    ensures Decided(plan, root, 0, AdmitRoot(plan, root))
  {
    hide Admits;
  }

  lemma {:induction false} AdmitFirstDecides(plan: ApplicationPlan, root: EffectiveGrant, count: nat)
    requires Indexed(plan.children) && count <= |plan.children|
    ensures Decided(plan, root, count, AdmitFirst(plan, root, count))
  {
    hide Decided, AdmitRoot, AdmitChild;
    if count == 0 {
      RootDecides(plan, root);
    } else {
      AdmitFirstDecides(plan, root, count - 1);
      AdmitChildDecides(plan, root, count - 1, AdmitFirst(plan, root, count - 1));
    }
  }

  lemma {:induction false} DelegationIs(plan: ApplicationPlan, root: EffectiveGrant, i: nat, grant: EffectiveGrant)
    requires Indexed(plan.children) && i < |plan.children| && HeldBy(plan, root, plan.children[i].parentIndex, grant)
    ensures DecisionIs(plan, root, 2 * i + 1, DelegationDecision(plan.children[i], grant))
    ensures DelegationDecision(plan.children[i], grant).allowed <==>
      var child := plan.children[i];
      Admits(if child.parentIndex == 0 then root.capabilities else plan.children[child.parentIndex - 1].delegated.capabilities, child.delegated.capabilities)
  {
    hide Admits;
    assert (2 * i + 1 - 1) / 2 == i && (2 * i + 1) % 2 == 1;
  }

  lemma {:induction false} RequestIs(plan: ApplicationPlan, root: EffectiveGrant, i: nat)
    requires Indexed(plan.children) && i < |plan.children|
    ensures var child := plan.children[i];
      var d := RequestDecision(child.application, Some(child.parent), child.requested, FromDelegation(child.delegated));
      && DecisionIs(plan, root, 2 * i + 2, d)
      && (d.allowed <==> Admits(child.delegated.capabilities, child.requested.capabilities))
    ensures HeldBy(plan, root, i + 1, FromDelegation(plan.children[i].delegated))
  {
    hide Admits;
    assert (2 * i + 2 - 1) / 2 == i && (2 * i + 2) % 2 == 0;
  }

  /** One more child attenuates. */
  lemma {:induction false} AttenuatesStep(plan: ApplicationPlan, root: EffectiveGrant, i: nat)
    requires Indexed(plan.children) && i < |plan.children|
    ensures Attenuates(plan, root, i + 1) <==> Attenuates(plan, root, i) && Narrows(plan, root, i)
  {
    hide Narrows, Admits;
  }

  lemma {:induction false} AdmitChildDecides(plan: ApplicationPlan, root: EffectiveGrant, i: nat, run: Run)
    requires Indexed(plan.children) && i < |plan.children| && Decided(plan, root, i, run)
    ensures Decided(plan, root, i + 1, AdmitChild(run, plan.children[i]))
  {
    hide Admits, DecisionIs, HeldBy, Attenuates, DelegationDecision, RequestDecision, FromDelegation;
    var child := plan.children[i];
    AttenuatesStep(plan, root, i);
    RequestIs(plan, root, i);
    if run.error.None? {
      DelegationIs(plan, root, i, run.grants[child.parentIndex]);
    }
  }

  /** Admission of a planner-made tree succeeds exactly when authority only narrows along it; it then leaves every
      application the grant it was delegated; and in any case each decision states the application, the parent, the
      two capability objects compared and the outcome of comparing them. */
  lemma {:induction false} AdmissionDecides(plan: ApplicationPlan, root: EffectiveGrant)
    requires Indexed(plan.children)
    ensures Decided(plan, root, |plan.children|, AdmitAll(plan, root))
  {
    hide Admits;
    AdmitFirstDecides(plan, root, |plan.children|);
  }
}
