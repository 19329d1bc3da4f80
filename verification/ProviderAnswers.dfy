/** What evaluating the providers of a report does to each layer and to the blockers (src/application_plan.rs:339-362,
    436-474). */
module ProviderAnswers {
  import opened Basics
  import opened Upstream
  import opened Resolver
  import opened Planner
  import opened PlanReport

  /** The question a provider is asked about layer `i` of an application. */
  ghost predicate AsksAbout(context: ProviderContext, application: Kappa, layers: seq<PlannedLayer>, i: nat, objects: map<Kappa, ResolvedObject>) {
    && i < |layers| && layers[i].layer.content in objects
    && context.application == application && context.position == layers[i].position && context.layer == layers[i].layer
    && context.primary == layers[i].primary && context.layerCount == |layers|
    && context.content == objects[layers[i].layer.content].bytes
  }

  /** Every layer whose content was resolved carries the answer to its own question, and any other is as before. */
  ghost predicate LayersAnswered(application: Kappa, before: seq<PlannedLayer>, after: seq<PlannedLayer>,
      objects: map<Kappa, ResolvedObject>, evaluate: ProviderContext -> ProviderAvailability)
  {
    && |after| == |before|
    && forall i :: 0 <= i < |before| ==>
      && after[i] == before[i].(provider := after[i].provider)
      && (before[i].layer.content !in objects ==> after[i] == before[i])
      && (before[i].layer.content in objects ==> exists context :: AsksAbout(context, application, before, i, objects) && after[i].provider == evaluate(context))
  }

  /** A blocker for a layer whose content was resolved and whose answer is unavailable. */
  ghost predicate RefusedLayer(application: Kappa, after: seq<PlannedLayer>, objects: map<Kappa, ResolvedObject>, blocker: PlanBlocker) {
    exists i :: 0 <= i < |after| && after[i].layer.content in objects && after[i].provider.Unavailable?
      && blocker == ProviderUnavailable(application, after[i].position, after[i].provider.reason)
  }

  ghost predicate AnsweredOf(application: Kappa, before: seq<PlannedLayer>, e: Evaluation, blockers: seq<PlanBlocker>,
      objects: map<Kappa, ResolvedObject>, evaluate: ProviderContext -> ProviderAvailability)
  {
    && LayersAnswered(application, before, e.layers, objects, evaluate)
    && blockers <= e.blockers
    && forall b :: b in e.blockers[|blockers|..] <==> RefusedLayer(application, e.layers, objects, b)
  }

  /** Layers answered so far, and what they refused. */
  ghost predicate AnsweredUpTo(application: Kappa, before: seq<PlannedLayer>, e: Evaluation, blockers: seq<PlanBlocker>, count: nat,
      objects: map<Kappa, ResolvedObject>, evaluate: ProviderContext -> ProviderAvailability)
    requires count <= |before|
  {
    && |e.layers| == |before| && e.layers[count..] == before[count..]
    && (forall i :: 0 <= i < count ==>
      && e.layers[i] == before[i].(provider := e.layers[i].provider)
      && (before[i].layer.content !in objects ==> e.layers[i] == before[i])
      && (before[i].layer.content in objects ==> exists context :: AsksAbout(context, application, before, i, objects) && e.layers[i].provider == evaluate(context)))
    && blockers <= e.blockers
    && forall b :: b in e.blockers[|blockers|..] <==> RefusedLayer(application, e.layers[..count], objects, b)
  }

  lemma {:induction false} RefusedStep(application: Kappa, layers: seq<PlannedLayer>, layer: PlannedLayer, objects: map<Kappa, ResolvedObject>, b: PlanBlocker)
    ensures RefusedLayer(application, layers + [layer], objects, b) <==>
      || RefusedLayer(application, layers, objects, b)
      || (layer.layer.content in objects && layer.provider.Unavailable? && b == ProviderUnavailable(application, layer.position, layer.provider.reason))
  {
    var all := layers + [layer];
    if RefusedLayer(application, layers, objects, b) {
      var i :| 0 <= i < |layers| && layers[i].layer.content in objects && layers[i].provider.Unavailable?
        && b == ProviderUnavailable(application, layers[i].position, layers[i].provider.reason);
      assert all[i] == layers[i];
    }
    assert all[|layers|] == layer;
  }

  lemma {:induction false} EvaluateLayersUpTo(application: Kappa, before: seq<PlannedLayer>, blockers: seq<PlanBlocker>, count: nat,
      objects: map<Kappa, ResolvedObject>, evaluate: ProviderContext -> ProviderAvailability)
    requires count <= |before|
    ensures AnsweredUpTo(application, before, EvaluateLayers(application, Evaluation(before, blockers), count, objects, evaluate), blockers, count, objects, evaluate)
    decreases count
  {
    hide RefusedLayer;
    var e := EvaluateLayers(application, Evaluation(before, blockers), count, objects, evaluate);
    if count == 0 {
      assert e.layers[..0] == [];
      forall b
        ensures !RefusedLayer(application, [], objects, b)
      {
        NoneRefused(application, objects, b);
      }
    } else {
      EvaluateLayersUpTo(application, before, blockers, count - 1, objects, evaluate);
      var d := EvaluateLayers(application, Evaluation(before, blockers), count - 1, objects, evaluate);
      LayerAnswered(application, before, d, blockers, count - 1, objects, evaluate);
    }
  }

  lemma {:induction false} NoneRefused(application: Kappa, objects: map<Kappa, ResolvedObject>, b: PlanBlocker)
    ensures !RefusedLayer(application, [], objects, b)
  {
  }

  /** One more layer. */
  lemma {:induction false} LayerAnswered(application: Kappa, before: seq<PlannedLayer>, d: Evaluation, blockers: seq<PlanBlocker>, i: nat,
      objects: map<Kappa, ResolvedObject>, evaluate: ProviderContext -> ProviderAvailability)
    requires i < |before| && AnsweredUpTo(application, before, d, blockers, i, objects, evaluate)
    ensures i < |d.layers| && AnsweredUpTo(application, before, EvaluateLayer(application, d, i, objects, evaluate), blockers, i + 1, objects, evaluate)
  {
    hide RefusedLayer;
    var e := EvaluateLayer(application, d, i, objects, evaluate);
    assert d.layers[i] == d.layers[i..][0] == before[i..][0] == before[i];
    assert e.layers[..i + 1] == d.layers[..i] + [e.layers[i]];
    assert e.layers[i + 1..] == d.layers[i..][1..] == before[i..][1..] == before[i + 1..];
    if before[i].layer.content in objects {
      var context := ContextOf(application, d.layers, i, objects[before[i].layer.content].bytes);
      assert AsksAbout(context, application, before, i, objects) && e.layers[i].provider == evaluate(context);
    }
    forall b
      ensures b in e.blockers[|blockers|..] <==> RefusedLayer(application, e.layers[..i + 1], objects, b)
    {
      RefusedStep(application, d.layers[..i], e.layers[i], objects, b);
      if before[i].layer.content in objects && e.layers[i].provider.Unavailable? {
        var last := ProviderUnavailable(application, before[i].position, e.layers[i].provider.reason);
        assert e.blockers == d.blockers + [last];
        assert e.blockers[|blockers|..] == d.blockers[|blockers|..] + [last];
      } else if before[i].layer.content !in objects {
        assert e.blockers == d.blockers;
      } else {
        assert e.blockers == d.blockers;
      }
    }
  }

  lemma {:induction false} EvaluateLayersAnswered(application: Kappa, before: seq<PlannedLayer>, blockers: seq<PlanBlocker>,
      objects: map<Kappa, ResolvedObject>, evaluate: ProviderContext -> ProviderAvailability)
    ensures AnsweredOf(application, before, EvaluateLayers(application, Evaluation(before, blockers), |before|, objects, evaluate), blockers, objects, evaluate)
  {
    hide RefusedLayer, EvaluateLayers;
    EvaluateLayersUpTo(application, before, blockers, |before|, objects, evaluate);
    var e := EvaluateLayers(application, Evaluation(before, blockers), |before|, objects, evaluate);
    assert e.layers[..|before|] == e.layers;
  }

  ghost predicate RefusedAdmission(admissions: seq<Admission>, count: nat, objects: map<Kappa, ResolvedObject>, b: PlanBlocker)
    requires count <= |admissions|
  {
    exists i :: 0 <= i < count && RefusedLayer(admissions[i].application, admissions[i].layers, objects, b)
  }

  ghost predicate AdmissionAnswered(before: Admission, after: Admission, objects: map<Kappa, ResolvedObject>, evaluate: ProviderContext -> ProviderAvailability) {
    after == before.(layers := after.layers) && LayersAnswered(before.application, before.layers, after.layers, objects, evaluate)
  }

  lemma {:induction false} EvaluateAdmissionsAnswered(admissions: seq<Admission>, blockers: seq<PlanBlocker>, count: nat,
      objects: map<Kappa, ResolvedObject>, evaluate: ProviderContext -> ProviderAvailability)
    requires count <= |admissions|
    ensures var (done, after) := EvaluateAdmissions(admissions, blockers, count, objects, evaluate);
      && (forall i :: 0 <= i < count ==> AdmissionAnswered(admissions[i], done[i], objects, evaluate))
      && (forall i :: count <= i < |admissions| ==> done[i] == admissions[i])
      && blockers <= after
      && forall b :: b in after[|blockers|..] <==> RefusedAdmission(done, count, objects, b)
    decreases count
  {
    hide RefusedLayer, EvaluateLayers, LayersAnswered;
    if count > 0 {
      EvaluateAdmissionsAnswered(admissions, blockers, count - 1, objects, evaluate);
      var (done, middle) := EvaluateAdmissions(admissions, blockers, count - 1, objects, evaluate);
      var a := done[count - 1];
      EvaluateLayersAnswered(a.application, a.layers, middle, objects, evaluate);
      var e := EvaluateLayers(a.application, Evaluation(a.layers, middle), |a.layers|, objects, evaluate);
      var (next, after) := EvaluateAdmissions(admissions, blockers, count, objects, evaluate);
      assert next == done[count - 1 := a.(layers := e.layers)] && after == e.blockers;
      assert after[|blockers|..] == middle[|blockers|..] + after[|middle|..];
      forall b
        ensures b in after[|blockers|..] <==> RefusedAdmission(next, count, objects, b)
      {
        RefusedAdmissionStep(done, next, count, objects, b);
      }
    }
  }

  lemma {:induction false} RefusedAdmissionStep(done: seq<Admission>, next: seq<Admission>, count: nat, objects: map<Kappa, ResolvedObject>, b: PlanBlocker)
    requires 0 < count <= |done| == |next| && forall i :: 0 <= i < count - 1 ==> next[i] == done[i]
    ensures RefusedAdmission(next, count, objects, b) <==>
      RefusedAdmission(done, count - 1, objects, b) || RefusedLayer(next[count - 1].application, next[count - 1].layers, objects, b)
  {
    hide RefusedLayer;
    if RefusedAdmission(done, count - 1, objects, b) {
      var i :| 0 <= i < count - 1 && RefusedLayer(done[i].application, done[i].layers, objects, b);
      assert RefusedLayer(next[i].application, next[i].layers, objects, b);
    }
  }

  /** `evaluate_providers`: every resolved layer of every application carries the answer to its own question; the blockers
      already there stay, and those added are exactly the refusals; nothing else changes. */
  lemma {:induction false} EvaluateProvidersAnswers(r: Report, evaluate: ProviderContext -> ProviderAvailability)
    ensures var after := EvaluateProviders(r, evaluate);
      && after == r.(layers := after.layers, admissions := after.admissions, blockers := after.blockers)
      && LayersAnswered(r.application, r.layers, after.layers, r.objects, evaluate)
      && |after.admissions| == |r.admissions|
      && (forall i :: 0 <= i < |r.admissions| ==> AdmissionAnswered(r.admissions[i], after.admissions[i], r.objects, evaluate))
      && r.blockers <= after.blockers
      && forall b :: b in after.blockers[|r.blockers|..] <==>
        RefusedLayer(r.application, after.layers, r.objects, b) || RefusedAdmission(after.admissions, |r.admissions|, r.objects, b)
  {
    hide RefusedLayer, EvaluateLayers, EvaluateAdmissions, LayersAnswered, AdmissionAnswered, RefusedAdmission;
    EvaluateLayersAnswered(r.application, r.layers, r.blockers, r.objects, evaluate);
    var e := EvaluateLayers(r.application, Evaluation(r.layers, r.blockers), |r.layers|, r.objects, evaluate);
    EvaluateAdmissionsAnswered(r.admissions, e.blockers, |r.admissions|, r.objects, evaluate);
    var after := EvaluateProviders(r, evaluate);
    assert after.blockers[|r.blockers|..] == e.blockers[|r.blockers|..] + after.blockers[|e.blockers|..];
  }
}
