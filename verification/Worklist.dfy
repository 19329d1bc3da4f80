/** The planning loop as the program runs it: a queue, counters and tables updated in place
    (src/application_plan.rs:843-1046), proved to compute the worklist function of `Planner`. */
module Worklist {
  import opened Basics
  import opened Upstream
  import opened Resolver
  import opened Planner

  class PlanningLoop {
    const closure: ClosureResolver
    var pending: seq<Pending>
    var children: seq<ChildReference>
    var admissions: seq<Admission>
    var requested: Option<CapabilityObject>
    var applicationCount: nat
    var maxDepth: nat
    var totalLayers: nat
    var applicationsLimited: bool

    ghost function Value(): Plan
      reads this, closure
    {
      Plan(closure.Value(), pending, children, admissions, requested, applicationCount, maxDepth, totalLayers, applicationsLimited)
    }

    /** Every queued application points at an existing admission. */
    ghost predicate InRange()
      reads this
    {
      forall i :: 0 <= i < |pending| ==> Points(pending[i])
    }

    ghost predicate Points(app: Pending)
      reads this
    {
      app.admission.Some? ==> app.admission.value < |admissions|
    }

    constructor (env: Sources, root: Kappa, manifest: AppManifest)
      ensures fresh(closure) && closure.env == env
      ensures Value() == Start(env, root, manifest) && InRange()
    {
      var resolver := new ClosureResolver(env);
      closure := resolver;
      pending := [Pending(0, None, root, manifest, 0, [root])];
      children, admissions, requested := [], [], None;
      applicationCount, maxDepth, totalLayers, applicationsLimited := 1, 0, 0, false;
      new;
      if applicationCount > env.limits.maxApplications {
        closure.blockers := closure.blockers + [LimitExceeded(ApplicationLimit, env.limits.maxApplications, 1, None)];
        applicationsLimited := true;
        pending := [];
      }
    }

    method Begin(app: Pending)
      requires Points(app) && InRange()
      modifies this
      ensures Value() == Open(old(Value()), app)
      ensures |admissions| == old(|admissions|) && InRange()
    {
      if app.admission.Some? {
        var i := app.admission.value;
        admissions := admissions[i := admissions[i].(primary := app.manifest.primary, layers := PlannedLayers(app.manifest))];
      }
      totalLayers := SaturatingAdd(totalLayers, |app.manifest.layers|);
    }

    method LoadRequest(app: Pending) returns (r: Result<()>)
      requires Points(app) && InRange()
      modifies this, closure
      ensures var s := Require(closure.env, old(Value()), app);
        if s.Ok? then r == Ok(()) && Value() == s.value else r == Err(s.error)
      ensures |admissions| == old(|admissions|) && InRange()
    {
      var answer := closure.Resolve(app.manifest.required, RequiresEdge(app));
      if answer.Err? {
        return Err(answer.error);
      }
      if answer.value.Some? {
        var resolved := answer.value.value;
        var request := DecodeCapabilities(closure.env.up, resolved.kappa, resolved.bytes);
        if request.None? {
          closure.blockers := closure.blockers + [InvalidCapabilitySet(resolved.kappa)];
        } else if app.depth == 0 {
          requested := request;
        } else if app.admission.Some? {
          var i := app.admission.value;
          admissions := admissions[i := admissions[i].(requested := request)];
        }
      }
      return Ok(());
    }

    method LoadLayers(app: Pending) returns (r: Result<()>)
      modifies closure
      ensures var c := ResolveLayers(closure.env, old(closure.Value()), app, 0);
        if c.Ok? then r == Ok(()) && closure.Value() == c.value else r == Err(c.error)
    {
      var i := 0;
      while i < |app.manifest.layers|
        invariant 0 <= i <= |app.manifest.layers|
        invariant ResolveLayers(closure.env, closure.Value(), app, i) == ResolveLayers(closure.env, old(closure.Value()), app, 0)
      {
        var answer := closure.Resolve(app.manifest.layers[i].content, LayerEdgeOf(app, i));
        if answer.Err? {
          return Err(answer.error);
        }
        i := i + 1;
      }
      return Ok(());
    }

    method LoadContents(app: Pending) returns (r: Result<()>)
      requires Points(app) && InRange()
      modifies this, closure
      ensures var s := VisitContents(closure.env, old(Value()), app);
        if s.Ok? then r == Ok(()) && Value() == s.value else r == Err(s.error)
      ensures |admissions| == old(|admissions|) && InRange()
    {
      hide Require, ResolveLayers;
      r := LoadRequest(app);
      if r.Ok? {
        r := LoadLayers(app);
      }
    }

    method LoadDelegation(app: Pending, position: nat, edge: ChildEdge)
      returns (r: Result<()>, source: Option<ResolutionSource>, delegated: Option<CapabilityObject>)
      modifies closure
      ensures var d := Delegate(closure.env, old(closure.Value()), app, position, edge);
        if d.Ok? then r == Ok(()) && Delegation(closure.Value(), source, delegated) == d.value else r == Err(d.error)
    {
      source, delegated := None, None;
      var answer := closure.Resolve(edge.capabilities, DelegatedCapabilities(app.application, U32Of(position)));
      if answer.Err? {
        return Err(answer.error), None, None;
      }
      if answer.value.Some? {
        var resolved := answer.value.value;
        source := Some(resolved.source);
        delegated := DecodeCapabilities(closure.env.up, resolved.kappa, resolved.bytes);
        if delegated.None? {
          closure.blockers := closure.blockers + [InvalidCapabilitySet(resolved.kappa)];
        }
      }
      r := Ok(());
    }

    method FollowChild(app: Pending, position: nat, edge: ChildEdge) returns (r: Result<()>)
      requires InRange()
      modifies this, closure
      ensures var s := AdmitChild(closure.env, old(Value()), app, position, edge);
        if s.Ok? then r == Ok(()) && Value() == s.value else r == Err(s.error)
      ensures |admissions| >= old(|admissions|) && InRange()
    {
      hide Delegate, Resolution, RecordChild;
      var ok, source, delegated := LoadDelegation(app, position, edge);
      if ok.Err? {
        return ok;
      }
      ghost var d := Delegation(closure.Value(), source, delegated);
      var answer := closure.Resolve(edge.application, ChildApplication(app.application, U32Of(position)));
      if answer.Err? {
        return Err(answer.error);
      }
      Record(app, position, edge, source, delegated, answer.value, d, old(Value()));
      return Ok(());
    }

    method Record(app: Pending, position: nat, edge: ChildEdge, source: Option<ResolutionSource>,
                  delegated: Option<CapabilityObject>, found: Option<ResolvedObject>, ghost d: Delegation, ghost s: Plan)
      requires InRange() && d.source == source && d.delegated == delegated
      requires s == Value().(closure := s.closure)
      modifies this, closure
      ensures Value() == RecordChild(closure.env, s, app, position, edge, d, Answer(old(closure.Value()), found))
      ensures |admissions| >= old(|admissions|) && InRange()
    {
      hide Enqueue, DecodeChildManifest, Row;
      var index := applicationCount;
      applicationCount := applicationCount + 1;
      maxDepth := Max(maxDepth, app.depth + 1);
      var row := Row(app, position, edge).(capabilitiesSource := source, applicationSource := SourceIn(found));
      if found.None? {
        children := children + [row];
        return;
      }
      var resolved := found.value;
      var manifest := DecodeChildManifest(closure.env.up, resolved.bytes);
      if manifest.None? {
        children := children + [row];
        closure.blockers := closure.blockers
          + [InvalidChildManifest(edge.application, ChildApplication(app.application, U32Of(position)))];
        return;
      }
      children := children + [row.(required := Some(manifest.value.required), layerCount := Some(|manifest.value.layers|))];
      Queue(app, position, index, resolved.kappa, manifest.value, delegated);
    }

    method Queue(app: Pending, position: nat, index: nat, kappa: Kappa, manifest: AppManifest, delegated: Option<CapabilityObject>)
      requires InRange()
      modifies this
      ensures Value() == Enqueue(old(Value()), app, position, index, kappa, manifest, delegated)
      ensures |admissions| >= old(|admissions|) && InRange()
    {
      var admission := None;
      if delegated.Some? {
        admission := Some(|admissions|);
        admissions := admissions + [Admission(U32Of(position), app.index, app.application, index, kappa,
                                              delegated.value, None, None, [])];
      }
      pending := pending + [Pending(index, admission, kappa, manifest, app.depth + 1, app.path + [kappa])];
    }

    method ConsiderChild(app: Pending, position: nat) returns (r: Result<()>)
      requires InRange() && position < |app.manifest.children|
      modifies this, closure
      ensures var s := VisitChild(closure.env, old(Value()), app, position);
        if s.Ok? then r == Ok(()) && Value() == s.value else r == Err(s.error)
      ensures |admissions| >= old(|admissions|) && InRange()
    {
      hide AdmitChild;
      var edge := app.manifest.children[position];
      var limits := closure.env.limits;
      var applicationEdge := Some(ChildApplication(app.application, U32Of(position)));
      if edge.application in app.path {
        children := children + [Row(app, position, edge)];
        closure.blockers := closure.blockers + [ChildCycle(app.path + [edge.application])];
        return Ok(());
      }
      if app.depth + 1 > limits.maxDepth {
        children := children + [Row(app, position, edge)];
        closure.blockers := closure.blockers + [LimitExceeded(DepthLimit, limits.maxDepth, U64Of(app.depth + 1), applicationEdge)];
        return Ok(());
      }
      if applicationsLimited || applicationCount >= limits.maxApplications {
        children := children + [Row(app, position, edge)];
        if !applicationsLimited {
          closure.blockers := closure.blockers
            + [LimitExceeded(ApplicationLimit, limits.maxApplications, U64Of(applicationCount + 1), applicationEdge)];
          applicationsLimited := true;
        }
        return Ok(());
      }
      r := FollowChild(app, position, edge);
    }

    method ConsiderChildren(app: Pending) returns (r: Result<()>)
      requires InRange()
      modifies this, closure
      ensures var s := VisitChildren(closure.env, old(Value()), app, 0);
        if s.Ok? then r == Ok(()) && Value() == s.value else r == Err(s.error)
      ensures |admissions| >= old(|admissions|) && InRange()
    {
      hide VisitChild;
      var i := 0;
      while i < |app.manifest.children|
        invariant 0 <= i <= |app.manifest.children|
        invariant |admissions| >= old(|admissions|) && InRange()
        invariant VisitChildren(closure.env, Value(), app, i) == VisitChildren(closure.env, old(Value()), app, 0)
      {
        r := ConsiderChild(app, i);
        if r.Err? {
          return;
        }
        i := i + 1;
      }
      r := Ok(());
    }

    /** One turn of the loop; the result says whether the loop stops. */
    method TakeTurn(app: Pending) returns (r: Result<bool>)
      requires Points(app) && InRange()
      modifies this, closure
      ensures var t := Visit(closure.env, old(Value()), app);
        if t.Ok? then r == Ok(t.value.stop) && Value() == t.value.plan else r == Err(t.error)
      ensures InRange()
    {
      hide VisitContents, VisitChildren, PlannedLayers;
      Begin(app);
      var limits := closure.env.limits;
      if totalLayers > limits.maxLayers {
        closure.blockers := closure.blockers + [LimitExceeded(LayerLimit, limits.maxLayers, totalLayers, None)];
        return Ok(true);
      }
      var ok := LoadContents(app);
      if ok.Err? {
        return Err(ok.error);
      }
      if closure.halted {
        return Ok(true);
      }
      ok := ConsiderChildren(app);
      if ok.Err? {
        return Err(ok.error);
      }
      return Ok(closure.halted);
    }

    /** The whole loop computes the worklist function, and no admission index is ever out of range. */
    method Drain() returns (r: Result<()>)
      requires InRange()
      modifies this, closure
      ensures var s := Run(closure.env, old(Value()));
        if s.Ok? then r == Ok(()) && Value() == s.value else r == Err(s.error)
    {
      hide Visit;
      while pending != []
        invariant InRange()
        invariant Run(closure.env, Value()) == Run(closure.env, old(Value()))
        decreases Room(closure.env, Value())
      {
        ghost var before := Value();
        var app := pending[0];
        pending := pending[1..];
        VisitRoom(closure.env, Value(), app);
        var stop := TakeTurn(app);
        if stop.Err? {
          return Err(stop.error);
        }
        if stop.value {
          break;
        }
      }
      return Ok(());
    }
  }
}
