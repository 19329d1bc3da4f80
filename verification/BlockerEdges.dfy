/** Where a blocker points: the edge it states is a manifest edge of the graph, and leads to the label it is about
    (src/application_plan.rs:650-737, 869-1046). */
module BlockerEdges {
  import opened Basics
  import opened Upstream
  import opened Resolver
  import opened Planner
  import opened PlanPaths
  import opened PlanTables

  /** A layer of a manifest at a stated position. */
  ghost predicate LayerAt(m: AppManifest, position: U32, k: Kappa) {
    exists i :: 0 <= i < |m.layers| && Saturated(position, i) && m.layers[i].content == k
  }

  ghost predicate ChildApplicationAt(g: Graph, parent: Kappa, position: U32, k: Kappa) {
    exists edge :: HasChild(g, parent, position, edge) && edge.application == k
  }

  ghost predicate DelegationAt(g: Graph, parent: Kappa, position: U32, k: Kappa) {
    exists edge :: HasChild(g, parent, position, edge) && edge.capabilities == k
  }

  /** The edge leads to the label. The edges of the root's own contents are kept apart from those of its descendants. */
  ghost predicate Leads(g: Graph, edge: ManifestEdge, k: Kappa) {
    match edge
    case RequiredCapabilities => k == g.manifest.required
    case LayerEdge(position) => LayerAt(g.manifest, position, k)
    case ChildApplication(parent, position) => ChildApplicationAt(g, parent, position, k)
    case DelegatedCapabilities(parent, position) => DelegationAt(g, parent, position, k)
    case ChildRequiredCapabilities(application) =>
      application != g.root && g.ManifestOf(application).Some? && k == g.ManifestOf(application).value.required
    case ChildLayer(application, position) =>
      application != g.root && g.ManifestOf(application).Some? && LayerAt(g.ManifestOf(application).value, position, k)
  }

  ghost predicate LeadsSomewhere(g: Graph, edge: ManifestEdge) {
    exists k :: Leads(g, edge, k)
  }

  /** What a blocker points at. */
  ghost predicate Points(g: Graph, blocker: PlanBlocker) {
    match blocker
    case MissingObject(k, edge) => Leads(g, edge, k)
    case ContentMismatch(k, edge, _) => Leads(g, edge, k)
    case InvalidChildManifest(k, edge) => edge.ChildApplication? && Leads(g, edge, k)
    case LimitExceeded(limit, _, _, at) =>
      if limit == ObjectLimit || limit == ByteLimit then at.Some? && LeadsSomewhere(g, at.value)
      else if limit == DepthLimit then at.Some? && at.value.ChildApplication? && LeadsSomewhere(g, at.value)
      else if limit == ApplicationLimit then at.Some? ==> at.value.ChildApplication? && LeadsSomewhere(g, at.value)
      else at.None?
    case _ => true
  }

  ghost predicate AllPoint(g: Graph, c: State) {
    forall i :: 0 <= i < |c.blockers| ==> Points(g, c.blockers[i])
  }

  lemma {:induction false} BlockPoints(g: Graph, c: State, blocker: PlanBlocker)
    requires AllPoint(g, c) && Points(g, blocker)
    ensures AllPoint(g, Block(c, blocker))
  {
    hide Points;
    forall i | 0 <= i < |Block(c, blocker).blockers|
      ensures Points(g, Block(c, blocker).blockers[i])
    {
      assert i < |c.blockers| ==> Block(c, blocker).blockers[i] == c.blockers[i];
    }
  }

  lemma {:induction false} PointsSame(g: Graph, c: State, t: State)
    requires AllPoint(g, c) && t.blockers == c.blockers
    ensures AllPoint(g, t)
  {
    hide Points;
  }

  /** Following an edge that leads to the label leaves only blockers that point. */
  lemma {:induction false} ResolutionPoints(g: Graph, c: State, k: Kappa, edge: ManifestEdge)
    requires AllPoint(g, c) && Leads(g, edge, k)
    ensures var r := Resolution(g.env, c, k, edge); r.Ok? ==> AllPoint(g, r.value.state)
  {
    hide AllPoint, Leads, U64Of, SaturatingAdd, SourceOf;
    assert LeadsSomewhere(g, edge);
    hide LeadsSomewhere;
    if Settled(g.env, c, k) {
      if k !in c.objects && k in c.failures {
        BlockPoints(g, c, FailureBlocker(c.failures[k], k, edge));
      } else if k !in c.objects && !c.halted {
        var blocker := LimitExceeded(ObjectLimit, g.env.limits.maxObjects, U64Of(|c.referenced| + 1), Some(edge));
        BlockPoints(g, c, blocker);
        PointsSame(g, Block(c, blocker), Block(c, blocker).(halted := true));
      }
    } else if Lookup(g.env, k).Ok? {
      AskPoints(g, c, k);
      AcceptPoints(g, Ask(g.env, c, k), k, edge, Lookup(g.env, k).value);
    }
  }

  lemma {:induction false} AskPoints(g: Graph, c: State, k: Kappa)
    requires AllPoint(g, c)
    ensures AllPoint(g, Ask(g.env, c, k))
  {
    PointsSame(g, c, Ask(g.env, c, k));
  }

  lemma {:induction false} AcceptPoints(g: Graph, c: State, k: Kappa, edge: ManifestEdge, found: Option<Bytes>)
    requires AllPoint(g, c) && Leads(g, edge, k) && LeadsSomewhere(g, edge)
    ensures AllPoint(g, Accept(g.env, c, k, edge, found).state)
  {
    hide AllPoint, Leads, LeadsSomewhere, SaturatingAdd, SourceOf;
    var source := SourceOf(g.env, k);
    if found.None? {
      FailPoints(g, c, k, Missing, edge);
    } else if g.env.up.address(found.value) != k {
      FailPoints(g, c, k, Mismatch(source), edge);
    } else {
      var total := SaturatingAdd(c.resolvedBytes, U64Of(|found.value|));
      if total > g.env.limits.maxResolvedBytes {
        var blocker := LimitExceeded(ByteLimit, g.env.limits.maxResolvedBytes, total, Some(edge));
        BlockPoints(g, c, blocker);
        PointsSame(g, Block(c, blocker), Block(c, blocker).(halted := true));
      } else {
        PointsSame(g, c, Accept(g.env, c, k, edge, found).state);
      }
    }
  }

  lemma {:induction false} FailPoints(g: Graph, c: State, k: Kappa, failure: ResolutionFailure, edge: ManifestEdge)
    requires AllPoint(g, c) && Leads(g, edge, k)
    ensures AllPoint(g, Fail(c, k, failure, edge))
  {
    hide AllPoint, Leads;
    PointsSame(g, c, c.(failures := c.failures[k := failure]));
    BlockPoints(g, c.(failures := c.failures[k := failure]), FailureBlocker(failure, k, edge));
  }

  // ---------- The edges of one application ----------

  lemma {:induction false} DepthOfRoot(g: Graph, app: Pending)
    requires g.Reached(app)
    ensures g.ManifestOf(app.application) == Some(app.manifest)
    ensures if app.depth == 0 then app.application == g.root && app.manifest == g.manifest else app.application != g.root
  {
    hide Graph.ManifestOf;
    assert g.ManifestOf(g.root) == Some(g.manifest) by {
      ManifestOfIff(g, g.root, g.manifest);
    }
    if app.depth > 0 {
      assert app.path[0] != app.path[app.depth];
    }
  }

  lemma {:induction false} RequiresLeads(g: Graph, app: Pending)
    requires g.Reached(app)
    ensures Leads(g, RequiresEdge(app), app.manifest.required)
  {
    DepthOfRoot(g, app);
    hide Graph.ManifestOf, Graph.Reached;
  }

  lemma {:induction false} LayerLeads(g: Graph, app: Pending, position: nat)
    requires g.Reached(app) && position < |app.manifest.layers|
    ensures Leads(g, LayerEdgeOf(app, position), app.manifest.layers[position].content)
  {
    DepthOfRoot(g, app);
    hide Graph.ManifestOf, Graph.Reached;
    assert Saturated(U32Of(position), position);
  }

  lemma {:induction false} ChildLeads(g: Graph, app: Pending, position: nat)
    requires g.Reached(app) && position < |app.manifest.children|
    ensures var edge := app.manifest.children[position];
      && Leads(g, ChildApplication(app.application, U32Of(position)), edge.application)
      && Leads(g, DelegatedCapabilities(app.application, U32Of(position)), edge.capabilities)
      && LeadsSomewhere(g, ChildApplication(app.application, U32Of(position)))
  {
    hide Graph.ManifestOf;
    var edge := app.manifest.children[position];
    assert ChildAt(g, app.application, U32Of(position), edge, position);
    assert HasChild(g, app.application, U32Of(position), edge);
    assert Leads(g, ChildApplication(app.application, U32Of(position)), edge.application);
  }

  lemma {:induction false} RequirePoints(g: Graph, s: Plan, app: Pending)
    requires AllPoint(g, s.closure) && g.Reached(app)
    ensures var r := Require(g.env, s, app); r.Ok? ==> AllPoint(g, r.value.closure)
  {
    hide AllPoint, Leads, Resolution, DecodeCapabilities, Graph.Reached;
    RequiresLeads(g, app);
    ResolutionPoints(g, s.closure, app.manifest.required, RequiresEdge(app));
    var answer := Resolution(g.env, s.closure, app.manifest.required, RequiresEdge(app));
    if answer.Ok? && answer.value.resolved.Some? {
      BlockPoints(g, answer.value.state, InvalidCapabilitySet(answer.value.resolved.value.kappa));
    }
  }

  lemma {:induction false} ResolveLayersPoints(g: Graph, c: State, app: Pending, from: nat)
    requires AllPoint(g, c) && g.Reached(app)
    ensures var r := ResolveLayers(g.env, c, app, from); r.Ok? ==> AllPoint(g, r.value)
    decreases |app.manifest.layers| - from
  {
    hide AllPoint, Leads, Resolution, Graph.Reached;
    if from < |app.manifest.layers| {
      var k, edge := app.manifest.layers[from].content, LayerEdgeOf(app, from);
      LayerLeads(g, app, from);
      ResolutionPoints(g, c, k, edge);
      var answer := Resolution(g.env, c, k, edge);
      if answer.Ok? {
        ResolveLayersPoints(g, answer.value.state, app, from + 1);
      }
    }
  }

  lemma {:induction false} AdmitPoints(g: Graph, s: Plan, app: Pending, position: nat)
    requires AllPoint(g, s.closure) && g.Reached(app) && position < |app.manifest.children|
    ensures var r := AdmitChild(g.env, s, app, position, app.manifest.children[position]); r.Ok? ==> AllPoint(g, r.value.closure)
  {
    hide AllPoint, Leads, LeadsSomewhere, Resolution, DecodeCapabilities, RecordChild, DecodeChildManifest, Graph.Reached;
    var edge := app.manifest.children[position];
    ChildLeads(g, app, position);
    var at, capabilities := ChildApplication(app.application, U32Of(position)), DelegatedCapabilities(app.application, U32Of(position));
    ResolutionPoints(g, s.closure, edge.capabilities, capabilities);
    var delegated := Resolution(g.env, s.closure, edge.capabilities, capabilities);
    if delegated.Ok? && delegated.value.resolved.Some? {
      BlockPoints(g, delegated.value.state, InvalidCapabilitySet(delegated.value.resolved.value.kappa));
    }
    var d := Delegate(g.env, s.closure, app, position, edge);
    if d.Ok? {
      ResolutionPoints(g, d.value.closure, edge.application, at);
      var answer := Resolution(g.env, d.value.closure, edge.application, at);
      if answer.Ok? {
        RecordChildClosure(g.env, s, app, position, edge, d.value, answer.value);
        BlockPoints(g, answer.value.state, InvalidChildManifest(edge.application, at));
      }
    }
  }

  lemma {:induction false} RefusePoints(g: Graph, s: Plan, app: Pending, position: nat)
    requires AllPoint(g, s.closure) && g.Reached(app) && position < |app.manifest.children|
    ensures var edge := app.manifest.children[position];
      AllPoint(g, RefuseChild(g.env, s, app, position, edge, Refuse(g.env, s, app, edge)).closure)
  {
    hide AllPoint, Leads, LeadsSomewhere, Graph.Reached, Row;
    var edge := app.manifest.children[position];
    ChildLeads(g, app, position);
    var at := Some(ChildApplication(app.application, U32Of(position)));
    BlockPoints(g, s.closure, ChildCycle(app.path + [edge.application]));
    BlockPoints(g, s.closure, LimitExceeded(DepthLimit, g.env.limits.maxDepth, U64Of(app.depth + 1), at));
    BlockPoints(g, s.closure, LimitExceeded(ApplicationLimit, g.env.limits.maxApplications, U64Of(s.applicationCount + 1), at));
  }

  lemma {:induction false} VisitChildrenPoints(g: Graph, s: Plan, app: Pending, from: nat)
    requires AllPoint(g, s.closure) && g.Reached(app)
    ensures var r := VisitChildren(g.env, s, app, from); r.Ok? ==> AllPoint(g, r.value.closure)
    decreases |app.manifest.children| - from
  {
    hide AllPoint, AdmitChild, RefuseChild, Refuse, Graph.Reached;
    if from < |app.manifest.children| {
      AdmitPoints(g, s, app, from);
      RefusePoints(g, s, app, from);
      var s1 := VisitChild(g.env, s, app, from);
      if s1.Ok? {
        VisitChildrenPoints(g, s1.value, app, from + 1);
      }
    }
  }

  lemma {:induction false} VisitPoints(g: Graph, s: Plan, app: Pending)
    requires AllPoint(g, s.closure) && g.Reached(app)
    ensures var r := Visit(g.env, s, app); r.Ok? ==> AllPoint(g, r.value.plan.closure)
  {
    hide AllPoint, Require, ResolveLayers, VisitChildren, Graph.Reached;
    var begun := Open(s, app);
    BlockPoints(g, s.closure, LimitExceeded(LayerLimit, g.env.limits.maxLayers, begun.totalLayers, None));
    RequirePoints(g, begun, app);
    var s1 := Require(g.env, begun, app);
    if s1.Ok? {
      ResolveLayersPoints(g, s1.value.closure, app, 0);
      var c := ResolveLayers(g.env, s1.value.closure, app, 0);
      if c.Ok? {
        VisitChildrenPoints(g, s1.value.(closure := c.value), app, 0);
      }
    }
  }

  /** Every blocker of a planning run points at a manifest edge that leads to the label it is about. */
  lemma {:induction false} RunPoints(g: Graph, s: Plan)
    requires AllPoint(g, s.closure) && g.Bounded(s) && Consistent(g.env, s.closure)
    ensures var r := Run(g.env, s); r.Ok? ==> AllPoint(g, r.value.closure)
    decreases Room(g.env, s)
  {
    hide AllPoint, Consistent, Visit, Graph.Reached;
    if s.pending != [] {
      var rest := s.(pending := s.pending[1..]);
      VisitRoom(g.env, rest, s.pending[0]);
      VisitKeeps(g, rest, s.pending[0]);
      VisitPoints(g, rest, s.pending[0]);
      var turn := Visit(g.env, rest, s.pending[0]);
      if turn.Ok? && !turn.value.stop {
        RunPoints(g, turn.value.plan);
      }
    }
  }

  lemma {:induction false} StartPoints(g: Graph)
    ensures AllPoint(g, Start(g.env, g.root, g.manifest).closure)
  {
  }
}
