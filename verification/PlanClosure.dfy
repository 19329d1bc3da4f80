/** Planning over sources that hold everything: nothing but a limit can block it. */
module PlanClosure {
  import opened Basics
  import opened Upstream
  import opened Resolver
  import opened Planner
  import opened PlanPaths
  import opened PlanReport
  import opened Directory

  /** The sources hold content under this label, and it matches. */
  ghost predicate Good(env: Sources, k: Kappa) {
    Stores(env, k) && env.up.address(Stored(env, k)) == k
  }

  ghost predicate GoodCapabilities(env: Sources, k: Kappa) {
    Good(env, k) && DecodeCapabilities(env.up, k, Stored(env, k)).Some?
  }

  ghost predicate GoodManifest(env: Sources, k: Kappa) {
    Good(env, k) && DecodeChildManifest(env.up, Stored(env, k)).Some?
  }

  /** Everything a manifest names is held and decodes. */
  ghost predicate Whole(env: Sources, m: AppManifest) {
    && GoodCapabilities(env, m.required)
    && (forall i :: 0 <= i < |m.layers| ==> Good(env, m.layers[i].content))
    && (forall i :: 0 <= i < |m.children| ==>
      GoodCapabilities(env, m.children[i].capabilities) && GoodManifest(env, m.children[i].application))
  }

  /** Every application that can be reached is whole and closes no cycle. */
  ghost predicate Closed(g: Graph) {
    forall p: Pending :: g.Reached(p) ==> Whole(g.env, p.manifest) && Acyclic(p)
  }

  ghost predicate Acyclic(p: Pending) {
    forall i :: 0 <= i < |p.manifest.children| ==> p.manifest.children[i].application !in p.path
  }

  /** Nothing failed, and only limits have blocked. */
  ghost predicate LimitsOnly(c: State) {
    c.failures == map[] && forall i :: 0 <= i < |c.blockers| ==> c.blockers[i].LimitExceeded?
  }

  lemma {:induction false} RecallLimits(env: Sources, c: State, k: Kappa, edge: ManifestEdge)
    requires LimitsOnly(c) && Settled(env, c, k)
    ensures LimitsOnly(Recall(env, c, k, edge).state)
  {
    var t := Recall(env, c, k, edge).state;
    assert forall i :: 0 <= i < |c.blockers| ==> t.blockers[i] == c.blockers[i];
  }

  lemma {:induction false} AcceptLimits(env: Sources, c: State, k: Kappa, edge: ManifestEdge, found: Option<Bytes>)
    requires LimitsOnly(c) && found.Some? && env.up.address(found.value) == k
    ensures LimitsOnly(Accept(env, c, k, edge, found).state)
  {
    var t := Accept(env, c, k, edge, found).state;
    assert forall i :: 0 <= i < |c.blockers| ==> t.blockers[i] == c.blockers[i];
  }

  lemma {:induction false} ResolutionOnlyLimits(env: Sources, c: State, k: Kappa, edge: ManifestEdge)
    requires LimitsOnly(c) && Good(env, k)
    ensures Resolution(env, c, k, edge).Ok? && LimitsOnly(Resolution(env, c, k, edge).value.state)
  {
    hide Accept, Recall;
    if Settled(env, c, k) {
      RecallLimits(env, c, k, edge);
    } else {
      AcceptLimits(env, Ask(env, c, k), k, edge, Lookup(env, k).value);
    }
  }

  lemma {:induction false} ResolutionLimits(env: Sources, c: State, k: Kappa, edge: ManifestEdge)
    requires Consistent(env, c) && LimitsOnly(c) && Good(env, k)
    ensures var r := Resolution(env, c, k, edge);
      && r.Ok? && LimitsOnly(r.value.state) && Consistent(env, r.value.state)
      && (r.value.resolved.Some? ==> r.value.resolved.value.kappa == k && r.value.resolved.value.bytes == Stored(env, k))
  {
    hide Consistent, Resolution, LimitsOnly, Lookup;
    ResolutionOnlyLimits(env, c, k, edge);
    ResolutionAdvances(env, c, k, edge);
    AnswerIsLookup(env, c, k, edge);
  }

  lemma {:induction false} RequireLimits(env: Sources, s: Plan, app: Pending)
    requires Consistent(env, s.closure) && LimitsOnly(s.closure) && Whole(env, app.manifest)
    ensures var r := Require(env, s, app);
      r.Ok? && LimitsOnly(r.value.closure) && Consistent(env, r.value.closure)
  {
    hide Consistent, Resolution, DecodeCapabilities, LimitsOnly, Stores, Stored;
    ResolutionLimits(env, s.closure, app.manifest.required, RequiresEdge(app));
  }

  lemma {:induction false} ResolveLayersLimits(env: Sources, c: State, app: Pending, from: nat)
    requires Consistent(env, c) && LimitsOnly(c) && Whole(env, app.manifest)
    ensures var r := ResolveLayers(env, c, app, from); r.Ok? && LimitsOnly(r.value) && Consistent(env, r.value)
    decreases |app.manifest.layers| - from
  {
    hide Consistent, Resolution, LimitsOnly, Good, GoodCapabilities, GoodManifest;
    if from < |app.manifest.layers| {
      var k, edge := app.manifest.layers[from].content, LayerEdgeOf(app, from);
      ResolutionLimits(env, c, k, edge);
      ResolveLayersLimits(env, Resolution(env, c, k, edge).value.state, app, from + 1);
    }
  }

  lemma {:induction false} ContentsLimits(env: Sources, s: Plan, app: Pending)
    requires Consistent(env, s.closure) && LimitsOnly(s.closure) && Whole(env, app.manifest)
    ensures var r := VisitContents(env, s, app); r.Ok? && LimitsOnly(r.value.closure) && Consistent(env, r.value.closure)
  {
    hide Consistent, LimitsOnly, Whole, Require, ResolveLayers;
    RequireLimits(env, s, app);
    ResolveLayersLimits(env, Require(env, s, app).value.closure, app, 0);
  }

  lemma {:induction false} DelegateLimits(env: Sources, c: State, app: Pending, position: nat, edge: ChildEdge)
    requires Consistent(env, c) && LimitsOnly(c) && GoodCapabilities(env, edge.capabilities)
    ensures var r := Delegate(env, c, app, position, edge); r.Ok? && LimitsOnly(r.value.closure) && Consistent(env, r.value.closure)
  {
    hide Consistent, Resolution, DecodeCapabilities, LimitsOnly, Stores, Stored;
    ResolutionLimits(env, c, edge.capabilities, DelegatedCapabilities(app.application, U32Of(position)));
  }

  lemma {:induction false} AdmitChildLimits(env: Sources, s: Plan, app: Pending, position: nat, edge: ChildEdge)
    requires Consistent(env, s.closure) && LimitsOnly(s.closure)
    requires GoodCapabilities(env, edge.capabilities) && GoodManifest(env, edge.application)
    ensures var r := AdmitChild(env, s, app, position, edge); r.Ok? && LimitsOnly(r.value.closure)
  {
    hide Consistent, Delegate, Resolution, RecordChild, DecodeChildManifest, LimitsOnly, Stores, Stored;
    DelegateLimits(env, s.closure, app, position, edge);
    var d := Delegate(env, s.closure, app, position, edge).value;
    var at := ChildApplication(app.application, U32Of(position));
    ResolutionLimits(env, d.closure, edge.application, at);
    RecordChildClosure(env, s, app, position, edge, d, Resolution(env, d.closure, edge.application, at).value);
  }

  lemma {:induction false} RefuseLimits(env: Sources, s: Plan, app: Pending, position: nat, edge: ChildEdge)
    requires LimitsOnly(s.closure) && edge.application !in app.path
    ensures LimitsOnly(RefuseChild(env, s, app, position, edge, Refuse(env, s, app, edge)).closure)
  {
  }

  lemma {:induction false} VisitChildrenLimits(g: Graph, s: Plan, app: Pending, from: nat)
    requires g.Bounded(s) && Consistent(g.env, s.closure) && g.Reached(app)
    requires LimitsOnly(s.closure) && Whole(g.env, app.manifest) && Acyclic(app)
    ensures var r := VisitChildren(g.env, s, app, from); r.Ok? && LimitsOnly(r.value.closure)
    decreases |app.manifest.children| - from
  {
    hide Consistent, LimitsOnly, Graph.Bounded, Graph.Reached, AdmitChild, RefuseChild, Refuse, GoodManifest, GoodCapabilities, Good;
    if from < |app.manifest.children| {
      var edge := app.manifest.children[from];
      AdmitChildLimits(g.env, s, app, from, edge);
      RefuseLimits(g.env, s, app, from, edge);
      VisitChildKeeps(g, s, app, from);
      VisitChildrenLimits(g, VisitChild(g.env, s, app, from).value, app, from + 1);
    }
  }

  lemma {:induction false} VisitLimits(g: Graph, s: Plan, app: Pending)
    requires g.Bounded(s) && Consistent(g.env, s.closure) && g.Reached(app)
    requires LimitsOnly(s.closure) && Whole(g.env, app.manifest) && Acyclic(app)
    ensures var r := Visit(g.env, s, app); r.Ok? && LimitsOnly(r.value.plan.closure)
  {
    hide Consistent, VisitContents, VisitChildren, Graph.Reached, Whole, Acyclic;
    var begun := Open(s, app);
    ContentsLimits(g.env, begun, app);
    VisitContentsKeeps(g, begun, app);
    VisitChildrenLimits(g, VisitContents(g.env, begun, app).value, app, 0);
  }

  /** On closed sources planning never fails, and only a limit can block it. */
  lemma {:induction false} RunLimits(g: Graph, s: Plan)
    requires Closed(g) && g.Bounded(s) && Consistent(g.env, s.closure) && LimitsOnly(s.closure)
    ensures var r := Run(g.env, s); r.Ok? && LimitsOnly(r.value.closure)
    decreases Room(g.env, s)
  {
    hide Consistent, Visit, Graph.Reached, LimitsOnly, Whole, Acyclic;
    if s.pending != [] {
      var rest := s.(pending := s.pending[1..]);
      VisitRoom(g.env, rest, s.pending[0]);
      VisitLimits(g, rest, s.pending[0]);
      VisitKeeps(g, rest, s.pending[0]);
      var turn := Visit(g.env, rest, s.pending[0]);
      if !turn.value.stop {
        RunLimits(g, turn.value.plan);
      }
    }
  }

  lemma {:induction false} StartLimits(g: Graph)
    ensures LimitsOnly(Start(g.env, g.root, g.manifest).closure)
  {
  }

  /** A verified archive whose sources are closed always plans, and its only blockers are limits and, for a
      library, the missing primary layer. */
  lemma {:induction false} ClosedPlans(up: Crates, archive: Archive, limits: PlanLimits, local: Kappa -> Result<Option<Bytes>>, manifest: AppManifest)
    requires ManifestsRoundTrip(up)
    requires ReadManifest(up, archive) == Ok(manifest) && VerifyRequired(up, manifest, archive.directories, archive.blobs).Ok?
    requires Closed(Graph(SourcesOf(up, archive, limits, local), up.address(up.encodeManifest(manifest)), manifest))
    ensures var r := Explain(up, archive, limits, local);
      && r.Ok? && r.value.manifest == manifest
      && forall i :: 0 <= i < |r.value.blockers| ==>
        r.value.blockers[i].LimitExceeded? || (r.value.blockers[i].LibraryArchive? && manifest.primary.None?)
  {
    hide Run, VerifyRequired, Start, WithSources, PlannedLayers, EmbeddedMap, Closed, Graph.Bounded, Consistent;
    var g := Graph(SourcesOf(up, archive, limits, local), up.address(up.encodeManifest(manifest)), manifest);
    StartKeeps(g);
    StartLimits(g);
    RunLimits(g, Start(g.env, g.root, g.manifest));
  }
}
