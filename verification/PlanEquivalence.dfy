/** Fat and thin packaging mean the same: planning depends on the content a label denotes, not on where the
    content was found (src/application_plan.rs:650-737, 817-1085). */
module PlanEquivalence {
  import opened Basics
  import opened Upstream
  import opened Directory
  import opened Resolver
  import opened Planner
  import opened PlanReport
  import GrantAdmission

  /** Two planners that find the same content for every label, with verified embedded blobs. */
  ghost predicate SameContent(a: Sources, b: Sources) {
    && a.up == b.up && a.limits == b.limits
    && (forall k :: Lookup(a, k) == Lookup(b, k))
    && (forall k :: k in a.embedded ==> a.up.address(a.embedded[k]) == k)
    && (forall k :: k in b.embedded ==> b.up.address(b.embedded[k]) == k)
  }

  ghost predicate AlikeObjects(a: map<Kappa, ResolvedObject>, b: map<Kappa, ResolvedObject>) {
    && (forall k :: k in a <==> k in b)
    && (forall k :: k in a ==> a[k].kappa == b[k].kappa && a[k].bytes == b[k].bytes)
  }

  ghost predicate AlikeFound(a: Option<ResolvedObject>, b: Option<ResolvedObject>) {
    match (a, b)
    case (None, None) => true
    case (Some(x), Some(y)) => x.kappa == y.kappa && x.bytes == y.bytes
    case _ => false
  }

  /** Equal up to sources, the embedded count and the query log; blockers are equal outright. */
  ghost predicate Alike(a: State, b: State) {
    && AlikeObjects(a.objects, b.objects)
    && b == a.(objects := b.objects, embeddedCount := b.embeddedCount, queries := b.queries)
  }

  ghost predicate AlikeAnswer(a: Result<Answer>, b: Result<Answer>) {
    if a.Ok? && b.Ok? then Alike(a.value.state, b.value.state) && AlikeFound(a.value.resolved, b.value.resolved)
    else a == b
  }

  /** A label whose bytes do not match it was not embedded, so both planners blame the local store. */
  lemma {:induction false} MismatchIsLocal(a: Sources, b: Sources, kappa: Kappa, found: Option<Bytes>)
    requires SameContent(a, b) && Lookup(a, kappa) == Ok(found)
    ensures found.Some? && a.up.address(found.value) != kappa ==> kappa !in a.embedded && kappa !in b.embedded
  {
    assert Lookup(b, kappa) == Ok(found);
  }

  lemma {:induction false} AcceptAlike(a: Sources, b: Sources, s: State, t: State, kappa: Kappa, edge: ManifestEdge, found: Option<Bytes>)
    requires a.up == b.up && a.limits == b.limits && Alike(s, t)
    requires found.Some? && a.up.address(found.value) != kappa ==> kappa !in a.embedded && kappa !in b.embedded
    ensures var x, y := Accept(a, s, kappa, edge, found), Accept(b, t, kappa, edge, found);
      Alike(x.state, y.state) && AlikeFound(x.resolved, y.resolved)
  {
  }

  lemma {:induction false} RecallAlike(a: Sources, b: Sources, s: State, t: State, kappa: Kappa, edge: ManifestEdge)
    requires a.limits == b.limits && Alike(s, t)
    ensures Settled(a, s, kappa) <==> Settled(b, t, kappa)
    ensures Settled(a, s, kappa) ==>
      var x, y := Recall(a, s, kappa, edge), Recall(b, t, kappa, edge);
      Alike(x.state, y.state) && AlikeFound(x.resolved, y.resolved)
  {
  }

  lemma {:induction false} ResolutionAlike(a: Sources, b: Sources, s: State, t: State, kappa: Kappa, edge: ManifestEdge)
    requires SameContent(a, b) && Alike(s, t)
    ensures AlikeAnswer(Resolution(a, s, kappa, edge), Resolution(b, t, kappa, edge))
  {
    hide AlikeFound;
    RecallAlike(a, b, s, t, kappa, edge);
    assert Lookup(a, kappa) == Lookup(b, kappa);
    if !Settled(a, s, kappa) && Lookup(a, kappa).Ok? {
      MismatchIsLocal(a, b, kappa, Lookup(a, kappa).value);
      AcceptAlike(a, b, Ask(a, s, kappa), Ask(b, t, kappa), kappa, edge, Lookup(a, kappa).value);
    }
  }

  ghost predicate AlikeRow(a: ChildReference, b: ChildReference) {
    b == a.(applicationSource := b.applicationSource, capabilitiesSource := b.capabilitiesSource)
  }

  ghost predicate AlikeRows(a: seq<ChildReference>, b: seq<ChildReference>) {
    |a| == |b| && forall i :: 0 <= i < |a| ==> AlikeRow(a[i], b[i])
  }

  ghost predicate AlikePlan(a: Plan, b: Plan) {
    && Alike(a.closure, b.closure) && AlikeRows(a.children, b.children)
    && b == a.(closure := b.closure, children := b.children)
  }

  ghost predicate AlikeResult(a: Result<Plan>, b: Result<Plan>) {
    if a.Ok? && b.Ok? then AlikePlan(a.value, b.value) else a.Err? && b.Err? && a.error == b.error
  }

  lemma {:induction false} BlockAlike(s: State, t: State, blocker: PlanBlocker)
    requires Alike(s, t)
    ensures Alike(Block(s, blocker), Block(t, blocker))
  {
  }

  lemma {:induction false} RequireAlike(a: Sources, b: Sources, s: Plan, t: Plan, app: Pending)
    requires SameContent(a, b) && AlikePlan(s, t)
    ensures AlikeResult(Require(a, s, app), Require(b, t, app))
  {
    hide Resolution, SameContent, DecodeCapabilities, Alike, AlikeRows;
    SameUp(a, b);
    ResolutionAlike(a, b, s.closure, t.closure, app.manifest.required, RequiresEdge(app));
    var x, y := Resolution(a, s.closure, app.manifest.required, RequiresEdge(app)), Resolution(b, t.closure, app.manifest.required, RequiresEdge(app));
    if x.Ok? && y.Ok? && x.value.resolved.Some? {
      BlockAlike(x.value.state, y.value.state, InvalidCapabilitySet(x.value.resolved.value.kappa));
    }
  }

  lemma {:induction false} SameUp(a: Sources, b: Sources)
    requires SameContent(a, b)
    ensures a.up == b.up && a.limits == b.limits
  {
  }

  lemma {:induction false} ResolveLayersAlike(a: Sources, b: Sources, s: State, t: State, app: Pending, from: nat)
    requires SameContent(a, b) && Alike(s, t)
    ensures var x, y := ResolveLayers(a, s, app, from), ResolveLayers(b, t, app, from);
      if x.Ok? && y.Ok? then Alike(x.value, y.value) else x == y
    decreases |app.manifest.layers| - from
  {
    hide Resolution, SameContent, Alike;
    if from < |app.manifest.layers| {
      var kappa, edge := app.manifest.layers[from].content, LayerEdgeOf(app, from);
      ResolutionAlike(a, b, s, t, kappa, edge);
      var x, y := Resolution(a, s, kappa, edge), Resolution(b, t, kappa, edge);
      if x.Ok? && y.Ok? {
        ResolveLayersAlike(a, b, x.value.state, y.value.state, app, from + 1);
      }
    }
  }

  lemma {:induction false} VisitContentsAlike(a: Sources, b: Sources, s: Plan, t: Plan, app: Pending)
    requires SameContent(a, b) && AlikePlan(s, t)
    ensures AlikeResult(VisitContents(a, s, app), VisitContents(b, t, app))
  {
    hide SameContent, Alike, AlikeRows, Require, ResolveLayers;
    RequireAlike(a, b, s, t, app);
    var x, y := Require(a, s, app), Require(b, t, app);
    if x.Ok? && y.Ok? {
      ResolveLayersAlike(a, b, x.value.closure, y.value.closure, app, 0);
    }
  }

  ghost predicate AlikeDelegation(x: Result<Delegation>, y: Result<Delegation>) {
    if x.Ok? && y.Ok? then Alike(x.value.closure, y.value.closure) && x.value.delegated == y.value.delegated
    else x == y
  }

  lemma {:induction false} DelegateAlike(a: Sources, b: Sources, s: State, t: State, app: Pending, position: nat, edge: ChildEdge)
    requires SameContent(a, b) && Alike(s, t)
    ensures AlikeDelegation(Delegate(a, s, app, position, edge), Delegate(b, t, app, position, edge))
  {
    hide Resolution, SameContent, DecodeCapabilities, Alike;
    SameUp(a, b);
    var at := DelegatedCapabilities(app.application, U32Of(position));
    ResolutionAlike(a, b, s, t, edge.capabilities, at);
    var x, y := Resolution(a, s, edge.capabilities, at), Resolution(b, t, edge.capabilities, at);
    if x.Ok? && y.Ok? && x.value.resolved.Some? {
      BlockAlike(x.value.state, y.value.state, InvalidCapabilitySet(x.value.resolved.value.kappa));
    }
  }

  lemma {:induction false} RecordChildAlike(a: Sources, b: Sources, s: Plan, t: Plan, app: Pending, position: nat, edge: ChildEdge,
      d: Delegation, e: Delegation, x: Answer, y: Answer)
    requires a.up == b.up && AlikePlan(s, t) && d.delegated == e.delegated
    requires Alike(x.state, y.state) && AlikeFound(x.resolved, y.resolved)
    ensures AlikePlan(RecordChild(a, s, app, position, edge, d, x), RecordChild(b, t, app, position, edge, e, y))
  {
    hide Alike, DecodeChildManifest;
    BlockAlike(x.state, y.state, InvalidChildManifest(edge.application, ChildApplication(app.application, U32Of(position))));
  }

  lemma {:induction false} AdmitChildAlike(a: Sources, b: Sources, s: Plan, t: Plan, app: Pending, position: nat, edge: ChildEdge)
    requires SameContent(a, b) && AlikePlan(s, t)
    ensures AlikeResult(AdmitChild(a, s, app, position, edge), AdmitChild(b, t, app, position, edge))
  {
    hide Resolution, SameContent, Delegate, Alike, AlikeRows, RecordChild, AlikeFound;
    SameUp(a, b);
    DelegateAlike(a, b, s.closure, t.closure, app, position, edge);
    var d, e := Delegate(a, s.closure, app, position, edge), Delegate(b, t.closure, app, position, edge);
    if d.Ok? && e.Ok? {
      var at := ChildApplication(app.application, U32Of(position));
      ResolutionAlike(a, b, d.value.closure, e.value.closure, edge.application, at);
      var x, y := Resolution(a, d.value.closure, edge.application, at), Resolution(b, e.value.closure, edge.application, at);
      if x.Ok? && y.Ok? {
        RecordChildAlike(a, b, s, t, app, position, edge, d.value, e.value, x.value, y.value);
      }
    }
  }

  lemma {:induction false} VisitChildAlike(a: Sources, b: Sources, s: Plan, t: Plan, app: Pending, position: nat)
    requires SameContent(a, b) && AlikePlan(s, t) && position < |app.manifest.children|
    ensures AlikeResult(VisitChild(a, s, app, position), VisitChild(b, t, app, position))
  {
    hide SameContent, AdmitChild, AlikeObjects;
    SameUp(a, b);
    AdmitChildAlike(a, b, s, t, app, position, app.manifest.children[position]);
  }

  lemma {:induction false} VisitChildrenAlike(a: Sources, b: Sources, s: Plan, t: Plan, app: Pending, from: nat)
    requires SameContent(a, b) && AlikePlan(s, t)
    ensures AlikeResult(VisitChildren(a, s, app, from), VisitChildren(b, t, app, from))
    decreases |app.manifest.children| - from
  {
    hide SameContent, AlikePlan, VisitChild;
    if from < |app.manifest.children| {
      VisitChildAlike(a, b, s, t, app, from);
      var x, y := VisitChild(a, s, app, from), VisitChild(b, t, app, from);
      if x.Ok? && y.Ok? {
        VisitChildrenAlike(a, b, x.value, y.value, app, from + 1);
      }
    }
  }

  ghost predicate AlikeTurn(x: Result<Turn>, y: Result<Turn>) {
    if x.Ok? && y.Ok? then x.value.stop == y.value.stop && AlikePlan(x.value.plan, y.value.plan) else x.Err? && y.Err? && x.error == y.error
  }

  lemma {:induction false} OpenAlike(s: Plan, t: Plan, app: Pending)
    requires AlikePlan(s, t)
    ensures AlikePlan(Open(s, app), Open(t, app))
  {
    hide Alike, AlikeRows, PlannedLayers;
  }

  lemma {:induction false} VisitAlike(a: Sources, b: Sources, s: Plan, t: Plan, app: Pending)
    requires SameContent(a, b) && AlikePlan(s, t)
    ensures AlikeTurn(Visit(a, s, app), Visit(b, t, app))
  {
    hide SameContent, VisitContents, VisitChildren, AlikeObjects, AlikeRows, Open;
    SameUp(a, b);
    OpenAlike(s, t, app);
    VisitContentsAlike(a, b, Open(s, app), Open(t, app), app);
    var x, y := VisitContents(a, Open(s, app), app), VisitContents(b, Open(t, app), app);
    if x.Ok? && y.Ok? {
      VisitChildrenAlike(a, b, x.value, y.value, app, 0);
    }
  }

  lemma {:induction false} RunAlike(a: Sources, b: Sources, s: Plan, t: Plan)
    requires SameContent(a, b) && AlikePlan(s, t)
    ensures AlikeResult(Run(a, s), Run(b, t))
    decreases Room(a, s)
  {
    hide SameContent, Visit, Alike, AlikeRows;
    if s.pending != [] {
      var p, q := s.(pending := s.pending[1..]), t.(pending := t.pending[1..]);
      VisitRoom(a, p, s.pending[0]);
      VisitAlike(a, b, p, q, s.pending[0]);
      var x, y := Visit(a, p, s.pending[0]), Visit(b, q, s.pending[0]);
      if x.Ok? && y.Ok? && !x.value.stop {
        RunAlike(a, b, x.value.plan, y.value.plan);
      }
    }
  }

  // ---------- Reports and plans without their sources ----------

  function EraseLayers(layers: seq<PlannedLayer>): seq<PlannedLayer> {
    seq(|layers|, i requires 0 <= i < |layers| => layers[i].(source := None))
  }

  function EraseAdmissions(admissions: seq<Admission>): seq<Admission> {
    seq(|admissions|, i requires 0 <= i < |admissions| => admissions[i].(layers := EraseLayers(admissions[i].layers)))
  }

  function EraseRows(rows: seq<ChildReference>): seq<ChildReference> {
    seq(|rows|, i requires 0 <= i < |rows| => rows[i].(applicationSource := None, capabilitiesSource := None))
  }

  function EraseObjects(objects: map<Kappa, ResolvedObject>): map<Kappa, ResolvedObject> {
    map k | k in objects :: objects[k].(source := Embedded)
  }

  /** A report without archive identity, resolution sources and the embedded count. */
  function Erase(r: Report): Report {
    r.(archive := [], embeddedCount := 0, layers := EraseLayers(r.layers), children := EraseRows(r.children),
       objects := EraseObjects(r.objects), admissions := EraseAdmissions(r.admissions))
  }

  lemma {:induction false} FinishAlike(x: Kappa, y: Kappa, application: Kappa, manifest: AppManifest, s: Plan, t: Plan)
    requires AlikePlan(s, t)
    ensures Erase(Finish(x, application, manifest, s)) == Erase(Finish(y, application, manifest, t))
  {
    hide PlannedLayers;
    var p, q := Finish(x, application, manifest, s), Finish(y, application, manifest, t);
    assert EraseLayers(p.layers) == EraseLayers(q.layers);
    assert EraseRows(p.children) == EraseRows(q.children);
    assert EraseObjects(p.objects) == EraseObjects(q.objects);
    AdmissionsAlike(s.admissions, p.objects, q.objects);
  }

  lemma {:induction false} AdmissionsAlike(admissions: seq<Admission>, a: map<Kappa, ResolvedObject>, b: map<Kappa, ResolvedObject>)
    ensures EraseAdmissions(AdmissionsWithSources(admissions, a)) == EraseAdmissions(AdmissionsWithSources(admissions, b))
  {
    var p, q := EraseAdmissions(AdmissionsWithSources(admissions, a)), EraseAdmissions(AdmissionsWithSources(admissions, b));
    forall i | 0 <= i < |admissions|
      ensures p[i] == q[i]
    {
      assert p[i].layers == q[i].layers;
    }
  }

  ghost predicate SameOutcome(x: Result<Report>, y: Result<Report>) {
    if x.Ok? && y.Ok? then Erase(x.value) == Erase(y.value) else x.Err? && y.Err? && x.error == y.error
  }

  /** Two archives with the same manifest section, both with a verified directory, whose embedded-then-local
      lookups agree, are explained identically up to archive identity, sources and the embedded count. */
  lemma {:induction false} SameReports(up: Crates, x: Archive, y: Archive, limits: PlanLimits,
      localX: Kappa -> Result<Option<Bytes>>, localY: Kappa -> Result<Option<Bytes>>)
    requires x.manifest == y.manifest
    requires forall m :: ReadManifest(up, x) == Ok(m) ==>
      VerifyRequired(up, m, x.directories, x.blobs).Ok? && VerifyRequired(up, m, y.directories, y.blobs).Ok?
    requires forall k :: Lookup(SourcesOf(up, x, limits, localX), k) == Lookup(SourcesOf(up, y, limits, localY), k)
    ensures SameOutcome(Explain(up, x, limits, localX), Explain(up, y, limits, localY))
  {
    hide VerifyRequired, Run, Lookup, EmbeddedMap, AlikePlan, Erase, Finish;
    var manifest := ReadManifest(up, x);
    if manifest.Ok? {
      VerifiedAddressed(up, manifest.value, x);
      VerifiedAddressed(up, manifest.value, y);
      var a, b := SourcesOf(up, x, limits, localX), SourcesOf(up, y, limits, localY);
      var canonical := up.encodeManifest(manifest.value);
      var root := up.parseManifest(canonical);
      if root.Some? {
        var s, t := Start(a, up.address(canonical), root.value), Start(b, up.address(canonical), root.value);
        StartAlike(a, b, up.address(canonical), root.value);
        RunAlike(a, b, s, t);
        if Run(a, s).Ok? && Run(b, t).Ok? {
          FinishAlike(x.kappa, y.kappa, up.address(canonical), manifest.value, Run(a, s).value, Run(b, t).value);
        }
      }
    }
  }

  lemma {:induction false} StartAlike(a: Sources, b: Sources, root: Kappa, manifest: AppManifest)
    requires a.limits == b.limits
    ensures AlikePlan(Start(a, root, manifest), Start(b, root, manifest))
  {
  }

  lemma {:induction false} EvaluateLayersErase(application: Kappa, e: Evaluation, count: nat, objects: map<Kappa, ResolvedObject>,
      evaluate: ProviderContext -> ProviderAvailability)
    requires count <= |e.layers|
    ensures var r := EvaluateLayers(application, e, count, objects, evaluate);
      EvaluateLayers(application, Evaluation(EraseLayers(e.layers), e.blockers), count, EraseObjects(objects), evaluate)
      == Evaluation(EraseLayers(r.layers), r.blockers)
    decreases count
  {
    if count > 0 {
      EvaluateLayersErase(application, e, count - 1, objects, evaluate);
      var r := EvaluateLayers(application, e, count - 1, objects, evaluate);
      EvaluateLayerErase(application, r, count - 1, objects, evaluate);
    }
  }

  lemma {:induction false} EvaluateLayerErase(application: Kappa, e: Evaluation, i: nat, objects: map<Kappa, ResolvedObject>,
      evaluate: ProviderContext -> ProviderAvailability)
    requires i < |e.layers|
    ensures var r := EvaluateLayer(application, e, i, objects, evaluate);
      EvaluateLayer(application, Evaluation(EraseLayers(e.layers), e.blockers), i, EraseObjects(objects), evaluate)
      == Evaluation(EraseLayers(r.layers), r.blockers)
  {
    var r := EvaluateLayer(application, e, i, objects, evaluate);
    var bare := EvaluateLayer(application, Evaluation(EraseLayers(e.layers), e.blockers), i, EraseObjects(objects), evaluate);
    assert bare.layers == EraseLayers(r.layers);
  }

  lemma {:induction false} EvaluateAdmissionsErase(admissions: seq<Admission>, blockers: seq<PlanBlocker>, count: nat,
      objects: map<Kappa, ResolvedObject>, evaluate: ProviderContext -> ProviderAvailability)
    requires count <= |admissions|
    ensures var (done, b) := EvaluateAdmissions(admissions, blockers, count, objects, evaluate);
      EvaluateAdmissions(EraseAdmissions(admissions), blockers, count, EraseObjects(objects), evaluate) == (EraseAdmissions(done), b)
    decreases count
  {
    hide EvaluateLayers, EraseLayers, EraseObjects;
    if count > 0 {
      EvaluateAdmissionsErase(admissions, blockers, count - 1, objects, evaluate);
      var (done, b) := EvaluateAdmissions(admissions, blockers, count - 1, objects, evaluate);
      var a := done[count - 1];
      EvaluateLayersErase(a.application, Evaluation(a.layers, b), |a.layers|, objects, evaluate);
      var (now, _) := EvaluateAdmissions(admissions, blockers, count, objects, evaluate);
      var (bare, _) := EvaluateAdmissions(EraseAdmissions(admissions), blockers, count, EraseObjects(objects), evaluate);
      EraseKeepsLength(a.layers);
      assert bare == EraseAdmissions(now);
    }
  }

  lemma {:induction false} EraseKeepsLength(layers: seq<PlannedLayer>)
    ensures |EraseLayers(layers)| == |layers|
  {
  }

  /** Provider evaluation never looks at a source. */
  lemma {:induction false} EvaluateErase(r: Report, evaluate: ProviderContext -> ProviderAvailability)
    ensures EvaluateProviders(Erase(r), evaluate) == Erase(EvaluateProviders(r, evaluate))
  {
    hide EvaluateLayers, EvaluateAdmissions, EraseLayers, EraseObjects, EraseRows, EraseAdmissions;
    EvaluateLayersErase(r.application, Evaluation(r.layers, r.blockers), |r.layers|, r.objects, evaluate);
    EraseKeepsLength(r.layers);
    var e := EvaluateLayers(r.application, Evaluation(r.layers, r.blockers), |r.layers|, r.objects, evaluate);
    EvaluateAdmissionsErase(r.admissions, e.blockers, |r.admissions|, r.objects, evaluate);
    EraseKeepsCount(r.admissions);
  }

  lemma {:induction false} EraseKeepsCount(admissions: seq<Admission>)
    ensures |EraseAdmissions(admissions)| == |admissions|
  {
  }

  function EraseResolved(layers: seq<ResolvedLayer>): seq<ResolvedLayer> {
    seq(|layers|, i requires 0 <= i < |layers| => layers[i].(source := Embedded))
  }

  function EraseChildren(children: seq<ResolvedChild>): seq<ResolvedChild> {
    seq(|children|, i requires 0 <= i < |children| => children[i].(layers := EraseResolved(children[i].layers)))
  }

  function ErasePlan(r: Result<ApplicationPlan>): Result<ApplicationPlan> {
    if r.Err? then r
    else Ok(r.value.(archive := [], layers := EraseResolved(r.value.layers), children := EraseChildren(r.value.children),
                     objects := EraseObjects(r.value.objects)))
  }

  lemma {:induction false} StrictLayersErase(layers: seq<PlannedLayer>, objects: map<Kappa, ResolvedObject>)
    ensures var r := StrictLayers(layers, objects);
      StrictLayers(EraseLayers(layers), EraseObjects(objects)) == if r.Ok? then Ok(EraseResolved(r.value)) else r
  {
    if layers != [] {
      StrictLayersErase(layers[1..], objects);
      assert EraseLayers(layers)[1..] == EraseLayers(layers[1..]);
      var r := StrictLayers(layers, objects);
      if r.Ok? {
        assert r.value[1..] == StrictLayers(layers[1..], objects).value;
        assert EraseResolved(r.value) == [r.value[0].(source := Embedded)] + EraseResolved(r.value[1..]);
      }
    } else {
      assert EraseLayers(layers) == [] && EraseResolved([]) == [];
    }
  }

  lemma {:induction false} StrictChildrenErase(admissions: seq<Admission>, objects: map<Kappa, ResolvedObject>)
    ensures var r := StrictChildren(admissions, objects);
      StrictChildren(EraseAdmissions(admissions), EraseObjects(objects)) == if r.Ok? then Ok(EraseChildren(r.value)) else r
  {
    hide EraseLayers, EraseObjects, EraseResolved, StrictLayers;
    if admissions != [] {
      StrictLayersErase(admissions[0].layers, objects);
      StrictChildrenErase(admissions[1..], objects);
      assert EraseAdmissions(admissions)[1..] == EraseAdmissions(admissions[1..]);
      var r := StrictChildren(admissions, objects);
      if r.Ok? {
        assert r.value[1..] == StrictChildren(admissions[1..], objects).value;
        assert EraseChildren(r.value) == [r.value[0].(layers := EraseResolved(r.value[0].layers))] + EraseChildren(r.value[1..]);
      }
    } else {
      assert EraseAdmissions(admissions) == [] && EraseChildren([]) == [];
    }
  }

  /** Neither does the strict plan. */
  lemma {:induction false} IntoPlanErase(r: Report)
    ensures IntoPlan(Erase(r)) == ErasePlan(IntoPlan(r))
  {
    hide EraseLayers, EraseObjects, EraseResolved, StrictLayers, StrictChildren, EraseRows, EraseAdmissions, EraseChildren;
    StrictLayersErase(r.layers, r.objects);
    StrictChildrenErase(r.admissions, r.objects);
  }

  /** So they become the same strict plan, or fail with the same error, whatever the providers answer. */
  lemma {:induction false} SamePlans(x: Report, y: Report, evaluate: ProviderContext -> ProviderAvailability)
    requires Erase(x) == Erase(y)
    ensures ErasePlan(IntoPlan(EvaluateProviders(x, evaluate))) == ErasePlan(IntoPlan(EvaluateProviders(y, evaluate)))
  {
    hide Erase, ErasePlan, IntoPlan, EvaluateProviders;
    EvaluateErase(x, evaluate);
    EvaluateErase(y, evaluate);
    IntoPlanErase(EvaluateProviders(x, evaluate));
    IntoPlanErase(EvaluateProviders(y, evaluate));
  }

  /** Admission reads nothing that was erased. */
  lemma {:induction false} AdmitFirstErase(p: ApplicationPlan, q: ApplicationPlan, grant: GrantAdmission.EffectiveGrant, count: nat)
    requires ErasePlan(Ok(p)) == ErasePlan(Ok(q)) && count <= |p.children|
    ensures |p.children| == |q.children|
    ensures GrantAdmission.AdmitFirst(p, grant, count) == GrantAdmission.AdmitFirst(q, grant, count)
    decreases count
  {
    hide EraseResolved, EraseObjects;
    assert |EraseChildren(p.children)| == |EraseChildren(q.children)|;
    if count > 0 {
      AdmitFirstErase(p, q, grant, count - 1);
      var a, b := p.children[count - 1], q.children[count - 1];
      assert EraseChildren(p.children)[count - 1] == EraseChildren(q.children)[count - 1];
      AdmitChildErase(GrantAdmission.AdmitFirst(p, grant, count - 1), a, b);
    }
  }

  lemma {:induction false} AdmitChildErase(run: GrantAdmission.Run, a: ResolvedChild, b: ResolvedChild)
    requires b == a.(layers := b.layers)
    ensures GrantAdmission.AdmitChild(run, a) == GrantAdmission.AdmitChild(run, b)
  {
  }

  /** Equal plans are admitted by the same decisions, with the same grants or the same refusal. */
  lemma {:induction false} SameDecisions(p: ApplicationPlan, q: ApplicationPlan, grant: GrantAdmission.EffectiveGrant)
    requires ErasePlan(Ok(p)) == ErasePlan(Ok(q))
    ensures GrantAdmission.AdmitAll(p, grant) == GrantAdmission.AdmitAll(q, grant)
  {
    hide ErasePlan;
    AdmitFirstErase(p, q, grant, |p.children|);
  }
}
