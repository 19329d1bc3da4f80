/** Reports, provider evaluation and strict plans (src/application_plan.rs:313-514, 767-1085). */
module PlanReport {
  import opened Basics
  import opened Upstream
  import opened Directory
  import opened Resolver
  import opened Planner
  import opened PlanPaths
  import opened Unfolding
  import opened PlanShape
  import opened Occurrences
  import opened Sweep

  /** A loaded archive: its address, its manifest section, its directory extensions and its blob table. */
  datatype Archive = Archive(kappa: Kappa, manifest: Option<Bytes>, directories: seq<Encoded>, blobs: seq<Blob>)

  /** `ApplicationPlanReport` */
  datatype Report = Report(
    archive: Kappa, application: Kappa, manifest: AppManifest, layers: seq<PlannedLayer>,
    children: seq<ChildReference>, objects: map<Kappa, ResolvedObject>, blockers: seq<PlanBlocker>,
    resolvedBytes: U64, referencedCount: nat, embeddedCount: nat, applicationCount: nat, maxDepth: nat,
    requested: Option<CapabilityObject>, admissions: seq<Admission>)

  function ReadManifest(up: Crates, archive: Archive): Result<AppManifest> {
    if archive.manifest.None? then Err(Capability)
    else
      match up.parseManifest(archive.manifest.value)
      case None => Err(InvalidHolo)
      case Some(manifest) => if up.validManifest(manifest) then Ok(manifest) else Err(InvalidHolo)
  }

  function EmbeddedMap(blobs: seq<Blob>): map<Kappa, Bytes> {
    if blobs == [] then map[]
    else
      var last := blobs[|blobs| - 1];
      EmbeddedMap(blobs[..|blobs| - 1])[last.kappa := last.content]
  }

  function WithSource(layer: PlannedLayer, objects: map<Kappa, ResolvedObject>): PlannedLayer {
    layer.(source := if layer.layer.content in objects then Some(objects[layer.layer.content].source) else None)
  }

  function WithSources(layers: seq<PlannedLayer>, objects: map<Kappa, ResolvedObject>): seq<PlannedLayer> {
    seq(|layers|, i requires 0 <= i < |layers| => WithSource(layers[i], objects))
  }

  function AdmissionsWithSources(admissions: seq<Admission>, objects: map<Kappa, ResolvedObject>): seq<Admission> {
    seq(|admissions|, i requires 0 <= i < |admissions| =>
      admissions[i].(layers := WithSources(admissions[i].layers, objects)))
  }

  /** The report of a finished worklist. */
  function Finish(archive: Kappa, application: Kappa, manifest: AppManifest, s: Plan): Report {
    var c := s.closure;
    Report(archive, application, manifest, WithSources(PlannedLayers(manifest), c.objects), s.children, c.objects,
           c.blockers + (if manifest.primary.None? then [LibraryArchive] else []),
           c.resolvedBytes, |c.referenced|, c.embeddedCount, s.applicationCount, s.maxDepth,
           s.requested, AdmissionsWithSources(s.admissions, c.objects))
  }

  function SourcesOf(up: Crates, archive: Archive, limits: PlanLimits, local: Kappa -> Result<Option<Bytes>>): Sources {
    Sources(up, EmbeddedMap(archive.blobs), local, limits)
  }

  /** `explain_application` on a loaded archive. */
  function Explain(up: Crates, archive: Archive, limits: PlanLimits, local: Kappa -> Result<Option<Bytes>>): Result<Report> {
    var manifest :- ReadManifest(up, archive);
    var canonical := up.encodeManifest(manifest);
    var application := up.address(canonical);
    var _ :- VerifyRequired(up, manifest, archive.directories, archive.blobs);
    match up.parseManifest(canonical)
    case None => Err(InvalidHolo)
    case Some(rootManifest) =>
      var env := SourcesOf(up, archive, limits, local);
      var s :- Run(env, Start(env, application, rootManifest));
      Ok(Finish(archive.kappa, application, manifest, s))
  }

  // ---------- Provider evaluation ----------

  /** What a provider is asked about a layer. */
  datatype ProviderContext = ProviderContext(
    application: Kappa, position: U32, layer: Layer, primary: bool, layerCount: nat, content: Bytes)

  function ContextOf(application: Kappa, layers: seq<PlannedLayer>, i: nat, content: Bytes): ProviderContext
    requires i < |layers|
  {
    ProviderContext(application, layers[i].position, layers[i].layer, layers[i].primary, |layers|, content)
  }

  datatype Evaluation = Evaluation(layers: seq<PlannedLayer>, blockers: seq<PlanBlocker>)

  /** One layer of `evaluate_layer_set`; a layer without content keeps its availability. */
  function EvaluateLayer(application: Kappa, e: Evaluation, i: nat, objects: map<Kappa, ResolvedObject>,
                         evaluate: ProviderContext -> ProviderAvailability): Evaluation
    requires i < |e.layers|
  {
    var layer := e.layers[i];
    if layer.layer.content !in objects then e
    else
      var availability := evaluate(ContextOf(application, e.layers, i, objects[layer.layer.content].bytes));
      Evaluation(
        e.layers[i := layer.(provider := availability)],
        if availability.Unavailable? then e.blockers + [ProviderUnavailable(application, layer.position, availability.reason)]
        else e.blockers)
  }

  function EvaluateLayers(application: Kappa, e: Evaluation, count: nat, objects: map<Kappa, ResolvedObject>,
                          evaluate: ProviderContext -> ProviderAvailability): (r: Evaluation)
    requires count <= |e.layers|
    ensures |r.layers| == |e.layers|
  {
    if count == 0 then e
    else EvaluateLayer(application, EvaluateLayers(application, e, count - 1, objects, evaluate), count - 1, objects, evaluate)
  }

  /** A layer after evaluation: asked once if its content was resolved, and otherwise left alone. */
  function AnsweredLayer(application: Kappa, layers: seq<PlannedLayer>, i: nat, objects: map<Kappa, ResolvedObject>,
                    evaluate: ProviderContext -> ProviderAvailability): PlannedLayer
    requires i < |layers|
  {
    if layers[i].layer.content in objects
    then layers[i].(provider := evaluate(ContextOf(application, layers, i, objects[layers[i].layer.content].bytes)))
    else layers[i]
  }

  /** One blocker for each resolved layer that was answered unavailable, in layer order. */
  function Refusals(application: Kappa, layers: seq<PlannedLayer>, count: nat, objects: map<Kappa, ResolvedObject>,
                    evaluate: ProviderContext -> ProviderAvailability): seq<PlanBlocker>
    requires count <= |layers|
  {
    if count == 0 then []
    else
      var answer := AnsweredLayer(application, layers, count - 1, objects, evaluate);
      Refusals(application, layers, count - 1, objects, evaluate)
      + if layers[count - 1].layer.content in objects && answer.provider.Unavailable?
        then [ProviderUnavailable(application, answer.position, answer.provider.reason)] else []
  }

  /** The loop of `evaluate_layer_set`. */
  method EvaluateLayerSet(application: Kappa, layers: seq<PlannedLayer>, objects: map<Kappa, ResolvedObject>,
                          blockers: seq<PlanBlocker>, evaluate: ProviderContext -> ProviderAvailability)
    returns (evaluated: seq<PlannedLayer>, reported: seq<PlanBlocker>)
    ensures Evaluation(evaluated, reported) == EvaluateLayers(application, Evaluation(layers, blockers), |layers|, objects, evaluate)
    ensures |evaluated| == |layers| && forall i :: 0 <= i < |layers| ==> evaluated[i] == AnsweredLayer(application, layers, i, objects, evaluate)
    ensures reported == blockers + Refusals(application, layers, |layers|, objects, evaluate)
  {
    evaluated, reported := layers, blockers;
    assert blockers + [] == blockers;
    for i := 0 to |layers|
      invariant |evaluated| == |layers|
      invariant forall j :: 0 <= j < i ==> evaluated[j] == AnsweredLayer(application, layers, j, objects, evaluate)
      invariant forall j :: i <= j < |layers| ==> evaluated[j] == layers[j]
      invariant reported == blockers + Refusals(application, layers, i, objects, evaluate)
      invariant Evaluation(evaluated, reported) == EvaluateLayers(application, Evaluation(layers, blockers), i, objects, evaluate)
    {
      var layer := evaluated[i];
      if layer.layer.content in objects {
        var availability := evaluate(ContextOf(application, evaluated, i, objects[layer.layer.content].bytes));
        if availability.Unavailable? {
          reported := reported + [ProviderUnavailable(application, layer.position, availability.reason)];
        }
        evaluated := evaluated[i := layer.(provider := availability)];
      }
    }
  }

  function EvaluateAdmissions(admissions: seq<Admission>, blockers: seq<PlanBlocker>, count: nat,
                              objects: map<Kappa, ResolvedObject>, evaluate: ProviderContext -> ProviderAvailability)
    : (r: (seq<Admission>, seq<PlanBlocker>))
    requires count <= |admissions|
    ensures |r.0| == |admissions|
  {
    if count == 0 then (admissions, blockers)
    else
      var (done, b) := EvaluateAdmissions(admissions, blockers, count - 1, objects, evaluate);
      var a := done[count - 1];
      var e := EvaluateLayers(a.application, Evaluation(a.layers, b), |a.layers|, objects, evaluate);
      (done[count - 1 := a.(layers := e.layers)], e.blockers)
  }

  /** `evaluate_providers` */
  function EvaluateProviders(r: Report, evaluate: ProviderContext -> ProviderAvailability): Report {
    var e := EvaluateLayers(r.application, Evaluation(r.layers, r.blockers), |r.layers|, r.objects, evaluate);
    var (admissions, blockers) := EvaluateAdmissions(r.admissions, e.blockers, |r.admissions|, r.objects, evaluate);
    r.(layers := e.layers, admissions := admissions, blockers := blockers)
  }

  predicate AllAvailable(layers: seq<PlannedLayer>) {
    forall i :: 0 <= i < |layers| ==> layers[i].provider.Available?
  }

  /** `runnable` */
  predicate Runnable(r: Report) {
    r.blockers == [] && AllAvailable(r.layers) && forall i :: 0 <= i < |r.admissions| ==> AllAvailable(r.admissions[i].layers)
  }

  // ---------- Strict plans ----------

  datatype ResolvedLayer = ResolvedLayer(
    position: U32, layer: Layer, primary: bool, content: Bytes, source: ResolutionSource, provider: string)

  datatype ResolvedChild = ResolvedChild(
    position: U32, parentIndex: nat, parent: Kappa, index: nat, application: Kappa,
    delegated: CapabilityObject, requested: CapabilityObject, primary: Option<U32>, layers: seq<ResolvedLayer>)

  datatype ApplicationPlan = ApplicationPlan(
    archive: Kappa, application: Kappa, manifest: AppManifest, requested: CapabilityObject,
    layers: seq<ResolvedLayer>, children: seq<ResolvedChild>, objects: map<Kappa, ResolvedObject>)

  /** `PlanBlocker::into_error` */
  function BlockerError(blocker: PlanBlocker): LiveError {
    match blocker
    case MissingObject(_, _) => NotFound
    case ProviderUnavailable(_, _, _) => Capability
    case LibraryArchive => Capability
    case _ => InvalidHolo
  }

  function StrictLayer(layer: PlannedLayer, objects: map<Kappa, ResolvedObject>): Result<ResolvedLayer> {
    if layer.layer.content !in objects then Err(Conflict)
    else if !layer.provider.Available? then Err(Capability)
    else
      var resolved := objects[layer.layer.content];
      Ok(ResolvedLayer(layer.position, layer.layer, layer.primary, resolved.bytes, resolved.source, layer.provider.provider))
  }

  /** `strict_layers`: the first layer that fails decides the error. */
  function StrictLayers(layers: seq<PlannedLayer>, objects: map<Kappa, ResolvedObject>): Result<seq<ResolvedLayer>> {
    if layers == [] then Ok([])
    else
      var first :- StrictLayer(layers[0], objects);
      var rest :- StrictLayers(layers[1..], objects);
      Ok([first] + rest)
  }

  function StrictChild(a: Admission, objects: map<Kappa, ResolvedObject>): Result<ResolvedChild> {
    var layers :- StrictLayers(a.layers, objects);
    if a.requested.None? then Err(Conflict)
    else Ok(ResolvedChild(a.position, a.parentIndex, a.parent, a.index, a.application,
                          a.delegated, a.requested.value, a.primary, layers))
  }

  function StrictChildren(admissions: seq<Admission>, objects: map<Kappa, ResolvedObject>): Result<seq<ResolvedChild>> {
    if admissions == [] then Ok([])
    else
      var first :- StrictChild(admissions[0], objects);
      var rest :- StrictChildren(admissions[1..], objects);
      Ok([first] + rest)
  }

  /** `into_application_plan` */
  function IntoPlan(r: Report): Result<ApplicationPlan> {
    if r.blockers != [] then Err(BlockerError(r.blockers[0]))
    else if r.requested.None? then Err(Conflict)
    else
      var layers :- StrictLayers(r.layers, r.objects);
      var children :- StrictChildren(r.admissions, r.objects);
      Ok(ApplicationPlan(r.archive, r.application, r.manifest, r.requested.value, layers, children, r.objects))
  }

  // ---------- Nothing the planner found is lost ----------

  ghost predicate LayersHeld(layers: seq<PlannedLayer>, objects: map<Kappa, ResolvedObject>) {
    forall i :: 0 <= i < |layers| ==> layers[i].layer.content in objects
  }

  /** A report without blockers holds everything a strict plan needs. */
  ghost predicate Complete(r: Report) {
    && r.requested.Some?
    && LayersHeld(r.layers, r.objects)
    && (forall i :: 0 <= i < |r.admissions| ==> r.admissions[i].requested.Some? && LayersHeld(r.admissions[i].layers, r.objects))
  }

  lemma {:induction false} StrictLayersIff(layers: seq<PlannedLayer>, objects: map<Kappa, ResolvedObject>)
    requires LayersHeld(layers, objects)
    ensures StrictLayers(layers, objects).Ok? <==> AllAvailable(layers)
    ensures StrictLayers(layers, objects).Err? ==> StrictLayers(layers, objects).error == Capability
    ensures StrictLayers(layers, objects).Ok? ==>
      && |StrictLayers(layers, objects).value| == |layers|
      && forall i :: 0 <= i < |layers| ==> Ok(StrictLayers(layers, objects).value[i]) == StrictLayer(layers[i], objects)
  {
    if layers != [] {
      assert LayersHeld(layers[1..], objects);
      StrictLayersIff(layers[1..], objects);
      assert layers == [layers[0]] + layers[1..];
      assert AllAvailable(layers) <==> layers[0].provider.Available? && AllAvailable(layers[1..]);
    }
  }

  lemma {:induction false} StrictChildrenIff(admissions: seq<Admission>, objects: map<Kappa, ResolvedObject>)
    requires forall i :: 0 <= i < |admissions| ==> admissions[i].requested.Some? && LayersHeld(admissions[i].layers, objects)
    ensures StrictChildren(admissions, objects).Ok? <==> forall i :: 0 <= i < |admissions| ==> AllAvailable(admissions[i].layers)
    ensures StrictChildren(admissions, objects).Err? ==> StrictChildren(admissions, objects).error == Capability
    ensures StrictChildren(admissions, objects).Ok? ==>
      && |StrictChildren(admissions, objects).value| == |admissions|
      && forall i :: 0 <= i < |admissions| ==> Ok(StrictChildren(admissions, objects).value[i]) == StrictChild(admissions[i], objects)
  {
    hide AllAvailable, LayersHeld, StrictLayers;
    if admissions != [] {
      StrictLayersIff(admissions[0].layers, objects);
      StrictChildrenIff(admissions[1..], objects);
      assert admissions == [admissions[0]] + admissions[1..];
    }
  }

  /** For a complete report, being runnable is exactly having a strict plan, and no "planner lost" error occurs. */
  lemma {:induction false} CompleteIff(r: Report)
    requires r.blockers == [] ==> Complete(r)
    ensures Runnable(r) <==> IntoPlan(r).Ok?
    ensures IntoPlan(r).Err? ==> IntoPlan(r).error != Conflict
  {
    hide AllAvailable, LayersHeld, StrictLayers, StrictChildren;
    if r.blockers == [] {
      StrictLayersIff(r.layers, r.objects);
      StrictChildrenIff(r.admissions, r.objects);
    }
  }

  // ---------- From the worklist to the strict plan ----------

  ghost predicate SameLayers(a: seq<PlannedLayer>, b: seq<PlannedLayer>) {
    |a| == |b| && forall i :: 0 <= i < |a| ==> b[i] == a[i].(provider := b[i].provider)
  }

  /** `after` is `before` after any number of provider evaluations: availability may have changed and
      blockers may have been added, and nothing else. */
  ghost predicate Evaluated(before: Report, after: Report) {
    && after == before.(layers := after.layers, admissions := after.admissions, blockers := after.blockers)
    && before.blockers <= after.blockers
    && SameLayers(before.layers, after.layers)
    && |before.admissions| == |after.admissions|
    && forall i :: 0 <= i < |before.admissions| ==>
      && after.admissions[i] == before.admissions[i].(layers := after.admissions[i].layers)
      && SameLayers(before.admissions[i].layers, after.admissions[i].layers)
  }

  lemma {:induction false} EvaluateLayersSame(application: Kappa, e: Evaluation, count: nat,
      objects: map<Kappa, ResolvedObject>, evaluate: ProviderContext -> ProviderAvailability)
    requires count <= |e.layers|
    ensures var r := EvaluateLayers(application, e, count, objects, evaluate);
      SameLayers(e.layers, r.layers) && e.blockers <= r.blockers
    decreases count
  {
    if count > 0 {
      EvaluateLayersSame(application, e, count - 1, objects, evaluate);
    }
  }

  lemma {:induction false} EvaluateAdmissionsSame(admissions: seq<Admission>, blockers: seq<PlanBlocker>, count: nat,
      objects: map<Kappa, ResolvedObject>, evaluate: ProviderContext -> ProviderAvailability)
    requires count <= |admissions|
    ensures var (done, b) := EvaluateAdmissions(admissions, blockers, count, objects, evaluate);
      && blockers <= b
      && forall i :: 0 <= i < |admissions| ==>
        && done[i] == admissions[i].(layers := done[i].layers)
        && SameLayers(admissions[i].layers, done[i].layers)
        && (i >= count ==> done[i] == admissions[i])
    decreases count
  {
    hide EvaluateLayers;
    if count > 0 {
      EvaluateAdmissionsSame(admissions, blockers, count - 1, objects, evaluate);
      var (done, b) := EvaluateAdmissions(admissions, blockers, count - 1, objects, evaluate);
      var a := done[count - 1];
      EvaluateLayersSame(a.application, Evaluation(a.layers, b), |a.layers|, objects, evaluate);
    }
  }

  /** `evaluate_providers` is an evaluation in that sense, whatever the providers answer. */
  lemma {:induction false} EvaluateProvidersEvaluates(r: Report, evaluate: ProviderContext -> ProviderAvailability)
    ensures Evaluated(r, EvaluateProviders(r, evaluate))
  {
    hide EvaluateLayers, EvaluateAdmissions;
    EvaluateLayersSame(r.application, Evaluation(r.layers, r.blockers), |r.layers|, r.objects, evaluate);
    var e := EvaluateLayers(r.application, Evaluation(r.layers, r.blockers), |r.layers|, r.objects, evaluate);
    EvaluateAdmissionsSame(r.admissions, e.blockers, |r.admissions|, r.objects, evaluate);
  }

  lemma {:induction false} EvaluatedComplete(before: Report, after: Report)
    requires Evaluated(before, after) && Complete(before)
    ensures Complete(after)
  {
  }

  /** The plan's node list, in index order. */
  function PlanNodes(plan: ApplicationPlan): seq<Node> {
    seq(|plan.children|, i requires 0 <= i < |plan.children| =>
      Node(plan.children[i].application, plan.children[i].parentIndex, plan.children[i].position, plan.children[i].delegated.kappa))
  }

  /** The report's tables when nothing is blocked: complete, indexed in order, and the unfolding of the graph. */
  ghost predicate Settles(g: Graph, r: Report) {
    && Complete(r)
    && r.manifest.primary.Some?
    && Unfolds(g, Nodes(r.admissions))
    && r.applicationCount == |r.admissions| + 1
    && (forall i :: 0 <= i < |r.admissions| ==> r.admissions[i].index == i + 1)
  }

  lemma {:induction false} FinishHolds(g: Graph, archive: Kappa, s: Plan)
    requires forall i :: 0 <= i <= |s.admissions| ==> Filled(g, s, i)
    ensures var r := Finish(archive, g.root, g.manifest, s);
      Complete(r) && Nodes(r.admissions) == Nodes(s.admissions)
  {
    hide Graph.ManifestOf;
    var r := Finish(archive, g.root, g.manifest, s);
    assert Filled(g, s, 0);
    forall i | 0 <= i < |r.admissions|
      ensures r.admissions[i].requested.Some? && LayersHeld(r.admissions[i].layers, r.objects)
    {
      assert Filled(g, s, i + 1);
    }
    assert forall i :: 0 <= i < |r.admissions| ==> NodeOf(r.admissions[i]) == NodeOf(s.admissions[i]);
  }

  /** Every report the planner builds without blockers settles: it is complete and is exactly the recursive
      unfolding of the root manifest. */
  lemma {:induction false} ExplainSettles(up: Crates, archive: Archive, limits: PlanLimits, local: Kappa -> Result<Option<Bytes>>)
    requires ManifestsRoundTrip(up)
    ensures var r := Explain(up, archive, limits, local);
      r.Ok? && r.value.blockers == [] ==>
        Settles(Graph(SourcesOf(up, archive, limits, local), r.value.application, r.value.manifest), r.value)
  {
    hide Complete, Unfolds, Filled, Run, VerifyRequired, Start, WithSources, PlannedLayers;
    var r := Explain(up, archive, limits, local);
    if r.Ok? && r.value.blockers == [] {
      var g := Graph(SourcesOf(up, archive, limits, local), r.value.application, r.value.manifest);
      CleanPlanUnfolds(g);
      var s := Run(g.env, Start(g.env, g.root, g.manifest));
      assert r.value == Finish(archive.kappa, g.root, g.manifest, s.value);
      FinishHolds(g, archive.kappa, s.value);
    }
  }

  lemma {:induction false} EvaluatedSettles(g: Graph, before: Report, after: Report)
    requires Evaluated(before, after) && Settles(g, before)
    ensures Settles(g, after)
  {
    hide Unfolds;
    EvaluatedComplete(before, after);
    assert Nodes(after.admissions) == Nodes(before.admissions);
  }

  /** Every planner-made plan is the unfolding of its graph, indexed in order. */
  ghost predicate PlannerMade(g: Graph, plan: ApplicationPlan) {
    && plan.manifest.primary.Some?
    && Unfolds(g, PlanNodes(plan))
    && (forall i :: 0 <= i < |plan.children| ==> plan.children[i].index == i + 1)
  }

  lemma {:induction false} IntoPlanKeepsNodes(g: Graph, r: Report)
    requires Settles(g, r) && IntoPlan(r).Ok?
    ensures PlannerMade(g, IntoPlan(r).value)
  {
    hide Unfolds, LayersHeld, StrictLayers, StrictChildren;
    StrictChildrenIff(r.admissions, r.objects);
    var plan := IntoPlan(r).value;
    forall i | 0 <= i < |plan.children|
      ensures plan.children[i].index == i + 1 && PlanNodes(plan)[i] == Nodes(r.admissions)[i]
    {
      assert Ok(plan.children[i]) == StrictChild(r.admissions[i], r.objects);
    }
    assert PlanNodes(plan) == Nodes(r.admissions);
  }

  lemma {:induction false} SettlesComplete(g: Graph, r: Report)
    requires Settles(g, r)
    ensures Complete(r)
  {
  }

  lemma {:induction false} UnblockedIfPlan(r: Report)
    requires IntoPlan(r).Ok?
    ensures r.blockers == []
  {
  }

  /** Application i + 1 is child i, and its parent comes before it. */
  ghost predicate Indexed(children: seq<ResolvedChild>) {
    forall i :: 0 <= i < |children| ==> children[i].index == i + 1 && children[i].parentIndex <= i
  }

  /** `a` is application `i` or one of its ancestors. */
  ghost predicate Ancestor(children: seq<ResolvedChild>, a: nat, i: nat)
    requires Indexed(children) && i <= |children|
    decreases i
  {
    a == i || (i > 0 && Ancestor(children, a, children[i - 1].parentIndex))
  }

  lemma {:induction false} AncestorBefore(children: seq<ResolvedChild>, a: nat, i: nat)
    requires Indexed(children) && i <= |children| && Ancestor(children, a, i)
    ensures a <= i
    decreases i
  {
    if a != i {
      AncestorBefore(children, a, children[i - 1].parentIndex);
    }
  }

  /** Siblings are listed in manifest order. */
  ghost predicate SiblingsOrdered(children: seq<ResolvedChild>) {
    forall i, j :: 0 <= i < j < |children| && children[i].parentIndex == children[j].parentIndex ==>
      children[i].position <= children[j].position
  }

  lemma {:induction false} PlannerMadeOrdered(g: Graph, plan: ApplicationPlan)
    requires PlannerMade(g, plan)
    ensures SiblingsOrdered(plan.children)
  {
    hide Unfolds, FirstChild, Graph.ManifestOf;
    var nodes := PlanNodes(plan);
    forall i, j | 0 <= i < j < |plan.children| && plan.children[i].parentIndex == plan.children[j].parentIndex
      ensures plan.children[i].position <= plan.children[j].position
    {
      NodeHasEdge(g, nodes, i);
      NodeHasEdge(g, nodes, j);
      assert nodes[i].position == plan.children[i].position && nodes[j].position == plan.children[j].position;
    }
  }

  lemma {:induction false} PlannerMadeIndexed(g: Graph, plan: ApplicationPlan)
    requires PlannerMade(g, plan)
    ensures Indexed(plan.children)
  {
    forall i | 0 <= i < |plan.children|
      ensures plan.children[i].parentIndex <= i
    {
      assert PlanNodes(plan)[i].parent <= i;
    }
  }

  /** The root manifest as the planner reads it back from its canonical bytes. */
  function RootManifest(up: Crates, manifest: AppManifest): AppManifest {
    match up.parseManifest(up.encodeManifest(manifest))
    case None => manifest
    case Some(root) => root
  }

  /** The graph an explanation walks. */
  function ExplainedGraph(up: Crates, archive: Archive, limits: PlanLimits, local: Kappa -> Result<Option<Bytes>>, manifest: AppManifest): Graph {
    Graph(SourcesOf(up, archive, limits, local), up.address(up.encodeManifest(manifest)), RootManifest(up, manifest))
  }

  /** Every blocker the planner records is real: missing, mismatching and undecodable content is so, a cycle is a
      chain of manifest edges that closes, and an exceeded limit is exceeded by real applications, layers, labels
      or bytes. A library has no primary layer, and a verified archive is never blamed for mismatching content. */
  lemma {:induction false} ExplainBlockersReal(up: Crates, archive: Archive, limits: PlanLimits, local: Kappa -> Result<Option<Bytes>>)
    ensures var r := Explain(up, archive, limits, local);
      r.Ok? ==> forall i :: 0 <= i < |r.value.blockers| ==>
        var b := r.value.blockers[i];
        && (b.LibraryArchive? ==> r.value.manifest.primary.None?)
        && (!b.LibraryArchive? ==> Real(ExplainedGraph(up, archive, limits, local, r.value.manifest), b))
        && (b.ContentMismatch? ==> b.source == LocalStore)
  {
    hide Run, VerifyRequired, Start, Real, WithSources, PlannedLayers, EmbeddedMap, EveryReal;
    var r := Explain(up, archive, limits, local);
    if r.Ok? {
      var manifest := r.value.manifest;
      var g := ExplainedGraph(up, archive, limits, local, manifest);
      var run := Run(g.env, Start(g.env, g.root, g.manifest));
      assert run.Ok? && r.value == Finish(archive.kappa, g.root, manifest, run.value);
      RunBlockersReal(g);
      VerifiedAddressed(up, manifest, archive);
      var blockers := run.value.closure.blockers;
      forall i | 0 <= i < |blockers|
        ensures Real(g, blockers[i]) && !blockers[i].LibraryArchive?
        ensures blockers[i].ContentMismatch? ==> blockers[i].source == LocalStore
      {
        RealAt(g, blockers, i);
        if blockers[i].ContentMismatch? {
          MismatchIsDefect(g, blockers[i]);
          RealMismatchIsLocal(g.env, blockers[i]);
        }
      }
    }
  }

  lemma {:induction false} RealAt(g: Graph, blockers: seq<PlanBlocker>, i: nat)
    requires EveryReal(g, blockers) && i < |blockers|
    ensures Real(g, blockers[i]) && !blockers[i].LibraryArchive?
  {
    hide Real;
  }

  lemma {:induction false} MismatchIsDefect(g: Graph, blocker: PlanBlocker)
    requires Real(g, blocker) && blocker.ContentMismatch?
    ensures Defect(g.env, blocker)
  {
  }

  lemma {:induction false} RealMismatchIsLocal(env: Sources, blocker: PlanBlocker)
    requires Defect(env, blocker) && forall k :: k in env.embedded ==> env.up.address(env.embedded[k]) == k
    ensures blocker.ContentMismatch? ==> blocker.source == LocalStore
  {
  }

  lemma {:induction false} EmbeddedAddressed(up: Crates, blobs: seq<Blob>)
    requires Addressed(up, blobs)
    ensures forall k :: k in EmbeddedMap(blobs) ==> up.address(EmbeddedMap(blobs)[k]) == k
  {
    if blobs != [] {
      var init := blobs[..|blobs| - 1];
      assert Addressed(up, init);
      EmbeddedAddressed(up, init);
    }
  }

  /** A verified directory means every embedded blob is stored under its own address. */
  lemma {:induction false} VerifiedAddressed(up: Crates, manifest: AppManifest, archive: Archive)
    requires VerifyRequired(up, manifest, archive.directories, archive.blobs).Ok?
    ensures forall k :: k in EmbeddedMap(archive.blobs) ==> up.address(EmbeddedMap(archive.blobs)[k]) == k
  {
    hide EmbeddedMap;
    IndexedIffAddressed(up, archive.blobs);
    EmbeddedAddressed(up, archive.blobs);
  }
}
