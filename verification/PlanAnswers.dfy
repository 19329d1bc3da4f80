/** What a report and a strict plan contain, field by field, in terms of the manifests, the archive and the local store
    (src/application_plan.rs:313-514, 740-1085). */
module PlanAnswers {
  import opened Basics
  import opened Upstream
  import opened Directory
  import opened Resolver
  import opened Planner
  import opened PlanPaths
  import opened Unfolding
  import opened PlanShape
  import opened PlanTables
  import opened BlockerEdges
  import opened PlanRows
  import opened Occurrences
  import opened Sweep
  import opened PlanReport
  import DirectoryCheck

  // ---------- Where content comes from ----------

  /** The archive embeds these bytes under the label. */
  ghost predicate Embeds(archive: Archive, k: Kappa, bytes: Bytes) {
    exists i :: 0 <= i < |archive.blobs| && archive.blobs[i] == Blob(k, bytes)
  }

  lemma {:induction false} EmbeddedMapIs(blobs: seq<Blob>)
    ensures forall k :: k in EmbeddedMap(blobs) <==> exists i :: 0 <= i < |blobs| && blobs[i].kappa == k
    ensures forall k :: k in EmbeddedMap(blobs) ==> exists i :: 0 <= i < |blobs| && blobs[i] == Blob(k, EmbeddedMap(blobs)[k])
  {
    if blobs != [] {
      var n := |blobs| - 1;
      EmbeddedMapIs(blobs[..n]);
      forall k | k in EmbeddedMap(blobs)
        ensures exists i :: 0 <= i < |blobs| && blobs[i] == Blob(k, EmbeddedMap(blobs)[k])
      {
        if k == blobs[n].kappa {
          assert blobs[n] == Blob(k, EmbeddedMap(blobs)[k]);
        } else {
          var i :| 0 <= i < |blobs[..n]| && blobs[..n][i] == Blob(k, EmbeddedMap(blobs[..n])[k]);
          assert blobs[i] == Blob(k, EmbeddedMap(blobs)[k]);
        }
      }
      forall k | exists i :: 0 <= i < |blobs| && blobs[i].kappa == k
        ensures k in EmbeddedMap(blobs)
      {
        var i :| 0 <= i < |blobs| && blobs[i].kappa == k;
        assert i < n ==> blobs[..n][i].kappa == k;
      }
    }
  }

  /** The archive's own blobs come first, and only what it does not embed is read from the local store. */
  lemma {:induction false} ContentComesFrom(up: Crates, archive: Archive, limits: PlanLimits, local: Kappa -> Result<Option<Bytes>>, k: Kappa)
    ensures var env := SourcesOf(up, archive, limits, local);
      if exists bytes :: Embeds(archive, k, bytes)
      then Stores(env, k) && Embeds(archive, k, Stored(env, k)) && SourceOf(env, k) == Embedded
      else SourceOf(env, k) == LocalStore && (if Stores(env, k) then local(k) == Ok(Some(Stored(env, k))) else local(k).Err? || local(k).value.None?)
  {
    EmbeddedMapIs(archive.blobs);
    hide EmbeddedMap;
    var env := SourcesOf(up, archive, limits, local);
    if k in EmbeddedMap(archive.blobs) {
      assert Embeds(archive, k, env.embedded[k]);
    }
  }

  // ---------- Reports ----------

  /** The layers of a manifest as a report lists them: in order, with the primary one marked, and with the source of
      every content that was resolved. */
  ghost predicate ReportsLayers(layers: seq<PlannedLayer>, m: AppManifest, objects: map<Kappa, ResolvedObject>) {
    && |layers| == |m.layers|
    && forall i :: 0 <= i < |layers| ==>
      && Saturated(layers[i].position, i)
      && layers[i].layer == m.layers[i]
      && (layers[i].primary <==> if i <= 0xFFFF_FFFF then m.primary == Some(i) else m.primary.None?)
      && layers[i].source == (if m.layers[i].content in objects then Some(objects[m.layers[i].content].source) else None)
      && layers[i].provider.Unchecked?
  }

  /** Every resolved object is the content of its label, and is marked with where that was found. */
  ghost predicate HoldsContent(env: Sources, objects: map<Kappa, ResolvedObject>) {
    forall k :: k in objects ==> objects[k].kappa == k && FoundIn(env, k, objects[k].source) && objects[k].bytes == Stored(env, k)
  }

  /** An admission of a report: a child edge with the delegation stored for it, and the request, primary and layers of
      its own manifest. `visited` says that the application was reached by the worklist, which every one is when
      nothing is blocked. */
  ghost predicate ReportsAdmission(g: Graph, a: Admission, objects: map<Kappa, ResolvedObject>, visited: bool) {
    && HasChild(g, a.parent, a.position, ChildEdge(a.application, a.delegated.kappa))
    && DecodedAt(g.env, a.delegated.kappa, a.delegated)
    && g.ManifestOf(a.application).Some?
    && var m := g.ManifestOf(a.application).value;
    && (visited ==> a.requested.Some?)
    && (a.requested.Some? ==> DecodedAt(g.env, m.required, a.requested.value))
    && ((!visited && a.primary == None && a.layers == []) || (a.primary == m.primary && ReportsLayers(a.layers, m, objects)))
  }

  /** What every report contains, blocked or not. */
  ghost predicate ReportHolds(g: Graph, r: Report) {
    && ReportsLayers(r.layers, r.manifest, r.objects)
    && HoldsContent(g.env, r.objects)
    && (r.requested.Some? ==> DecodedAt(g.env, g.manifest.required, r.requested.value))
    && (forall i :: 0 <= i < |r.admissions| ==> ReportsAdmission(g, r.admissions[i], r.objects, false))
    && (forall i :: 0 <= i < |r.children| ==> RowReal(g, r.children[i]))
    && (forall i :: 0 <= i < |r.blockers| ==> Points(g, r.blockers[i]))
    && (LibraryArchive in r.blockers <==> r.manifest.primary.None?)
    && r.resolvedBytes == U64Of(TotalBytes(r.objects)) && r.resolvedBytes <= g.env.limits.maxResolvedBytes
    && |r.objects| <= r.referencedCount <= g.env.limits.maxObjects
    && r.maxDepth <= g.env.limits.maxDepth
  }

  /** What a report without blockers contains: every application was visited; its rows, admissions and depths are in
      line; and its counters count the objects, and among them the embedded ones. */
  ghost predicate CleanReportHolds(g: Graph, r: Report) {
    && r.requested.Some? && r.manifest.primary.Some?
    && (forall i :: 0 <= i < |r.admissions| ==> ReportsAdmission(g, r.admissions[i], r.objects, true))
    && |r.children| == |r.admissions| && r.applicationCount == |r.admissions| + 1
    && (forall i :: 0 <= i < |r.admissions| ==> Fits(g, r.admissions, r.children, i))
    && (forall i :: 0 <= i < |r.children| ==> r.children[i].depth <= r.maxDepth)
    && (r.maxDepth == 0 || exists i :: 0 <= i < |r.children| && Saturated(r.children[i].depth, r.maxDepth))
    && r.referencedCount == |r.objects|
    && r.embeddedCount == |set k | k in r.objects && r.objects[k].source == Embedded|
  }

  lemma {:induction false} SourcesReport(layers: seq<PlannedLayer>, m: AppManifest, objects: map<Kappa, ResolvedObject>)
    requires PlansLayers(layers, m)
    ensures ReportsLayers(WithSources(layers, objects), m, objects)
  {
  }

  lemma {:induction false} NoSources(objects: map<Kappa, ResolvedObject>)
    ensures WithSources([], objects) == []
  {
  }

  lemma {:induction false} AdmissionReports(g: Graph, a: Admission, objects: map<Kappa, ResolvedObject>)
    requires Belongs(g, a)
    ensures ReportsAdmission(g, a.(layers := WithSources(a.layers, objects)), objects, false)
  {
    hide HasChild, DecodedAt, Graph.ManifestOf, PlansLayers, ReportsLayers, WithSources;
    var m := g.ManifestOf(a.application).value;
    NoSources(objects);
    if PlansLayers(a.layers, m) {
      SourcesReport(a.layers, m, objects);
    }
  }

  lemma {:induction false} VisitedReports(g: Graph, s: Plan, index: nat, objects: map<Kappa, ResolvedObject>)
    requires 0 < index <= |s.admissions| && Filled(g, s, index) && Belongs(g, s.admissions[index - 1])
    ensures var a := s.admissions[index - 1];
      ReportsAdmission(g, a.(layers := WithSources(a.layers, objects)), objects, true)
  {
    hide HasChild, DecodedAt, Graph.ManifestOf, PlansLayers, ReportsLayers, WithSources, PlannedLayers;
    var a := s.admissions[index - 1];
    var m := g.ManifestOf(a.application).value;
    PlannedLayersPlan(m);
    SourcesReport(a.layers, m, objects);
  }

  lemma {:induction false} HeldContent(env: Sources, c: State)
    requires Invariant(env, c)
    ensures HoldsContent(env, c.objects)
  {
    hide Lookup;
  }

  lemma {:induction false} HeldCounts(env: Sources, c: State)
    requires Consistent(env, c)
    ensures Invariant(env, c)
    ensures c.resolvedBytes == U64Of(TotalBytes(c.objects)) && c.resolvedBytes <= env.limits.maxResolvedBytes
    ensures |c.referenced| <= env.limits.maxObjects && c.objects.Keys <= c.referenced
  {
    hide AllReal, Lookup, ObjectMatches, TotalBytes, U64Of;
  }

  lemma {:induction false} SmallerSet(a: set<Kappa>, b: set<Kappa>)
    requires a <= b
    ensures |a| <= |b|
  {
    assert b == a + (b - a);
  }

  /** Without blockers nothing failed, so everything referenced was resolved. */
  lemma {:induction false} CleanCounts(env: Sources, c: State)
    requires Consistent(env, c) && c.blockers == []
    ensures |c.referenced| == |c.objects|
    ensures c.embeddedCount == |set k | k in c.objects && c.objects[k].source == Embedded|
  {
    hide AllReal, ByteAccounting, Lookup;
    assert c.referenced == c.objects.Keys;
    assert c.referenced * env.embedded.Keys == (set k | k in c.objects && c.objects[k].source == Embedded);
  }

  lemma {:induction false} NeverLibrary(env: Sources, blockers: seq<PlanBlocker>, m: AppManifest)
    requires forall i :: 0 <= i < |blockers| ==> !blockers[i].LibraryArchive?
    ensures LibraryArchive in blockers + (if m.primary.None? then [LibraryArchive] else []) <==> m.primary.None?
  {
    var all := blockers + (if m.primary.None? then [LibraryArchive] else []);
    if m.primary.None? {
      assert all[|blockers|] == LibraryArchive;
    }
  }

  lemma {:induction false} LibraryPoints(g: Graph)
    ensures Points(g, LibraryArchive)
  {
  }

  lemma {:induction false} FinishReports(g: Graph, archive: Kappa, manifest: AppManifest, s: Plan)
    requires Recorded(g, s) && Consistent(g.env, s.closure) && g.Bounded(s)
    requires AllPoint(g, s.closure) && forall i :: 0 <= i < |s.closure.blockers| ==> !s.closure.blockers[i].LibraryArchive?
    ensures ReportHolds(g, Finish(archive, g.root, manifest, s))
  {
    hide Belongs, RowReal, DecodedAt, ReportsAdmission, Consistent, Graph.Reached, PlansLayers, ReportsLayers, HoldsContent, WithSources, PlannedLayers, Points;
    var r := Finish(archive, g.root, manifest, s);
    LibraryPoints(g);
    PlannedLayersPlan(manifest);
    SourcesReport(PlannedLayers(manifest), manifest, s.closure.objects);
    HeldCounts(g.env, s.closure);
    HeldContent(g.env, s.closure);
    SmallerSet(s.closure.objects.Keys, s.closure.referenced);
    NeverLibrary(g.env, s.closure.blockers, manifest);
    forall i | 0 <= i < |r.admissions|
      ensures ReportsAdmission(g, r.admissions[i], r.objects, false)
    {
      AdmissionReports(g, s.admissions[i], s.closure.objects);
    }
  }

  lemma {:induction false} FinishCleanReports(g: Graph, archive: Kappa, manifest: AppManifest, s: Plan)
    requires Recorded(g, s) && Consistent(g.env, s.closure) && Lined(g, s)
    requires s.closure.blockers == [] && manifest.primary.Some?
    requires forall i :: 0 <= i <= |s.admissions| ==> Filled(g, s, i)
    ensures CleanReportHolds(g, Finish(archive, g.root, manifest, s))
  {
    hide Belongs, RowReal, DecodedAt, ReportsAdmission, Consistent, PlansLayers, WithSources, PlannedLayers, Filled, Fits;
    var r := Finish(archive, g.root, manifest, s);
    CleanCounts(g.env, s.closure);
    RootFilled(g, s);
    forall i | 0 <= i < |r.admissions|
      ensures ReportsAdmission(g, r.admissions[i], r.objects, true)
      ensures Fits(g, r.admissions, r.children, i)
    {
      VisitedReports(g, s, i + 1, s.closure.objects);
      assert s.children[..|s.children|] == s.children;
      FitsStays(g, s.admissions, s.children, r.admissions, r.children, i);
    }
  }

  lemma {:induction false} RootFilled(g: Graph, s: Plan)
    requires Filled(g, s, 0)
    ensures s.requested.Some?
  {
  }

  /** The run behind a report. */
  lemma {:induction false} RunBehind(up: Crates, archive: Archive, limits: PlanLimits, local: Kappa -> Result<Option<Bytes>>)
    ensures var r := Explain(up, archive, limits, local);
      r.Ok? ==>
        && archive.manifest.Some? && up.parseManifest(archive.manifest.value) == Some(r.value.manifest) && up.validManifest(r.value.manifest)
        && r.value.archive == archive.kappa && r.value.application == up.address(up.encodeManifest(r.value.manifest))
        && up.parseManifest(up.encodeManifest(r.value.manifest)).Some?
        && var g := ExplainedGraph(up, archive, limits, local, r.value.manifest);
        var run := Run(g.env, Start(g.env, g.root, g.manifest));
        && run.Ok? && r.value == Finish(archive.kappa, g.root, r.value.manifest, run.value)
        && r.value.blockers == run.value.closure.blockers + (if r.value.manifest.primary.None? then [LibraryArchive] else [])
  {
    hide Run, Start, VerifyRequired, WithSources, PlannedLayers;
  }

  /** Every report of the planner: its identity, and what it contains. */
  lemma {:induction false} ExplainReports(up: Crates, archive: Archive, limits: PlanLimits, local: Kappa -> Result<Option<Bytes>>)
    ensures var r := Explain(up, archive, limits, local);
      r.Ok? ==>
        && archive.manifest.Some? && up.parseManifest(archive.manifest.value) == Some(r.value.manifest) && up.validManifest(r.value.manifest)
        && r.value.archive == archive.kappa && r.value.application == up.address(up.encodeManifest(r.value.manifest))
        && var g := ExplainedGraph(up, archive, limits, local, r.value.manifest);
        && ReportHolds(g, r.value)
        && (r.value.blockers == [] ==> CleanReportHolds(g, r.value))
  {
    hide Run, Start, Finish, Explain, Recorded, InLine, Lined, Graph.Bounded, Consistent, ReportHolds, CleanReportHolds, Filled, Unfolds, EveryReal, Real, AllPoint;
    var r := Explain(up, archive, limits, local);
    RunBehind(up, archive, limits, local);
    if r.Ok? {
      var g := ExplainedGraph(up, archive, limits, local, r.value.manifest);
      var start := Start(g.env, g.root, g.manifest);
      var run := Run(g.env, start);
      StartRecorded(g);
      StartKeeps(g);
      StartInLine(g);
      StartPoints(g);
      RunRecorded(g, start);
      RunKeeps(g, start);
      RunInLine(g, start);
      RunPoints(g, start);
      RunBlockersReal(g);
      forall i | 0 <= i < |run.value.closure.blockers|
        ensures !run.value.closure.blockers[i].LibraryArchive?
      {
        RealAt(g, run.value.closure.blockers, i);
      }
      FinishReports(g, archive.kappa, r.value.manifest, run.value);
      if r.value.blockers == [] {
        CleanPlanUnfolds(g);
        UnblockedLined(g, run.value);
        FinishCleanReports(g, archive.kappa, r.value.manifest, run.value);
      }
    }
  }

  lemma {:induction false} UnblockedLined(g: Graph, s: Plan)
    requires InLine(g, s) && s.closure.blockers == []
    ensures Lined(g, s)
  {
    hide Lined;
  }

  // ---------- When there is no report ----------

  /** The local store itself failed on a label that the archive does not embed. */
  ghost predicate StoreFailed(env: Sources, error: LiveError) {
    exists k :: k !in env.embedded && env.local(k) == Err(error)
  }

  lemma {:induction false} ContentsFail(env: Sources, s: Plan, app: Pending)
    ensures var r := VisitContents(env, s, app); r.Err? ==> StoreFailed(env, r.error)
  {
    hide DecodeCapabilities, SetRequested;
    var s1 := Require(env, s, app);
    if s1.Ok? {
      LayersFail(env, s1.value.closure, app, 0);
    }
  }

  lemma {:induction false} LayersFail(env: Sources, c: State, app: Pending, from: nat)
    ensures var r := ResolveLayers(env, c, app, from); r.Err? ==> StoreFailed(env, r.error)
    decreases |app.manifest.layers| - from
  {
    if from < |app.manifest.layers| {
      var answer := Resolution(env, c, app.manifest.layers[from].content, LayerEdgeOf(app, from));
      if answer.Ok? {
        LayersFail(env, answer.value.state, app, from + 1);
      }
    }
  }

  lemma {:induction false} ChildrenFail(env: Sources, s: Plan, app: Pending, from: nat)
    ensures var r := VisitChildren(env, s, app, from); r.Err? ==> StoreFailed(env, r.error)
    decreases |app.manifest.children| - from
  {
    hide DecodeCapabilities, RecordChild, Refuse, RefuseChild;
    if from < |app.manifest.children| {
      var s1 := VisitChild(env, s, app, from);
      if s1.Ok? {
        ChildrenFail(env, s1.value, app, from + 1);
      }
    }
  }

  lemma {:induction false} RunFails(env: Sources, s: Plan)
    ensures var r := Run(env, s); r.Err? ==> StoreFailed(env, r.error)
    decreases Room(env, s)
  {
    hide VisitContents, VisitChildren, StoreFailed;
    if s.pending != [] {
      var rest := s.(pending := s.pending[1..]);
      var app := s.pending[0];
      VisitRoom(env, rest, app);
      ContentsFail(env, Open(rest, app), app);
      var s1 := VisitContents(env, Open(rest, app), app);
      if s1.Ok? {
        ChildrenFail(env, s1.value, app, 0);
      }
      var turn := Visit(env, rest, app);
      if turn.Ok? && !turn.value.stop {
        RunFails(env, turn.value.plan);
      }
    }
  }

  /** Why there is no report: no manifest section, a manifest that does not decode to a valid one, or from its
      canonical bytes, a directory that does not describe it, or a failure of the local store itself. */
  lemma {:induction false} ExplainRefuses(up: Crates, archive: Archive, limits: PlanLimits, local: Kappa -> Result<Option<Bytes>>)
    ensures var r := Explain(up, archive, limits, local);
      if archive.manifest.None? then r == Err(Capability)
      else
        var parsed := up.parseManifest(archive.manifest.value);
        if parsed.None? || !up.validManifest(parsed.value) || !DirectoryCheck.Accepted(up, parsed.value, archive.directories, archive.blobs)
           || up.parseManifest(up.encodeManifest(parsed.value)).None? then r == Err(InvalidHolo)
        else r.Err? ==> StoreFailed(SourcesOf(up, archive, limits, local), r.error)
  {
    hide Run, Start, VerifyRequired, Finish, StoreFailed, DirectoryCheck.Accepted;
    if archive.manifest.Some? {
      var parsed := up.parseManifest(archive.manifest.value);
      if parsed.Some? {
        DirectoryCheck.VerifiedIffDescribed(up, parsed.value, archive.directories, archive.blobs);
        var canonical := up.encodeManifest(parsed.value);
        if up.parseManifest(canonical).Some? {
          var env := SourcesOf(up, archive, limits, local);
          RunFails(env, Start(env, up.address(canonical), up.parseManifest(canonical).value));
        }
      }
    }
  }

  // ---------- Strict plans ----------

  /** The layers of a manifest as a plan lists them, each with the content of its label, where that was found, and the
      provider the evaluation answered. */
  ghost predicate PlansStrictly(env: Sources, layers: seq<ResolvedLayer>, m: AppManifest, evaluated: seq<PlannedLayer>) {
    && |layers| == |m.layers| == |evaluated|
    && forall i :: 0 <= i < |layers| ==>
      && Saturated(layers[i].position, i)
      && layers[i].layer == m.layers[i]
      && (layers[i].primary <==> if i <= 0xFFFF_FFFF then m.primary == Some(i) else m.primary.None?)
      && FoundIn(env, m.layers[i].content, layers[i].source)
      && layers[i].content == Stored(env, m.layers[i].content)
      && evaluated[i].provider == Available(layers[i].provider)
  }

  /** A child of a plan: the child edge it comes from, with what is stored at that edge's capabilities as its delegation;
      and, from its own manifest, what is stored at its required label as its request, its primary and its layers. */
  ghost predicate PlansChild(g: Graph, plan: ApplicationPlan, i: nat, evaluated: seq<PlannedLayer>)
    requires i < |plan.children|
  {
    var c := plan.children[i];
    && c.index == i + 1 && c.parentIndex <= i
    && c.parent == (if c.parentIndex == 0 then g.root else plan.children[c.parentIndex - 1].application)
    && HasChild(g, c.parent, c.position, ChildEdge(c.application, c.delegated.kappa))
    && DecodedAt(g.env, c.delegated.kappa, c.delegated)
    && g.ManifestOf(c.application).Some?
    && var m := g.ManifestOf(c.application).value;
    && DecodedAt(g.env, m.required, c.requested)
    && c.primary == m.primary
    && PlansStrictly(g.env, c.layers, m, evaluated)
  }

  /** What a plan made from an evaluated report contains. */
  ghost predicate PlanHolds(g: Graph, r: Report, plan: ApplicationPlan) {
    && plan.archive == r.archive && plan.application == g.root && plan.manifest == g.manifest && plan.manifest.primary.Some?
    && plan.objects == r.objects && HoldsContent(g.env, plan.objects)
    && DecodedAt(g.env, g.manifest.required, plan.requested)
    && PlansStrictly(g.env, plan.layers, g.manifest, r.layers)
    && |plan.children| == |r.admissions|
    && forall i :: 0 <= i < |plan.children| ==> PlansChild(g, plan, i, r.admissions[i].layers)
  }

  lemma {:induction false} LayersPlanStrictly(env: Sources, before: seq<PlannedLayer>, evaluated: seq<PlannedLayer>, m: AppManifest,
      objects: map<Kappa, ResolvedObject>, layers: seq<ResolvedLayer>)
    requires ReportsLayers(before, m, objects) && SameLayers(before, evaluated) && HoldsContent(env, objects)
    requires LayersHeld(evaluated, objects) && |layers| == |evaluated|
    requires forall i :: 0 <= i < |evaluated| ==> Ok(layers[i]) == StrictLayer(evaluated[i], objects)
    ensures PlansStrictly(env, layers, m, evaluated)
  {
    hide FoundIn, Stored, Stores;
    forall i | 0 <= i < |layers|
      ensures evaluated[i] == before[i].(provider := evaluated[i].provider)
      ensures evaluated[i].provider.Available?
      ensures layers[i].content == objects[m.layers[i].content].bytes && layers[i].source == objects[m.layers[i].content].source
    {
      assert Ok(layers[i]) == StrictLayer(evaluated[i], objects);
    }
  }

  lemma {:induction false} ChildPlans(g: Graph, r: Report, after: Report, plan: ApplicationPlan, i: nat)
    requires CleanReportHolds(g, r) && HoldsContent(g.env, r.objects) && Evaluated(r, after) && i < |r.admissions|
    requires Settles(g, after) && IntoPlan(after) == Ok(plan)
    ensures |plan.children| == |after.admissions| && PlansChild(g, plan, i, after.admissions[i].layers)
  {
    hide DecodedAt, HasChild, ReportsLayers, HoldsContent, SameLayers, LayersHeld, StrictLayers, StrictChildren, Unfolds, Graph.ManifestOf, AllAvailable, Nodes;
    StrictChildrenIff(after.admissions, after.objects);
    var a, b := r.admissions[i], after.admissions[i];
    assert ReportsAdmission(g, a, r.objects, true);
    assert Fits(g, r.admissions, r.children, i);
    assert Ok(plan.children[i]) == StrictChild(b, after.objects);
    StrictLayersIff(b.layers, after.objects);
    var p := a.parentIndex;
    if p > 0 {
      assert Ok(plan.children[p - 1]) == StrictChild(after.admissions[p - 1], after.objects);
    }
    LayersPlanStrictly(g.env, a.layers, b.layers, g.ManifestOf(a.application).value, r.objects, plan.children[i].layers);
  }

  lemma {:induction false} PlanContents(g: Graph, r: Report, after: Report, plan: ApplicationPlan)
    requires CleanReportHolds(g, r) && ReportHolds(g, r) && Evaluated(r, after)
    requires Settles(g, after) && IntoPlan(after) == Ok(plan)
    requires r.application == g.root && r.manifest == g.manifest
    ensures PlanHolds(g, after, plan)
  {
    forall i | 0 <= i < |r.admissions|
      ensures |plan.children| == |after.admissions| && PlansChild(g, plan, i, after.admissions[i].layers)
    {
      ChildPlans(g, r, after, plan, i);
    }
    hide DecodedAt, PlansChild, ReportsLayers, HoldsContent, SameLayers, LayersHeld, StrictLayers, Unfolds, AllAvailable, ReportsAdmission, Fits, RowReal;
    StrictChildrenIff(after.admissions, after.objects);
    StrictLayersIff(after.layers, after.objects);
    hide StrictChildren;
    LayersPlanStrictly(g.env, r.layers, after.layers, g.manifest, r.objects, plan.layers);
  }

  /** The kind of error a blocker becomes. */
  ghost predicate RefusedAs(blocker: PlanBlocker, error: LiveError) {
    if blocker.MissingObject? then error == NotFound
    else if blocker.ProviderUnavailable? || blocker.LibraryArchive? then error == Capability
    else error == InvalidHolo
  }

  lemma {:induction false} PlanErrors(r: Report)
    ensures r.blockers != [] ==> IntoPlan(r).Err? && RefusedAs(r.blockers[0], IntoPlan(r).error)
    ensures r.blockers == [] && Complete(r) && IntoPlan(r).Err? ==> IntoPlan(r).error == Capability
  {
    hide LayersHeld, StrictLayers, StrictChildren, AllAvailable;
    if r.blockers == [] && Complete(r) {
      StrictLayersIff(r.layers, r.objects);
      StrictChildrenIff(r.admissions, r.objects);
    }
  }

  /** The graph of an explanation, when its manifest codec round-trips. */
  lemma {:induction false} ExplainedRoot(up: Crates, archive: Archive, limits: PlanLimits, local: Kappa -> Result<Option<Bytes>>, r: Report)
    requires ManifestsRoundTrip(up) && Explain(up, archive, limits, local) == Ok(r)
    ensures ExplainedGraph(up, archive, limits, local, r.manifest) == Graph(SourcesOf(up, archive, limits, local), r.application, r.manifest)
  {
    hide Run, Start, VerifyRequired, Finish;
    RunBehind(up, archive, limits, local);
  }

  /** For every report the planner can build and any evaluation of its providers: it is runnable exactly when it
      becomes a strict plan; otherwise the first blocker decides the kind of error, which is a capability error when
      there is none, and never a "planner lost ..." conflict; and a plan is the unfolding of the root manifest, each
      application with its own manifest's request, primary and layers, and with the delegation and the contents
      stored under the labels the manifests name. */
  lemma {:induction false} RunnableIffPlan(
      up: Crates, archive: Archive, limits: PlanLimits, local: Kappa -> Result<Option<Bytes>>, r: Report, after: Report)
    requires ManifestsRoundTrip(up)
    requires Explain(up, archive, limits, local) == Ok(r) && Evaluated(r, after)
    ensures Runnable(after) <==> IntoPlan(after).Ok?
    ensures IntoPlan(after).Err? ==>
      && IntoPlan(after).error != Conflict
      && if after.blockers == [] then IntoPlan(after).error == Capability else RefusedAs(after.blockers[0], IntoPlan(after).error)
    ensures IntoPlan(after).Ok? ==>
      && PlannerMade(Graph(SourcesOf(up, archive, limits, local), r.application, r.manifest), IntoPlan(after).value)
      && PlanHolds(Graph(SourcesOf(up, archive, limits, local), r.application, r.manifest), after, IntoPlan(after).value)
  {
    hide Settles, Complete, IntoPlan, Runnable, Explain, PlannerMade, PlanHolds, SameLayers, ReportHolds, CleanReportHolds;
    var g := Graph(SourcesOf(up, archive, limits, local), r.application, r.manifest);
    ExplainSettles(up, archive, limits, local);
    if after.blockers == [] {
      EvaluatedSettles(g, r, after);
      SettlesComplete(g, after);
    }
    CompleteIff(after);
    PlanErrors(after);
    if IntoPlan(after).Ok? {
      UnblockedIfPlan(after);
      IntoPlanKeepsNodes(g, after);
      ExplainReports(up, archive, limits, local);
      ExplainedRoot(up, archive, limits, local, r);
      PlanContents(g, r, after, IntoPlan(after).value);
    }
  }
}
