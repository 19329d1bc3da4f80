/** What the tables of a planning run hold, whether or not something was blocked: every admission, every child row and
    every decoded capability object says what the manifests and the stored content say (src/application_plan.rs:858-1046). */
module PlanTables {
  import opened Basics
  import opened Upstream
  import opened Resolver
  import opened Planner
  import opened PlanPaths

  /** A count in a 32-bit field. */
  ghost predicate Saturated(position: nat, i: nat) {
    position == if i <= 0xFFFF_FFFF then i else 0xFFFF_FFFF
  }

  /** The capability object stored under a label: the bytes found there, which have that address and are the
      canonical form of what they decode to. */
  ghost predicate DecodedAt(env: Sources, k: Kappa, c: CapabilityObject) {
    && c.kappa == k && Stores(env, k) && c.canonical == Stored(env, k) && env.up.address(c.canonical) == k
    && env.up.parseCapabilities(c.canonical) == Some(c.capabilities) && env.up.encodeCapabilities(c.capabilities) == c.canonical
  }

  /** The manifest stored under a label. */
  ghost predicate ManifestStored(env: Sources, k: Kappa, m: AppManifest) {
    && Stores(env, k) && env.up.address(Stored(env, k)) == k
    && env.up.parseManifest(Stored(env, k)) == Some(m) && env.up.validManifest(m) && env.up.encodeManifest(m) == Stored(env, k)
  }

  /** The manifest of an application: the root's is given, and any other is the one stored under its label. */
  lemma {:induction false} ManifestOfIff(g: Graph, k: Kappa, m: AppManifest)
    ensures g.ManifestOf(k) == Some(m) <==> if k == g.root then m == g.manifest else ManifestStored(g.env, k, m)
  {
  }

  lemma {:induction false} DecodesIff(env: Sources, k: Kappa, c: CapabilityObject)
    requires Stores(env, k) && env.up.address(Stored(env, k)) == k
    ensures DecodeCapabilities(env.up, k, Stored(env, k)) == Some(c) <==> DecodedAt(env, k, c)
  {
  }

  /** Layers as they are planned for a manifest: in its order, the primary one marked, nothing resolved or asked yet. */
  ghost predicate PlansLayers(layers: seq<PlannedLayer>, m: AppManifest) {
    && |layers| == |m.layers|
    && forall i :: 0 <= i < |layers| ==>
      && Saturated(layers[i].position, i)
      && layers[i].layer == m.layers[i]
      && (layers[i].primary <==> if i <= 0xFFFF_FFFF then m.primary == Some(i) else m.primary.None?)
      && layers[i].source.None? && layers[i].provider.Unchecked?
  }

  lemma {:induction false} PlannedLayersPlan(m: AppManifest)
    ensures PlansLayers(PlannedLayers(m), m)
  {
  }

  /** The content of a label was found, and there. */
  ghost predicate FoundIn(env: Sources, k: Kappa, source: ResolutionSource) {
    Stores(env, k) && env.up.address(Stored(env, k)) == k && source == SourceOf(env, k)
  }

  /** Position `i` of a parent's children. */
  ghost predicate ChildAt(g: Graph, parent: Kappa, position: U32, edge: ChildEdge, i: nat) {
    && g.ManifestOf(parent).Some? && i < |g.ManifestOf(parent).value.children|
    && g.ManifestOf(parent).value.children[i] == edge && Saturated(position, i)
  }

  /** A child edge of a parent, and its position. */
  ghost predicate HasChild(g: Graph, parent: Kappa, position: U32, edge: ChildEdge) {
    exists i :: ChildAt(g, parent, position, edge, i)
  }

  /** An admission comes from a child edge; its delegation is what is stored at that edge's capabilities, its request
      is what is stored at its own manifest's, and its primary and layers, once planned, are its manifest's. */
  ghost predicate Belongs(g: Graph, a: Admission) {
    && HasChild(g, a.parent, a.position, ChildEdge(a.application, a.delegated.kappa))
    && DecodedAt(g.env, a.delegated.kappa, a.delegated)
    && g.ManifestOf(a.application).Some?
    && var m := g.ManifestOf(a.application).value;
    && (a.requested.Some? ==> DecodedAt(g.env, m.required, a.requested.value))
    && ((a.primary == None && a.layers == []) || (a.primary == m.primary && PlansLayers(a.layers, m)))
  }

  /** A child row states a child edge, where its two objects were found, and what its manifest says. */
  ghost predicate RowReal(g: Graph, row: ChildReference) {
    && HasChild(g, row.parent, row.position, ChildEdge(row.application, row.capabilities))
    && (row.applicationSource.Some? ==> FoundIn(g.env, row.application, row.applicationSource.value))
    && (row.capabilitiesSource.Some? ==> FoundIn(g.env, row.capabilities, row.capabilitiesSource.value))
    && (row.required.Some? <==> row.layerCount.Some?)
    && (row.required.Some? ==>
      && row.applicationSource.Some? && g.ManifestOf(row.application).Some?
      && row.required.value == g.ManifestOf(row.application).value.required
      && row.layerCount.value == |g.ManifestOf(row.application).value.layers|)
  }

  /** A queued application points at its own admission. */
  ghost predicate Owns(admissions: seq<Admission>, p: Pending) {
    p.admission.Some? ==> p.admission.value < |admissions| && admissions[p.admission.value].application == p.application
  }

  ghost predicate Recorded(g: Graph, s: Plan) {
    && (s.requested.Some? ==> DecodedAt(g.env, g.manifest.required, s.requested.value))
    && (forall i :: 0 <= i < |s.admissions| ==> Belongs(g, s.admissions[i]))
    && (forall i :: 0 <= i < |s.children| ==> RowReal(g, s.children[i]))
    && (forall j :: 0 <= j < |s.pending| ==> Owns(s.admissions, s.pending[j]))
  }

  /** What an answer of the resolver carries. */
  lemma {:induction false} AnswerIsFound(env: Sources, closure: State, kappa: Kappa, edge: ManifestEdge)
    requires Consistent(env, closure)
    ensures var r := Resolution(env, closure, kappa, edge);
      r.Ok? && r.value.resolved.Some? ==>
        && r.value.resolved.value.kappa == kappa
        && FoundIn(env, kappa, r.value.resolved.value.source)
        && r.value.resolved.value.bytes == Stored(env, kappa)
  {
    hide Resolution, Accounting, ByteAccounting, AllReal, Lookup, SourceOf;
    ResolveKeeps(env, closure, kappa, edge);
  }

  /** Replacing an admission by one of the same application. */
  lemma {:induction false} ReplaceRecorded(g: Graph, s: Plan, i: nat, a: Admission)
    requires Recorded(g, s) && i < |s.admissions|
    requires Belongs(g, a) && a.application == s.admissions[i].application
    ensures Recorded(g, s.(admissions := s.admissions[i := a]))
  {
    hide Belongs, RowReal, DecodedAt;
  }

  lemma {:induction false} OpenRecorded(g: Graph, s: Plan, app: Pending)
    requires Recorded(g, s) && Owns(s.admissions, app) && g.Reached(app)
    ensures Recorded(g, Open(s, app)) && Owns(Open(s, app).admissions, app) && Open(s, app).closure == s.closure
  {
    hide Recorded, PlannedLayers, HasChild, DecodedAt, PlansLayers;
    PlannedLayersPlan(app.manifest);
    if app.admission.Some? {
      var i := app.admission.value;
      RecordedAt(g, s, i);
      ReplaceRecorded(g, s, i, s.admissions[i].(primary := app.manifest.primary, layers := PlannedLayers(app.manifest)));
    }
    RecordedSame(g, s.(admissions := Open(s, app).admissions), Open(s, app));
  }

  lemma {:induction false} RecordedAt(g: Graph, s: Plan, i: nat)
    requires Recorded(g, s) && i < |s.admissions|
    ensures Belongs(g, s.admissions[i])
  {
    hide Belongs;
  }

  /** Counters and the resolver's state do not matter. */
  lemma {:induction false} RecordedSame(g: Graph, s: Plan, t: Plan)
    requires Recorded(g, s) && t.requested == s.requested && t.admissions == s.admissions && t.children == s.children && t.pending == s.pending
    ensures Recorded(g, t)
  {
    hide Belongs, RowReal, DecodedAt;
  }

  lemma {:induction false} RequestRecorded(g: Graph, s: Plan, app: Pending, request: CapabilityObject)
    requires Recorded(g, s) && Owns(s.admissions, app) && g.Reached(app) && DecodedAt(g.env, app.manifest.required, request)
    ensures Recorded(g, SetRequested(s, app, request)) && Owns(SetRequested(s, app, request).admissions, app)
  {
    hide HasChild, DecodedAt, PlansLayers, RowReal;
    if app.depth == 0 {
      assert app.manifest == g.manifest;
      hide Belongs;
    } else if app.admission.Some? {
      var i := app.admission.value;
      RecordedAt(g, s, i);
      hide Recorded;
      ReplaceRecorded(g, s, i, s.admissions[i].(requested := Some(request)));
    }
  }

  lemma {:induction false} RequireRecorded(g: Graph, s: Plan, app: Pending)
    requires Recorded(g, s) && Owns(s.admissions, app) && g.Reached(app) && Consistent(g.env, s.closure)
    ensures var r := Require(g.env, s, app); r.Ok? ==> Recorded(g, r.value) && Owns(r.value.admissions, app)
  {
    hide Recorded, Consistent, Resolution, DecodeCapabilities, DecodedAt, Graph.Reached, SetRequested;
    AnswerIsFound(g.env, s.closure, app.manifest.required, RequiresEdge(app));
    var answer := Resolution(g.env, s.closure, app.manifest.required, RequiresEdge(app));
    if answer.Ok? {
      var s1 := s.(closure := answer.value.state);
      RecordedSame(g, s, s1);
      if answer.value.resolved.Some? {
        var resolved := answer.value.resolved.value;
        RecordedSame(g, s1, Blocked(s1, InvalidCapabilitySet(resolved.kappa)));
        var request := DecodeCapabilities(g.env.up, resolved.kappa, resolved.bytes);
        if request.Some? {
          DecodesIff(g.env, app.manifest.required, request.value);
          RequestRecorded(g, s1, app, request.value);
        }
      }
    }
  }

  lemma {:induction false} ContentsRecorded(g: Graph, s: Plan, app: Pending)
    requires Recorded(g, s) && Owns(s.admissions, app) && g.Reached(app) && Consistent(g.env, s.closure)
    ensures var r := VisitContents(g.env, s, app); r.Ok? ==> Recorded(g, r.value)
  {
    hide Recorded, Consistent, Require, ResolveLayers, Graph.Reached;
    RequireRecorded(g, s, app);
    var s1 := Require(g.env, s, app);
    if s1.Ok? {
      var closure := ResolveLayers(g.env, s1.value.closure, app, 0);
      if closure.Ok? {
        RecordedSame(g, s1.value, s1.value.(closure := closure.value));
      }
    }
  }

  /** One more row. */
  lemma {:induction false} RowRecorded(g: Graph, s: Plan, row: ChildReference)
    requires Recorded(g, s) && RowReal(g, row)
    ensures Recorded(g, s.(children := s.children + [row]))
  {
    hide Belongs, RowReal, DecodedAt;
  }

  /** The row a child edge begins with names that edge one level down, and nothing that was not found yet. */
  lemma {:induction false} RowIsEdge(g: Graph, app: Pending, position: nat)
    requires g.Reached(app) && position < |app.manifest.children|
    ensures var row := Row(app, position, app.manifest.children[position]);
      && RowReal(g, row) && row.parent == app.application && Saturated(row.depth, app.depth + 1)
      && row.required.None? && row.applicationSource.None? && row.capabilitiesSource.None?
      && ChildAt(g, row.parent, row.position, ChildEdge(row.application, row.capabilities), position)
  {
    assert ChildAt(g, app.application, U32Of(position), app.manifest.children[position], position);
  }

  lemma {:induction false} RefuseRecorded(g: Graph, s: Plan, app: Pending, position: nat)
    requires Recorded(g, s) && g.Reached(app) && position < |app.manifest.children|
    ensures var edge := app.manifest.children[position];
      Recorded(g, RefuseChild(g.env, s, app, position, edge, Refuse(g.env, s, app, edge)))
  {
    hide Recorded, Graph.Reached, Refuse, Row;
    var edge := app.manifest.children[position];
    RowIsEdge(g, app, position);
    RowRecorded(g, s, Row(app, position, edge));
    RecordedSame(g, s.(children := s.children + [Row(app, position, edge)]),
                 RefuseChild(g.env, s, app, position, edge, Refuse(g.env, s, app, edge)));
  }

  /** A delegation that was decoded is the object stored at the edge's capabilities. */
  lemma {:induction false} DelegateRecorded(g: Graph, closure: State, app: Pending, position: nat, edge: ChildEdge)
    requires Consistent(g.env, closure)
    ensures var r := Delegate(g.env, closure, app, position, edge);
      r.Ok? ==>
        && Consistent(g.env, r.value.closure)
        && (r.value.source.Some? ==> FoundIn(g.env, edge.capabilities, r.value.source.value))
        && (r.value.delegated.Some? ==> r.value.source.Some? && DecodedAt(g.env, edge.capabilities, r.value.delegated.value))
  {
    hide Consistent, Resolution, DecodeCapabilities, DecodedAt;
    var at := DelegatedCapabilities(app.application, U32Of(position));
    DelegateKeeps(g.env, closure, app, position, edge);
    AnswerIsFound(g.env, closure, edge.capabilities, at);
    var answer := Resolution(g.env, closure, edge.capabilities, at);
    if answer.Ok? && answer.value.resolved.Some? {
      var resolved := answer.value.resolved.value;
      var delegated := DecodeCapabilities(g.env.up, resolved.kappa, resolved.bytes);
      if delegated.Some? {
        DecodesIff(g.env, edge.capabilities, delegated.value);
      }
    }
  }

  /** Queueing a child with an admission that belongs to it. */
  lemma {:induction false} EnqueueRecorded(g: Graph, s: Plan, app: Pending, position: nat, index: nat, kappa: Kappa, manifest: AppManifest,
      delegated: Option<CapabilityObject>)
    requires Recorded(g, s) && g.ManifestOf(kappa) == Some(manifest) && g.ManifestOf(app.application) == Some(app.manifest)
    requires position < |app.manifest.children| && app.manifest.children[position].application == kappa
    requires delegated.Some? ==> DecodedAt(g.env, app.manifest.children[position].capabilities, delegated.value)
    ensures Recorded(g, Enqueue(s, app, position, index, kappa, manifest, delegated))
  {
    hide DecodedAt, RowReal, Graph.ManifestOf;
    var t := Enqueue(s, app, position, index, kappa, manifest, delegated);
    if delegated.Some? {
      assert delegated.value.kappa == app.manifest.children[position].capabilities by {
        DecodedLabel(g.env, app.manifest.children[position].capabilities, delegated.value);
      }
      assert ChildAt(g, app.application, U32Of(position), ChildEdge(kappa, delegated.value.kappa), position);
      assert Belongs(g, t.admissions[|s.admissions|]);
    }
    hide Belongs;
    forall i | 0 <= i < |t.admissions|
      ensures Belongs(g, t.admissions[i])
    {
      assert i < |s.admissions| ==> t.admissions[i] == s.admissions[i];
    }
  }

  lemma {:induction false} DecodedLabel(env: Sources, k: Kappa, c: CapabilityObject)
    requires DecodedAt(env, k, c)
    ensures c.kappa == k
  {
  }

  lemma {:induction false} ChildManifest(g: Graph, k: Kappa, source: ResolutionSource)
    requires k != g.root && FoundIn(g.env, k, source)
    ensures g.ManifestOf(k) == DecodeChildManifest(g.env.up, Stored(g.env, k))
  {
    hide DecodeChildManifest;
  }

  lemma {:induction false} RecordChildRecorded(g: Graph, s: Plan, app: Pending, position: nat, d: Delegation, answer: Answer)
    requires Recorded(g, s) && g.Reached(app) && position < |app.manifest.children|
    requires app.manifest.children[position].application !in app.path
    requires var edge := app.manifest.children[position];
      && (d.source.Some? ==> FoundIn(g.env, edge.capabilities, d.source.value))
      && (d.delegated.Some? ==> DecodedAt(g.env, edge.capabilities, d.delegated.value))
      && (answer.resolved.Some? ==>
        && answer.resolved.value.kappa == edge.application && FoundIn(g.env, edge.application, answer.resolved.value.source)
        && answer.resolved.value.bytes == Stored(g.env, edge.application))
    ensures Recorded(g, RecordChild(g.env, s, app, position, app.manifest.children[position], d, answer))
  {
    hide Recorded, DecodedAt, FoundIn, HasChild, DecodeChildManifest, Graph.ManifestOf, Enqueue;
    var edge := app.manifest.children[position];
    var row := Row(app, position, edge).(capabilitiesSource := d.source, applicationSource := SourceIn(answer.resolved));
    RowIsEdge(g, app, position);
    assert RowReal(g, row);
    var s1 := s.(closure := answer.state, applicationCount := s.applicationCount + 1, maxDepth := Max(s.maxDepth, app.depth + 1));
    RecordedSame(g, s, s1);
    RowRecorded(g, s1, row);
    if answer.resolved.Some? {
      assert edge.application != g.root;
      ChildManifest(g, edge.application, answer.resolved.value.source);
      var manifest := DecodeChildManifest(g.env.up, answer.resolved.value.bytes);
      if manifest.Some? {
        var known := row.(required := Some(manifest.value.required), layerCount := Some(|manifest.value.layers|));
        assert RowReal(g, known);
        RowRecorded(g, s1, known);
        EnqueueRecorded(g, s1.(children := s.children + [known]), app, position, s.applicationCount,
                        answer.resolved.value.kappa, manifest.value, d.delegated);
      } else {
        RecordedSame(g, s1.(children := s.children + [row]),
                     RecordChild(g.env, s, app, position, edge, d, answer));
      }
    }
  }

  lemma {:induction false} AdmitRecorded(g: Graph, s: Plan, app: Pending, position: nat)
    requires Recorded(g, s) && Consistent(g.env, s.closure) && g.Reached(app) && position < |app.manifest.children|
    requires Refuse(g.env, s, app, app.manifest.children[position]).Follow?
    ensures var r := AdmitChild(g.env, s, app, position, app.manifest.children[position]); r.Ok? ==> Recorded(g, r.value)
  {
    hide Recorded, Consistent, Resolution, Delegate, RecordChild, DecodedAt, FoundIn, Graph.Reached;
    var edge := app.manifest.children[position];
    DelegateRecorded(g, s.closure, app, position, edge);
    var d := Delegate(g.env, s.closure, app, position, edge);
    if d.Ok? {
      var at := ChildApplication(app.application, U32Of(position));
      AnswerIsFound(g.env, d.value.closure, edge.application, at);
      var answer := Resolution(g.env, d.value.closure, edge.application, at);
      if answer.Ok? {
        RecordChildRecorded(g, s, app, position, d.value, answer.value);
      }
    }
  }

  lemma {:induction false} VisitChildrenRecorded(g: Graph, s: Plan, app: Pending, from: nat)
    requires Recorded(g, s) && g.Bounded(s) && Consistent(g.env, s.closure) && g.Reached(app)
    ensures var r := VisitChildren(g.env, s, app, from); r.Ok? ==> Recorded(g, r.value)
    decreases |app.manifest.children| - from
  {
    hide Recorded, Consistent, AdmitChild, RefuseChild, Refuse, Graph.Bounded, Graph.Reached;
    if from < |app.manifest.children| {
      var edge := app.manifest.children[from];
      if Refuse(g.env, s, app, edge).Follow? {
        AdmitRecorded(g, s, app, from);
      } else {
        RefuseRecorded(g, s, app, from);
      }
      VisitChildKeeps(g, s, app, from);
      var s1 := VisitChild(g.env, s, app, from);
      if s1.Ok? {
        VisitChildrenRecorded(g, s1.value, app, from + 1);
      }
    }
  }

  lemma {:induction false} VisitRecorded(g: Graph, s: Plan, app: Pending)
    requires Recorded(g, s) && g.Bounded(s) && Consistent(g.env, s.closure) && g.Reached(app) && Owns(s.admissions, app)
    ensures var r := Visit(g.env, s, app); r.Ok? ==> Recorded(g, r.value.plan)
  {
    hide Recorded, Consistent, Owns, VisitContents, VisitChildren, Open, Graph.Reached;
    var begun := Open(s, app);
    OpenRecorded(g, s, app);
    if begun.totalLayers > g.env.limits.maxLayers {
      RecordedSame(g, begun, Visit(g.env, s, app).value.plan);
    } else {
      OpenBounded(g, s, app);
      ContentsRecorded(g, begun, app);
      VisitContentsKeeps(g, begun, app);
      var s1 := VisitContents(g.env, begun, app);
      if s1.Ok? {
        VisitChildrenRecorded(g, s1.value, app, 0);
      }
    }
  }

  lemma {:induction false} OpenBounded(g: Graph, s: Plan, app: Pending)
    requires g.Bounded(s)
    ensures g.Bounded(Open(s, app))
  {
    hide Graph.Reached;
  }

  /** Every state the worklist ends in, blocked or not, says only what the manifests and the stored content say. */
  lemma {:induction false} RunRecorded(g: Graph, s: Plan)
    requires Recorded(g, s) && g.Bounded(s) && Consistent(g.env, s.closure)
    ensures var r := Run(g.env, s); r.Ok? ==> Recorded(g, r.value)
    decreases Room(g.env, s)
  {
    hide Recorded, Consistent, Visit, Graph.Reached;
    if s.pending != [] {
      var rest := s.(pending := s.pending[1..]);
      RestRecorded(g, s);
      VisitRoom(g.env, rest, s.pending[0]);
      VisitKeeps(g, rest, s.pending[0]);
      VisitRecorded(g, rest, s.pending[0]);
      var turn := Visit(g.env, rest, s.pending[0]);
      if turn.Ok? && !turn.value.stop {
        RunRecorded(g, turn.value.plan);
      }
    }
  }

  lemma {:induction false} RestRecorded(g: Graph, s: Plan)
    requires Recorded(g, s) && s.pending != []
    ensures Recorded(g, s.(pending := s.pending[1..])) && Owns(s.admissions, s.pending[0])
  {
    hide Belongs, RowReal, DecodedAt;
  }

  lemma {:induction false} StartRecorded(g: Graph)
    ensures Recorded(g, Start(g.env, g.root, g.manifest))
  {
  }

  // ---------- One row per child edge ----------

  /** A row for position `p` of an application. */
  ghost predicate RowFor(app: Pending, p: nat, row: ChildReference) {
    && p < |app.manifest.children|
    && row.parent == app.application && Saturated(row.position, p) && Saturated(row.depth, app.depth + 1)
    && row.application == app.manifest.children[p].application && row.capabilities == app.manifest.children[p].capabilities
  }

  lemma {:induction false} VisitChildRow(env: Sources, s: Plan, app: Pending, position: nat)
    requires position < |app.manifest.children|
    ensures var r := VisitChild(env, s, app, position);
      r.Ok? ==> |r.value.children| == |s.children| + 1 && s.children <= r.value.children && RowFor(app, position, r.value.children[|s.children|])
  {
    hide Resolution, DecodeCapabilities, DecodeChildManifest, Delegate;
  }

  /** The child loop appends exactly one row for each child edge, in manifest order, whether it is followed or refused. */
  lemma {:induction false} VisitChildrenRows(env: Sources, s: Plan, app: Pending, from: nat)
    requires from <= |app.manifest.children|
    ensures var r := VisitChildren(env, s, app, from);
      r.Ok? ==>
        && |r.value.children| == |s.children| + |app.manifest.children| - from && s.children <= r.value.children
        && forall i :: |s.children| <= i < |r.value.children| ==> RowFor(app, from + i - |s.children|, r.value.children[i])
    decreases |app.manifest.children| - from
  {
    hide VisitChild, RowFor;
    if from < |app.manifest.children| {
      VisitChildRow(env, s, app, from);
      var s1 := VisitChild(env, s, app, from);
      if s1.Ok? {
        VisitChildrenRows(env, s1.value, app, from + 1);
        var r := VisitChildren(env, s1.value, app, from + 1);
        if r.Ok? {
          forall i | |s.children| <= i < |r.value.children|
            ensures RowFor(app, from + i - |s.children|, r.value.children[i])
          {
            if i == |s.children| {
              assert r.value.children[i] == s1.value.children[i];
            }
          }
        }
      }
    }
  }

  // ---------- One label, one child ----------

  /** One more blocker and nothing else. */
  ghost predicate OnlyBlocks(s: State, t: State, blocker: PlanBlocker, halted: bool) {
    t == s.(blockers := s.blockers + [blocker], halted := halted)
  }

  /** The tables after a label was asked for the first time: it is referenced, counted when the archive embeds it, and
      asked of the local store when it does not. */
  ghost predicate Asked(env: Sources, s: State, t: State, k: Kappa) {
    && t.referenced == s.referenced + {k}
    && t.embeddedCount == s.embeddedCount + (if k in env.embedded then 1 else 0)
    && t.queries == (if k in env.embedded then s.queries else s.queries + multiset{k})
  }

  /** The blocker of a label that is missing or mismatched. */
  ghost function DefectAt(env: Sources, k: Kappa, edge: ManifestEdge): PlanBlocker {
    if !Stores(env, k) then MissingObject(k, edge) else ContentMismatch(k, edge, SourceOf(env, k))
  }

  /** A label that was asked for before, or may not be: an answer given before is given again; a label that failed before
      blocks again, for the edge it is asked through now. */
  ghost predicate Recalls(env: Sources, s: State, k: Kappa, edge: ManifestEdge, a: Answer) {
    if k in s.objects then a == Answer(s, Some(s.objects[k]))
    else
      && a.resolved.None?
      && if k in s.failures then OnlyBlocks(s, a.state, DefectAt(env, k, edge), s.halted)
         else if s.halted then a.state == s
         else OnlyBlocks(s, a.state, LimitExceeded(ObjectLimit, env.limits.maxObjects, U64Of(|s.referenced| + 1), Some(edge)), true)
  }

  /** A label asked for the first time, and what is stored under it. */
  ghost predicate Finds(env: Sources, s: State, k: Kappa, edge: ManifestEdge, a: Answer) {
    && Asked(env, s, a.state, k)
    && if !Stores(env, k) || env.up.address(Stored(env, k)) != k then
         && a.resolved.None? && a.state.failures.Keys == s.failures.Keys + {k} && a.state.objects == s.objects
         && a.state.blockers == s.blockers + [DefectAt(env, k, edge)] && a.state.halted == s.halted && a.state.resolvedBytes == s.resolvedBytes
       else
         a.state.failures == s.failures && KeptOrOver(env, s, k, edge, a, U64Of(s.resolvedBytes + |Stored(env, k)|))
  }

  /** Content that was found is kept if it fits the byte limit, and otherwise ends the planning. */
  ghost predicate KeptOrOver(env: Sources, s: State, k: Kappa, edge: ManifestEdge, a: Answer, total: U64)
    requires Stores(env, k)
  {
    if total > env.limits.maxResolvedBytes then
      && a.resolved.None? && a.state.objects == s.objects && a.state.resolvedBytes == s.resolvedBytes && a.state.halted
      && a.state.blockers == s.blockers + [LimitExceeded(ByteLimit, env.limits.maxResolvedBytes, total, Some(edge))]
    else
      && a.resolved == Some(ResolvedObject(k, Stored(env, k), SourceOf(env, k)))
      && a.state.objects == s.objects[k := ResolvedObject(k, Stored(env, k), SourceOf(env, k))]
      && a.state.blockers == s.blockers && a.state.halted == s.halted && a.state.resolvedBytes == total
  }

  /** What one call of the resolver does. */
  lemma {:induction false} ResolutionOutcome(env: Sources, s: State, k: Kappa, edge: ManifestEdge)
    requires Invariant(env, s) && AllReal(env, s)
    ensures var r := Resolution(env, s, k, edge);
      if k in s.objects || k in s.failures || s.halted || (k !in s.referenced && |s.referenced| >= env.limits.maxObjects) then
        r.Ok? && Recalls(env, s, k, edge, r.value)
      else if Lookup(env, k).Err? then r == Err(Lookup(env, k).error)
      else r.Ok? && Finds(env, s, k, edge, r.value)
  {
    hide Recalls, Finds, AllReal, Recall, Accept, Ask, ObjectMatches;
    if Settled(env, s, k) {
      RecallOutcome(env, s, k, edge);
    } else if Lookup(env, k).Ok? {
      AcceptOutcome(env, s, k, edge);
    }
  }

  lemma {:induction false} RecallOutcome(env: Sources, s: State, k: Kappa, edge: ManifestEdge)
    requires AllReal(env, s) && Settled(env, s, k)
    ensures Recalls(env, s, k, edge, Recall(env, s, k, edge))
  {
    if k !in s.objects && k in s.failures {
      FailureIs(env, s, k, edge);
      hide AllReal, DefectAt;
    }
  }

  lemma {:induction false} AskOutcome(env: Sources, s: State, k: Kappa)
    requires k !in s.referenced
    ensures var t := Ask(env, s, k);
      && Asked(env, s, t, k)
      && t.failures == s.failures && t.objects == s.objects && t.blockers == s.blockers
      && t.resolvedBytes == s.resolvedBytes && t.halted == s.halted
  {
  }

  lemma {:induction false} FailOutcome(env: Sources, c: State, k: Kappa, edge: ManifestEdge)
    requires Lookup(env, k).Ok? && (!Stores(env, k) || env.up.address(Stored(env, k)) != k)
    ensures var a := Accept(env, c, k, edge, Lookup(env, k).value);
      && a.resolved.None?
      && a.state == c.(failures := a.state.failures, blockers := c.blockers + [DefectAt(env, k, edge)])
      && a.state.failures.Keys == c.failures.Keys + {k}
  {
    hide U64Of, SaturatingAdd;
  }

  lemma {:induction false} KeepOutcome(env: Sources, c: State, k: Kappa, edge: ManifestEdge)
    requires Stores(env, k) && env.up.address(Stored(env, k)) == k
    ensures var a := Accept(env, c, k, edge, Some(Stored(env, k)));
      && KeptOrOver(env, c, k, edge, a, U64Of(c.resolvedBytes + |Stored(env, k)|))
      && a.state.referenced == c.referenced && a.state.embeddedCount == c.embeddedCount && a.state.queries == c.queries
      && a.state.failures == c.failures
  {
    SaturatesOnce(c.resolvedBytes, |Stored(env, k)|);
    hide U64Of, SaturatingAdd, Lookup;
  }

  lemma {:induction false} AcceptOutcome(env: Sources, s: State, k: Kappa, edge: ManifestEdge)
    requires Lookup(env, k).Ok? && k !in s.referenced
    ensures Finds(env, s, k, edge, Accept(env, Ask(env, s, k), k, edge, Lookup(env, k).value))
  {
    hide Ask, Accept, Lookup, U64Of, DefectAt;
    AskOutcome(env, s, k);
    if Stores(env, k) && env.up.address(Stored(env, k)) == k {
      KeepOutcome(env, Ask(env, s, k), k, edge);
    } else {
      FailOutcome(env, Ask(env, s, k), k, edge);
    }
  }

  lemma {:induction false} SaturatesOnce(a: U64, b: nat)
    ensures SaturatingAdd(a, U64Of(b)) == U64Of(a + b)
  {
  }

  /** A failure that was recorded is still the one its label has. */
  lemma {:induction false} FailureIs(env: Sources, s: State, k: Kappa, edge: ManifestEdge)
    requires AllReal(env, s) && k in s.failures
    ensures FailureBlocker(s.failures[k], k, edge) == DefectAt(env, k, edge)
  {
    assert Defect(env, FailureBlocker(s.failures[k], k, edge));
  }

  /** What a refused child edge does, by the reason: its row, at most one blocker, and nothing else. The application limit
      is reported once. */
  lemma {:induction false} RefusedChild(env: Sources, s: Plan, app: Pending, position: nat)
    requires position < |app.manifest.children|
    ensures var edge := app.manifest.children[position];
      var at := Some(ChildApplication(app.application, U32Of(position)));
      var r := VisitChild(env, s, app, position);
      if edge.application in app.path then
        r.Ok? && JustBlocks(s, r.value, Some(ChildCycle(app.path + [edge.application])), s.applicationsLimited)
      else if app.depth + 1 > env.limits.maxDepth then
        r.Ok? && JustBlocks(s, r.value, Some(LimitExceeded(DepthLimit, env.limits.maxDepth, U64Of(app.depth + 1), at)), s.applicationsLimited)
      else if s.applicationsLimited then r.Ok? && JustBlocks(s, r.value, None, true)
      else if s.applicationCount >= env.limits.maxApplications then
        r.Ok? && JustBlocks(s, r.value, Some(LimitExceeded(ApplicationLimit, env.limits.maxApplications, U64Of(s.applicationCount + 1), at)), true)
      else r.Ok? ==> r.value.applicationCount == s.applicationCount + 1
  {
    hide Resolution, DecodeCapabilities, DecodeChildManifest, Delegate, Row;
  }

  ghost predicate JustBlocks(s: Plan, t: Plan, blocker: Option<PlanBlocker>, limited: bool) {
    && |t.children| == |s.children| + 1
    && t == s.(children := t.children, applicationsLimited := limited,
               closure := if blocker.None? then s.closure else s.closure.(blockers := s.closure.blockers + [blocker.value]))
  }

  /** What following a child edge does: the child is counted; it is queued, with its path, exactly when its manifest was
      found, and has an admission exactly when its delegation was found too. */
  lemma {:induction false} FollowedChild(g: Graph, s: Plan, app: Pending, position: nat)
    requires Consistent(g.env, s.closure) && g.Reached(app) && position < |app.manifest.children|
    requires Refuse(g.env, s, app, app.manifest.children[position]).Follow?
    ensures var edge := app.manifest.children[position];
      var r := VisitChild(g.env, s, app, position);
      r.Ok? ==>
        var t := r.value;
        && |t.children| == |s.children| + 1 && s.children <= t.children
        && var row := t.children[|s.children|];
        && t.applicationCount == s.applicationCount + 1 && t.maxDepth == Max(s.maxDepth, app.depth + 1)
        && t.requested == s.requested && t.totalLayers == s.totalLayers && t.applicationsLimited == s.applicationsLimited
        && s.admissions <= t.admissions && |t.admissions| <= |s.admissions| + 1
        && if row.required.None? then t.pending == s.pending && t.admissions == s.admissions
           else
             && |t.pending| == |s.pending| + 1 && s.pending <= t.pending
             && var p := t.pending[|s.pending|];
             && p.index == s.applicationCount && p.application == edge.application && p.depth == app.depth + 1
             && g.ManifestOf(edge.application) == Some(p.manifest) && p.path == app.path + [edge.application]
             && p.admission == (if t.admissions == s.admissions then None else Some(|s.admissions|))
             && (t.admissions != s.admissions ==>
               var a := t.admissions[|s.admissions|];
               && a.parentIndex == app.index && a.parent == app.application && Saturated(a.position, position)
               && a.index == s.applicationCount && a.application == edge.application
               && DecodedAt(g.env, edge.capabilities, a.delegated)
               && a.requested.None? && a.primary.None? && a.layers == [])
  {
    hide Consistent, Resolution, Delegate, DecodedAt, FoundIn, DecodeChildManifest, Graph.ManifestOf;
    var edge := app.manifest.children[position];
    DelegateRecorded(g, s.closure, app, position, edge);
    var d := Delegate(g.env, s.closure, app, position, edge);
    if d.Ok? {
      var at := ChildApplication(app.application, U32Of(position));
      AnswerIsFound(g.env, d.value.closure, edge.application, at);
      var answer := Resolution(g.env, d.value.closure, edge.application, at);
      if answer.Ok? && answer.value.resolved.Some? {
        assert edge.application != g.root;
        ChildManifest(g, edge.application, answer.value.resolved.value.source);
      }
    }
  }
}
