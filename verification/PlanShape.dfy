/** Why the tables of a blocker-free plan stay the unfolding of the root manifest, turn by turn. */
module PlanShape {
  import opened Basics
  import opened Upstream
  import opened Resolver
  import opened Planner
  import opened PlanPaths
  import opened Unfolding

  /** No blocker at the end means no blocker before. */
  lemma {:induction false} CleanBefore(before: State, after: State)
    requires Grows(before, after) && after.blockers == []
    ensures before.blockers == []
  {
  }

  lemma {:induction false} ResolutionClean(env: Sources, closure: State, kappa: Kappa, edge: ManifestEdge)
    requires Consistent(env, closure)
    ensures var r := Resolution(env, closure, kappa, edge);
      r.Ok? ==>
        && Consistent(env, r.value.state) && Grows(closure, r.value.state)
        && (r.value.state.blockers == [] ==>
          r.value.resolved.Some? && r.value.resolved.value.kappa == kappa && kappa in r.value.state.objects)
  {
    hide Resolution, Accounting, ByteAccounting, AllReal, Lookup;
    ResolutionAdvances(env, closure, kappa, edge);
    ResolveKeeps(env, closure, kappa, edge);
  }

  lemma {:induction false} ResolveLayersClean(env: Sources, closure: State, app: Pending, from: nat)
    requires Consistent(env, closure)
    ensures var r := ResolveLayers(env, closure, app, from);
      r.Ok? ==>
        && Consistent(env, r.value) && Grows(closure, r.value)
        && (r.value.blockers == [] ==>
          forall i :: from <= i < |app.manifest.layers| ==> app.manifest.layers[i].content in r.value.objects)
    decreases |app.manifest.layers| - from
  {
    hide Consistent, Resolution;
    ResolveLayersAdvances(env, closure, app, from);
    if from < |app.manifest.layers| {
      var kappa, edge := app.manifest.layers[from].content, LayerEdgeOf(app, from);
      ResolutionClean(env, closure, kappa, edge);
      var answer := Resolution(env, closure, kappa, edge);
      if answer.Ok? {
        ResolveLayersClean(env, answer.value.state, app, from + 1);
      }
    }
  }

  /** What visiting an application's own contents did, when nothing was blocked: its admission (or the
      plan's own request, for the root) is filled in, and nothing else moved. */
  ghost predicate Refilled(s: Plan, t: Plan, app: Pending) {
    && t.pending == s.pending && t.applicationCount == s.applicationCount
    && |t.admissions| == |s.admissions|
    && (app.depth == 0 ==> t.requested.Some? && t.admissions == s.admissions)
    && (app.depth > 0 ==>
      && t.requested == s.requested
      && (forall i :: 0 <= i < |s.admissions| && app.admission != Some(i) ==> t.admissions[i] == s.admissions[i])
      && app.admission.Some? && app.admission.value < |s.admissions|
      && var a, b := s.admissions[app.admission.value], t.admissions[app.admission.value];
      && b.requested.Some? && b.primary == app.manifest.primary && b.layers == PlannedLayers(app.manifest)
      && b == a.(requested := b.requested, primary := b.primary, layers := b.layers))
  }

  ghost predicate Placed(s: Plan, app: Pending) {
    if app.depth == 0 then app.admission.None?
    else app.admission.Some? && app.admission.value < |s.admissions|
  }

  lemma {:induction false} RequireClean(env: Sources, s: Plan, app: Pending)
    requires Consistent(env, s.closure) && Placed(s, app)
    ensures var r := Require(env, Open(s, app), app);
      r.Ok? ==>
        && Consistent(env, r.value.closure) && Grows(s.closure, r.value.closure)
        && (r.value.closure.blockers == [] ==> Refilled(s, r.value, app))
  {
    hide Consistent, Resolution, DecodeCapabilities, PlannedLayers;
    var begun := Open(s, app);
    RequireAdvances(env, begun, app);
    ResolutionClean(env, s.closure, app.manifest.required, RequiresEdge(app));
  }

  lemma {:induction false} ContentsClean(env: Sources, s: Plan, app: Pending)
    requires Consistent(env, s.closure) && Placed(s, app)
    ensures var r := VisitContents(env, Open(s, app), app);
      r.Ok? ==>
        && Consistent(env, r.value.closure) && Grows(s.closure, r.value.closure)
        && (r.value.closure.blockers == [] ==> Refilled(s, r.value, app) && ContentsResolved(r.value.closure, app.manifest))
  {
    hide Consistent, Require, ResolveLayers, Open, Placed;
    RequireClean(env, s, app);
    var s1 := Require(env, Open(s, app), app);
    if s1.Ok? {
      ResolveLayersClean(env, s1.value.closure, app, 0);
      var c := ResolveLayers(env, s1.value.closure, app, 0);
      if c.Ok? {
        GrowsTransitive(s.closure, s1.value.closure, c.value);
      }
    }
  }

  /** What following one child edge did, when nothing was blocked: one admission and one queued application. */
  ghost predicate Appended(s: Plan, t: Plan, app: Pending, position: nat, edge: ChildEdge) {
    var n, m := |s.admissions|, |s.pending|;
    && t.applicationCount == s.applicationCount + 1 && t.requested == s.requested
    && |t.admissions| == n + 1 && t.admissions[..n] == s.admissions
    && NodeOf(t.admissions[n]) == Node(edge.application, app.index, U32Of(position), edge.capabilities)
    && t.admissions[n].index == s.applicationCount
    && |t.pending| == m + 1 && t.pending[..m] == s.pending
    && t.pending[m].index == s.applicationCount && t.pending[m].admission == Some(n)
    && t.pending[m].application == edge.application && t.pending[m].depth == app.depth + 1
  }

  lemma {:induction false} DelegateClean(env: Sources, closure: State, app: Pending, position: nat, edge: ChildEdge)
    requires Consistent(env, closure)
    ensures var r := Delegate(env, closure, app, position, edge);
      r.Ok? ==>
        && Consistent(env, r.value.closure) && Grows(closure, r.value.closure)
        && (r.value.closure.blockers == [] ==> r.value.delegated.Some? && r.value.delegated.value.kappa == edge.capabilities)
  {
    hide Consistent, Resolution, Grows;
    DelegateKeeps(env, closure, app, position, edge);
    ResolutionClean(env, closure, edge.capabilities, DelegatedCapabilities(app.application, U32Of(position)));
  }

  lemma {:induction false} AdmitChildClean(env: Sources, s: Plan, app: Pending, position: nat, edge: ChildEdge)
    requires Consistent(env, s.closure)
    ensures var r := AdmitChild(env, s, app, position, edge);
      r.Ok? && r.value.closure.blockers == [] ==> Appended(s, r.value, app, position, edge)
  {
    hide Consistent, Resolution, Delegate, Row, DecodeChildManifest;
    DelegateClean(env, s.closure, app, position, edge);
    var d := Delegate(env, s.closure, app, position, edge);
    if d.Ok? {
      ResolutionClean(env, d.value.closure, edge.application, ChildApplication(app.application, U32Of(position)));
    }
  }

  /** A refused edge always leaves a blocker, or one was there already. */
  lemma {:induction false} VisitChildClean(g: Graph, s: Plan, app: Pending, position: nat)
    requires Consistent(g.env, s.closure) && position < |app.manifest.children|
    requires s.applicationsLimited ==> s.closure.blockers != []
    ensures var r := VisitChild(g.env, s, app, position);
      r.Ok? ==>
        && Grows(s.closure, r.value.closure) && Consistent(g.env, r.value.closure)
        && (r.value.applicationsLimited ==> r.value.closure.blockers != [])
        && (r.value.closure.blockers == [] ==> Appended(s, r.value, app, position, app.manifest.children[position]))
  {
    hide Consistent, AdmitChild, Appended;
    var edge := app.manifest.children[position];
    AdmitChildAdvances(g.env, s, app, position, edge);
    AdmitChildLimited(g.env, s, app, position, edge);
    AdmitChildClean(g.env, s, app, position, edge);
    RefuseChildAdvances(g.env, s, app, position, edge, Refuse(g.env, s, app, edge));
  }

  lemma {:induction false} AdmitChildLimited(env: Sources, s: Plan, app: Pending, position: nat, edge: ChildEdge)
    ensures var r := AdmitChild(env, s, app, position, edge); r.Ok? ==> r.value.applicationsLimited == s.applicationsLimited
  {
    hide Resolution, Delegate, Row, DecodeChildManifest;
  }

  lemma {:induction false} FilledKept(g: Graph, s: Plan, t: Plan, index: nat)
    requires index <= |s.admissions| <= |t.admissions| && Filled(g, s, index) && Grows(s.closure, t.closure)
    requires index > 0 ==> t.admissions[index - 1] == s.admissions[index - 1]
    requires index == 0 ==> t.requested == s.requested
    ensures Filled(g, t, index)
  {
    hide Graph.ManifestOf, PlannedLayers;
  }

  lemma {:induction false} AppendedNodes(g: Graph, s: Plan, t: Plan, app: Pending, position: nat, complete: nat)
    requires position < |app.manifest.children| && complete <= |s.admissions| + 1
    requires Appended(s, t, app, position, app.manifest.children[position])
    requires Nodes(s.admissions)
      == EdgesOfAll(g, Applications(g.root, Nodes(s.admissions)), complete) + Edges(app.index, app.manifest.children, position)
    ensures Nodes(t.admissions)
      == EdgesOfAll(g, Applications(g.root, Nodes(t.admissions)), complete) + Edges(app.index, app.manifest.children, position + 1)
  {
    hide EdgesOfAll;
    var before, after := Nodes(s.admissions), Nodes(t.admissions);
    var children := app.manifest.children;
    assert forall i :: 0 <= i < |s.admissions| ==> t.admissions[i] == t.admissions[..|s.admissions|][i];
    assert after == before + [NodeOf(t.admissions[|s.admissions|])];
    assert Applications(g.root, after)[..|before| + 1] == Applications(g.root, before);
    EdgesOfAllPrefix(g, Applications(g.root, before), Applications(g.root, after), complete);
    assert Edges(app.index, children, position + 1) == Edges(app.index, children, position) + [NodeOf(t.admissions[|s.admissions|])];
  }

  /** The application's own index carries its label. */
  ghost predicate Named(g: Graph, s: Plan, app: Pending) {
    && app.index <= |s.admissions|
    && app.application == if app.index == 0 then g.root else s.admissions[app.index - 1].application
  }

  lemma {:induction false} AppendTidy(g: Graph, s: Plan, t: Plan, app: Pending, position: nat)
    requires position < |app.manifest.children|
    requires Tidy(g, s, app.index + 1, app.index, Edges(app.index, app.manifest.children, position))
    requires Appended(s, t, app, position, app.manifest.children[position]) && Grows(s.closure, t.closure)
    requires Named(g, s, app)
    ensures Tidy(g, t, app.index + 1, app.index, Edges(app.index, app.manifest.children, position + 1))
    ensures Named(g, t, app)
  {
    hide EdgesOfAll, Filled, Grows, Edges, Nodes;
    AppendedNodes(g, s, t, app, position, app.index);
    var n, m := |s.admissions|, |s.pending|;
    assert forall i :: 0 <= i < n ==> t.admissions[i] == t.admissions[..n][i];
    assert forall j :: 0 <= j < m ==> t.pending[j] == t.pending[..m][j];
    forall i | 0 <= i < app.index + 1
      ensures Filled(g, t, i)
    {
      FilledKept(g, s, t, i);
    }
  }

  lemma {:induction false} VisitChildrenTidy(g: Graph, s: Plan, app: Pending, from: nat)
    requires Consistent(g.env, s.closure) && from <= |app.manifest.children|
    requires s.applicationsLimited ==> s.closure.blockers != []
    requires s.closure.blockers == [] ==> Named(g, s, app)
    requires s.closure.blockers == [] ==> Tidy(g, s, app.index + 1, app.index, Edges(app.index, app.manifest.children, from))
    ensures var r := VisitChildren(g.env, s, app, from);
      r.Ok? ==>
        && (r.value.applicationsLimited ==> r.value.closure.blockers != [])
        && (r.value.closure.blockers == [] ==>
          && Named(g, r.value, app)
          && Tidy(g, r.value, app.index + 1, app.index, Edges(app.index, app.manifest.children, |app.manifest.children|)))
    decreases |app.manifest.children| - from
  {
    hide Consistent, Tidy, Named, VisitChild, Appended, Edges, Grows;
    if from < |app.manifest.children| {
      VisitChildClean(g, s, app, from);
      var s1 := VisitChild(g.env, s, app, from);
      if s1.Ok? {
        if s1.value.closure.blockers == [] {
          CleanBefore(s.closure, s1.value.closure);
          AppendTidy(g, s, s1.value, app, from);
        }
        VisitChildrenTidy(g, s1.value, app, from + 1);
      }
    }
  }

  lemma {:induction false} RefilledNodes(s: Plan, t: Plan, app: Pending)
    requires Refilled(s, t, app)
    ensures Nodes(t.admissions) == Nodes(s.admissions)
    ensures forall i :: 0 <= i < |s.admissions| ==>
      && t.admissions[i].index == s.admissions[i].index
      && t.admissions[i].parentIndex == s.admissions[i].parentIndex
      && t.admissions[i].application == s.admissions[i].application
  {
    hide PlannedLayers;
    forall i | 0 <= i < |s.admissions|
      ensures NodeOf(t.admissions[i]) == NodeOf(s.admissions[i])
    {
      if app.depth > 0 && app.admission == Some(i) {
      }
    }
  }

  /** Taking an application off the queue and resolving its contents leaves the admissions in place. */
  lemma {:induction false} RefillTidy(g: Graph, s: Plan, t: Plan, app: Pending)
    requires s.pending != [] && app == s.pending[0] && g.Reached(app)
    requires Tidy(g, s, app.index, app.index, [])
    requires Refilled(s.(pending := s.pending[1..]), t, app)
    requires Grows(s.closure, t.closure) && ContentsResolved(t.closure, app.manifest)
    ensures Tidy(g, t, app.index + 1, app.index, Edges(app.index, app.manifest.children, 0))
    ensures Named(g, t, app)
  {
    hide EdgesOfAll, Grows, PlannedLayers, ContentsResolved, Filled;
    var rest := s.(pending := s.pending[1..]);
    RefilledNodes(rest, t, app);
    assert Slot(g, s.admissions, app, app.index);
    assert EdgesOfAll(g, Applications(g.root, Nodes(s.admissions)), app.index) + [] == EdgesOfAll(g, Applications(g.root, Nodes(s.admissions)), app.index);
    forall i | 0 <= i < app.index
      ensures Filled(g, t, i)
    {
      FilledKept(g, s, t, i);
    }
    RefilledFills(g, s, t, app);
    forall j | 0 <= j < |t.pending|
      ensures Slot(g, t.admissions, t.pending[j], app.index + 1 + j)
    {
      assert Slot(g, s.admissions, s.pending[j + 1], app.index + (j + 1));
    }
  }

  lemma {:induction false} RefilledFills(g: Graph, s: Plan, t: Plan, app: Pending)
    requires g.Reached(app) && Slot(g, s.admissions, app, app.index)
    requires Refilled(s.(pending := t.pending), t, app) && ContentsResolved(t.closure, app.manifest)
    ensures app.index <= |t.admissions| && Filled(g, t, app.index)
  {
    hide PlannedLayers;
  }

  lemma {:induction false} TidyCompletes(g: Graph, s: Plan, app: Pending)
    requires g.Reached(app) && Named(g, s, app)
    requires Tidy(g, s, app.index + 1, app.index, Edges(app.index, app.manifest.children, |app.manifest.children|))
    ensures Tidy(g, s, app.index + 1, app.index + 1, [])
  {
    hide Filled, Slot;
    var apps := Applications(g.root, Nodes(s.admissions));
    assert EdgesBelow(g, app.index, apps[app.index]) == Edges(app.index, app.manifest.children, |app.manifest.children|);
    assert EdgesOfAll(g, apps, app.index + 1) + [] == EdgesOfAll(g, apps, app.index + 1);
  }

  /** Between two turns: an unblocked plan is tidy, and refusing applications has left a blocker. */
  ghost predicate Ready(g: Graph, s: Plan) {
    && (s.applicationsLimited ==> s.closure.blockers != [])
    && (s.closure.blockers == [] ==>
      && s.applicationCount >= |s.pending|
      && Tidy(g, s, s.applicationCount - |s.pending|, s.applicationCount - |s.pending|, []))
  }

  lemma {:induction false} ContentsTidy(g: Graph, s: Plan)
    requires s.pending != [] && Ready(g, s) && g.Reached(s.pending[0]) && Consistent(g.env, s.closure)
    ensures var app := s.pending[0];
      var r := VisitContents(g.env, Open(s.(pending := s.pending[1..]), app), app);
      r.Ok? ==>
        && Consistent(g.env, r.value.closure)
        && (r.value.applicationsLimited ==> r.value.closure.blockers != [])
        && (r.value.closure.blockers == [] ==>
          Named(g, r.value, app) && Tidy(g, r.value, app.index + 1, app.index, Edges(app.index, app.manifest.children, 0)))
  {
    hide Consistent, Tidy, Named, Refilled, Edges, PlannedLayers, Graph.Reached;
    var app := s.pending[0];
    var rest := s.(pending := s.pending[1..]);
    VisitContentsAdvances(g.env, Open(rest, app), app);
    VisitContentsLimited(g.env, Open(rest, app), app);
    var r := VisitContents(g.env, Open(rest, app), app);
    if r.Ok? {
      if r.value.closure.blockers == [] {
        CleanBefore(s.closure, r.value.closure);
        TidySlot(g, s);
        ContentsClean(g.env, rest, app);
        RefillTidy(g, s, r.value, app);
      }
    }
  }

  lemma {:induction false} TidySlot(g: Graph, s: Plan)
    requires s.pending != [] && s.closure.blockers == [] && Ready(g, s)
    ensures Placed(s, s.pending[0]) && Tidy(g, s, s.pending[0].index, s.pending[0].index, [])
  {
    hide EdgesOfAll, Filled, Nodes;
    assert Slot(g, s.admissions, s.pending[0], s.applicationCount - |s.pending| + 0);
  }

  lemma {:induction false} VisitContentsLimited(env: Sources, s: Plan, app: Pending)
    ensures var r := VisitContents(env, s, app); r.Ok? ==> r.value.applicationsLimited == s.applicationsLimited
  {
    hide Resolution, DecodeCapabilities, ResolveLayers;
  }

  /** A turn that stops leaves a blocker; a turn that goes on leaves the plan ready for the next one. */
  lemma {:induction false} VisitReady(g: Graph, s: Plan)
    requires s.pending != [] && Ready(g, s) && g.Reached(s.pending[0]) && Consistent(g.env, s.closure)
    ensures var r := Visit(g.env, s.(pending := s.pending[1..]), s.pending[0]);
      r.Ok? ==> if r.value.stop then r.value.plan.closure.blockers != [] else Ready(g, r.value.plan)
  {
    hide Tidy, Named, VisitContents, VisitChildren, Edges, Open, Graph.Reached, Accounting, ByteAccounting, AllReal;
    var app := s.pending[0];
    var rest := s.(pending := s.pending[1..]);
    ContentsTidy(g, s);
    var s1 := VisitContents(g.env, Open(rest, app), app);
    if s1.Ok? {
      VisitChildrenAdvances(g.env, s1.value, app, 0);
      VisitChildrenTidy(g, s1.value, app, 0);
      var s2 := VisitChildren(g.env, s1.value, app, 0);
      if s2.Ok? && s2.value.closure.blockers == [] {
        TidyCompletes(g, s2.value, app);
        TidyCounts(g, s2.value, app.index + 1);
      }
    }
  }

  lemma {:induction false} TidyCounts(g: Graph, s: Plan, visited: nat)
    requires Tidy(g, s, visited, visited, [])
    ensures s.applicationCount >= |s.pending| && visited == s.applicationCount - |s.pending|
  {
  }

  lemma {:induction false} StartReady(g: Graph)
    ensures Ready(g, Start(g.env, g.root, g.manifest))
  {
    var s := Start(g.env, g.root, g.manifest);
    assert Nodes(s.admissions) == EdgesOfAll(g, Applications(g.root, Nodes(s.admissions)), 0) + [];
  }

  /** The worklist ends either with a blocker or with every application visited. */
  lemma {:induction false} RunReady(g: Graph, s: Plan)
    requires Ready(g, s) && g.Bounded(s) && Consistent(g.env, s.closure)
    ensures var r := Run(g.env, s);
      r.Ok? && r.value.closure.blockers == [] ==> r.value.pending == [] && Ready(g, r.value)
    decreases Room(g.env, s)
  {
    hide Consistent, Visit, Graph.Reached, Ready;
    if s.pending != [] {
      var rest := s.(pending := s.pending[1..]);
      VisitRoom(g.env, rest, s.pending[0]);
      VisitKeeps(g, rest, s.pending[0]);
      VisitReady(g, s);
      var turn := Visit(g.env, rest, s.pending[0]);
      if turn.Ok? && !turn.value.stop {
        RunReady(g, turn.value.plan);
      }
    }
  }

  /** For every manifest graph and limits, a plan that ends without blockers lists exactly the unfolding of
      the root manifest, in index order, with every application's request decoded, its layers planned and
      all its contents resolved. */
  lemma {:induction false} CleanPlanUnfolds(g: Graph)
    ensures var r := Run(g.env, Start(g.env, g.root, g.manifest));
      r.Ok? && r.value.closure.blockers == [] ==>
        && Unfolds(g, Nodes(r.value.admissions))
        && r.value.applicationCount == |r.value.admissions| + 1
        && (forall i :: 0 <= i < |r.value.admissions| ==> r.value.admissions[i].index == i + 1)
        && (forall i :: 0 <= i <= |r.value.admissions| ==> Filled(g, r.value, i))
  {
    hide Run, Start, Ready, Filled, Unfolds, Graph.Bounded, Consistent;
    StartReady(g);
    StartKeeps(g);
    RunReady(g, Start(g.env, g.root, g.manifest));
    var r := Run(g.env, Start(g.env, g.root, g.manifest));
    if r.Ok? && r.value.closure.blockers == [] {
      ReadyUnfolds(g, r.value);
    }
  }

  lemma {:induction false} ReadyUnfolds(g: Graph, s: Plan)
    requires Ready(g, s) && s.pending == [] && s.closure.blockers == []
    ensures Unfolds(g, Nodes(s.admissions))
    ensures s.applicationCount == |s.admissions| + 1
    ensures forall i :: 0 <= i < |s.admissions| ==> s.admissions[i].index == i + 1
    ensures forall i :: 0 <= i <= |s.admissions| ==> Filled(g, s, i)
  {
    hide EdgesOfAll, Filled;
    var nodes := Nodes(s.admissions);
    assert nodes == EdgesOfAll(g, Applications(g.root, nodes), |nodes| + 1) + [];
  }
}
