/** The census over whole runs: every blocker is real, and a run that ends without blockers has visited every
    place of the unfolding and asked for every label it names (src/application_plan.rs:858-1046). */
module Sweep {
  import opened Basics
  import opened Upstream
  import opened Resolver
  import opened Planner
  import opened PlanPaths
  import opened PlanShape
  import opened Occurrences
  import opened Founding
  import opened Census

  // ---------- Refused children ----------

  lemma {:induction false} ChainOf(g: Graph, app: Pending, position: nat)
    requires g.Reached(app) && position < |app.manifest.children|
    ensures Chain(g, app.path + [app.manifest.children[position].application])
  {
    hide Graph.ManifestOf;
    var path := app.path + [app.manifest.children[position].application];
    forall i | 0 <= i < |path| - 1
      ensures g.Edge(path[i], path[i + 1])
    {
      if i < app.depth {
        assert g.Edge(app.path[i], app.path[i + 1]);
      } else {
        assert g.ManifestOf(app.application).value.children[position].application == path[i + 1];
      }
    }
  }

  lemma {:induction false} CycleIsReal(g: Graph, app: Pending, position: nat)
    requires g.Reached(app) && position < |app.manifest.children| && app.manifest.children[position].application in app.path
    ensures Grounded(g, ChildCycle(app.path + [app.manifest.children[position].application]))
  {
    hide Graph.ManifestOf, Graph.Edge, Chain;
    ChainOf(g, app, position);
    var path := app.path + [app.manifest.children[position].application];
    assert path[..|path| - 1] == app.path;
    assert Closes(g, path);
  }

  lemma {:induction false} DepthIsReal(g: Graph, app: Pending, position: nat, at: Option<ManifestEdge>)
    requires g.Reached(app) && position < |app.manifest.children| && app.manifest.children[position].application !in app.path
    requires app.depth + 1 > g.env.limits.maxDepth
    ensures Grounded(g, LimitExceeded(DepthLimit, g.env.limits.maxDepth, U64Of(app.depth + 1), at))
  {
    hide Graph.ManifestOf, Graph.Edge, Chain, Grounded;
    ChainOf(g, app, position);
    var path := app.path + [app.manifest.children[position].application];
    assert Deep(g, path, U64Of(app.depth + 1));
    GroundedLimit(g, LimitExceeded(DepthLimit, g.env.limits.maxDepth, U64Of(app.depth + 1), at));
  }

  lemma {:induction false} CrowdIsReal(g: Graph, places: seq<Place>, at: Option<ManifestEdge>)
    requires Occur(g, places) && |places| > g.env.limits.maxApplications
    ensures Grounded(g, LimitExceeded(ApplicationLimit, g.env.limits.maxApplications, U64Of(|places|), at))
  {
    hide Occur, Grounded;
    assert Crowded(g, places, U64Of(|places|));
    GroundedLimit(g, LimitExceeded(ApplicationLimit, g.env.limits.maxApplications, U64Of(|places|), at));
  }

  lemma {:induction false} LayersAreReal(g: Graph, s: Plan, places: seq<Place>, visited: seq<Place>)
    requires Tallied(g, s, places, visited) && s.totalLayers > g.env.limits.maxLayers
    ensures Grounded(g, LimitExceeded(LayerLimit, g.env.limits.maxLayers, s.totalLayers, None))
  {
    hide Queued, Rooted, At, SumOf, LayerWeights, Grounded;
    assert Occur(g, visited) by {
      VisitedOccur(g, places, visited);
    }
    assert Layered(g, visited, s.totalLayers);
    GroundedLimit(g, LimitExceeded(LayerLimit, g.env.limits.maxLayers, s.totalLayers, None));
  }

  lemma {:induction false} VisitedOccur(g: Graph, places: seq<Place>, visited: seq<Place>)
    requires Occur(g, places) && NoDuplicates(visited) && forall i :: 0 <= i < |visited| ==> visited[i] in places
    ensures Occur(g, visited)
  {
    hide At;
  }

  lemma {:induction false} OneMoreOccurs(g: Graph, s: Plan, app: Pending, from: nat, places: seq<Place>, visited: seq<Place>)
    requires Visiting(g, s, app, from, places, visited) && g.Reached(app) && from < |app.manifest.children|
    ensures Occur(g, places + [places[app.index] + [from]])
  {
    ChildIsNew(g, s, app, from, places, visited);
    ChildOccurs(g, places, app, from);
    hide At, Queued, Seen, Rooted, Graph.Reached;
  }

  lemma {:induction false} VisitingCount(g: Graph, s: Plan, app: Pending, from: nat, places: seq<Place>, visited: seq<Place>)
    requires Visiting(g, s, app, from, places, visited)
    ensures |places| == s.applicationCount && app.index < |places|
  {
    hide At, Queued, Seen, Rooted, Occur;
  }

  lemma {:induction false} RefuseFounded(g: Graph, s: Plan, app: Pending, from: nat, places: seq<Place>, visited: seq<Place>)
    requires Founded(g, s.closure) && Visiting(g, s, app, from, places, visited) && g.Reached(app) && from < |app.manifest.children|
    requires !Refuse(g.env, s, app, app.manifest.children[from]).Follow?
    ensures var edge := app.manifest.children[from];
      Founded(g, RefuseChild(g.env, s, app, from, edge, Refuse(g.env, s, app, edge)).closure)
  {
    hide Founded, Visiting, Graph.Reached, Occur, Grounded, Row;
    var edge := app.manifest.children[from];
    var at := Some(ChildApplication(app.application, U32Of(from)));
    VisitingCount(g, s, app, from, places, visited);
    OneMoreOccurs(g, s, app, from, places, visited);
    if edge.application in app.path {
      CycleIsReal(g, app, from);
      BlockFounded(g, s.closure, ChildCycle(app.path + [edge.application]));
    } else if app.depth + 1 > g.env.limits.maxDepth {
      DepthIsReal(g, app, from, at);
      BlockFounded(g, s.closure, LimitExceeded(DepthLimit, g.env.limits.maxDepth, U64Of(app.depth + 1), at));
    } else if !s.applicationsLimited {
      CrowdIsReal(g, places + [places[app.index] + [from]], at);
      BlockFounded(g, s.closure, LimitExceeded(ApplicationLimit, g.env.limits.maxApplications, U64Of(s.applicationCount + 1), at));
    }
  }

  // ---------- What a clean run has swept ----------

  ghost predicate Waiting(pending: seq<Pending>, index: nat) {
    exists j :: 0 <= j < |pending| && pending[j].index == index
  }

  /** A place is done: visited, its children counted and everything its manifest names asked for. */
  ghost predicate Done(g: Graph, c: State, places: seq<Place>, visited: seq<Place>, place: Place) {
    && ManifestAt(g, place).Some? && place in visited
    && (forall p: nat :: p < |ManifestAt(g, place).value.children| ==> place + [p] in places)
    && References(ManifestAt(g, place).value) <= c.referenced
  }

  /** While nothing is blocked, the layer total is within its limit and every counted place other than `but` is
      queued or done. */
  ghost predicate Swept(g: Graph, s: Plan, places: seq<Place>, visited: seq<Place>, but: Option<nat>) {
    && (s.applicationsLimited ==> s.closure.blockers != [])
    && (s.closure.blockers == [] ==>
      && s.totalLayers <= g.env.limits.maxLayers
      && forall i :: 0 <= i < |places| ==> but == Some(i) || Waiting(s.pending, i) || Done(g, s.closure, places, visited, places[i]))
  }

  /** The children of `app` below `from` are counted and asked for. */
  ghost predicate Counted(c: State, app: Pending, from: nat, places: seq<Place>) {
    c.blockers == [] && app.index < |places| ==>
      forall p: nat :: p < from && p < |app.manifest.children| ==>
        && places[app.index] + [p] in places
        && app.manifest.children[p].application in c.referenced && app.manifest.children[p].capabilities in c.referenced
  }

  ghost predicate OwnReferenced(c: State, m: AppManifest) {
    m.required in c.referenced && forall i :: 0 <= i < |m.layers| ==> m.layers[i].content in c.referenced
  }

  ghost predicate Sweeping(g: Graph, s: Plan, app: Pending, from: nat, places: seq<Place>, visited: seq<Place>) {
    && Swept(g, s, places, visited, Some(app.index))
    && (s.closure.blockers == [] ==> OwnReferenced(s.closure, app.manifest))
    && Counted(s.closure, app, from, places)
    && app.index < |places| && places[app.index] in visited
  }

  lemma {:induction false} DoneGrows(g: Graph, c: State, t: State, places: seq<Place>, more: seq<Place>, visited: seq<Place>, further: seq<Place>, place: Place)
    requires Done(g, c, places, visited, place) && c.referenced <= t.referenced
    requires (forall q :: q in places ==> q in more) && (forall q :: q in visited ==> q in further)
    ensures Done(g, t, more, further, place)
  {
    hide ManifestAt, References;
  }

  lemma {:induction false} WaitingGrows(pending: seq<Pending>, more: seq<Pending>, index: nat)
    requires Waiting(pending, index) && |pending| <= |more| && more[..|pending|] == pending
    ensures Waiting(more, index)
  {
    var j :| 0 <= j < |pending| && pending[j].index == index;
    assert more[j] == more[..|pending|][j];
  }

  lemma {:induction false} StartSwept(g: Graph)
    ensures Swept(g, Start(g.env, g.root, g.manifest), [[]], [], None)
  {
    var s := Start(g.env, g.root, g.manifest);
    if s.closure.blockers == [] {
      assert s.pending[0].index == 0;
    }
  }

  /** Taking an application off the queue. */
  lemma {:induction false} OpenSwept(g: Graph, s: Plan, t: Plan, places: seq<Place>, visited: seq<Place>)
    requires s.pending != [] && Swept(g, s, places, visited, None) && s.pending[0].index < |places|
    requires t.pending == s.pending[1..] && t.closure == s.closure && t.applicationsLimited == s.applicationsLimited
    requires t.totalLayers <= g.env.limits.maxLayers
    ensures Swept(g, t, places, visited + [places[s.pending[0].index]], Some(s.pending[0].index))
  {
    hide Done;
    var app := s.pending[0];
    var after := visited + [places[app.index]];
    if t.closure.blockers == [] {
      forall i | 0 <= i < |places|
        ensures Some(app.index) == Some(i) || Waiting(t.pending, i) || Done(g, t.closure, places, after, places[i])
      {
        if i != app.index && Waiting(s.pending, i) {
          var j :| 0 <= j < |s.pending| && s.pending[j].index == i;
          assert t.pending[j - 1] == s.pending[j];
        } else if i != app.index {
          DoneGrows(g, s.closure, t.closure, places, places, visited, after, places[i]);
        }
      }
    }
  }

  /** Steps that only resolve keep what was swept. */
  lemma {:induction false} ResolveSwept(g: Graph, s: Plan, t: Plan, places: seq<Place>, visited: seq<Place>, but: Option<nat>)
    requires Swept(g, s, places, visited, but) && Grows(s.closure, t.closure)
    requires t.pending == s.pending && t.totalLayers == s.totalLayers && (t.applicationsLimited == s.applicationsLimited || t.closure.blockers != [])
    ensures Swept(g, t, places, visited, but)
  {
    hide Done, Waiting;
    if t.closure.blockers == [] {
      CleanBefore(s.closure, t.closure);
      forall i | 0 <= i < |places|
        ensures but == Some(i) || Waiting(t.pending, i) || Done(g, t.closure, places, visited, places[i])
      {
        if but != Some(i) && !Waiting(s.pending, i) {
          DoneGrows(g, s.closure, t.closure, places, places, visited, visited, places[i]);
        }
      }
    }
  }

  /** Following a child keeps what was swept and queues the child. */
  lemma {:induction false} FollowSwept(g: Graph, s: Plan, t: Plan, app: Pending, places: seq<Place>, visited: seq<Place>, q: Place)
    requires Swept(g, s, places, visited, Some(app.index)) && Grows(s.closure, t.closure) && |places| == s.applicationCount
    requires t.totalLayers == s.totalLayers && t.applicationsLimited == s.applicationsLimited
    requires t.closure.blockers == [] ==>
      |t.pending| == |s.pending| + 1 && t.pending[..|s.pending|] == s.pending && t.pending[|s.pending|].index == s.applicationCount
    ensures Swept(g, t, places + [q], visited, Some(app.index))
  {
    hide Done;
    var after := places + [q];
    if s.closure.blockers != [] {
      GrowsKeepsBlocked(s.closure, t.closure);
    }
    if t.closure.blockers == [] {
      CleanBefore(s.closure, t.closure);
      forall i | 0 <= i < |after|
        ensures Some(app.index) == Some(i) || Waiting(t.pending, i) || Done(g, t.closure, after, visited, after[i])
      {
        if i == |places| {
          assert t.pending[|s.pending|].index == i;
        } else if i != app.index {
          if Waiting(s.pending, i) {
            WaitingGrows(s.pending, t.pending, i);
          } else {
            DoneGrows(g, s.closure, t.closure, places, after, visited, visited, places[i]);
          }
        }
      }
    }
  }

  lemma {:induction false} GrowsKeepsBlocked(s: State, t: State)
    requires Grows(s, t) && s.blockers != []
    ensures t.blockers != []
  {
  }

  // ---------- Clean steps ask for what is named ----------

  lemma {:induction false} ObjectsReferenced(env: Sources, c: State)
    requires Consistent(env, c)
    ensures forall k :: k in c.objects ==> k in c.referenced
  {
    hide Accounting, ByteAccounting, AllReal, ObjectMatches;
  }

  lemma {:induction false} ResolutionReferenced(env: Sources, c: State, k: Kappa, edge: ManifestEdge)
    requires Consistent(env, c)
    ensures var r := Resolution(env, c, k, edge); r.Ok? && r.value.state.blockers == [] ==> k in r.value.state.referenced
  {
    hide Consistent, Resolution, Grows;
    ResolutionClean(env, c, k, edge);
    var r := Resolution(env, c, k, edge);
    if r.Ok? {
      ObjectsReferenced(env, r.value.state);
    }
  }

  lemma {:induction false} ContentsReferenced(env: Sources, s: Plan, app: Pending)
    requires Consistent(env, s.closure)
    ensures var r := VisitContents(env, s, app);
      r.Ok? ==> Grows(s.closure, r.value.closure) && (r.value.closure.blockers == [] ==> OwnReferenced(r.value.closure, app.manifest))
  {
    hide Consistent, Resolution, DecodeCapabilities, ResolveLayers, Grows;
    VisitContentsAdvances(env, s, app);
    ResolutionReferenced(env, s.closure, app.manifest.required, RequiresEdge(app));
    RequireAdvances(env, s, app);
    var s1 := Require(env, s, app);
    if s1.Ok? {
      ResolveLayersClean(env, s1.value.closure, app, 0);
      var c := ResolveLayers(env, s1.value.closure, app, 0);
      if c.Ok? && c.value.blockers == [] {
        CleanBefore(s1.value.closure, c.value);
        ObjectsReferenced(env, c.value);
        GrowsReferenced(s1.value.closure, c.value);
      }
    }
  }

  lemma {:induction false} GrowsReferenced(s: State, t: State)
    requires Grows(s, t)
    ensures s.referenced <= t.referenced
  {
  }

  lemma {:induction false} ChildReferenced(env: Sources, s: Plan, app: Pending, position: nat, edge: ChildEdge)
    requires Consistent(env, s.closure)
    ensures var r := AdmitChild(env, s, app, position, edge);
      r.Ok? && r.value.closure.blockers == [] ==> edge.application in r.value.closure.referenced && edge.capabilities in r.value.closure.referenced
  {
    hide Consistent, Resolution, DecodeCapabilities, RecordChild, DecodeChildManifest, Grows;
    var at := ChildApplication(app.application, U32Of(position));
    var delegated := DelegatedCapabilities(app.application, U32Of(position));
    DelegateKeeps(env, s.closure, app, position, edge);
    ResolutionReferenced(env, s.closure, edge.capabilities, delegated);
    var d := Delegate(env, s.closure, app, position, edge);
    if d.Ok? {
      ResolutionReferenced(env, d.value.closure, edge.application, at);
      ResolutionAdvances(env, d.value.closure, edge.application, at);
      var answer := Resolution(env, d.value.closure, edge.application, at);
      if answer.Ok? {
        RecordChildClosure(env, s, app, position, edge, d.value, answer.value);
        if answer.value.state.blockers == [] {
          CleanBefore(d.value.closure, answer.value.state);
          GrowsReferenced(d.value.closure, answer.value.state);
        }
      }
    }
  }

  // ---------- The child loop ----------

  /** Everything kept in the middle of a turn. */
  ghost predicate Midway(g: Graph, s: Plan, app: Pending, from: nat, places: seq<Place>, visited: seq<Place>) {
    && g.Bounded(s) && Consistent(g.env, s.closure) && Founded(g, s.closure)
    && Visiting(g, s, app, from, places, visited) && Sweeping(g, s, app, from, places, visited)
  }

  lemma {:induction false} CountedMore(c: State, t: State, app: Pending, from: nat, places: seq<Place>, more: seq<Place>)
    requires Counted(c, app, from, places) && Grows(c, t) && app.index < |places| && places <= more
    requires t.blockers == [] && from < |app.manifest.children| ==>
      && places[app.index] + [from] in more
      && app.manifest.children[from].application in t.referenced && app.manifest.children[from].capabilities in t.referenced
    ensures Counted(t, app, from + 1, more)
  {
    if t.blockers == [] {
      CleanBefore(c, t);
      forall p: nat | p < from + 1 && p < |app.manifest.children|
        ensures more[app.index] + [p] in more
        ensures app.manifest.children[p].application in t.referenced && app.manifest.children[p].capabilities in t.referenced
      {
        if p < from {
          assert places[app.index] + [p] in places;
        }
      }
    }
  }

  lemma {:induction false} OwnStays(c: State, t: State, m: AppManifest)
    requires OwnReferenced(c, m) && Grows(c, t)
    ensures OwnReferenced(t, m)
  {
  }

  lemma {:induction false} FollowSweeping(g: Graph, s: Plan, t: Plan, app: Pending, from: nat, places: seq<Place>, visited: seq<Place>)
    requires Sweeping(g, s, app, from, places, visited) && Grows(s.closure, t.closure) && |places| == s.applicationCount
    requires t.totalLayers == s.totalLayers && t.applicationsLimited == s.applicationsLimited && from < |app.manifest.children|
    requires t.closure.blockers == [] ==>
      && |t.pending| == |s.pending| + 1 && t.pending[..|s.pending|] == s.pending && t.pending[|s.pending|].index == s.applicationCount
      && app.manifest.children[from].application in t.closure.referenced && app.manifest.children[from].capabilities in t.closure.referenced
    ensures Sweeping(g, t, app, from + 1, places + [places[app.index] + [from]], visited)
  {
    hide Swept, OwnReferenced, Counted, Grows;
    var q := places[app.index] + [from];
    FollowSwept(g, s, t, app, places, visited, q);
    CountedMore(s.closure, t.closure, app, from, places, places + [q]);
    if t.closure.blockers == [] {
      CleanBefore(s.closure, t.closure);
      OwnStays(s.closure, t.closure, app.manifest);
    }
    assert (places + [q])[app.index] == places[app.index];
  }

  lemma {:induction false} FollowMidway(g: Graph, s: Plan, app: Pending, from: nat, places: seq<Place>, visited: seq<Place>)
    requires Midway(g, s, app, from, places, visited) && g.Reached(app) && AllNamed(g, app.manifest) && from < |app.manifest.children|
    requires Refuse(g.env, s, app, app.manifest.children[from]).Follow?
    ensures var r := AdmitChild(g.env, s, app, from, app.manifest.children[from]);
      r.Ok? ==> app.index < |places| && Midway(g, r.value, app, from + 1, places + [places[app.index] + [from]], visited)
  {
    hide Graph.Bounded, Consistent, Founded, Visiting, Sweeping, AdmitChild, AllNamed, Followed;
    var edge := app.manifest.children[from];
    var r := AdmitChild(g.env, s, app, from, edge);
    VisitingCount(g, s, app, from, places, visited);
    VisitChildKeeps(g, s, app, from);
    if r.Ok? {
      AdmitChildFounded(g, s, app, from);
      AdmitChildFollows(g.env, s, app, from, edge);
      ReachedManifest(g, app);
      FollowVisiting(g, s, r.value, app, from, places, visited);
      AdmitChildAdvances(g.env, s, app, from, edge);
      AdmitChildClean(g.env, s, app, from, edge);
      ChildReferenced(g.env, s, app, from, edge);
      AdmitChildLimited(g.env, s, app, from, edge);
      FollowSweeping(g, s, r.value, app, from, places, visited);
    }
  }

  lemma {:induction false} ReachedManifest(g: Graph, app: Pending)
    requires g.Reached(app)
    ensures g.ManifestOf(app.application) == Some(app.manifest)
  {
  }

  lemma {:induction false} AdmitChildLimited(env: Sources, s: Plan, app: Pending, position: nat, edge: ChildEdge)
    ensures var r := AdmitChild(env, s, app, position, edge);
      r.Ok? ==> r.value.applicationsLimited == s.applicationsLimited && r.value.totalLayers == s.totalLayers
  {
    hide Delegate, Resolution, DecodeChildManifest, Row;
  }

  lemma {:induction false} RefuseMidway(g: Graph, s: Plan, app: Pending, from: nat, places: seq<Place>, visited: seq<Place>)
    requires Midway(g, s, app, from, places, visited) && g.Reached(app) && from < |app.manifest.children|
    requires !Refuse(g.env, s, app, app.manifest.children[from]).Follow?
    ensures var edge := app.manifest.children[from];
      Midway(g, RefuseChild(g.env, s, app, from, edge, Refuse(g.env, s, app, edge)), app, from + 1, places, visited)
  {
    hide Graph.Bounded, Consistent, Founded, Visiting, Sweeping, AdmitChild, RefuseChild, Graph.Reached;
    var edge := app.manifest.children[from];
    var t := RefuseChild(g.env, s, app, from, edge, Refuse(g.env, s, app, edge));
    VisitingCount(g, s, app, from, places, visited);
    VisitChildKeeps(g, s, app, from);
    RefuseFounded(g, s, app, from, places, visited);
    RefuseSame(g.env, s, app, from, edge, Refuse(g.env, s, app, edge));
    VisitingSame(g, s, t, app, from, places, visited);
    RefuseChildAdvances(g.env, s, app, from, edge, Refuse(g.env, s, app, edge));
    RefuseBlocks(g, s, app, from, places, visited);
    RefuseSweeping(g, s, t, app, from, places, visited);
  }

  lemma {:induction false} RefuseBlocks(g: Graph, s: Plan, app: Pending, from: nat, places: seq<Place>, visited: seq<Place>)
    requires Sweeping(g, s, app, from, places, visited) && from < |app.manifest.children|
    requires !Refuse(g.env, s, app, app.manifest.children[from]).Follow?
    ensures var edge := app.manifest.children[from];
      RefuseChild(g.env, s, app, from, edge, Refuse(g.env, s, app, edge)).closure.blockers != []
  {
    hide Done, Waiting, OwnReferenced, Counted;
  }

  /** A refused child leaves a blocker, so nothing more is claimed. */
  lemma {:induction false} RefuseSweeping(g: Graph, s: Plan, t: Plan, app: Pending, from: nat, places: seq<Place>, visited: seq<Place>)
    requires Sweeping(g, s, app, from, places, visited) && t.closure.blockers != []
    ensures Sweeping(g, t, app, from + 1, places, visited)
  {
    hide Done, Waiting, OwnReferenced;
  }

  lemma {:induction false} ChildrenMidway(g: Graph, s: Plan, app: Pending, from: nat, places: seq<Place>, visited: seq<Place>)
    returns (more: seq<Place>)
    requires Midway(g, s, app, from, places, visited) && g.Reached(app) && AllNamed(g, app.manifest) && from <= |app.manifest.children|
    ensures var r := VisitChildren(g.env, s, app, from); r.Ok? ==> Midway(g, r.value, app, |app.manifest.children|, more, visited)
    decreases |app.manifest.children| - from
  {
    hide Midway, AdmitChild, RefuseChild, Refuse, Graph.Reached, AllNamed;
    more := places;
    if from < |app.manifest.children| {
      var edge := app.manifest.children[from];
      var next := VisitChild(g.env, s, app, from);
      if Refuse(g.env, s, app, edge).Follow? {
        FollowMidway(g, s, app, from, places, visited);
        if next.Ok? {
          more := ChildrenMidway(g, next.value, app, from + 1, places + [places[app.index] + [from]], visited);
        }
      } else {
        RefuseMidway(g, s, app, from, places, visited);
        more := ChildrenMidway(g, next.value, app, from + 1, places, visited);
      }
    }
  }

  // ---------- Turns and runs ----------

  /** Everything kept between turns. */
  ghost predicate Standing(g: Graph, s: Plan, places: seq<Place>, visited: seq<Place>) {
    && g.Bounded(s) && Consistent(g.env, s.closure) && Founded(g, s.closure)
    && Tallied(g, s, places, visited) && Swept(g, s, places, visited, None)
  }

  lemma {:induction false} VisitingTallied(g: Graph, s: Plan, app: Pending, from: nat, places: seq<Place>, visited: seq<Place>)
    requires Visiting(g, s, app, from, places, visited)
    ensures Tallied(g, s, places, visited) && app.index < |places| && At(g, places[app.index]) == Some(app.application)
  {
    hide Tallied, At;
  }

  lemma {:induction false} BlockedSwept(g: Graph, s: Plan, places: seq<Place>, visited: seq<Place>)
    requires s.closure.blockers != []
    ensures Swept(g, s, places, visited, None)
  {
    hide Done, Waiting;
  }

  /** With all its children considered, an application is done. */
  lemma {:induction false} EndSwept(g: Graph, s: Plan, app: Pending, places: seq<Place>, visited: seq<Place>)
    requires Sweeping(g, s, app, |app.manifest.children|, places, visited)
    requires ManifestAt(g, places[app.index]) == Some(app.manifest)
    ensures Swept(g, s, places, visited, None)
  {
    hide ManifestAt, Waiting;
    if s.closure.blockers == [] {
      var here := places[app.index];
      forall p: nat | p < |app.manifest.children|
        ensures here + [p] in places
      {
      }
      AllReferenced(s.closure, app, places);
      assert Done(g, s.closure, places, visited, here);
      hide Done, Counted, OwnReferenced;
    }
  }

  lemma {:induction false} AllReferenced(c: State, app: Pending, places: seq<Place>)
    requires c.blockers == [] && OwnReferenced(c, app.manifest) && app.index < |places| && Counted(c, app, |app.manifest.children|, places)
    ensures References(app.manifest) <= c.referenced
  {
  }

  lemma {:induction false} StopBlocks(env: Sources, c: State)
    requires Consistent(env, c) && c.halted
    ensures c.blockers != []
  {
    hide Accounting, ByteAccounting, AllReal, ObjectMatches;
  }

  lemma {:induction false} TallyBlocked(g: Graph, s: Plan, blocker: PlanBlocker, places: seq<Place>, visited: seq<Place>)
    requires Tallied(g, s, places, visited)
    ensures Tallied(g, Blocked(s, blocker), places, visited)
  {
    hide Queued, Rooted, Occur, SumOf;
  }

  /** An application's own contents. */
  lemma {:induction false} ContentsMidway(g: Graph, s: Plan, places: seq<Place>, visited: seq<Place>)
    requires Standing(g, s, places, visited) && s.pending != [] && g.Reached(s.pending[0])
    requires var begun := Open(s.(pending := s.pending[1..]), s.pending[0]);
      begun.totalLayers <= g.env.limits.maxLayers && AllNamed(g, s.pending[0].manifest)
    ensures s.pending[0].index < |places|
    ensures var app := s.pending[0];
      var r := VisitContents(g.env, Open(s.(pending := s.pending[1..]), app), app);
      r.Ok? ==> Midway(g, r.value, app, 0, places, visited + [places[app.index]])
  {
    hide Graph.Bounded, Consistent, Founded, Tallied, Swept, VisitContents, PlannedLayers, AllNamed, Graph.Reached;
    var app := s.pending[0];
    var begun := Open(s.(pending := s.pending[1..]), app);
    OpenVisiting(g, s, places, visited);
    var further := visited + [places[app.index]];
    OpenBounded(g, s);
    OpenSwept(g, s, begun, places, visited);
    var r := VisitContents(g.env, begun, app);
    if r.Ok? {
      ContentsFounded(g, begun, app);
      VisitContentsKeeps(g, begun, app);
      ContentsSame(g.env, begun, app);
      ContentsReferenced(g.env, begun, app);
      VisitContentsLimited(g.env, begun, app);
      VisitingSame(g, begun, r.value, app, 0, places, further);
      ResolveSwept(g, begun, r.value, places, further, Some(app.index));
      CountedNone(r.value.closure, app, places);
      assert places[app.index] in further;
    }
  }

  lemma {:induction false} CountedNone(c: State, app: Pending, places: seq<Place>)
    ensures Counted(c, app, 0, places)
  {
  }

  lemma {:induction false} OpenBounded(g: Graph, s: Plan)
    requires g.Bounded(s) && s.pending != []
    ensures g.Bounded(Open(s.(pending := s.pending[1..]), s.pending[0]))
  {
    hide Graph.Reached, PlannedLayers;
  }

  lemma {:induction false} HereNamed(g: Graph, s: Plan, places: seq<Place>, visited: seq<Place>)
    requires Tallied(g, s, places, visited) && s.pending != [] && g.Reached(s.pending[0])
    ensures s.pending[0].index < |places| && ManifestAt(g, places[s.pending[0].index]) == Some(s.pending[0].manifest)
    ensures AllNamed(g, s.pending[0].manifest)
  {
    assert Slotted(g, places, s.pending[0]);
    hide Queued, Rooted, Occur, Seen, At;
    NamedByOccurrence(g, places[s.pending[0].index], s.pending[0].manifest);
  }

  lemma {:induction false} MidwayEnds(g: Graph, s: Plan, app: Pending, from: nat, places: seq<Place>, visited: seq<Place>)
    requires Midway(g, s, app, from, places, visited) && g.ManifestOf(app.application) == Some(app.manifest)
    requires s.closure.blockers != [] || from == |app.manifest.children|
    ensures Standing(g, s, places, visited)
  {
    hide Graph.Bounded, Consistent, Founded, Visiting, Sweeping, Tallied, At, Graph.ManifestOf, Swept;
    VisitingTallied(g, s, app, from, places, visited);
    if s.closure.blockers != [] {
      BlockedSwept(g, s, places, visited);
    } else {
      EndSwept(g, s, app, places, visited);
    }
  }

  lemma {:induction false} LayersStop(g: Graph, s: Plan, places: seq<Place>, visited: seq<Place>)
    requires Standing(g, s, places, visited) && s.pending != [] && g.Reached(s.pending[0])
    requires Open(s.(pending := s.pending[1..]), s.pending[0]).totalLayers > g.env.limits.maxLayers
    ensures s.pending[0].index < |places|
    ensures var begun := Open(s.(pending := s.pending[1..]), s.pending[0]);
      var t := Blocked(begun, LimitExceeded(LayerLimit, g.env.limits.maxLayers, begun.totalLayers, None));
      && Founded(g, t.closure) && Tallied(g, t, places, visited + [places[s.pending[0].index]])
      && Swept(g, t, places, visited + [places[s.pending[0].index]], None)
  {
    hide Graph.Bounded, Consistent, Founded, Tallied, Swept, PlannedLayers, Graph.Reached, Visiting, Grounded;
    var app := s.pending[0];
    var begun := Open(s.(pending := s.pending[1..]), app);
    var blocker := LimitExceeded(LayerLimit, g.env.limits.maxLayers, begun.totalLayers, None);
    OpenVisiting(g, s, places, visited);
    var further := visited + [places[app.index]];
    VisitingTallied(g, begun, app, 0, places, further);
    LayersAreReal(g, begun, places, further);
    BlockFounded(g, begun.closure, blocker);
    TallyBlocked(g, begun, blocker, places, further);
    BlockedSwept(g, Blocked(begun, blocker), places, further);
  }

  lemma {:induction false} TurnStanding(g: Graph, s: Plan, places: seq<Place>, visited: seq<Place>)
    returns (more: seq<Place>, further: seq<Place>)
    requires Standing(g, s, places, visited) && s.pending != [] && g.Reached(s.pending[0])
    ensures var r := Visit(g.env, s.(pending := s.pending[1..]), s.pending[0]);
      r.Ok? ==> Standing(g, r.value.plan, more, further) && (r.value.stop ==> r.value.plan.closure.blockers != [])
  {
    hide Graph.Bounded, Consistent, Founded, Tallied, Swept, VisitContents, VisitChildren, Graph.Reached, Open, Midway, AllNamed, At;
    var app := s.pending[0];
    var rest := s.(pending := s.pending[1..]);
    var begun := Open(rest, app);
    RestBounded(g, s);
    VisitKeeps(g, rest, app);
    HereNamed(g, s, places, visited);
    ReachedManifest(g, app);
    more, further := places, visited + [places[app.index]];
    if begun.totalLayers > g.env.limits.maxLayers {
      LayersStop(g, s, places, visited);
    } else {
      ContentsMidway(g, s, places, visited);
      var s1 := VisitContents(g.env, begun, app);
      if s1.Ok? {
        MidwayConsistent(g, s1.value, app, 0, places, further);
        if s1.value.closure.halted {
          StopBlocks(g.env, s1.value.closure);
          MidwayEnds(g, s1.value, app, 0, places, further);
        } else {
          more := ChildrenMidway(g, s1.value, app, 0, places, further);
          var s2 := VisitChildren(g.env, s1.value, app, 0);
          if s2.Ok? {
            MidwayConsistent(g, s2.value, app, |app.manifest.children|, more, further);
            MidwayEnds(g, s2.value, app, |app.manifest.children|, more, further);
            if s2.value.closure.halted {
              StopBlocks(g.env, s2.value.closure);
            }
          }
        }
      }
    }
  }

  lemma {:induction false} MidwayConsistent(g: Graph, s: Plan, app: Pending, from: nat, places: seq<Place>, visited: seq<Place>)
    requires Midway(g, s, app, from, places, visited)
    ensures Consistent(g.env, s.closure)
  {
    hide Consistent, Graph.Bounded, Founded, Visiting, Sweeping;
  }

  lemma {:induction false} RestBounded(g: Graph, s: Plan)
    requires g.Bounded(s) && s.pending != []
    ensures g.Bounded(s.(pending := s.pending[1..])) && g.Reached(s.pending[0])
  {
    hide Graph.Reached;
  }

  /** On every graph and under every limit the finished worklist stands on a census of real places. */
  lemma {:induction false} RunStanding(g: Graph, s: Plan, places: seq<Place>, visited: seq<Place>)
    returns (more: seq<Place>, further: seq<Place>)
    requires Standing(g, s, places, visited)
    ensures var r := Run(g.env, s);
      r.Ok? ==> Standing(g, r.value, more, further) && (r.value.closure.blockers == [] ==> r.value.pending == [])
    decreases Room(g.env, s)
  {
    hide Graph.Bounded, Consistent, Founded, Tallied, Swept, Visit, Graph.Reached;
    more, further := places, visited;
    if s.pending != [] {
      var rest := s.(pending := s.pending[1..]);
      RestBounded(g, s);
      VisitRoom(g.env, rest, s.pending[0]);
      more, further := TurnStanding(g, s, places, visited);
      var turn := Visit(g.env, rest, s.pending[0]);
      if turn.Ok? && !turn.value.stop {
        more, further := RunStanding(g, turn.value.plan, more, further);
      }
    }
  }

  lemma {:induction false} StartStanding(g: Graph)
    ensures Standing(g, Start(g.env, g.root, g.manifest), [[]], [])
  {
    hide Graph.Bounded, Consistent, Tallied, Swept;
    StartKeeps(g);
    StartTallied(g);
    StartSwept(g);
    var root: Place := [];
    if g.env.limits.maxApplications == 0 {
      CrowdIsReal(g, [root], None);
      assert |[root]| == 1;
    }
    hide Grounded, NamedSomewhere;
  }

  /** All these blockers are real, and none of them is about being a library. */
  ghost predicate EveryReal(g: Graph, blockers: seq<PlanBlocker>) {
    forall i :: 0 <= i < |blockers| ==> Real(g, blockers[i]) && !blockers[i].LibraryArchive?
  }

  /** Every blocker of every planning run is real. */
  lemma {:induction false} RunBlockersReal(g: Graph)
    ensures var r := Run(g.env, Start(g.env, g.root, g.manifest));
      r.Ok? ==> EveryReal(g, r.value.closure.blockers)
  {
    hide Run, Start, Tallied, Swept, Graph.Bounded, Defect, Grounded, Real;
    StartStanding(g);
    var places, visited := RunStanding(g, Start(g.env, g.root, g.manifest), [[]], []);
    var r := Run(g.env, Start(g.env, g.root, g.manifest));
    if r.Ok? {
      var blockers := r.value.closure.blockers;
      forall i | 0 <= i < |blockers|
        ensures Real(g, blockers[i]) && !blockers[i].LibraryArchive?
      {
        assert Grounded(g, blockers[i]) && Defect(g.env, blockers[i]);
        GroundedDefectIsReal(g, blockers[i]);
      }
    }
  }
}
