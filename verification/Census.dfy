/** A census of the worklist: every application it counted stands at its own place of the unfolding, and its
    layer total is that of the places it visited (src/application_plan.rs:858-1046). */
module Census {
  import opened Basics
  import opened Upstream
  import opened Resolver
  import opened Planner
  import opened PlanPaths
  import opened Occurrences

  ghost predicate ChildPlace(q: Place, p: Place) {
    q != [] && q[..|q| - 1] == p
  }

  /** A queued application stands at the place its index names. */
  ghost predicate Slotted(g: Graph, places: seq<Place>, p: Pending) {
    p.index < |places| && At(g, places[p.index]) == Some(p.application) && |places[p.index]| == p.depth
  }

  /** Nothing below a queued application has been counted yet. */
  ghost predicate Fresh(places: seq<Place>, index: nat)
    requires index < |places|
  {
    forall i :: 0 <= i < |places| ==> !ChildPlace(places[i], places[index])
  }

  ghost predicate Queued(g: Graph, places: seq<Place>, pending: seq<Pending>) {
    && (forall j :: 0 <= j < |pending| ==> Slotted(g, places, pending[j]) && Fresh(places, pending[j].index))
    && (forall i, j :: 0 <= i < j < |pending| ==> pending[i].index != pending[j].index)
  }

  ghost predicate HasParent(places: seq<Place>, place: Place) {
    place != [] ==> place[..|place| - 1] in places
  }

  ghost predicate Rooted(g: Graph, places: seq<Place>) {
    forall i :: 0 <= i < |places| ==> |places[i]| <= g.env.limits.maxDepth && HasParent(places, places[i])
  }

  /** The visited places are counted, are not queued, and carry the layer total. */
  ghost predicate Seen(g: Graph, s: Plan, places: seq<Place>, visited: seq<Place>) {
    && NoDuplicates(visited) && (forall i :: 0 <= i < |visited| ==> visited[i] in places)
    && (forall j :: 0 <= j < |s.pending| ==> s.pending[j].index < |places| && places[s.pending[j].index] !in visited)
    && s.totalLayers == U64Of(SumOf(LayerWeights(g), visited))
  }

  ghost predicate Tallied(g: Graph, s: Plan, places: seq<Place>, visited: seq<Place>) {
    && |places| == s.applicationCount > 0 && places[0] == [] && Occur(g, places) && Rooted(g, places)
    && Queued(g, places, s.pending) && Seen(g, s, places, visited)
  }

  /** In the middle of a turn: the children of `app` below `from` have been considered. */
  ghost predicate Visiting(g: Graph, s: Plan, app: Pending, from: nat, places: seq<Place>, visited: seq<Place>) {
    && Tallied(g, s, places, visited) && Slotted(g, places, app)
    && (forall j :: 0 <= j < |s.pending| ==> s.pending[j].index != app.index)
    && (forall i :: 0 <= i < |places| && ChildPlace(places[i], places[app.index]) ==> places[i][|places[i]| - 1] < from)
  }

  lemma {:induction false} StartTallied(g: Graph)
    ensures Tallied(g, Start(g.env, g.root, g.manifest), [[]], [])
  {
    hide SumOf;
    SumNone(g);
    var root: Place := [];
    assert [root][0] == root;
  }

  lemma {:induction false} SumNone(g: Graph)
    ensures SumOf(LayerWeights(g), []) == 0
  {
  }

  // ---------- Opening an application ----------

  lemma {:induction false} OpenSeen(g: Graph, s: Plan, places: seq<Place>, visited: seq<Place>, t: Plan)
    requires s.pending != [] && Queued(g, places, s.pending) && NoDuplicates(places) && Seen(g, s, places, visited)
    requires g.ManifestOf(s.pending[0].application) == Some(s.pending[0].manifest)
    requires t.pending == s.pending[1..] && t.totalLayers == SaturatingAdd(s.totalLayers, |s.pending[0].manifest.layers|)
    ensures Seen(g, t, places, visited + [places[s.pending[0].index]])
  {
    var app := s.pending[0];
    assert Slotted(g, places, app);
    var here := places[app.index];
    LayersHere(g, places, app);
    hide Fresh, Slotted, LayerWeights;
    OpenSum(g, visited, here, |app.manifest.layers|);
    hide SumOf, U64Of, SaturatingAdd;
    OpenApart(g, places, visited, s.pending);
    NoRepeat(visited, here);
  }

  lemma {:induction false} LayersHere(g: Graph, places: seq<Place>, app: Pending)
    requires Slotted(g, places, app) && g.ManifestOf(app.application) == Some(app.manifest)
    ensures LayerWeights(g)(places[app.index]) == |app.manifest.layers|
  {
    hide At, Graph.ManifestOf;
  }

  lemma {:induction false} OpenSum(g: Graph, visited: seq<Place>, here: Place, layers: nat)
    requires LayerWeights(g)(here) == layers
    ensures U64Of(SumOf(LayerWeights(g), visited + [here])) == SaturatingAdd(U64Of(SumOf(LayerWeights(g), visited)), layers)
  {
    hide LayerWeights, SumOf;
    SumSnoc(LayerWeights(g), visited, here);
    SaturatingOnce(SumOf(LayerWeights(g), visited), layers);
  }

  lemma {:induction false} NoRepeat(visited: seq<Place>, here: Place)
    requires NoDuplicates(visited) && here !in visited
    ensures NoDuplicates(visited + [here])
  {
  }

  /** The other queued applications stand elsewhere. */
  lemma {:induction false} OpenApart(g: Graph, places: seq<Place>, visited: seq<Place>, pending: seq<Pending>)
    requires pending != [] && Queued(g, places, pending) && NoDuplicates(places)
    requires forall j :: 0 <= j < |pending| ==> pending[j].index < |places| && places[pending[j].index] !in visited
    ensures forall j :: 0 <= j < |pending[1..]| ==> places[pending[1..][j].index] !in visited + [places[pending[0].index]]
  {
    hide Fresh, Slotted;
    var here := places[pending[0].index];
    forall j | 0 <= j < |pending[1..]|
      ensures places[pending[1..][j].index] !in visited + [here]
    {
      assert pending[1..][j] == pending[j + 1];
      assert pending[0].index != pending[j + 1].index;
    }
  }

  lemma {:induction false} SaturatingOnce(a: nat, b: nat)
    ensures SaturatingAdd(U64Of(a), b) == U64Of(a + b)
  {
  }

  lemma {:induction false} QueueTail(g: Graph, places: seq<Place>, pending: seq<Pending>)
    requires pending != [] && Queued(g, places, pending)
    ensures Queued(g, places, pending[1..])
    ensures forall j :: 0 <= j < |pending[1..]| ==> pending[1..][j].index != pending[0].index
  {
    hide Slotted, Fresh;
    var rest := pending[1..];
    assert forall j :: 0 <= j < |rest| ==> rest[j] == pending[j + 1];
  }

  lemma {:induction false} OpenVisiting(g: Graph, s: Plan, places: seq<Place>, visited: seq<Place>)
    requires s.pending != [] && Tallied(g, s, places, visited) && g.Reached(s.pending[0])
    ensures var app := s.pending[0];
      && app.index < |places|
      && Visiting(g, Open(s.(pending := s.pending[1..]), app), app, 0, places, visited + [places[app.index]])
  {
    var app := s.pending[0];
    var t := Open(s.(pending := s.pending[1..]), app);
    assert Slotted(g, places, app) && Fresh(places, app.index);
    QueueTail(g, places, s.pending);
    OpenSeen(g, s, places, visited, t);
    hide Queued, Seen, Slotted, At, Rooted, PlannedLayers;
  }

  // ---------- Steps that do not change the census ----------

  lemma {:induction false} VisitingSame(g: Graph, s: Plan, t: Plan, app: Pending, from: nat, places: seq<Place>, visited: seq<Place>)
    requires Visiting(g, s, app, from, places, visited)
    requires t.pending == s.pending && t.applicationCount == s.applicationCount && t.totalLayers == s.totalLayers
    ensures Visiting(g, t, app, from, places, visited) && Visiting(g, t, app, from + 1, places, visited)
  {
    hide Queued, Slotted, Rooted, At, SumOf;
  }

  lemma {:induction false} ContentsSame(env: Sources, s: Plan, app: Pending)
    ensures var r := VisitContents(env, s, app);
      r.Ok? ==> r.value.pending == s.pending && r.value.applicationCount == s.applicationCount && r.value.totalLayers == s.totalLayers
  {
    hide Resolution, DecodeCapabilities, ResolveLayers;
  }

  lemma {:induction false} RefuseSame(env: Sources, s: Plan, app: Pending, position: nat, edge: ChildEdge, refusal: Refusal)
    ensures var t := RefuseChild(env, s, app, position, edge, refusal);
      t.pending == s.pending && t.applicationCount == s.applicationCount && t.totalLayers == s.totalLayers
  {
  }

  // ---------- Following a child ----------

  /** What following a child does to the queue and the counters. */
  ghost predicate Followed(s: Plan, t: Plan, app: Pending, edge: ChildEdge) {
    && t.applicationCount == s.applicationCount + 1 && t.totalLayers == s.totalLayers
    && (t.pending == s.pending
        || (&& |t.pending| == |s.pending| + 1 && t.pending[..|s.pending|] == s.pending
            && t.pending[|s.pending|].index == s.applicationCount
            && t.pending[|s.pending|].application == edge.application
            && t.pending[|s.pending|].depth == app.depth + 1))
  }

  lemma {:induction false} AdmitChildFollows(env: Sources, s: Plan, app: Pending, position: nat, edge: ChildEdge)
    requires Consistent(env, s.closure)
    ensures var r := AdmitChild(env, s, app, position, edge); r.Ok? ==> Followed(s, r.value, app, edge)
  {
    hide Consistent, Delegate, Resolution, DecodeChildManifest, Row, Lookup;
    DelegateKeeps(env, s.closure, app, position, edge);
    var d := Delegate(env, s.closure, app, position, edge);
    if d.Ok? {
      AnswerIsLookup(env, d.value.closure, edge.application, ChildApplication(app.application, U32Of(position)));
    }
  }

  /** The place of a child is a place of the unfolding. */
  lemma {:induction false} ChildOccurs(g: Graph, places: seq<Place>, app: Pending, position: nat)
    requires Slotted(g, places, app) && g.ManifestOf(app.application) == Some(app.manifest) && position < |app.manifest.children|
    ensures At(g, places[app.index] + [position]) == Some(app.manifest.children[position].application)
  {
    hide Graph.ManifestOf;
    var here := places[app.index];
    var q := here + [position];
    assert q[..|q| - 1] == here && q[|q| - 1] == position;
  }

  lemma {:induction false} ChildIsNew(g: Graph, s: Plan, app: Pending, from: nat, places: seq<Place>, visited: seq<Place>)
    requires Visiting(g, s, app, from, places, visited)
    ensures places[app.index] + [from] !in places
  {
    hide Tallied, At;
    var here := places[app.index];
    var q := here + [from];
    assert ChildPlace(q, here) by {
      assert q[..|q| - 1] == here;
    }
    assert q[|q| - 1] == from;
  }

  /** Adding the place of a child keeps the list distinct, rooted and within the depth limit. */
  lemma {:induction false} PlacesGrow(g: Graph, places: seq<Place>, here: Place, position: nat)
    requires Occur(g, places) && Rooted(g, places) && here in places && here + [position] !in places
    requires At(g, here + [position]).Some? && |here| + 1 <= g.env.limits.maxDepth
    ensures Occur(g, places + [here + [position]]) && Rooted(g, places + [here + [position]])
  {
    hide At, HasParent;
    var q := here + [position];
    var after := places + [q];
    forall i | 0 <= i < |after|
      ensures |after[i]| <= g.env.limits.maxDepth && HasParent(after, after[i])
    {
      if i < |places| {
        assert after[i] == places[i];
        ParentStays(places, q, places[i]);
      } else {
        NewHasParent(places, here, position);
      }
    }
  }

  lemma {:induction false} ParentStays(places: seq<Place>, q: Place, place: Place)
    requires HasParent(places, place)
    ensures HasParent(places + [q], place)
  {
  }

  lemma {:induction false} NewHasParent(places: seq<Place>, here: Place, position: nat)
    requires here in places
    ensures HasParent(places + [here + [position]], here + [position])
  {
    var q := here + [position];
    assert q[..|q| - 1] == here;
  }

  lemma {:induction false} FreshStays(places: seq<Place>, q: Place, index: nat)
    requires index < |places| && Fresh(places, index) && !ChildPlace(q, places[index])
    ensures Fresh(places + [q], index)
  {
    hide ChildPlace;
  }

  lemma {:induction false} QueuedStays(g: Graph, places: seq<Place>, pending: seq<Pending>, q: Place)
    requires Queued(g, places, pending) && forall j :: 0 <= j < |pending| ==> pending[j].index < |places| && !ChildPlace(q, places[pending[j].index])
    ensures Queued(g, places + [q], pending)
  {
    hide At, Fresh, ChildPlace;
    forall j | 0 <= j < |pending|
      ensures Slotted(g, places + [q], pending[j]) && Fresh(places + [q], pending[j].index)
    {
      assert Slotted(g, places, pending[j]);
      FreshStays(places, q, pending[j].index);
    }
  }

  lemma {:induction false} NotAChild(places: seq<Place>, place: Place, q: Place)
    requires HasParent(places, place) && q !in places
    ensures !ChildPlace(place, q)
  {
  }

  lemma {:induction false} NewIsFresh(g: Graph, places: seq<Place>, q: Place)
    requires Rooted(g, places) && q !in places
    ensures Fresh(places + [q], |places|)
  {
    hide HasParent;
    var after := places + [q];
    forall i | 0 <= i < |after|
      ensures !ChildPlace(after[i], q)
    {
      if i < |places| {
        NotAChild(places, places[i], q);
      }
    }
  }

  lemma {:induction false} QueuedMore(g: Graph, places: seq<Place>, pending: seq<Pending>, p: Pending, more: seq<Pending>)
    requires Queued(g, places, pending) && Slotted(g, places, p) && Fresh(places, p.index)
    requires forall j :: 0 <= j < |pending| ==> pending[j].index < p.index
    requires |more| == |pending| + 1 && more[..|pending|] == pending && more[|pending|] == p
    ensures Queued(g, places, more)
  {
    hide Slotted, Fresh;
    assert forall j :: 0 <= j < |pending| ==> more[j] == pending[j];
  }

  lemma {:induction false} FollowQueued(g: Graph, s: Plan, t: Plan, app: Pending, from: nat, places: seq<Place>, visited: seq<Place>)
    requires Visiting(g, s, app, from, places, visited) && from < |app.manifest.children| && Followed(s, t, app, app.manifest.children[from])
    requires g.ManifestOf(app.application) == Some(app.manifest)
    ensures Queued(g, places + [places[app.index] + [from]], t.pending)
  {
    hide Seen, Rooted, Graph.ManifestOf;
    var here := places[app.index];
    var q := here + [from];
    ChildIsNew(g, s, app, from, places, visited);
    ChildOccurs(g, places, app, from);
    forall j | 0 <= j < |s.pending|
      ensures s.pending[j].index < |places| && !ChildPlace(q, places[s.pending[j].index])
    {
      assert Slotted(g, places, s.pending[j]);
      assert q[..|q| - 1] == here;
    }
    QueuedStays(g, places, s.pending, q);
    NewIsFresh(g, places, q);
    if t.pending != s.pending {
      var p := t.pending[|s.pending|];
      assert Slotted(g, places + [q], p) by {
        hide At;
        assert (places + [q])[|places|] == q;
      }
      QueuedMore(g, places + [q], s.pending, p, t.pending);
    }
  }

  lemma {:induction false} FollowSeen(g: Graph, s: Plan, t: Plan, places: seq<Place>, visited: seq<Place>, q: Place)
    requires Seen(g, s, places, visited) && |places| == s.applicationCount && q !in places
    requires t.totalLayers == s.totalLayers
    requires t.pending == s.pending
      || (|t.pending| == |s.pending| + 1 && t.pending[..|s.pending|] == s.pending && t.pending[|s.pending|].index == s.applicationCount)
    ensures Seen(g, t, places + [q], visited)
  {
    hide SumOf;
    var after := places + [q];
    forall j | 0 <= j < |t.pending|
      ensures t.pending[j].index < |after| && after[t.pending[j].index] !in visited
    {
      if j < |s.pending| {
        assert t.pending[j] == s.pending[j];
      } else {
        assert after[|places|] == q;
      }
    }
  }

  lemma {:induction false} FollowTallied(g: Graph, s: Plan, t: Plan, app: Pending, from: nat, places: seq<Place>, visited: seq<Place>)
    requires Visiting(g, s, app, from, places, visited) && from < |app.manifest.children| && Followed(s, t, app, app.manifest.children[from])
    requires g.ManifestOf(app.application) == Some(app.manifest) && app.depth + 1 <= g.env.limits.maxDepth
    ensures Tallied(g, t, places + [places[app.index] + [from]], visited)
  {
    hide Queued, Seen, Rooted, Occur, At, Graph.ManifestOf, ChildPlace;
    var here := places[app.index];
    ChildIsNew(g, s, app, from, places, visited);
    ChildOccurs(g, places, app, from);
    PlacesGrow(g, places, here, from);
    FollowQueued(g, s, t, app, from, places, visited);
    FollowSeen(g, s, t, places, visited, here + [from]);
  }

  /** Following a child adds its place. */
  lemma {:induction false} FollowVisiting(g: Graph, s: Plan, t: Plan, app: Pending, from: nat, places: seq<Place>, visited: seq<Place>)
    requires Visiting(g, s, app, from, places, visited) && from < |app.manifest.children| && Followed(s, t, app, app.manifest.children[from])
    requires g.ManifestOf(app.application) == Some(app.manifest) && app.depth + 1 <= g.env.limits.maxDepth
    ensures Visiting(g, t, app, from + 1, places + [places[app.index] + [from]], visited)
  {
    var here := places[app.index];
    var after := places + [here + [from]];
    FollowTallied(g, s, t, app, from, places, visited);
    assert |places| == s.applicationCount;
    hide Tallied, At, Graph.ManifestOf, ChildPlace;
    FollowApart(s, t, app);
    FollowBelow(places, here, from);
    assert after[app.index] == here;
  }

  lemma {:induction false} FollowApart(s: Plan, t: Plan, app: Pending)
    requires app.index < s.applicationCount && forall j :: 0 <= j < |s.pending| ==> s.pending[j].index != app.index
    requires t.pending == s.pending
      || (|t.pending| == |s.pending| + 1 && t.pending[..|s.pending|] == s.pending && t.pending[|s.pending|].index == s.applicationCount)
    ensures forall j :: 0 <= j < |t.pending| ==> t.pending[j].index != app.index
  {
    forall j | 0 <= j < |t.pending|
      ensures t.pending[j].index != app.index
    {
      if j < |s.pending| && t.pending != s.pending {
        assert t.pending[j] == t.pending[..|s.pending|][j];
      }
    }
  }

  lemma {:induction false} FollowBelow(places: seq<Place>, here: Place, from: nat)
    requires forall i :: 0 <= i < |places| && ChildPlace(places[i], here) ==> places[i][|places[i]| - 1] < from
    ensures var after := places + [here + [from]];
      forall i :: 0 <= i < |after| && ChildPlace(after[i], here) ==> after[i][|after[i]| - 1] < from + 1
  {
  }
}
