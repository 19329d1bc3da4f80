/** When planning ends without blockers: exactly when the whole unfolding fits the limits
    (src/application_plan.rs:650-737, 858-1046). */
module PlanFits {
  import opened Basics
  import opened Upstream
  import opened Resolver
  import opened Planner
  import opened PlanPaths
  import opened Occurrences
  import opened Founding
  import opened Census
  import opened Sweep
  import opened PlanClosure

  /** All places of the unfolding, each once. */
  ghost predicate Tree(g: Graph, places: seq<Place>) {
    NoDuplicates(places) && forall place: Place :: place in places <==> At(g, place).Some?
  }

  ghost function NamesAt(g: Graph, place: Place): set<Kappa> {
    if ManifestAt(g, place).Some? then References(ManifestAt(g, place).value) else {}
  }

  /** Every label named at some of these places. */
  ghost function LabelsOf(g: Graph, places: seq<Place>): set<Kappa> {
    if places == [] then {} else LabelsOf(g, places[..|places| - 1]) + NamesAt(g, places[|places| - 1])
  }

  /** What the sources hold under some labels. */
  ghost function Held(env: Sources, labels: set<Kappa>): map<Kappa, ResolvedObject> {
    map k | k in labels :: ResolvedObject(k, if Stores(env, k) then Stored(env, k) else [], SourceOf(env, k))
  }

  /** The unfolding is within every limit; the layer and byte totals saturate. */
  ghost predicate WithinLimits(g: Graph, places: seq<Place>) {
    var limits := g.env.limits;
    && |places| <= limits.maxApplications
    && (forall i :: 0 <= i < |places| ==> |places[i]| <= limits.maxDepth)
    && U64Of(SumOf(LayerWeights(g), places)) <= limits.maxLayers
    && |LabelsOf(g, places)| <= limits.maxObjects
    && U64Of(TotalBytes(Held(g.env, LabelsOf(g, places)))) <= limits.maxResolvedBytes
  }

  ghost predicate Fits(g: Graph) {
    exists places :: Tree(g, places) && WithinLimits(g, places)
  }

  // ---------- Labels ----------

  lemma {:induction false} LabelsAre(g: Graph, places: seq<Place>, k: Kappa)
    ensures k in LabelsOf(g, places) <==> exists i :: 0 <= i < |places| && k in NamesAt(g, places[i])
    decreases |places|
  {
    hide NamesAt;
    if places != [] {
      var n := |places| - 1;
      LabelsAre(g, places[..n], k);
      if k in LabelsOf(g, places[..n]) {
        var i :| 0 <= i < n && k in NamesAt(g, places[..n][i]);
        assert k in NamesAt(g, places[i]);
      }
      if i :| 0 <= i < |places| && k in NamesAt(g, places[i]) {
        if i < n {
          assert k in NamesAt(g, places[..n][i]);
        }
      }
    }
  }

  lemma {:induction false} NamedIsLabel(g: Graph, places: seq<Place>, k: Kappa)
    requires Tree(g, places)
    ensures k in LabelsOf(g, places) <==> NamedSomewhere(g, k)
  {
    hide LabelsOf, References;
    LabelsAre(g, places, k);
    if NamedSomewhere(g, k) {
      var place :| NamedAt(g, place, k);
      assert At(g, place).Some?;
      var i :| 0 <= i < |places| && places[i] == place;
      assert k in NamesAt(g, places[i]);
    }
    if i :| 0 <= i < |places| && k in NamesAt(g, places[i]) {
      assert NamedAt(g, places[i], k);
    }
  }

  // ---------- Bytes ----------

  lemma {:induction false} BytesWithin(part: map<Kappa, ResolvedObject>, whole: map<Kappa, ResolvedObject>)
    requires forall k :: k in part ==> k in whole && part[k] == whole[k]
    ensures TotalBytes(part) <= TotalBytes(whole)
    decreases |part|
  {
    if part != map[] {
      var k :| k in part;
      TotalBytesRemove(part, k);
      TotalBytesRemove(whole, k);
      BytesWithin(part - {k}, whole - {k});
    } else {
      NoBytes();
    }
  }

  lemma {:induction false} NoBytes()
    ensures TotalBytes(map[]) == 0
  {
  }

  lemma {:induction false} MatchesHeld(env: Sources, labels: set<Kappa>, k: Kappa, resolved: ResolvedObject)
    requires k in labels && ObjectMatches(env, k, resolved)
    ensures Held(env, labels)[k] == resolved
  {
  }

  // ---------- Nothing exceeds ----------

  lemma {:induction false} ChainHasPlace(g: Graph, path: seq<Kappa>) returns (place: Place)
    requires Chain(g, path)
    ensures |place| == |path| - 1 && At(g, place) == Some(path[|path| - 1])
    decreases |path|
  {
    hide Graph.ManifestOf;
    var n := |path| - 1;
    if n == 0 {
      place := [];
    } else {
      var init := path[..n];
      forall i | 0 <= i < |init| - 1
        ensures g.Edge(init[i], init[i + 1])
      {
        assert g.Edge(path[i], path[i + 1]);
      }
      var above := ChainHasPlace(g, init);
      assert g.Edge(path[n - 1], path[n]);
      var p :| 0 <= p < |g.ManifestOf(path[n - 1]).value.children| && g.ManifestOf(path[n - 1]).value.children[p].application == path[n];
      place := above + [p];
      assert place[..|place| - 1] == above && place[|place| - 1] == p;
    }
  }

  lemma {:induction false} NotDeep(g: Graph, places: seq<Place>, path: seq<Kappa>, actual: U64)
    requires Tree(g, places) && WithinLimits(g, places)
    ensures !Deep(g, path, actual)
  {
    hide Chain, At, LabelsOf, SumOf, TotalBytes, Held, LayerWeights;
    if Chain(g, path) {
      var place := ChainHasPlace(g, path);
      assert place in places;
    }
  }

  lemma {:induction false} NotCrowded(g: Graph, places: seq<Place>, some: seq<Place>, actual: U64)
    requires Tree(g, places) && WithinLimits(g, places)
    ensures !Crowded(g, some, actual) && !Layered(g, some, actual)
  {
    hide At, LabelsOf, SumOf, TotalBytes, Held, LayerWeights;
    if Occur(g, some) {
      SumWithin(LayerWeights(g), some, places);
    }
  }

  lemma {:induction false} NotMany(g: Graph, places: seq<Place>, labels: set<Kappa>, actual: U64)
    requires Tree(g, places) && WithinLimits(g, places)
    ensures !Many(g, labels, actual)
  {
    hide At, LabelsOf, SumOf, TotalBytes, Held, LayerWeights, NamedSomewhere, Tree;
    if forall k :: k in labels ==> NamedSomewhere(g, k) {
      forall k | k in labels
        ensures k in LabelsOf(g, places)
      {
        NamedIsLabel(g, places, k);
      }
      SetWithin(labels, LabelsOf(g, places));
    }
  }

  lemma {:induction false} SetWithin(part: set<Kappa>, whole: set<Kappa>)
    requires part <= whole
    ensures |part| <= |whole|
    decreases |part|
  {
    if part != {} {
      var k :| k in part;
      SetWithin(part - {k}, whole - {k});
    }
  }

  lemma {:induction false} NotHeavy(g: Graph, places: seq<Place>, objects: map<Kappa, ResolvedObject>, actual: U64)
    requires Tree(g, places) && WithinLimits(g, places)
    ensures !Heavy(g, objects, actual)
  {
    hide At, LabelsOf, SumOf, TotalBytes, LayerWeights, NamedSomewhere, Tree, ObjectMatches, Held;
    if NamedObjects(g, objects) {
      var labels := LabelsOf(g, places);
      var held := Held(g.env, labels);
      HeldKeys(g.env, labels);
      forall k | k in objects
        ensures k in held && objects[k] == held[k]
      {
        NamedIsLabel(g, places, k);
        MatchesHeld(g.env, labels, k, objects[k]);
      }
      BytesWithin(objects, held);
    }
  }

  lemma {:induction false} HeldKeys(env: Sources, labels: set<Kappa>)
    ensures forall k :: k in Held(env, labels) <==> k in labels
  {
  }

  /** No limit is exceeded by an unfolding that fits. */
  lemma {:induction false} NothingExceeds(g: Graph, limit: Limit, maximum: U64, actual: U64)
    requires Fits(g)
    ensures !Exceeds(g, limit, maximum, actual)
  {
    hide Tree, WithinLimits, Deep, Crowded, Layered, Many, Heavy;
    var places :| Tree(g, places) && WithinLimits(g, places);
    forall path
      ensures !Deep(g, path, actual)
    {
      NotDeep(g, places, path, actual);
    }
    forall some
      ensures !Crowded(g, some, actual) && !Layered(g, some, actual)
    {
      NotCrowded(g, places, some, actual);
    }
    forall labels
      ensures !Many(g, labels, actual)
    {
      NotMany(g, places, labels, actual);
    }
    forall objects
      ensures !Heavy(g, objects, actual)
    {
      NotHeavy(g, places, objects, actual);
    }
  }

  // ---------- A clean run fits ----------

  lemma {:induction false} CleanIsTree(g: Graph, s: Plan, places: seq<Place>, visited: seq<Place>)
    requires Tallied(g, s, places, visited) && Swept(g, s, places, visited, None) && s.closure.blockers == [] && s.pending == []
    ensures Tree(g, places)
  {
    hide Queued, Rooted, Seen, At, Done;
    forall place: Place
      ensures place in places <==> At(g, place).Some?
    {
      if At(g, place).Some? {
        PlaceIsCounted(g, s, places, visited, place);
      }
    }
  }

  lemma {:induction false} PlaceIsCounted(g: Graph, s: Plan, places: seq<Place>, visited: seq<Place>, place: Place)
    requires Tallied(g, s, places, visited) && Swept(g, s, places, visited, None) && s.closure.blockers == [] && s.pending == []
    requires At(g, place).Some?
    ensures place in places
    decreases |place|
  {
    hide Queued, Rooted, Seen, Occur, References, Graph.ManifestOf;
    if place == [] {
      assert places[0] == place;
    } else {
      var n := |place| - 1;
      var above := place[..n];
      PlaceIsCounted(g, s, places, visited, above);
      var i :| 0 <= i < |places| && places[i] == above;
      assert !Waiting(s.pending, i);
      assert Done(g, s.closure, places, visited, above);
      assert place == above + [place[n]];
    }
  }

  lemma {:induction false} CleanLayers(g: Graph, s: Plan, places: seq<Place>, visited: seq<Place>)
    requires Tallied(g, s, places, visited) && Swept(g, s, places, visited, None) && s.closure.blockers == [] && s.pending == []
    ensures U64Of(SumOf(LayerWeights(g), places)) <= g.env.limits.maxLayers
  {
    hide Queued, Rooted, At, SumOf, LayerWeights, References, ManifestAt;
    forall i | 0 <= i < |places|
      ensures places[i] in visited
    {
      assert !Waiting(s.pending, i);
      assert Done(g, s.closure, places, visited, places[i]);
    }
    SumWithin(LayerWeights(g), places, visited);
  }

  lemma {:induction false} CleanReferenced(g: Graph, s: Plan, places: seq<Place>, visited: seq<Place>)
    requires Tallied(g, s, places, visited) && Swept(g, s, places, visited, None) && s.closure.blockers == [] && s.pending == []
    requires Founded(g, s.closure) && Tree(g, places)
    ensures s.closure.referenced == LabelsOf(g, places)
  {
    hide Tallied, LabelsOf, References, ManifestAt, At, Tree, NamedSomewhere;
    forall k
      ensures k in s.closure.referenced <==> k in LabelsOf(g, places)
    {
      NamedIsLabel(g, places, k);
      LabelsAre(g, places, k);
      if i :| 0 <= i < |places| && k in NamesAt(g, places[i]) {
        assert !Waiting(s.pending, i);
        assert Done(g, s.closure, places, visited, places[i]);
      }
    }
  }

  lemma {:induction false} CleanCounts(env: Sources, c: State)
    requires Consistent(env, c)
    ensures |c.referenced| <= env.limits.maxObjects && U64Of(TotalBytes(c.objects)) <= env.limits.maxResolvedBytes
  {
    hide Invariant, AllReal, TotalBytes;
  }

  /** Without blockers everything asked for was found. */
  lemma {:induction false} CleanFound(env: Sources, c: State, k: Kappa)
    requires Invariant(env, c) && c.blockers == []
    ensures k in c.referenced <==> k in c.objects
    ensures k in c.objects ==> ObjectMatches(env, k, c.objects[k])
  {
    hide ObjectMatches;
  }

  lemma {:induction false} CleanObjects(g: Graph, c: State)
    requires Consistent(g.env, c) && c.blockers == []
    ensures Held(g.env, c.referenced) == c.objects
  {
    ConsistentInvariant(g.env, c);
    hide Consistent, Invariant, ObjectMatches, Held;
    HeldKeys(g.env, c.referenced);
    var held := Held(g.env, c.referenced);
    forall k
      ensures k in held <==> k in c.objects
      ensures k in held ==> k in c.objects && held[k] == c.objects[k]
    {
      CleanFound(g.env, c, k);
      if k in c.referenced {
        MatchesHeld(g.env, c.referenced, k, c.objects[k]);
      }
    }
  }

  lemma {:induction false} ConsistentInvariant(env: Sources, c: State)
    requires Consistent(env, c)
    ensures Invariant(env, c)
  {
  }

  lemma {:induction false} CleanShallow(g: Graph, s: Plan, places: seq<Place>, visited: seq<Place>)
    requires Tallied(g, s, places, visited)
    ensures |places| == s.applicationCount && forall i :: 0 <= i < |places| ==> |places[i]| <= g.env.limits.maxDepth
  {
    hide Queued, Seen, Occur, HasParent;
  }

  /** A run that ends without blockers: its whole unfolding is within every limit. */
  lemma {:induction false} CleanFits(g: Graph)
    ensures var r := Run(g.env, Start(g.env, g.root, g.manifest)); r.Ok? && r.value.closure.blockers == [] ==> Fits(g)
  {
    hide Run, Graph.Reached, Consistent, Founded, Tallied, Swept, Tree, SumOf, LayerWeights, LabelsOf, TotalBytes, Held;
    StartStanding(g);
    var places, visited := RunStanding(g, Start(g.env, g.root, g.manifest), [[]], []);
    var r := Run(g.env, Start(g.env, g.root, g.manifest));
    if r.Ok? && r.value.closure.blockers == [] {
      var s := r.value;
      RunNeedsOne(g);
      CleanIsTree(g, s, places, visited);
      CleanLayers(g, s, places, visited);
      CleanReferenced(g, s, places, visited);
      CleanCounts(g.env, s.closure);
      CleanObjects(g, s.closure);
      CleanShallow(g, s, places, visited);
      assert WithinLimits(g, places);
    }
  }

  lemma {:induction false} RunNeedsOne(g: Graph)
    requires Run(g.env, Start(g.env, g.root, g.manifest)).Ok? && Run(g.env, Start(g.env, g.root, g.manifest)).value.closure.blockers == []
    ensures g.env.limits.maxApplications >= 1
  {
    hide Visit;
  }

  /** On sources that hold everything, planning ends without blockers exactly when the whole unfolding is within
      every limit. */
  lemma {:induction false} ClosedPlansCleanIffFits(g: Graph)
    requires Closed(g)
    ensures var r := Run(g.env, Start(g.env, g.root, g.manifest)); r.Ok? && (r.value.closure.blockers == [] <==> Fits(g))
  {
    hide Run, Start, Closed, Graph.Bounded, Consistent, Fits, Real, Exceeds;
    StartKeeps(g);
    StartLimits(g);
    RunLimits(g, Start(g.env, g.root, g.manifest));
    CleanFits(g);
    var s := Run(g.env, Start(g.env, g.root, g.manifest)).value;
    RunBlockersReal(g);
    if Fits(g) && s.closure.blockers != [] {
      var b := s.closure.blockers[0];
      assert Real(g, b);
      LimitIsExceeded(g, b);
      NothingExceeds(g, b.limit, b.maximum, b.actual);
    }
  }

  lemma {:induction false} LimitIsExceeded(g: Graph, blocker: PlanBlocker)
    requires Real(g, blocker) && blocker.LimitExceeded?
    ensures Exceeds(g, blocker.limit, blocker.maximum, blocker.actual)
  {
    hide Exceeds;
  }
}
