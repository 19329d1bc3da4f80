/** Exactly when a compiled application plans without blockers, as a condition on its sources and the limits
    (src/compile.rs:224-319, src/application_plan.rs:767-1085). */
module CompiledFits {
  import opened Basics
  import opened Upstream
  import opened Resolver
  import opened Planner
  import opened PlanPaths
  import opened Occurrences
  import opened PlanReport
  import opened PlanClosure
  import opened PlanFits
  import opened Directory
  import opened Compiler
  import opened CompiledTree
  import opened SourcePlaces

  function AsObjects(objects: map<Kappa, Bytes>): map<Kappa, ResolvedObject> {
    map k | k in objects :: ResolvedObject(k, objects[k], Embedded)
  }

  /** The source tree is within every limit; the layer and byte totals saturate. */
  ghost predicate SourceFits(up: Crates, src: Source, limits: PlanLimits) {
    && Size(src) <= limits.maxApplications
    && Height(src) - 1 <= limits.maxDepth
    && U64Of(LayersOf(src)) <= limits.maxLayers
    && |ObjectsOf(up, src)| <= limits.maxObjects
    && U64Of(TotalBytes(AsObjects(ObjectsOf(up, src)))) <= limits.maxResolvedBytes
  }

  // ---------- Places of the graph are places of the tree ----------

  lemma {:induction false} SourceAtSnoc(src: Source, place: Place, p: nat)
    ensures SourceAt(src, place + [p]) ==
      var sub := SourceAt(src, place);
      if sub.Some? && p < |sub.value.children| then Some(sub.value.children[p].source) else None
    decreases |place|
  {
    var q := place + [p];
    if place == [] {
      assert q[1..] == [];
    } else if place[0] < |src.children| {
      assert q[1..] == place[1..] + [p];
      SourceAtSnoc(src.children[place[0]].source, place[1..], p);
    }
  }

  /** The application at a place is the subtree at that place. */
  ghost predicate Agrees(g: Graph, table: Table, src: Source, place: Place) {
    match SourceAt(src, place)
    case None => At(g, place).None?
    case Some(sub) => At(g, place).Some? && Stands(g, table, At(g, place).value, sub)
  }

  lemma {:induction false} PlacesAgree(g: Graph, table: Table, src: Source, place: Place)
    requires Plans(g, table, src)
    ensures Agrees(g, table, src, place)
    decreases |place|
  {
    hide ManifestFor, Plans, Inside, Stands, Graph.ManifestOf;
    if place == [] {
      RootStands(g, table, src);
    } else {
      var n := |place| - 1;
      var above := place[..n];
      assert place == above + [place[n]];
      PlacesAgree(g, table, src, above);
      SourceAtSnoc(src, above, place[n]);
      AtSnoc(g, above, place[n]);
      hide SourceAt;
      if SourceAt(src, above).Some? {
        var sub := SourceAt(src, above).value;
        StandsIs(g, table, At(g, above).value, sub);
        ManifestWidth(g.env.up, sub);
        if place[n] < |sub.children| {
          ChildNamed(g.env.up, sub, place[n]);
          ChildStands(g, table, src, sub, place[n]);
        }
      }
    }
  }

  lemma {:induction false} AtSnoc(g: Graph, place: Place, p: nat)
    ensures At(g, place + [p]) ==
      match ManifestAt(g, place)
      case None => None
      case Some(m) => if p < |m.children| then Some(m.children[p].application) else None
    ensures ManifestAt(g, place) == if At(g, place).None? then None else g.ManifestOf(At(g, place).value)
  {
    hide Graph.ManifestOf;
    var q := place + [p];
    assert q[..|q| - 1] == place && q[|q| - 1] == p;
  }

  lemma {:induction false} StandsIs(g: Graph, table: Table, k: Kappa, sub: Source)
    requires Stands(g, table, k, sub)
    ensures Inside(g.env, table, sub) && g.ManifestOf(k) == Some(ManifestFor(g.env.up, sub))
  {
    hide ManifestFor, Inside, Graph.ManifestOf;
  }

  lemma {:induction false} ManifestsAgree(g: Graph, table: Table, src: Source, place: Place)
    requires Plans(g, table, src)
    ensures SourceAt(src, place).Some? <==> At(g, place).Some?
    ensures ManifestAt(g, place) ==
      match SourceAt(src, place) case None => None case Some(sub) => Some(ManifestFor(g.env.up, sub))
  {
    hide ManifestFor, Plans, Stands, Graph.ManifestOf, SourceAt, At;
    PlacesAgree(g, table, src, place);
    if SourceAt(src, place).Some? {
      StandsIs(g, table, At(g, place).value, SourceAt(src, place).value);
    }
  }

  lemma {:induction false} ListIsTree(g: Graph, table: Table, src: Source)
    requires Plans(g, table, src)
    ensures Tree(g, PlaceList(src))
  {
    hide Plans, At, PlaceList, SourceAt, ManifestFor;
    ListDistinct(src);
    forall place: Place
      ensures place in PlaceList(src) <==> At(g, place).Some?
    {
      ListHas(src, place);
      ManifestsAgree(g, table, src, place);
    }
  }

  // ---------- The quantities agree ----------

  lemma {:induction false} TreesAgree(g: Graph, a: seq<Place>, b: seq<Place>)
    requires Tree(g, a) && Tree(g, b)
    ensures |a| == |b| && SumOf(LayerWeights(g), a) == SumOf(LayerWeights(g), b)
    ensures LabelsOf(g, a) == LabelsOf(g, b)
    ensures forall place :: place in a <==> place in b
  {
    hide At, SumOf, LayerWeights, LabelsOf;
    SumWithin(LayerWeights(g), a, b);
    SumWithin(LayerWeights(g), b, a);
    forall k
      ensures k in LabelsOf(g, a) <==> k in LabelsOf(g, b)
    {
      NamedIsLabel(g, a, k);
      NamedIsLabel(g, b, k);
    }
  }

  /** Being within the limits does not depend on how the places are listed. */
  lemma {:induction false} WithinAgree(g: Graph, a: seq<Place>, b: seq<Place>)
    requires Tree(g, a) && Tree(g, b) && WithinLimits(g, a)
    ensures WithinLimits(g, b)
  {
    hide Tree, SumOf, LayerWeights, LabelsOf, TotalBytes, Held;
    TreesAgree(g, a, b);
    forall i | 0 <= i < |b|
      ensures |b[i]| <= g.env.limits.maxDepth
    {
      assert b[i] in a;
    }
  }

  lemma {:induction false} SumsAgree(a: Place -> nat, b: Place -> nat, places: seq<Place>)
    requires forall place :: a(place) == b(place)
    ensures SumOf(a, places) == SumOf(b, places)
    decreases |places|
  {
    if places != [] {
      SumsAgree(a, b, places[..|places| - 1]);
    }
  }

  lemma {:induction false} LayersAgree(g: Graph, table: Table, src: Source)
    requires Plans(g, table, src)
    ensures SumOf(LayerWeights(g), PlaceList(src)) == LayersOf(src)
  {
    hide Plans, PlaceList, SumOf, At, ManifestAt, SourceAt, LayersOf, ManifestFor;
    forall place
      ensures LayerWeights(g)(place) == SourceWeights(src)(place)
    {
      ManifestsAgree(g, table, src, place);
      if SourceAt(src, place).Some? {
        LayerWidth(g.env.up, SourceAt(src, place).value);
      }
    }
    SumsAgree(LayerWeights(g), SourceWeights(src), PlaceList(src));
    LayersAre(src);
  }

  lemma {:induction false} LayerWidth(up: Crates, src: Source)
    ensures |ManifestFor(up, src).layers| == |src.layers|
  {
  }

  lemma {:induction false} NamesAgree(g: Graph, table: Table, src: Source, k: Kappa)
    requires Plans(g, table, src)
    ensures NamedSomewhere(g, k) <==> k in ObjectsOf(g.env.up, src)
  {
    hide Plans, References, ManifestFor, At, ManifestAt, SourceAt, ObjectsOf;
    ObjectsAre(g.env.up, src, k);
    if NamedSomewhere(g, k) {
      var place :| NamedAt(g, place, k);
      ManifestsAgree(g, table, src, place);
      assert NamedIn(g.env.up, src, place, k);
    }
    if NamedInTree(g.env.up, src, k) {
      var place :| NamedIn(g.env.up, src, place, k);
      ManifestsAgree(g, table, src, place);
      assert NamedAt(g, place, k);
    }
  }

  lemma {:induction false} LabelsAgree(g: Graph, table: Table, src: Source)
    requires Plans(g, table, src)
    ensures LabelsOf(g, PlaceList(src)) == ObjectsOf(g.env.up, src).Keys
  {
    hide Plans, PlaceList, LabelsOf, ObjectsOf, NamedSomewhere, Tree;
    ListIsTree(g, table, src);
    forall k
      ensures k in LabelsOf(g, PlaceList(src)) <==> k in ObjectsOf(g.env.up, src).Keys
    {
      NamedIsLabel(g, PlaceList(src), k);
      NamesAgree(g, table, src, k);
    }
  }

  lemma {:induction false} BytesSame(a: map<Kappa, ResolvedObject>, b: map<Kappa, ResolvedObject>)
    requires forall k :: k in a <==> k in b
    requires forall k :: k in a ==> |a[k].bytes| == |b[k].bytes|
    ensures TotalBytes(a) == TotalBytes(b)
    decreases |a|
  {
    if a == map[] {
      assert b == map[];
    } else {
      var k :| k in a;
      TotalBytesRemove(a, k);
      TotalBytesRemove(b, k);
      BytesSame(a - {k}, b - {k});
    }
  }

  /** Every label the tree names is held, with the bytes the tree gives it. */
  lemma {:induction false} NamedIsHeld(g: Graph, table: Table, src: Source, place: Place, k: Kappa)
    requires Plans(g, table, src) && NamedIn(g.env.up, src, place, k)
    ensures k in table.labels
    decreases |place|
  {
    hide ManifestFor, References, At;
    PlacesAgree(g, table, src, place);
    var sub := SourceAt(src, place).value;
    StandsIs(g, table, At(g, place).value, sub);
    hide SourceAt, Plans;
  }

  lemma {:induction false} HeldIsText(g: Graph, table: Table, src: Source, k: Kappa)
    requires Plans(g, table, src) && k in table.labels
    ensures Good(g.env, k) && Stored(g.env, k) in table.texts
  {
    hide ManifestFor, Inside, Stored, Good;
  }

  lemma {:induction false} ObjectIsHeld(g: Graph, table: Table, src: Source, k: Kappa)
    requires Plans(g, table, src) && k in ObjectsOf(g.env.up, src)
    ensures Stores(g.env, k) && Stored(g.env, k) == ObjectsOf(g.env.up, src)[k]
  {
    hide ManifestFor, ObjectsOf, Stores, Stored, NamedIn, Texts, Covered, ValidTree;
    ObjectsAre(g.env.up, src, k);
    var place :| NamedIn(g.env.up, src, place, k);
    NamedIsHeld(g, table, src, place, k);
    ObjectsAddressed(g.env.up, src);
    ObjectsFromTexts(g.env.up, src);
    HeldIsText(g, table, src, k);
    StoredIfGood(g.env, k);
    assert g.env.up.address(Stored(g.env, k)) == g.env.up.address(ObjectsOf(g.env.up, src)[k]);
  }

  lemma {:induction false} BytesAgree(g: Graph, table: Table, src: Source)
    requires Plans(g, table, src)
    ensures TotalBytes(Held(g.env, ObjectsOf(g.env.up, src).Keys)) == TotalBytes(AsObjects(ObjectsOf(g.env.up, src)))
  {
    hide Plans, ObjectsOf, TotalBytes, Stores, Stored;
    var objects := ObjectsOf(g.env.up, src);
    var held, own := Held(g.env, objects.Keys), AsObjects(objects);
    forall k | k in held
      ensures |held[k].bytes| == |own[k].bytes|
    {
      ObjectIsHeld(g, table, src, k);
    }
    BytesSame(held, own);
  }

  lemma {:induction false} DepthsAgree(src: Source, bound: nat)
    ensures (forall i :: 0 <= i < |PlaceList(src)| ==> |PlaceList(src)[i]| <= bound) <==> Height(src) - 1 <= bound
  {
    hide PlaceList, SourceAt, Height;
    var list := PlaceList(src);
    var deepest := DeepestPlace(src);
    ListHas(src, deepest);
    var d :| 0 <= d < |list| && list[d] == deepest;
    forall i | 0 <= i < |list|
      ensures |list[i]| < Height(src)
    {
      ListHas(src, list[i]);
      PlacesAreShallow(src, list[i]);
    }
  }

  /** The unfolding of a compiled tree fits exactly when its sources do. */
  lemma {:induction false} FitsIffSource(g: Graph, table: Table, src: Source)
    requires Plans(g, table, src)
    ensures Fits(g) <==> SourceFits(g.env.up, src, g.env.limits)
  {
    hide Plans, PlaceList, SumOf, LayerWeights, LabelsOf, Held, TotalBytes, ObjectsOf, Tree, Size, LayersOf, Height, AsObjects;
    var list := PlaceList(src);
    ListIsTree(g, table, src);
    SizeIs(src);
    LayersAgree(g, table, src);
    LabelsAgree(g, table, src);
    BytesAgree(g, table, src);
    DepthsAgree(src, g.env.limits.maxDepth);
    assert |ObjectsOf(g.env.up, src)| == |ObjectsOf(g.env.up, src).Keys|;
    assert WithinLimits(g, list) <==> SourceFits(g.env.up, src, g.env.limits);
    if Fits(g) {
      var places :| Tree(g, places) && WithinLimits(g, places);
      hide WithinLimits;
      WithinAgree(g, places, list);
    }
  }

  // ---------- Main result ----------

  /** A compiled application plans without any blocker exactly when it has a primary layer and its source tree
      is within every limit; the plan is then the unfolding of its manifest, with every object resolved. */
  lemma {:induction false} FatArchiveUnfolds(tc: Toolchain, src: Source, limits: PlanLimits, local: Kappa -> Result<Option<Bytes>>)
    requires Laws(tc.up) && Distinguishes(tc.up.address, Texts(tc.up, src)) && Emit(tc, src, Fat).Ok?
    ensures var r := Explain(tc.up, Emit(tc, src, Fat).value, limits, local);
      && r.Ok?
      && (r.value.blockers == [] <==> src.primary.Some? && SourceFits(tc.up, src, limits))
      && (r.value.blockers == [] ==>
        Settles(Graph(SourcesOf(tc.up, Emit(tc, src, Fat).value, limits, local), r.value.application, ManifestFor(tc.up, src)), r.value))
  {
    hide Explain, ManifestFor, Covered, BlobLabels, VerifyRequired, Emit, Settles, Plans, Texts, SourceFits, Fits, Closed, Run, Start;
    var a := Emit(tc, src, Fat).value;
    FatArchivePlans(tc, src, limits, local);
    ExplainSettles(tc.up, a, limits, local);
    var g := EmittedGraph(tc, src, limits, local);
    EmittedPlans(tc, src, limits, local);
    TreeIsClosed(g, TableOf(tc.up, src, a), src);
    ClosedPlansCleanIffFits(g);
    FitsIffSource(g, TableOf(tc.up, src, a), src);
    ExplainedBlockers(tc.up, a, limits, local);
    PrimaryIs(tc.up, src);
  }

  /** The blockers of a report are those of its run, and one more for a library. */
  lemma {:induction false} ExplainedBlockers(up: Crates, archive: Archive, limits: PlanLimits, local: Kappa -> Result<Option<Bytes>>)
    requires ManifestsRoundTrip(up) && Explain(up, archive, limits, local).Ok?
    ensures var r := Explain(up, archive, limits, local).value;
      var g := Graph(SourcesOf(up, archive, limits, local), up.address(up.encodeManifest(r.manifest)), r.manifest);
      && Run(g.env, Start(g.env, g.root, g.manifest)).Ok?
      && r.blockers == Run(g.env, Start(g.env, g.root, g.manifest)).value.closure.blockers
        + (if r.manifest.primary.None? then [LibraryArchive] else [])
  {
    hide Run, Start, VerifyRequired, WithSources, PlannedLayers, EmbeddedMap, AdmissionsWithSources;
  }
}
