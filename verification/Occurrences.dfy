/** The applications of a manifest graph, one per place of its unfolding, and what a planning blocker certifies
    about them (src/application_plan.rs:165-309, 843-1046). Nothing here depends on the planner's state. */
module Occurrences {
  import opened Basics
  import opened Upstream
  import opened Resolver
  import opened PlanPaths

  /** Child positions from the root: one application of the unfolded tree. */
  type Place = seq<nat>

  /** The application at a place. */
  ghost function At(g: Graph, place: Place): Option<Kappa>
    decreases |place|, 0
  {
    if place == [] then Some(g.root)
    else
      var n := |place| - 1;
      match ManifestAt(g, place[..n])
      case None => None
      case Some(m) => if place[n] < |m.children| then Some(m.children[place[n]].application) else None
  }

  ghost function ManifestAt(g: Graph, place: Place): Option<AppManifest>
    decreases |place|, 1
  {
    match At(g, place)
    case None => None
    case Some(k) => g.ManifestOf(k)
  }

  /** Distinct places of the unfolding. */
  ghost predicate Occur(g: Graph, places: seq<Place>) {
    NoDuplicates(places) && forall i :: 0 <= i < |places| ==> At(g, places[i]).Some?
  }

  /** Some application of the unfolding names this label. */
  ghost predicate NamedAt(g: Graph, place: Place, k: Kappa) {
    ManifestAt(g, place).Some? && k in References(ManifestAt(g, place).value)
  }

  ghost predicate NamedSomewhere(g: Graph, k: Kappa) {
    exists place :: NamedAt(g, place, k)
  }

  // ---------- Sums over places ----------

  ghost function SumOf(weight: Place -> nat, places: seq<Place>): nat {
    if places == [] then 0 else SumOf(weight, places[..|places| - 1]) + weight(places[|places| - 1])
  }

  ghost function LayersAt(g: Graph, place: Place): nat {
    if ManifestAt(g, place).Some? then |ManifestAt(g, place).value.layers| else 0
  }

  ghost function LayerWeights(g: Graph): Place -> nat {
    place => LayersAt(g, place)
  }

  lemma {:induction false} SumSnoc(weight: Place -> nat, places: seq<Place>, place: Place)
    ensures SumOf(weight, places + [place]) == SumOf(weight, places) + weight(place)
  {
    assert (places + [place])[..|places|] == places;
  }

  lemma {:induction false} SumWithout(weight: Place -> nat, places: seq<Place>, i: nat)
    requires i < |places|
    ensures SumOf(weight, places) == SumOf(weight, places[..i] + places[i + 1..]) + weight(places[i])
    decreases |places|
  {
    var n := |places| - 1;
    if i == n {
      assert places[..i] + places[i + 1..] == places[..n];
    } else {
      var init := places[..n];
      SumWithout(weight, init, i);
      assert places[..i] + places[i + 1..] == (init[..i] + init[i + 1..]) + [places[n]];
      SumSnoc(weight, init[..i] + init[i + 1..], places[n]);
    }
  }

  /** Distinct places taken from a list weigh, and count, no more than the list. */
  lemma {:induction false} SumWithin(weight: Place -> nat, part: seq<Place>, whole: seq<Place>)
    requires NoDuplicates(part) && forall i :: 0 <= i < |part| ==> part[i] in whole
    ensures SumOf(weight, part) <= SumOf(weight, whole) && |part| <= |whole|
    decreases |part|
  {
    if part != [] {
      var n := |part| - 1;
      var i :| 0 <= i < |whole| && whole[i] == part[n];
      var rest := whole[..i] + whole[i + 1..];
      forall j | 0 <= j < n
        ensures part[..n][j] in rest
      {
        var m :| 0 <= m < |whole| && whole[m] == part[j];
        assert m != i;
        assert rest[if m < i then m else m - 1] == part[j];
      }
      SumWithin(weight, part[..n], rest);
      SumWithout(weight, whole, i);
    }
  }

  // ---------- What a blocker certifies ----------

  /** A chain of real manifest edges from the root. */
  ghost predicate Chain(g: Graph, path: seq<Kappa>) {
    path != [] && path[0] == g.root && forall i :: 0 <= i < |path| - 1 ==> g.Edge(path[i], path[i + 1])
  }

  /** A chain whose last application is the first to repeat. */
  ghost predicate Closes(g: Graph, path: seq<Kappa>) {
    && Chain(g, path) && |path| >= 2
    && NoDuplicates(path[..|path| - 1]) && path[|path| - 1] in path[..|path| - 1]
  }

  /** A duplicate-free chain deeper than the depth limit. */
  ghost predicate Deep(g: Graph, path: seq<Kappa>, actual: U64) {
    Chain(g, path) && NoDuplicates(path) && |path| - 1 > g.env.limits.maxDepth && actual == U64Of(|path| - 1)
  }

  /** More applications than the application limit. */
  ghost predicate Crowded(g: Graph, places: seq<Place>, actual: U64) {
    Occur(g, places) && |places| > g.env.limits.maxApplications && actual == U64Of(|places|)
  }

  /** Applications whose layers together exceed the layer limit; the total saturates. */
  ghost predicate Layered(g: Graph, places: seq<Place>, actual: U64) {
    Occur(g, places) && actual == U64Of(SumOf(LayerWeights(g), places)) && actual > g.env.limits.maxLayers
  }

  /** More distinct named labels than the object limit. */
  ghost predicate Many(g: Graph, labels: set<Kappa>, actual: U64) {
    && (forall k :: k in labels ==> NamedSomewhere(g, k))
    && |labels| > g.env.limits.maxObjects && actual == U64Of(|labels|)
  }

  /** Objects the sources hold, each under a named label. */
  ghost predicate NamedObjects(g: Graph, objects: map<Kappa, ResolvedObject>) {
    forall k :: k in objects ==> NamedSomewhere(g, k) && ObjectMatches(g.env, k, objects[k])
  }

  /** Distinct named objects whose bytes together exceed the byte limit; the total saturates. */
  ghost predicate Heavy(g: Graph, objects: map<Kappa, ResolvedObject>, actual: U64) {
    NamedObjects(g, objects) && actual == U64Of(TotalBytes(objects)) && actual > g.env.limits.maxResolvedBytes
  }

  ghost predicate Exceeds(g: Graph, limit: Limit, maximum: U64, actual: U64) {
    match limit
    case DepthLimit => maximum == g.env.limits.maxDepth && exists path :: Deep(g, path, actual)
    case ApplicationLimit => maximum == g.env.limits.maxApplications && exists places :: Crowded(g, places, actual)
    case LayerLimit => maximum == g.env.limits.maxLayers && exists places :: Layered(g, places, actual)
    case ObjectLimit => maximum == g.env.limits.maxObjects && exists labels :: Many(g, labels, actual)
    case ByteLimit => maximum == g.env.limits.maxResolvedBytes && exists objects :: Heavy(g, objects, actual)
  }

  /** What a blocker says is so, for every kind of blocker the planner makes. */
  ghost predicate Real(g: Graph, blocker: PlanBlocker) {
    match blocker
    case MissingObject(k, _) => Defect(g.env, blocker)
    case ContentMismatch(k, _, _) => Defect(g.env, blocker)
    case InvalidCapabilitySet(k) => Defect(g.env, blocker)
    case InvalidChildManifest(k, _) => Defect(g.env, blocker)
    case ChildCycle(path) => Closes(g, path)
    case LimitExceeded(limit, maximum, actual, _) => Exceeds(g, limit, maximum, actual)
    case LibraryArchive => g.manifest.primary.None?
    case ProviderUnavailable(_, _, _) => false
  }

  /** Blockers about content; their defects are part of what the resolver keeps. */
  predicate AboutContent(blocker: PlanBlocker) {
    blocker.MissingObject? || blocker.ContentMismatch? || blocker.InvalidCapabilitySet? || blocker.InvalidChildManifest?
  }

  /** What is kept about every blocker of the worklist, which never reports a library itself. */
  ghost predicate Grounded(g: Graph, blocker: PlanBlocker) {
    AboutContent(blocker) || (Real(g, blocker) && !blocker.LibraryArchive?)
  }

  lemma {:induction false} GroundedDefectIsReal(g: Graph, blocker: PlanBlocker)
    requires Grounded(g, blocker) && Defect(g.env, blocker)
    ensures Real(g, blocker) && !blocker.LibraryArchive?
  {
  }
}
