/** Why every blocker of the planning worklist is real: the resolver only asks for labels that the unfolding
    names, so its limits are exceeded by real objects (src/application_plan.rs:650-737, 869-1046). */
module Founding {
  import opened Basics
  import opened Upstream
  import opened Resolver
  import opened Planner
  import opened PlanPaths
  import opened Occurrences

  /** Every label asked for is named somewhere, and every blocker so far is grounded. */
  ghost predicate Founded(g: Graph, c: State) {
    && (forall k :: k in c.referenced ==> NamedSomewhere(g, k))
    && (forall i :: 0 <= i < |c.blockers| ==> Grounded(g, c.blockers[i]))
  }

  lemma {:induction false} BlockFounded(g: Graph, c: State, blocker: PlanBlocker)
    requires Founded(g, c) && Grounded(g, blocker)
    ensures Founded(g, Block(c, blocker))
  {
    hide Grounded, NamedSomewhere;
    var t := Block(c, blocker);
    forall i | 0 <= i < |t.blockers|
      ensures Grounded(g, t.blockers[i])
    {
      assert i < |c.blockers| ==> t.blockers[i] == c.blockers[i];
    }
  }

  lemma {:induction false} ContentFounded(g: Graph, c: State, blocker: PlanBlocker)
    requires Founded(g, c) && AboutContent(blocker)
    ensures Founded(g, Block(c, blocker))
  {
    hide Founded, Real;
    BlockFounded(g, c, blocker);
  }

  /** One label too many. */
  lemma {:induction false} ObjectsExceed(g: Graph, c: State, k: Kappa, edge: ManifestEdge)
    requires Founded(g, c) && NamedSomewhere(g, k) && k !in c.referenced && |c.referenced| + 1 > g.env.limits.maxObjects
    ensures Grounded(g, LimitExceeded(ObjectLimit, g.env.limits.maxObjects, U64Of(|c.referenced| + 1), Some(edge)))
  {
    hide NamedSomewhere, Grounded;
    var labels := c.referenced + {k};
    assert |labels| == |c.referenced| + 1;
    assert Many(g, labels, U64Of(|labels|));
    GroundedLimit(g, LimitExceeded(ObjectLimit, g.env.limits.maxObjects, U64Of(|c.referenced| + 1), Some(edge)));
  }

  lemma {:induction false} GroundedLimit(g: Graph, blocker: PlanBlocker)
    requires blocker.LimitExceeded? && Exceeds(g, blocker.limit, blocker.maximum, blocker.actual)
    ensures Grounded(g, blocker)
  {
  }

  /** What is resolved is named and held. */
  lemma {:induction false} ObjectsAreNamed(g: Graph, c: State)
    requires Consistent(g.env, c) && Founded(g, c)
    ensures NamedObjects(g, c.objects) && c.resolvedBytes == U64Of(TotalBytes(c.objects))
  {
    hide Accounting, AllReal, NamedSomewhere, Grounded, ObjectMatches, TotalBytes;
  }

  lemma {:induction false} OneMoreNamed(g: Graph, objects: map<Kappa, ResolvedObject>, k: Kappa, resolved: ResolvedObject)
    requires NamedObjects(g, objects) && NamedSomewhere(g, k) && ObjectMatches(g.env, k, resolved)
    ensures NamedObjects(g, objects[k := resolved])
  {
    hide NamedSomewhere, ObjectMatches;
  }

  /** One object too heavy. */
  lemma {:induction false} BytesExceed(g: Graph, c: State, k: Kappa, edge: ManifestEdge, resolved: ResolvedObject)
    requires NamedObjects(g, c.objects) && NamedSomewhere(g, k) && k !in c.objects && ObjectMatches(g.env, k, resolved)
    requires c.resolvedBytes == U64Of(TotalBytes(c.objects))
    requires SaturatingAdd(c.resolvedBytes, U64Of(|resolved.bytes|)) > g.env.limits.maxResolvedBytes
    ensures Grounded(g, LimitExceeded(ByteLimit, g.env.limits.maxResolvedBytes, SaturatingAdd(c.resolvedBytes, U64Of(|resolved.bytes|)), Some(edge)))
  {
    hide *;
    OneMoreNamed(g, c.objects, k, resolved);
    TotalBytesInsert(c.objects, k, resolved);
    HeavyExceeds(g, c.objects[k := resolved], TotalBytes(c.objects), |resolved.bytes|, c.resolvedBytes, edge);
  }

  lemma {:induction false} HeavyExceeds(g: Graph, objects: map<Kappa, ResolvedObject>, before: nat, size: nat, counted: U64, edge: ManifestEdge)
    requires NamedObjects(g, objects) && TotalBytes(objects) == before + size && counted == U64Of(before)
    requires SaturatingAdd(counted, U64Of(size)) > g.env.limits.maxResolvedBytes
    ensures Grounded(g, LimitExceeded(ByteLimit, g.env.limits.maxResolvedBytes, SaturatingAdd(counted, U64Of(size)), Some(edge)))
  {
    SaturatingSum(before, size);
    hide NamedObjects, TotalBytes, Grounded, Exceeds, U64Of, SaturatingAdd;
    var actual := SaturatingAdd(counted, U64Of(size));
    assert Heavy(g, objects, actual);
    HeavyIsByteLimit(g, objects, actual);
    GroundedLimit(g, LimitExceeded(ByteLimit, g.env.limits.maxResolvedBytes, actual, Some(edge)));
  }

  lemma {:induction false} HeavyIsByteLimit(g: Graph, objects: map<Kappa, ResolvedObject>, actual: U64)
    requires Heavy(g, objects, actual)
    ensures Exceeds(g, ByteLimit, g.env.limits.maxResolvedBytes, actual)
  {
    hide Heavy, Deep, Crowded, Layered, Many;
  }

  lemma {:induction false} RecallFounded(g: Graph, c: State, k: Kappa, edge: ManifestEdge)
    requires Founded(g, c) && NamedSomewhere(g, k) && Settled(g.env, c, k)
    ensures Founded(g, Recall(g.env, c, k, edge).state)
  {
    hide Founded, NamedSomewhere, Real;
    if k in c.objects {
    } else if k in c.failures {
      ContentFounded(g, c, FailureBlocker(c.failures[k], k, edge));
    } else if !c.halted {
      ObjectsExceed(g, c, k, edge);
      var blocker := LimitExceeded(ObjectLimit, g.env.limits.maxObjects, U64Of(|c.referenced| + 1), Some(edge));
      BlockFounded(g, c, blocker);
      HaltFounded(g, Block(c, blocker));
    }
  }

  lemma {:induction false} HaltFounded(g: Graph, c: State)
    requires Founded(g, c)
    ensures Founded(g, c.(halted := true))
  {
    hide Grounded, NamedSomewhere;
  }

  /** Tables other than the referenced labels and the blockers do not matter. */
  lemma {:induction false} FoundedSame(g: Graph, c: State, t: State)
    requires Founded(g, c) && t.referenced == c.referenced && t.blockers == c.blockers
    ensures Founded(g, t)
  {
    hide Grounded, NamedSomewhere;
  }

  lemma {:induction false} AskFounded(g: Graph, c: State, k: Kappa)
    requires Founded(g, c) && NamedSomewhere(g, k)
    ensures Founded(g, Ask(g.env, c, k))
  {
    hide Grounded, NamedSomewhere;
  }

  lemma {:induction false} AcceptFounded(g: Graph, c: State, k: Kappa, edge: ManifestEdge, found: Option<Bytes>)
    requires Founded(g, c) && NamedSomewhere(g, k) && k !in c.objects && Lookup(g.env, k) == Ok(found)
    requires NamedObjects(g, c.objects) && c.resolvedBytes == U64Of(TotalBytes(c.objects))
    ensures Founded(g, Accept(g.env, c, k, edge, found).state)
  {
    hide Founded, Grounded, NamedSomewhere, TotalBytes, NamedObjects;
    if found.None? {
      FailFounded(g, c, k, Missing, edge);
    } else if g.env.up.address(found.value) != k {
      FailFounded(g, c, k, Mismatch(SourceOf(g.env, k)), edge);
    } else {
      AcceptMatching(g, c, k, edge, found.value);
    }
  }

  lemma {:induction false} AcceptMatching(g: Graph, c: State, k: Kappa, edge: ManifestEdge, bytes: Bytes)
    requires Founded(g, c) && NamedSomewhere(g, k) && k !in c.objects && Lookup(g.env, k) == Ok(Some(bytes)) && g.env.up.address(bytes) == k
    requires NamedObjects(g, c.objects) && c.resolvedBytes == U64Of(TotalBytes(c.objects))
    ensures Founded(g, Accept(g.env, c, k, edge, Some(bytes)).state)
  {
    var resolved := ResolvedObject(k, bytes, SourceOf(g.env, k));
    var total := SaturatingAdd(c.resolvedBytes, U64Of(|bytes|));
    assert ObjectMatches(g.env, k, resolved) by {
      hide Founded, NamedObjects, NamedSomewhere, TotalBytes;
    }
    hide Founded, Grounded, NamedSomewhere, TotalBytes, NamedObjects, ObjectMatches, Lookup, SourceOf, SaturatingAdd, U64Of;
    if total > g.env.limits.maxResolvedBytes {
      BytesExceed(g, c, k, edge, resolved);
      var blocker := LimitExceeded(ByteLimit, g.env.limits.maxResolvedBytes, total, Some(edge));
      BlockFounded(g, c, blocker);
      HaltFounded(g, Block(c, blocker));
    } else {
      FoundedSame(g, c, Accept(g.env, c, k, edge, Some(bytes)).state);
    }
  }

  lemma {:induction false} FailFounded(g: Graph, c: State, k: Kappa, failure: ResolutionFailure, edge: ManifestEdge)
    requires Founded(g, c)
    ensures Founded(g, Fail(c, k, failure, edge))
  {
    hide Founded, Real;
    FoundedSame(g, c, c.(failures := c.failures[k := failure]));
    ContentFounded(g, c.(failures := c.failures[k := failure]), FailureBlocker(failure, k, edge));
  }

  lemma {:induction false} AskKeepsTables(env: Sources, c: State, k: Kappa)
    ensures Ask(env, c, k).objects == c.objects && Ask(env, c, k).resolvedBytes == c.resolvedBytes
  {
  }

  /** Resolving a named label keeps every blocker grounded. */
  lemma {:induction false} ResolutionFounded(g: Graph, c: State, k: Kappa, edge: ManifestEdge)
    requires Consistent(g.env, c) && Founded(g, c) && NamedSomewhere(g, k)
    ensures var r := Resolution(g.env, c, k, edge); r.Ok? ==> Founded(g, r.value.state) && Consistent(g.env, r.value.state)
  {
    hide Consistent, Founded, NamedSomewhere, Recall, Accept, Ask, NamedObjects, TotalBytes;
    ResolutionAdvances(g.env, c, k, edge);
    if Settled(g.env, c, k) {
      RecallFounded(g, c, k, edge);
    } else if Lookup(g.env, k).Ok? {
      AskFounded(g, c, k);
      ObjectsAreNamed(g, c);
      AskKeepsTables(g.env, c, k);
      AcceptFounded(g, Ask(g.env, c, k), k, edge, Lookup(g.env, k).value);
    }
  }

  // ---------- One application ----------

  /** Everything a manifest references is named somewhere. */
  ghost predicate AllNamed(g: Graph, m: AppManifest) {
    forall k :: k in References(m) ==> NamedSomewhere(g, k)
  }

  lemma {:induction false} NamedByOccurrence(g: Graph, place: Place, m: AppManifest)
    requires ManifestAt(g, place) == Some(m)
    ensures AllNamed(g, m)
  {
    hide ManifestAt, References;
    forall k | k in References(m)
      ensures NamedSomewhere(g, k)
    {
      assert NamedAt(g, place, k);
    }
  }

  lemma {:induction false} ReferencesHas(m: AppManifest)
    ensures m.required in References(m)
    ensures forall i :: 0 <= i < |m.layers| ==> m.layers[i].content in References(m)
    ensures forall i :: 0 <= i < |m.children| ==> m.children[i].application in References(m) && m.children[i].capabilities in References(m)
  {
  }

  lemma {:induction false} RequireFounded(g: Graph, s: Plan, app: Pending)
    requires Consistent(g.env, s.closure) && Founded(g, s.closure) && AllNamed(g, app.manifest)
    ensures var r := Require(g.env, s, app); r.Ok? ==> Founded(g, r.value.closure) && Consistent(g.env, r.value.closure)
  {
    hide Consistent, Founded, NamedSomewhere, Resolution, DecodeCapabilities, References;
    ReferencesHas(app.manifest);
    ResolutionFounded(g, s.closure, app.manifest.required, RequiresEdge(app));
    RequireAdvances(g.env, s, app);
    var answer := Resolution(g.env, s.closure, app.manifest.required, RequiresEdge(app));
    if answer.Ok? && answer.value.resolved.Some? {
      ContentFounded(g, answer.value.state, InvalidCapabilitySet(answer.value.resolved.value.kappa));
    }
  }

  lemma {:induction false} ResolveLayersFounded(g: Graph, c: State, app: Pending, from: nat)
    requires Consistent(g.env, c) && Founded(g, c) && AllNamed(g, app.manifest)
    ensures var r := ResolveLayers(g.env, c, app, from); r.Ok? ==> Founded(g, r.value) && Consistent(g.env, r.value)
    decreases |app.manifest.layers| - from
  {
    hide Consistent, Founded, NamedSomewhere, Resolution, References;
    if from < |app.manifest.layers| {
      ReferencesHas(app.manifest);
      var k, edge := app.manifest.layers[from].content, LayerEdgeOf(app, from);
      ResolutionFounded(g, c, k, edge);
      var answer := Resolution(g.env, c, k, edge);
      if answer.Ok? {
        ResolveLayersFounded(g, answer.value.state, app, from + 1);
      }
    }
  }

  lemma {:induction false} ContentsFounded(g: Graph, s: Plan, app: Pending)
    requires Consistent(g.env, s.closure) && Founded(g, s.closure) && AllNamed(g, app.manifest)
    ensures var r := VisitContents(g.env, s, app); r.Ok? ==> Founded(g, r.value.closure) && Consistent(g.env, r.value.closure)
  {
    hide Consistent, Founded, AllNamed, Require, ResolveLayers;
    RequireFounded(g, s, app);
    var s1 := Require(g.env, s, app);
    if s1.Ok? {
      ResolveLayersFounded(g, s1.value.closure, app, 0);
    }
  }

  lemma {:induction false} DelegateFounded(g: Graph, c: State, app: Pending, position: nat, edge: ChildEdge)
    requires Consistent(g.env, c) && Founded(g, c) && NamedSomewhere(g, edge.capabilities)
    ensures var r := Delegate(g.env, c, app, position, edge); r.Ok? ==> Founded(g, r.value.closure) && Consistent(g.env, r.value.closure)
  {
    hide Consistent, Founded, NamedSomewhere, Resolution, DecodeCapabilities;
    var at := DelegatedCapabilities(app.application, U32Of(position));
    ResolutionFounded(g, c, edge.capabilities, at);
    DelegateAdvances(g.env, c, app, position, edge);
    var answer := Resolution(g.env, c, edge.capabilities, at);
    if answer.Ok? && answer.value.resolved.Some? {
      ContentFounded(g, answer.value.state, InvalidCapabilitySet(answer.value.resolved.value.kappa));
    }
  }

  lemma {:induction false} AdmitChildFounded(g: Graph, s: Plan, app: Pending, position: nat)
    requires Consistent(g.env, s.closure) && Founded(g, s.closure) && AllNamed(g, app.manifest) && position < |app.manifest.children|
    ensures var r := AdmitChild(g.env, s, app, position, app.manifest.children[position]); r.Ok? ==> Founded(g, r.value.closure)
  {
    hide Consistent, Founded, NamedSomewhere, Resolution, Delegate, RecordChild, DecodeChildManifest, References;
    ReferencesHas(app.manifest);
    var edge := app.manifest.children[position];
    DelegateFounded(g, s.closure, app, position, edge);
    var d := Delegate(g.env, s.closure, app, position, edge);
    if d.Ok? {
      var at := ChildApplication(app.application, U32Of(position));
      ResolutionFounded(g, d.value.closure, edge.application, at);
      var answer := Resolution(g.env, d.value.closure, edge.application, at);
      if answer.Ok? {
        RecordChildClosure(g.env, s, app, position, edge, d.value, answer.value);
        ContentFounded(g, answer.value.state, InvalidChildManifest(edge.application, at));
      }
    }
  }
}
