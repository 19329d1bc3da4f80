/** What every turn of the worklist keeps, on any manifest graph and under any limits: the resolver stays
    consistent, and every queued application carries a duplicate-free path of real manifest edges. */
module PlanPaths {
  import opened Basics
  import opened Upstream
  import opened Resolver
  import opened Planner

  /** The manifest graph a plan walks: the root manifest, and for any other label the manifest its content
      decodes to. It does not depend on the planner's state. */
  datatype Graph = Graph(env: Sources, root: Kappa, manifest: AppManifest) {
    function ManifestOf(kappa: Kappa): Option<AppManifest> {
      if kappa == root then Some(manifest)
      else
        var found := Lookup(env, kappa);
        if found.Ok? && found.value.Some? && env.up.address(found.value.value) == kappa then
          DecodeChildManifest(env.up, found.value.value)
        else None
    }

    ghost predicate Edge(parent: Kappa, child: Kappa) {
      && ManifestOf(parent).Some?
      && exists i :: 0 <= i < |ManifestOf(parent).value.children| && ManifestOf(parent).value.children[i].application == child
    }

    /** A queued application is reached by a duplicate-free chain of real manifest edges from the root. */
    ghost predicate Reached(p: Pending) {
      && ManifestOf(p.application) == Some(p.manifest)
      && |p.path| == p.depth + 1
      && p.path[0] == root && p.path[p.depth] == p.application
      && NoDuplicates(p.path)
      && (forall i :: 0 <= i < p.depth ==> Edge(p.path[i], p.path[i + 1]))
      && p.depth <= env.limits.maxDepth
    }

    ghost predicate Bounded(s: Plan) {
      && (forall i :: 0 <= i < |s.pending| ==> Reached(s.pending[i]))
      && s.applicationCount <= Max(1, env.limits.maxApplications)
      && s.maxDepth <= env.limits.maxDepth
    }
  }

  /** The defect in content that a blocker reports is really there. What cycles and limits certify is stated over
      the whole graph, in `Occurrences`. */
  ghost predicate Defect(env: Sources, blocker: PlanBlocker) {
    match blocker
    case MissingObject(k, _) => Lookup(env, k) == Ok(None)
    case ContentMismatch(k, _, source) => source == SourceOf(env, k) && Stores(env, k) && env.up.address(Stored(env, k)) != k
    case InvalidCapabilitySet(k) => Stores(env, k) && DecodeCapabilities(env.up, k, Stored(env, k)) == None
    case InvalidChildManifest(k, _) => Stores(env, k) && DecodeChildManifest(env.up, Stored(env, k)) == None
    case _ => true
  }

  ghost predicate Stores(env: Sources, kappa: Kappa) {
    Lookup(env, kappa).Ok? && Lookup(env, kappa).value.Some?
  }

  ghost function Stored(env: Sources, kappa: Kappa): Bytes
    requires Stores(env, kappa)
  {
    Lookup(env, kappa).value.value
  }

  ghost predicate AllReal(env: Sources, closure: State) {
    && (forall i :: 0 <= i < |closure.blockers| ==> Defect(env, closure.blockers[i]))
    && (forall k, edge :: k in closure.failures ==> Defect(env, FailureBlocker(closure.failures[k], k, edge)))
  }

  lemma {:induction false} ResolutionReal(env: Sources, closure: State, kappa: Kappa, edge: ManifestEdge)
    requires AllReal(env, closure)
    ensures var r := Resolution(env, closure, kappa, edge); r.Ok? ==> AllReal(env, r.value.state)
  {
    if Settled(env, closure, kappa) {
      var t := Recall(env, closure, kappa, edge).state;
      assert forall i :: 0 <= i < |closure.blockers| ==> t.blockers[i] == closure.blockers[i];
    } else if Lookup(env, kappa).Ok? {
      AcceptReal(env, Ask(env, closure, kappa), kappa, edge, Lookup(env, kappa).value);
    }
  }

  lemma {:induction false} AcceptReal(env: Sources, s: State, kappa: Kappa, edge: ManifestEdge, found: Option<Bytes>)
    requires AllReal(env, s) && Lookup(env, kappa) == Ok(found)
    ensures AllReal(env, Accept(env, s, kappa, edge, found).state)
  {
    var t := Accept(env, s, kappa, edge, found).state;
    assert forall i :: 0 <= i < |s.blockers| ==> t.blockers[i] == s.blockers[i];
  }

  ghost predicate Consistent(env: Sources, closure: State) {
    Invariant(env, closure) && Accounting(env, closure) && ByteAccounting(env, closure) && AllReal(env, closure)
  }

  /** From one resolver state to a later one: consistency is kept and nothing is lost. */
  ghost predicate Advances(env: Sources, before: State, after: State) {
    Consistent(env, before) ==> Consistent(env, after) && Grows(before, after)
  }

  lemma {:induction false} AdvancesTransitive(env: Sources, a: State, b: State, c: State)
    requires Advances(env, a, b) && Advances(env, b, c)
    ensures Advances(env, a, c)
  {
    hide Consistent;
    GrowsTransitive(a, b, c);
  }

  lemma {:induction false} GrowsTransitive(a: State, b: State, c: State)
    ensures Grows(a, b) && Grows(b, c) ==> Grows(a, c)
  {
  }

  lemma {:induction false} BlockAdvances(env: Sources, closure: State, blocker: PlanBlocker)
    requires Defect(env, blocker)
    ensures Advances(env, closure, Block(closure, blocker))
  {
    BlockInvariant(env, closure, blocker);
    BlockAccounts(env, closure, blocker);
    BlockReal(env, closure, blocker);
    hide Invariant, Accounting, ByteAccounting, AllReal, Grows;
  }

  lemma {:induction false} BlockInvariant(env: Sources, closure: State, blocker: PlanBlocker)
    ensures Invariant(env, closure) ==> Invariant(env, Block(closure, blocker))
    ensures Grows(closure, Block(closure, blocker))
  {
    hide ObjectMatches;
  }

  lemma {:induction false} BlockAccounts(env: Sources, closure: State, blocker: PlanBlocker)
    ensures Accounting(env, closure) ==> Accounting(env, Block(closure, blocker))
    ensures ByteAccounting(env, closure) ==> ByteAccounting(env, Block(closure, blocker))
  {
    hide TotalBytes, U64Of;
    var t := Block(closure, blocker);
    assert t.referenced == closure.referenced && t.objects == closure.objects && t.queries == closure.queries;
  }

  lemma {:induction false} BlockReal(env: Sources, closure: State, blocker: PlanBlocker)
    requires Defect(env, blocker)
    ensures AllReal(env, closure) ==> AllReal(env, Block(closure, blocker))
  {
    hide Defect;
  }

  lemma {:induction false} ResolutionAdvances(env: Sources, closure: State, kappa: Kappa, edge: ManifestEdge)
    ensures var r := Resolution(env, closure, kappa, edge); r.Ok? ==> Advances(env, closure, r.value.state)
  {
    if Consistent(env, closure) {
      ResolveKeeps(env, closure, kappa, edge);
      ResolveAccounts(env, closure, kappa, edge);
      ResolveAccountsBytes(env, closure, kappa, edge);
      ResolutionReal(env, closure, kappa, edge);
    }
  }

  /** The bytes a resolution answers with are the ones the manifest graph reads at that label. */
  lemma {:induction false} AnswerIsLookup(env: Sources, closure: State, kappa: Kappa, edge: ManifestEdge)
    requires Consistent(env, closure)
    ensures var r := Resolution(env, closure, kappa, edge);
      r.Ok? && r.value.resolved.Some? ==>
        && r.value.resolved.value.kappa == kappa
        && Lookup(env, kappa) == Ok(Some(r.value.resolved.value.bytes))
        && env.up.address(r.value.resolved.value.bytes) == kappa
  {
    hide Resolution, Accounting, ByteAccounting, AllReal, Lookup, SourceOf;
    ResolveKeeps(env, closure, kappa, edge);
  }

  /** Reporting an undecodable capability object keeps the resolver consistent. */
  lemma {:induction false} BadCapabilitiesAdvance(env: Sources, closure: State, kappa: Kappa, edge: ManifestEdge)
    ensures var r := Resolution(env, closure, kappa, edge);
      r.Ok? && r.value.resolved.Some? && Consistent(env, closure)
      && DecodeCapabilities(env.up, r.value.resolved.value.kappa, r.value.resolved.value.bytes).None? ==>
        Advances(env, closure, Block(r.value.state, InvalidCapabilitySet(r.value.resolved.value.kappa)))
  {
    hide Consistent, Resolution, Advances, DecodeCapabilities;
    var r := Resolution(env, closure, kappa, edge);
    if r.Ok? && r.value.resolved.Some? && Consistent(env, closure) {
      var resolved := r.value.resolved.value;
      AnswerIsLookup(env, closure, kappa, edge);
      ResolutionAdvances(env, closure, kappa, edge);
      if DecodeCapabilities(env.up, resolved.kappa, resolved.bytes).None? {
        BlockAdvances(env, r.value.state, InvalidCapabilitySet(resolved.kappa));
        AdvancesTransitive(env, closure, r.value.state, Block(r.value.state, InvalidCapabilitySet(resolved.kappa)));
      }
    }
  }

  lemma {:induction false} RequireAdvances(env: Sources, s: Plan, app: Pending)
    ensures var r := Require(env, s, app);
      r.Ok? ==> Advances(env, s.closure, r.value.closure) && r.value.pending == s.pending
  {
    hide Consistent, Resolution, Grows, DecodeCapabilities, PlannedLayers;
    ResolutionAdvances(env, s.closure, app.manifest.required, RequiresEdge(app));
    BadCapabilitiesAdvance(env, s.closure, app.manifest.required, RequiresEdge(app));
  }

  lemma {:induction false} ResolveLayersAdvances(env: Sources, closure: State, app: Pending, from: nat)
    ensures var r := ResolveLayers(env, closure, app, from); r.Ok? ==> Advances(env, closure, r.value)
    decreases |app.manifest.layers| - from
  {
    hide Consistent;
    if from < |app.manifest.layers| {
      var edge := LayerEdgeOf(app, from);
      ResolutionAdvances(env, closure, app.manifest.layers[from].content, edge);
      var answer := Resolution(env, closure, app.manifest.layers[from].content, edge);
      if answer.Ok? {
        ResolveLayersAdvances(env, answer.value.state, app, from + 1);
        var rest := ResolveLayers(env, answer.value.state, app, from + 1);
        if rest.Ok? {
          AdvancesTransitive(env, closure, answer.value.state, rest.value);
        }
      }
    } else {
      assert Grows(closure, closure);
    }
  }

  lemma {:induction false} VisitContentsAdvances(env: Sources, s: Plan, app: Pending)
    ensures var r := VisitContents(env, s, app);
      r.Ok? ==> Advances(env, s.closure, r.value.closure) && r.value.pending == s.pending
  {
    hide Advances, Require, ResolveLayers;
    var s1 := Require(env, s, app);
    RequireAdvances(env, s, app);
    if s1.Ok? {
      ResolveLayersAdvances(env, s1.value.closure, app, 0);
      var c := ResolveLayers(env, s1.value.closure, app, 0);
      if c.Ok? {
        AdvancesTransitive(env, s.closure, s1.value.closure, c.value);
      }
    }
  }

  lemma {:induction false} DelegateAdvances(env: Sources, closure: State, app: Pending, position: nat, edge: ChildEdge)
    ensures var r := Delegate(env, closure, app, position, edge); r.Ok? ==> Advances(env, closure, r.value.closure)
  {
    hide Consistent, Resolution, Grows, DecodeCapabilities;
    var at := DelegatedCapabilities(app.application, U32Of(position));
    ResolutionAdvances(env, closure, edge.capabilities, at);
    BadCapabilitiesAdvance(env, closure, edge.capabilities, at);
  }

  lemma {:induction false} BadManifestAdvances(env: Sources, closure: State, kappa: Kappa, edge: ManifestEdge)
    ensures var r := Resolution(env, closure, kappa, edge);
      r.Ok? && r.value.resolved.Some? && Consistent(env, closure)
      && DecodeChildManifest(env.up, r.value.resolved.value.bytes).None? ==>
        Advances(env, closure, Block(r.value.state, InvalidChildManifest(kappa, edge)))
  {
    hide Consistent, Resolution, Advances, DecodeChildManifest;
    var r := Resolution(env, closure, kappa, edge);
    if r.Ok? && r.value.resolved.Some? && Consistent(env, closure) {
      AnswerIsLookup(env, closure, kappa, edge);
      ResolutionAdvances(env, closure, kappa, edge);
      if DecodeChildManifest(env.up, r.value.resolved.value.bytes).None? {
        BlockAdvances(env, r.value.state, InvalidChildManifest(kappa, edge));
        AdvancesTransitive(env, closure, r.value.state, Block(r.value.state, InvalidChildManifest(kappa, edge)));
      }
    }
  }

  lemma {:induction false} RecordChildClosure(env: Sources, s: Plan, app: Pending, position: nat, edge: ChildEdge, d: Delegation, answer: Answer)
    ensures RecordChild(env, s, app, position, edge, d, answer).closure ==
      if answer.resolved.Some? && DecodeChildManifest(env.up, answer.resolved.value.bytes).None? then
        Block(answer.state, InvalidChildManifest(edge.application, ChildApplication(app.application, U32Of(position))))
      else answer.state
  {
    hide DecodeChildManifest, Row;
  }

  lemma {:induction false} AdmitChildAdvances(env: Sources, s: Plan, app: Pending, position: nat, edge: ChildEdge)
    ensures var r := AdmitChild(env, s, app, position, edge); r.Ok? ==> Advances(env, s.closure, r.value.closure)
  {
    hide Consistent, Grows, Delegate, Resolution, RecordChild, DecodeChildManifest;
    DelegateAdvances(env, s.closure, app, position, edge);
    var d := Delegate(env, s.closure, app, position, edge);
    if d.Ok? {
      var at := ChildApplication(app.application, U32Of(position));
      ResolutionAdvances(env, d.value.closure, edge.application, at);
      BadManifestAdvances(env, d.value.closure, edge.application, at);
      var answer := Resolution(env, d.value.closure, edge.application, at);
      if answer.Ok? {
        RecordChildClosure(env, s, app, position, edge, d.value, answer.value);
        var after := RecordChild(env, s, app, position, edge, d.value, answer.value).closure;
        if Consistent(env, s.closure) {
          GrowsTransitive(s.closure, d.value.closure, after);
        }
      }
    }
  }

  lemma {:induction false} RefuseChildAdvances(
      env: Sources, s: Plan, app: Pending, position: nat, edge: ChildEdge, refusal: Refusal)
    ensures Advances(env, s.closure, RefuseChild(env, s, app, position, edge, refusal).closure)
  {
    hide Consistent;
    var t := RefuseChild(env, s, app, position, edge, refusal);
    if t.closure == s.closure {
      assert Grows(s.closure, s.closure);
    } else {
      BlockAdvances(env, s.closure, t.closure.blockers[|s.closure.blockers|]);
    }
  }

  lemma {:induction false} VisitChildrenAdvances(env: Sources, s: Plan, app: Pending, from: nat)
    ensures var r := VisitChildren(env, s, app, from); r.Ok? ==> Advances(env, s.closure, r.value.closure)
    decreases |app.manifest.children| - from
  {
    hide Consistent, AdmitChild, RefuseChild, Refuse;
    if from < |app.manifest.children| {
      var edge := app.manifest.children[from];
      AdmitChildAdvances(env, s, app, from, edge);
      RefuseChildAdvances(env, s, app, from, edge, Refuse(env, s, app, edge));
      var s1 := VisitChild(env, s, app, from);
      if s1.Ok? {
        VisitChildrenAdvances(env, s1.value, app, from + 1);
        var rest := VisitChildren(env, s1.value, app, from + 1);
        if rest.Ok? {
          AdvancesTransitive(env, s.closure, s1.value.closure, rest.value.closure);
        }
      }
    } else {
      assert Grows(s.closure, s.closure);
    }
  }

  /** One turn keeps the resolver consistent and loses nothing. */
  lemma {:induction false} VisitAdvances(env: Sources, s: Plan, app: Pending)
    ensures var r := Visit(env, s, app); r.Ok? ==> Advances(env, s.closure, r.value.plan.closure)
  {
    hide Advances, VisitContents, VisitChildren;
    var begun := Open(s, app);
    if begun.totalLayers > env.limits.maxLayers {
      BlockAdvances(env, s.closure, LimitExceeded(LayerLimit, env.limits.maxLayers, begun.totalLayers, None));
    } else {
      VisitContentsAdvances(env, begun, app);
      var s1 := VisitContents(env, begun, app);
      if s1.Ok? {
        VisitChildrenAdvances(env, s1.value, app, 0);
        var s2 := VisitChildren(env, s1.value, app, 0);
        if s2.Ok? {
          AdvancesTransitive(env, s.closure, s1.value.closure, s2.value.closure);
        }
      }
    }
  }

  lemma {:induction false} ExtendPath(g: Graph, app: Pending, position: nat, child: Pending)
    requires g.Reached(app) && position < |app.manifest.children|
    requires child.application == app.manifest.children[position].application
    requires child.application !in app.path && app.depth + 1 <= g.env.limits.maxDepth
    requires g.ManifestOf(child.application) == Some(child.manifest)
    requires child.depth == app.depth + 1 && child.path == app.path + [child.application]
    ensures g.Reached(child)
  {
    forall i | 0 <= i < child.depth
      ensures g.Edge(child.path[i], child.path[i + 1])
    {
      if i < app.depth {
        assert g.Edge(app.path[i], app.path[i + 1]);
      } else {
        assert g.ManifestOf(app.application).value.children[position].application == child.application;
      }
    }
  }

  lemma {:induction false} AdmitChildReaches(g: Graph, s: Plan, app: Pending, position: nat)
    requires g.Bounded(s) && Consistent(g.env, s.closure)
    requires g.Reached(app) && position < |app.manifest.children|
    requires Refuse(g.env, s, app, app.manifest.children[position]).Follow?
    ensures var r := AdmitChild(g.env, s, app, position, app.manifest.children[position]); r.Ok? ==> g.Bounded(r.value)
  {
    hide Consistent, Advances, Delegate, Resolution, Row, Lookup;
    var edge := app.manifest.children[position];
    DelegateAdvances(g.env, s.closure, app, position, edge);
    var d := Delegate(g.env, s.closure, app, position, edge);
    var r := AdmitChild(g.env, s, app, position, edge);
    if r.Ok? {
      var at := ChildApplication(app.application, U32Of(position));
      DelegateKeeps(g.env, s.closure, app, position, edge);
      AnswerIsLookup(g.env, d.value.closure, edge.application, at);
      var answer := Resolution(g.env, d.value.closure, edge.application, at);
      if |r.value.pending| > |s.pending| {
        var child := r.value.pending[|s.pending|];
        assert edge.application != g.root;
        ExtendPath(g, app, position, child);
      }
    }
  }

  lemma {:induction false} DelegateKeeps(env: Sources, closure: State, app: Pending, position: nat, edge: ChildEdge)
    requires Consistent(env, closure)
    ensures var r := Delegate(env, closure, app, position, edge);
      r.Ok? ==> Consistent(env, r.value.closure) && Grows(closure, r.value.closure)
  {
    hide Consistent, Delegate;
    DelegateAdvances(env, closure, app, position, edge);
  }

  lemma {:induction false} VisitChildKeeps(g: Graph, s: Plan, app: Pending, position: nat)
    requires g.Bounded(s) && Consistent(g.env, s.closure)
    requires g.Reached(app) && position < |app.manifest.children|
    ensures var r := VisitChild(g.env, s, app, position); r.Ok? ==> g.Bounded(r.value) && Consistent(g.env, r.value.closure)
  {
    hide Consistent, AdmitChild;
    var edge := app.manifest.children[position];
    AdmitChildAdvances(g.env, s, app, position, edge);
    RefuseChildAdvances(g.env, s, app, position, edge, Refuse(g.env, s, app, edge));
    if Refuse(g.env, s, app, edge).Follow? {
      AdmitChildReaches(g, s, app, position);
    }
  }

  lemma {:induction false} VisitChildrenKeeps(g: Graph, s: Plan, app: Pending, from: nat)
    requires g.Bounded(s) && Consistent(g.env, s.closure) && g.Reached(app)
    ensures var r := VisitChildren(g.env, s, app, from); r.Ok? ==> g.Bounded(r.value) && Consistent(g.env, r.value.closure)
    decreases |app.manifest.children| - from
  {
    hide Consistent, VisitChild, Graph.Bounded, Graph.Reached;
    if from < |app.manifest.children| {
      VisitChildKeeps(g, s, app, from);
      var s1 := VisitChild(g.env, s, app, from);
      if s1.Ok? {
        VisitChildrenKeeps(g, s1.value, app, from + 1);
      }
    }
  }

  lemma {:induction false} VisitContentsKeeps(g: Graph, s: Plan, app: Pending)
    requires g.Bounded(s) && Consistent(g.env, s.closure)
    ensures var r := VisitContents(g.env, s, app);
      r.Ok? ==> g.Bounded(r.value) && Consistent(g.env, r.value.closure) && Grows(s.closure, r.value.closure)
  {
    hide Consistent, Resolution, DecodeCapabilities, Graph.Reached, ResolveLayers;
    VisitContentsAdvances(g.env, s, app);
  }

  lemma {:induction false} VisitKeeps(g: Graph, s: Plan, app: Pending)
    requires g.Bounded(s) && Consistent(g.env, s.closure) && g.Reached(app)
    ensures var r := Visit(g.env, s, app); r.Ok? ==> g.Bounded(r.value.plan) && Consistent(g.env, r.value.plan.closure)
  {
    hide Consistent, VisitContents, VisitChildren, Graph.Reached;
    var begun := Open(s, app);
    VisitAdvances(g.env, s, app);
    VisitContentsKeeps(g, begun, app);
    var s1 := VisitContents(g.env, begun, app);
    if s1.Ok? {
      VisitChildrenKeeps(g, s1.value, app, 0);
    }
  }

  /** On every manifest graph and under every limit, the finished worklist is consistent and within its
      bounds, and so was every state on the way: each queued path is a duplicate-free chain of real
      manifest edges no longer than the depth limit allows. */
  lemma {:induction false} RunKeeps(g: Graph, s: Plan)
    requires g.Bounded(s) && Consistent(g.env, s.closure)
    ensures var r := Run(g.env, s); r.Ok? ==> g.Bounded(r.value) && Consistent(g.env, r.value.closure)
    decreases Room(g.env, s)
  {
    hide Consistent, Visit, Graph.Reached;
    if s.pending != [] {
      var rest := s.(pending := s.pending[1..]);
      VisitRoom(g.env, rest, s.pending[0]);
      VisitKeeps(g, rest, s.pending[0]);
      var turn := Visit(g.env, rest, s.pending[0]);
      if turn.Ok? && !turn.value.stop {
        RunKeeps(g, turn.value.plan);
      }
    }
  }

  lemma {:induction false} StartKeeps(g: Graph)
    ensures var s := Start(g.env, g.root, g.manifest); g.Bounded(s) && Consistent(g.env, s.closure)
  {
    hide Consistent;
    assert Consistent(g.env, INITIAL) by {
      InitialConsistent(g.env);
    }
    BlockAdvances(g.env, INITIAL, LimitExceeded(ApplicationLimit, g.env.limits.maxApplications, 1, None));
  }

  lemma {:induction false} InitialConsistent(env: Sources)
    ensures Consistent(env, INITIAL)
  {
    InitialKeeps(env);
  }

  /** The states the worklist passes through, one per turn. */
  ghost predicate Passes(env: Sources, s: Plan, t: Plan, turns: nat)
    decreases turns
  {
    if turns == 0 then t == s
    else
      && s.pending != []
      && var turn := Visit(env, s.(pending := s.pending[1..]), s.pending[0]);
      && turn.Ok? && !turn.value.stop
      && Passes(env, turn.value.plan, t, turns - 1)
  }

  /** Every state the worklist can be in between two turns keeps the bounds. */
  lemma {:induction false} PassesKeeps(g: Graph, s: Plan, t: Plan, turns: nat)
    requires g.Bounded(s) && Consistent(g.env, s.closure)
    requires Passes(g.env, s, t, turns)
    ensures g.Bounded(t) && Consistent(g.env, t.closure)
    decreases turns
  {
    hide Consistent, Visit, Graph.Reached;
    if turns > 0 {
      var rest := s.(pending := s.pending[1..]);
      VisitKeeps(g, rest, s.pending[0]);
      PassesKeeps(g, Visit(g.env, rest, s.pending[0]).value.plan, t, turns - 1);
    }
  }
}
