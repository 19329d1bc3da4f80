/** Transactional start-up of a planned application tree (src/holo_provider.rs:500-733, 765-808). */
module Startup {
  import opened Basics
  import opened Upstream
  import opened Capability
  import opened Resolver
  import opened PlanPaths
  import opened PlanTables
  import opened PlanReport
  import opened PlanAnswers
  import opened Registry
  import opened GrantAdmission
  import opened LifecycleOrder

  /** One layer of one application of the tree. */
  datatype Key = Key(application: nat, slot: nat)

  /** `LayerPrepareContext` */
  datatype PrepareContext = PrepareContext(
    application: Kappa, provider: Provider, grant: EffectiveGrant, requested: CapabilityObject, layer: ResolvedLayer)

  datatype Event =
    | Prepared(key: Key, context: PrepareContext, position: U32)
    | PrepareFailed(key: Key, context: PrepareContext, error: LiveError)
    | Started(key: Key)
    | StartFailed(key: Key, error: LiveError)
    | Stopped(key: Key)
    | StopFailed(key: Key, error: LiveError)

  /** What the providers answer. Every answer may depend on everything that happened before. */
  datatype World = World(
    prepare: (seq<Event>, Key, PrepareContext) -> Result<U32>,
    start: (seq<Event>, Key) -> Option<LiveError>,
    stop: (seq<Event>, Key) -> Option<LiveError>)

  /** A prepared layer and the position it reports. */
  datatype Instance = Instance(key: Key, position: U32)

  datatype Running = Running(primary: U32, layers: seq<Instance>, gates: nat)

  datatype Setup = Setup(plan: ApplicationPlan, registry: ProviderRegistry, grants: map<nat, EffectiveGrant>, world: World)

  // ---------- Lookups ----------

  function FindChild(children: seq<ResolvedChild>, index: nat): Option<ResolvedChild> {
    if children == [] then None
    else if children[0].index == index then Some(children[0])
    else FindChild(children[1..], index)
  }

  function ApplicationLayers(plan: ApplicationPlan, a: nat): Result<(Kappa, seq<ResolvedLayer>)> {
    if a == 0 then Ok((plan.application, plan.layers))
    else
      match FindChild(plan.children, a)
      case None => Err(Conflict)
      case Some(child) => Ok((child.application, child.layers))
  }

  function ApplicationRequested(plan: ApplicationPlan, a: nat): Result<CapabilityObject> {
    if a == 0 then Ok(plan.requested)
    else
      match FindChild(plan.children, a)
      case None => Err(Conflict)
      case Some(child) => Ok(child.requested)
  }

  function ApplicationPrimary(plan: ApplicationPlan, a: nat): Result<U32> {
    if a == 0 then (match plan.manifest.primary case None => Err(Conflict) case Some(p) => Ok(p))
    else
      match FindChild(plan.children, a)
      case None => Err(Conflict)
      case Some(child) => (match child.primary case None => Err(Capability) case Some(p) => Ok(p))
  }

  /** The first layer at a position. */
  function FindLayer(layers: seq<ResolvedLayer>, position: U32): Option<ResolvedLayer> {
    if layers == [] then None
    else if layers[0].position == position then Some(layers[0])
    else FindLayer(layers[1..], position)
  }

  predicate ExitBearing(kind: LayerKind) {
    kind == WasmCodemodule || kind == RootfsImage
  }

  /** The checks made before any provider is called. */
  function CheckPrimary(plan: ApplicationPlan): Result<U32> {
    match plan.manifest.primary
    case None => Err(Conflict)
    case Some(position) =>
      match FindLayer(plan.layers, position)
      case None => Err(InvalidHolo)
      case Some(layer) => if ExitBearing(layer.layer.kind) then Ok(position) else Err(Capability)
  }

  predicate HasView(layers: seq<ResolvedLayer>) {
    exists i :: 0 <= i < |layers| && layers[i].layer.kind == View
  }

  /** Some prepared layer is at this position. */
  predicate Reports(prepared: seq<Instance>, position: U32) {
    exists i :: 0 <= i < |prepared| && prepared[i].position == position
  }

  // ---------- What a planned tree asks for ----------

  function LayersAt(plan: ApplicationPlan, a: nat): seq<ResolvedLayer> {
    if a == 0 then plan.layers else if a <= |plan.children| then plan.children[a - 1].layers else []
  }

  function PrimaryAt(plan: ApplicationPlan, a: nat): Option<U32> {
    if a == 0 then plan.manifest.primary else if a <= |plan.children| then plan.children[a - 1].primary else None
  }

  function KappaAt(plan: ApplicationPlan, a: nat): Kappa
    requires a <= |plan.children|
  {
    if a == 0 then plan.application else plan.children[a - 1].application
  }

  function RequestedAt(plan: ApplicationPlan, a: nat): CapabilityObject
    requires a <= |plan.children|
  {
    if a == 0 then plan.requested else plan.children[a - 1].requested
  }

  /** The plan is planner-made, its providers are this registry's, and every application holds a grant. */
  ghost predicate Ready(s: Setup) {
    && Indexed(s.plan.children) && SiblingsOrdered(s.plan.children)
    && PlanChosen(s.registry, s.plan)
    && forall a: nat :: a <= |s.plan.children| ==> a in s.grants
  }

  lemma {:induction false} FindChildIs(children: seq<ResolvedChild>, from: nat, a: nat)
    requires Indexed(children) && from < a <= |children|
    ensures FindChild(children[from..], a) == Some(children[a - 1])
    decreases |children| - from
  {
    assert children[from..][1..] == children[from + 1..];
    if from + 1 < a {
      FindChildIs(children, from + 1, a);
    }
  }

  /** On a planner-made plan the lookups never lose an application. */
  lemma {:induction false} LookupsFind(plan: ApplicationPlan, a: nat)
    requires Indexed(plan.children) && a <= |plan.children|
    ensures ApplicationLayers(plan, a) == Ok((KappaAt(plan, a), LayersAt(plan, a)))
    ensures ApplicationRequested(plan, a) == Ok(RequestedAt(plan, a))
    ensures ApplicationPrimary(plan, a) ==
      match PrimaryAt(plan, a) case Some(p) => Ok(p) case None => Err(if a == 0 then Conflict else Capability)
  {
    if a > 0 {
      FindChildIs(plan.children, 0, a);
      assert plan.children[0..] == plan.children;
    }
  }

  /** On any plan a lookup answers the first child of that index, and a missing one is a conflict. */
  lemma {:induction false} LookupsMiss(plan: ApplicationPlan, a: nat)
    requires a > 0 && forall i :: 0 <= i < |plan.children| ==> plan.children[i].index != a
    ensures ApplicationLayers(plan, a) == Err(Conflict) && ApplicationRequested(plan, a) == Err(Conflict) && ApplicationPrimary(plan, a) == Err(Conflict)
  {
    NoChild(plan.children, a);
  }

  lemma {:induction false} NoChild(children: seq<ResolvedChild>, a: nat)
    requires forall i :: 0 <= i < |children| ==> children[i].index != a
    ensures FindChild(children, a) == None
  {
    if children != [] {
      NoChild(children[1..], a);
    }
  }

  /** The first layer at a position, if there is one. */
  ghost predicate FirstAt(layers: seq<ResolvedLayer>, position: U32, i: nat) {
    i < |layers| && layers[i].position == position && forall j :: 0 <= j < i ==> layers[j].position != position
  }

  lemma {:induction false} FindLayerIs(layers: seq<ResolvedLayer>, position: U32)
    ensures match FindLayer(layers, position)
      case None => forall i :: 0 <= i < |layers| ==> layers[i].position != position
      case Some(layer) => exists i: nat :: FirstAt(layers, position, i) && layers[i] == layer
  {
    if layers != [] {
      if layers[0].position == position {
        assert FirstAt(layers, position, 0);
      } else {
        var rest := layers[1..];
        FindLayerIs(rest, position);
        assert forall j :: 0 < j < |layers| ==> layers[j] == rest[j - 1];
        if FindLayer(rest, position).Some? {
          var i: nat :| FirstAt(rest, position, i) && rest[i] == FindLayer(rest, position).value;
          assert FirstAt(layers, position, i + 1) && layers[i + 1] == rest[i];
        }
      }
    }
  }

  /** The kinds of layer that end with an exit status. */
  ghost predicate EndsWithExit(kind: LayerKind) {
    match kind
    case WasmCodemodule => true
    case RootfsImage => true
    case TensorPlan => false
    case View => false
    case InferenceModel => false
  }

  /** A tree may start exactly when its root's primary is a guest module or a root filesystem; a missing primary, a
      position without a layer and any other kind of layer are different errors. */
  lemma {:induction false} PrimaryMayStart(plan: ApplicationPlan)
    ensures match plan.manifest.primary
      case None => CheckPrimary(plan) == Err(Conflict)
      case Some(p) =>
        if forall i :: 0 <= i < |plan.layers| ==> plan.layers[i].position != p then CheckPrimary(plan) == Err(InvalidHolo)
        else exists i: nat :: FirstAt(plan.layers, p, i) && CheckPrimary(plan) == (if EndsWithExit(plan.layers[i].layer.kind) then Ok(p) else Err(Capability))
  {
    if plan.manifest.primary.Some? {
      FindLayerIs(plan.layers, plan.manifest.primary.value);
    }
  }

  /** For a plan the planner made, the layer that decides is the manifest's own. */
  lemma {:induction false} PlannedPrimaryMayStart(g: Graph, r: Report, plan: ApplicationPlan)
    requires PlanHolds(g, r, plan)
    ensures var p := g.manifest.primary.value;
      CheckPrimary(plan) ==
        if p >= |g.manifest.layers| then Err(InvalidHolo)
        else if g.manifest.layers[p].kind.WasmCodemodule? || g.manifest.layers[p].kind.RootfsImage? then Ok(p)
        else Err(Capability)
  {
    hide HoldsContent, DecodedAt, PlansChild, FoundIn, CheckPrimary;
    PrimaryMayStart(plan);
    var p := g.manifest.primary.value;
    if p < |plan.layers| {
      assert plan.layers[p].position == p;
      assert forall i: nat :: FirstAt(plan.layers, p, i) ==> i == p;
    }
  }

  function Slots(a: nat, count: nat): seq<Key> {
    seq(count, (i: nat) => Key(a, i))
  }

  /** Every layer of the first `count` applications of an order, in manifest order within each. */
  function Keys(plan: ApplicationPlan, order: seq<nat>, count: nat): seq<Key>
    requires count <= |order|
  {
    if count == 0 then []
    else Keys(plan, order, count - 1) + Slots(order[count - 1], |LayersAt(plan, order[count - 1])|)
  }

  function LifecycleKeys(plan: ApplicationPlan): seq<Key>
    requires Indexed(plan.children)
  {
    Keys(plan, Preorder(plan.children, 0), |Preorder(plan.children, 0)|)
  }

  /** The context a layer must be prepared with: its own bytes, its application's grant and request, and the
      provider named in the plan. */
  ghost predicate AsPlanned(s: Setup, key: Key, c: PrepareContext) {
    && key.application <= |s.plan.children| && key.slot < |LayersAt(s.plan, key.application)|
    && key.application in s.grants
    && c.layer == LayersAt(s.plan, key.application)[key.slot]
    && c.grant == s.grants[key.application]
    && c.provider.name == c.layer.provider && Select(s.registry, c.layer.layer) == Ok(Some(c.provider))
    && c.application == KappaAt(s.plan, key.application) && c.requested == RequestedAt(s.plan, key.application)
  }

  /** An event is what the world answered at that moment. */
  ghost predicate Answer(world: World, history: seq<Event>, e: Event) {
    match e
    case Prepared(key, context, position) => world.prepare(history, key, context) == Ok(position)
    case PrepareFailed(key, context, error) => world.prepare(history, key, context) == Err(error)
    case Started(key) => world.start(history, key) == None
    case StartFailed(key, error) => world.start(history, key) == Some(error)
    case Stopped(key) => world.stop(history, key) == None
    case StopFailed(key, error) => world.stop(history, key) == Some(error)
  }

  ghost predicate Faithful(world: World, trace: seq<Event>) {
    forall i :: 0 <= i < |trace| ==> Answer(world, trace[..i], trace[i])
  }

  lemma {:induction false} FaithfulStep(world: World, trace: seq<Event>, e: Event)
    requires Faithful(world, trace) && Answer(world, trace, e)
    ensures Faithful(world, trace + [e])
  {
    hide Answer;
    var after := trace + [e];
    forall i | 0 <= i < |after|
      ensures Answer(world, after[..i], after[i])
    {
      if i < |trace| {
        assert after[..i] == trace[..i];
      } else {
        assert after[..i] == trace;
      }
    }
  }

  // ---------- The shape of a trace ----------

  ghost predicate Prepares(s: Setup, events: seq<Event>, keys: seq<Key>) {
    |events| == |keys| && forall i :: 0 <= i < |keys| ==>
      events[i].Prepared? && events[i].key == keys[i] && AsPlanned(s, keys[i], events[i].context)
  }

  ghost predicate Starts(events: seq<Event>, keys: seq<Key>) {
    |events| == |keys| && forall i :: 0 <= i < |keys| ==> events[i] == Started(keys[i])
  }

  /** Exactly one stop of each key, in exact reverse order. */
  ghost predicate StopsReversed(events: seq<Event>, keys: seq<Key>) {
    |events| == |keys| && forall i :: 0 <= i < |keys| ==>
      (events[i].Stopped? || events[i].StopFailed?) && events[i].key == keys[|keys| - 1 - i]
  }

  ghost predicate ShowsView(layers: seq<ResolvedLayer>) {
    exists i :: 0 <= i < |layers| && layers[i].layer.kind.View?
  }

  /** An application with a View layer has a primary, and one of the layers it prepared reported that position. */
  ghost predicate ViewBound(s: Setup, order: seq<nat>, at: nat, trace: seq<Event>)
    requires at < |order|
  {
    ShowsView(LayersAt(s.plan, order[at])) ==>
      match PrimaryAt(s.plan, order[at])
      case None => false
      case Some(p) =>
        exists i :: |Keys(s.plan, order, at)| <= i < |Keys(s.plan, order, at + 1)| && i < |trace| && trace[i].Prepared? && trace[i].position == p
  }

  ghost predicate ViewsBound(s: Setup, order: seq<nat>, count: nat, trace: seq<Event>)
    requires count <= |order|
  {
    forall at :: 0 <= at < count ==> ViewBound(s, order, at, trace)
  }

  lemma {:induction false} BoundStays(s: Setup, order: seq<nat>, count: nat, trace: seq<Event>, longer: seq<Event>)
    requires count <= |order| && ViewsBound(s, order, count, trace) && trace <= longer
    ensures ViewsBound(s, order, count, longer)
  {
    hide Keys, ShowsView;
    forall at | 0 <= at < count
      ensures ViewBound(s, order, at, longer)
    {
      assert ViewBound(s, order, at, trace);
      if ShowsView(LayersAt(s.plan, order[at])) {
        var i :| |Keys(s.plan, order, at)| <= i < |Keys(s.plan, order, at + 1)| && i < |trace| && trace[i].Prepared?
          && trace[i].position == PrimaryAt(s.plan, order[at]).value;
        assert longer[i] == trace[i];
      }
    }
  }

  lemma {:induction false} NoViewsYet(s: Setup, order: seq<nat>, trace: seq<Event>)
    ensures ViewsBound(s, order, 0, trace)
  {
  }

  lemma {:induction false} OneMoreBound(s: Setup, order: seq<nat>, at: nat, trace: seq<Event>)
    requires at < |order| && ViewsBound(s, order, at, trace) && ViewBound(s, order, at, trace)
    ensures ViewsBound(s, order, at + 1, trace)
  {
    hide ViewBound;
  }

  /** An application with a View layer has no primary, or its primary was not among the layers it prepared. */
  ghost predicate ViewRefused(s: Setup, order: seq<nat>, prepares: seq<Event>, error: LiveError, at: nat) {
    && at < |order| && ShowsView(LayersAt(s.plan, order[at]))
    && var from, to := |Keys(s.plan, order, at)|, |Keys(s.plan, order, at + 1)|;
       match PrimaryAt(s.plan, order[at])
       case None => |prepares| == from && error == Capability
       case Some(p) =>
         && |prepares| == to && error == Conflict
         && forall i :: from <= i < to && prepares[i].Prepared? ==> prepares[i].position != p
  }

  /** What went wrong after `prepares`, and the events it left. */
  ghost predicate Failure(s: Setup, order: seq<nat>, keys: seq<Key>, prepares: seq<Event>, middle: seq<Event>, error: LiveError) {
    || (middle == [] && exists at :: ViewRefused(s, order, prepares, error, at))
    || (&& |prepares| < |keys| && |middle| == 1 && middle[0].PrepareFailed? && middle[0].key == keys[|prepares|]
        && middle[0].error == error && AsPlanned(s, middle[0].key, middle[0].context))
    || (&& |prepares| == |keys| && 0 < |middle| <= |keys| && Starts(middle[..|middle| - 1], keys[..|middle| - 1])
        && middle[|middle| - 1] == StartFailed(keys[|middle| - 1], error))
  }

  ghost predicate RollsBack(s: Setup, order: seq<nat>, keys: seq<Key>, trace: seq<Event>, error: LiveError,
                            prepares: seq<Event>, middle: seq<Event>, stops: seq<Event>) {
    && |prepares| <= |keys|
    && trace == prepares + middle + stops
    && Prepares(s, prepares, keys[..|prepares|])
    && Failure(s, order, keys, prepares, middle, error)
    && StopsReversed(stops, keys[..|prepares|])
  }

  /** A failed attempt: a prefix of the lifecycle order was prepared, one step failed with this error, and then
      every prepared layer was stopped exactly once in exact reverse order. */
  ghost predicate RolledBack(s: Setup, trace: seq<Event>, error: LiveError)
    requires Indexed(s.plan.children)
  {
    RolledBackIn(s, Preorder(s.plan.children, 0), trace, error)
  }

  ghost predicate RolledBackIn(s: Setup, order: seq<nat>, trace: seq<Event>, error: LiveError) {
    exists prepares, middle, stops ::
      RollsBack(s, order, Keys(s.plan, order, |order|), trace, error, prepares, middle, stops)
  }

  /** A successful attempt: all prepares, then all starts, both in lifecycle order, and every View bound to its
      application's primary. */
  ghost predicate Completed(s: Setup, trace: seq<Event>)
    requires Indexed(s.plan.children)
  {
    var keys, order := LifecycleKeys(s.plan), Preorder(s.plan.children, 0);
    && |trace| == 2 * |keys| && Prepares(s, trace[..|keys|], keys) && Starts(trace[|keys|..], keys)
    && ViewsBound(s, order, |order|, trace)
  }

  // ---------- The keys ----------

  lemma {:induction false} KeysGrow(plan: ApplicationPlan, order: seq<nat>, count: nat, more: nat)
    requires count <= more <= |order|
    ensures Keys(plan, order, count) <= Keys(plan, order, more)
    decreases more
  {
    if count < more {
      KeysGrow(plan, order, count, more - 1);
    }
  }

  /** The layer in a slot of the application being prepared is the next key. */
  lemma {:induction false} NextKey(plan: ApplicationPlan, order: seq<nat>, at: nat, slot: nat)
    requires at < |order| && slot < |LayersAt(plan, order[at])|
    ensures var done := Keys(plan, order, at) + Slots(order[at], slot);
      var all := Keys(plan, order, |order|);
      && |done| < |all| && all[|done|] == Key(order[at], slot)
      && done + [Key(order[at], slot)] == Keys(plan, order, at) + Slots(order[at], slot + 1)
      && all[..|done|] == done
  {
    KeysGrow(plan, order, at + 1, |order|);
    var all, upto := Keys(plan, order, |order|), Keys(plan, order, at + 1);
    assert upto == Keys(plan, order, at) + Slots(order[at], |LayersAt(plan, order[at])|);
    var done := Keys(plan, order, at) + Slots(order[at], slot);
    assert all[|done|] == upto[|done|];
    assert upto[..|done|] == done;
    assert all[..|done|] == upto[..|done|];
  }

  lemma {:induction false} KeyPlace(plan: ApplicationPlan, order: seq<nat>, count: nat, key: Key)
    requires count <= |order|
    requires forall i, j :: 0 <= i < j < |order| ==> order[i] != order[j]
    ensures multiset(Keys(plan, order, count))[key]
      == if key.application in order[..count] && key.slot < |LayersAt(plan, key.application)| then 1 else 0
    decreases count
  {
    if count > 0 {
      KeyPlace(plan, order, count - 1, key);
      var last := order[count - 1];
      assert order[..count] == order[..count - 1] + [last];
      SlotsCount(last, |LayersAt(plan, last)|, key);
      var before, slots := Keys(plan, order, count - 1), Slots(last, |LayersAt(plan, last)|);
      assert multiset(before + slots)[key] == multiset(before)[key] + multiset(slots)[key];
    }
  }

  lemma {:induction false} SlotsCount(a: nat, count: nat, key: Key)
    ensures multiset(Slots(a, count))[key] == if key.application == a && key.slot < count then 1 else 0
    decreases count
  {
    if count > 0 {
      SlotsCount(a, count - 1, key);
      assert Slots(a, count) == Slots(a, count - 1) + [Key(a, count - 1)];
    } else {
      assert Slots(a, 0) == [];
    }
  }

  /** The lifecycle order touches every layer of every application of the tree exactly once. */
  lemma {:induction false} EveryLayerOnce(plan: ApplicationPlan, key: Key)
    requires Indexed(plan.children)
    ensures multiset(LifecycleKeys(plan))[key]
      == if key.application <= |plan.children| && key.slot < |LayersAt(plan, key.application)| then 1 else 0
  {
    hide Preorder, Keys, Indices;
    var order := Preorder(plan.children, 0);
    PreorderIsPermutation(plan.children);
    IndicesAre(|plan.children|);
    PermutationDistinct(order, Indices(|plan.children|));
    KeyPlace(plan, order, |order|, key);
    assert order[..|order|] == order;
    assert key.application in order <==> key.application in multiset(order);
  }

  lemma {:induction false} PermutationDistinct(order: seq<nat>, all: set<nat>)
    requires multiset(order) == multiset(all)
    ensures forall i, j :: 0 <= i < j < |order| ==> order[i] != order[j]
  {
    forall i, j | 0 <= i < j < |order|
      ensures order[i] != order[j]
    {
      var left: multiset<nat>, right: multiset<nat> := multiset(order[..j]), multiset(order[j..]);
      assert order == order[..j] + order[j..];
      assert order[j..][0] == order[j];
      assert left[order[j]] + right[order[j]] == multiset(order)[order[j]];
      assert order[..j][i] == order[i];
    }
  }

  // ---------- The attempt ----------

  ghost predicate Progress(s: Setup, keys: seq<Key>, prepared: seq<Instance>, trace: seq<Event>) {
    && Faithful(s.world, trace) && Prepares(s, trace, keys)
    && |prepared| == |keys|
    && forall i :: 0 <= i < |keys| ==> trace[i].Prepared? && prepared[i] == Instance(keys[i], trace[i].position)
  }

  lemma {:induction false} ProgressStep(s: Setup, keys: seq<Key>, prepared: seq<Instance>, trace: seq<Event>,
      key: Key, context: PrepareContext, position: U32)
    requires Progress(s, keys, prepared, trace) && AsPlanned(s, key, context)
    requires s.world.prepare(trace, key, context) == Ok(position)
    ensures Progress(s, keys + [key], prepared + [Instance(key, position)], trace + [Prepared(key, context, position)])
  {
    hide AsPlanned, Faithful;
    FaithfulStep(s.world, trace, Prepared(key, context, position));
  }

  /** `stop_reverse`: every layer is stopped, last first, whatever the earlier stops answered. */
  method StopReverse(world: World, prepared: seq<Instance>, history: seq<Event>) returns (failures: nat, trace: seq<Event>)
    requires Faithful(world, history)
    ensures Faithful(world, trace) && |trace| == |history| + |prepared| && history <= trace
    ensures forall keys: seq<Key> :: |keys| == |prepared| && (forall i :: 0 <= i < |keys| ==> keys[i] == prepared[i].key) ==>
      StopsReversed(trace[|history|..], keys)
    ensures failures == 0 <==> forall i :: |history| <= i < |trace| ==> trace[i].Stopped?
  {
    hide Faithful;
    trace, failures := history, 0;
    for left := |prepared| downto 0
      invariant Faithful(world, trace) && |trace| == |history| + |prepared| - left && history <= trace
      invariant forall i :: |history| <= i < |trace| ==>
        (trace[i].Stopped? || trace[i].StopFailed?) && trace[i].key == prepared[|prepared| - 1 - (i - |history|)].key
      invariant failures == 0 <==> forall i :: |history| <= i < |trace| ==> trace[i].Stopped?
    {
      var key := prepared[left].key;
      var answer := world.stop(trace, key);
      var event := match answer case None => Stopped(key) case Some(error) => StopFailed(key, error);
      FaithfulStep(world, trace, event);
      ghost var was := trace;
      trace := trace + [event];
      assert forall i {:trigger was[i]} :: 0 <= i < |was| ==> was[i] == trace[i];
      assert trace[|was|] == event;
      if answer.Some? {
        failures := failures + 1;
      }
    }
  }

  /** How preparing one application ends. `Abort` returns at once, without a rollback. */
  datatype Outcome = Continue | Fail(error: LiveError) | Abort(error: LiveError)

  /** The provider lookup before a layer is prepared, with its three unguarded error returns. */
  function ProviderFor(s: Setup, layer: ResolvedLayer): Result<Provider> {
    match Select(s.registry, layer.layer)
    case Err(error) => Err(Capability)
    case Ok(None) => Err(Capability)
    case Ok(Some(provider)) => if layer.provider != provider.name then Err(Conflict) else Ok(provider)
  }

  /** A layer is prepared by the first provider that serves it, if its contract is known and that is the one named in
      the plan. */
  lemma {:induction false} ProviderForIs(s: Setup, layer: ResolvedLayer)
    ensures match ProviderFor(s, layer)
      case Ok(provider) =>
        && (exists i: nat :: FirstServing(s.registry.providers, layer.layer, i) && s.registry.providers[i] == provider)
        && layer.provider == provider.name
      case Err(error) =>
        if exists i: nat :: FirstServing(s.registry.providers, layer.layer, i) && (layer.layer.kind.WasmCodemodule? ==> layer.layer.aux in s.registry.up.contracts)
        then error == Conflict && forall i: nat :: FirstServing(s.registry.providers, layer.layer, i) ==> s.registry.providers[i].name != layer.provider
        else error == Capability
  {
    hide Select, Serves;
    SelectIs(s.registry, layer.layer);
    FirstIsOne(s.registry.providers, layer.layer);
  }

  lemma {:induction false} ChosenAt(registry: ProviderRegistry, plan: ApplicationPlan, a: nat, slot: nat)
    requires PlanChosen(registry, plan) && a <= |plan.children| && slot < |LayersAt(plan, a)|
    ensures Chosen(registry, LayersAt(plan, a)[slot].layer, LayersAt(plan, a)[slot].provider)
  {
    hide Chosen;
  }

  ghost predicate PrepareFails(s: Setup, all: seq<Key>, prepared: seq<Instance>, trace: seq<Event>, error: LiveError) {
    var n := |prepared|;
    && n < |all| && |trace| == n + 1
    && Progress(s, all[..n], prepared, trace[..n])
    && Faithful(s.world, trace)
    && trace[n].PrepareFailed? && trace[n].key == all[n] && trace[n].error == error && AsPlanned(s, all[n], trace[n].context)
  }

  /** The layer loop of one application. */
  method PrepareLayers(s: Setup, ghost order: seq<nat>, ghost at: nat, a: nat, kappa: Kappa, layers: seq<ResolvedLayer>,
                       requested: CapabilityObject, grant: EffectiveGrant, before: seq<Instance>, history: seq<Event>)
    returns (outcome: Outcome, prepared: seq<Instance>, trace: seq<Event>)
    requires Ready(s) && at < |order| && order[at] == a <= |s.plan.children|
    requires layers == LayersAt(s.plan, a) && kappa == KappaAt(s.plan, a) && requested == RequestedAt(s.plan, a)
    requires a in s.grants && grant == s.grants[a]
    requires Progress(s, Keys(s.plan, order, at), before, history)
    ensures !outcome.Abort?
    ensures outcome.Continue? ==> Progress(s, Keys(s.plan, order, at + 1), prepared, trace) && before <= prepared && history <= trace
    ensures outcome.Fail? ==> PrepareFails(s, Keys(s.plan, order, |order|), prepared, trace, outcome.error)
  {
    prepared, trace := before, history;
    ghost var done := Keys(s.plan, order, at);
    assert done + Slots(a, 0) == done;
    hide Progress, Keys, Ready, PlanChosen, Faithful, Slots;
    for slot := 0 to |layers|
      invariant Progress(s, done + Slots(a, slot), prepared, trace) && before <= prepared && history <= trace
    {
      var layer := layers[slot];
      var found := ProviderFor(s, layer);
      if found.Err? {
        var unguarded := Abort(found.error);
        ReadyChosen(s);
        ChosenAt(s.registry, s.plan, a, slot);
        return unguarded, prepared, trace;
      }
      var key, context := Key(a, slot), PrepareContext(kappa, found.value, grant, requested, layer);
      NextKey(s.plan, order, at, slot);
      match s.world.prepare(trace, key, context) {
        case Ok(position) =>
          ProgressStep(s, done + Slots(a, slot), prepared, trace, key, context, position);
          prepared := prepared + [Instance(key, position)];
          trace := trace + [Prepared(key, context, position)];
        case Err(error) =>
          PrepareFailsHere(s, done + Slots(a, slot), Keys(s.plan, order, |order|), prepared, trace, context, error);
          return Fail(error), prepared, trace + [PrepareFailed(key, context, error)];
      }
    }
    KeysNext(s.plan, order, at);
    return Continue, prepared, trace;
  }

  lemma {:induction false} ReadyChosen(s: Setup)
    requires Ready(s)
    ensures PlanChosen(s.registry, s.plan)
  {
  }

  lemma {:induction false} KeysNext(plan: ApplicationPlan, order: seq<nat>, at: nat)
    requires at < |order|
    ensures Keys(plan, order, at + 1) == Keys(plan, order, at) + Slots(order[at], |LayersAt(plan, order[at])|)
  {
  }

  lemma {:induction false} PrepareFailsHere(s: Setup, done: seq<Key>, all: seq<Key>, prepared: seq<Instance>, trace: seq<Event>,
      context: PrepareContext, error: LiveError)
    requires Progress(s, done, prepared, trace) && |done| < |all| && all[..|done|] == done
    requires AsPlanned(s, all[|done|], context) && s.world.prepare(trace, all[|done|], context) == Err(error)
    ensures PrepareFails(s, all, prepared, trace + [PrepareFailed(all[|done|], context, error)], error)
  {
    hide AsPlanned, Faithful;
    var event := PrepareFailed(all[|done|], context, error);
    FaithfulStep(s.world, trace, event);
    assert (trace + [event])[..|prepared|] == trace;
  }

  ghost predicate PrepareEnds(s: Setup, order: seq<nat>, at: nat, outcome: Outcome, prepared: seq<Instance>, trace: seq<Event>)
    requires at < |order|
  {
    match outcome
    case Abort(_) => false
    case Continue => Progress(s, Keys(s.plan, order, at + 1), prepared, trace)
    case Fail(error) =>
      var all := Keys(s.plan, order, |order|);
      || PrepareFails(s, all, prepared, trace, error)
      || (&& |prepared| <= |all| && Progress(s, all[..|prepared|], prepared, trace)
          && exists k :: ViewRefused(s, order, trace, error, k))
  }

  /** One application: the View check, its layers, and the binding of its View intents. */
  method PrepareApplication(s: Setup, ghost order: seq<nat>, ghost at: nat, a: nat, before: seq<Instance>, history: seq<Event>)
    returns (outcome: Outcome, prepared: seq<Instance>, trace: seq<Event>)
    requires Ready(s) && at < |order| && order[at] == a <= |s.plan.children|
    requires s.plan.manifest.primary.Some?
    requires Progress(s, Keys(s.plan, order, at), before, history)
    ensures PrepareEnds(s, order, at, outcome, prepared, trace)
    ensures outcome.Continue? ==> history <= trace && ViewBound(s, order, at, trace)
  {
    hide Progress, Keys, PlanChosen, Faithful, Slots, ApplicationLayers, ApplicationRequested, ApplicationPrimary, PrepareFails, PrepareEnds, ViewBound;
    LookupsFind(s.plan, a);
    prepared, trace := before, history;
    var found := ApplicationLayers(s.plan, a);
    if found.Err? {
      return Abort(Conflict), prepared, trace;
    }
    var (kappa, layers) := found.value;
    var primary := None;
    if HasView(layers) {
      var position := ApplicationPrimary(s.plan, a);
      if position.Err? {
        NoPrimary(s, order, at, prepared, trace);
        return Fail(position.error), prepared, trace;
      }
      primary := Some(position.value);
    }
    var requested := ApplicationRequested(s.plan, a);
    if requested.Err? || a !in s.grants {
      return Abort(Conflict), prepared, trace;
    }
    outcome, prepared, trace := PrepareLayers(s, order, at, a, kappa, layers, requested.value, s.grants[a], before, history);
    if outcome.Continue? && primary.Some? && !Reports(prepared[|before|..], primary.value) {
      NotBound(s, order, at, before, history, prepared, trace);
      return Fail(Conflict), prepared, trace;
    }
    Ends(s, order, at, outcome, prepared, trace);
    if outcome.Continue? {
      Binds(s, order, at, before, history, prepared, trace);
    }
  }

  lemma {:induction false} Ends(s: Setup, order: seq<nat>, at: nat, outcome: Outcome, prepared: seq<Instance>, trace: seq<Event>)
    requires at < |order| && !outcome.Abort?
    requires outcome.Continue? ==> Progress(s, Keys(s.plan, order, at + 1), prepared, trace)
    requires outcome.Fail? ==> PrepareFails(s, Keys(s.plan, order, |order|), prepared, trace, outcome.error)
    ensures PrepareEnds(s, order, at, outcome, prepared, trace)
  {
    hide Progress, Keys, PrepareFails;
  }

  /** The primary's layer is among those its application prepared. */
  lemma {:induction false} Binds(s: Setup, order: seq<nat>, at: nat, before: seq<Instance>, history: seq<Event>,
      prepared: seq<Instance>, trace: seq<Event>)
    requires at < |order|
    requires Progress(s, Keys(s.plan, order, at), before, history)
    requires Progress(s, Keys(s.plan, order, at + 1), prepared, trace)
    requires before <= prepared
    requires ShowsView(LayersAt(s.plan, order[at])) ==>
      PrimaryAt(s.plan, order[at]).Some? && Reports(prepared[|before|..], PrimaryAt(s.plan, order[at]).value)
    ensures ViewBound(s, order, at, trace)
  {
    hide Keys, ShowsView, AsPlanned, Faithful;
    if ShowsView(LayersAt(s.plan, order[at])) {
      var p := PrimaryAt(s.plan, order[at]).value;
      var i :| 0 <= i < |prepared[|before|..]| && prepared[|before|..][i].position == p;
      assert prepared[|before| + i].position == p && trace[|before| + i].Prepared? && trace[|before| + i].position == p;
    }
  }

  lemma {:induction false} KeysPrefix(plan: ApplicationPlan, order: seq<nat>, at: nat)
    requires at <= |order|
    ensures var all := Keys(plan, order, |order|);
      |Keys(plan, order, at)| <= |all| && all[..|Keys(plan, order, at)|] == Keys(plan, order, at)
  {
    hide Keys;
    KeysGrow(plan, order, at, |order|);
  }

  lemma {:induction false} NoPrimary(s: Setup, order: seq<nat>, at: nat, prepared: seq<Instance>, trace: seq<Event>)
    requires at < |order| && ShowsView(LayersAt(s.plan, order[at])) && PrimaryAt(s.plan, order[at]).None?
    requires Progress(s, Keys(s.plan, order, at), prepared, trace)
    ensures PrepareEnds(s, order, at, Fail(Capability), prepared, trace)
  {
    hide Keys, ShowsView, AsPlanned;
    KeysPrefix(s.plan, order, at);
    assert ViewRefused(s, order, trace, Capability, at);
  }

  lemma {:induction false} NotBound(s: Setup, order: seq<nat>, at: nat, before: seq<Instance>, history: seq<Event>,
      prepared: seq<Instance>, trace: seq<Event>)
    requires at < |order| && ShowsView(LayersAt(s.plan, order[at])) && PrimaryAt(s.plan, order[at]).Some?
    requires Progress(s, Keys(s.plan, order, at), before, history)
    requires Progress(s, Keys(s.plan, order, at + 1), prepared, trace)
    requires |before| <= |prepared| && !Reports(prepared[|before|..], PrimaryAt(s.plan, order[at]).value)
    ensures PrepareEnds(s, order, at, Fail(Conflict), prepared, trace)
  {
    hide Keys, ShowsView, AsPlanned, Faithful;
    KeysPrefix(s.plan, order, at + 1);
    var p := PrimaryAt(s.plan, order[at]).value;
    forall i | |before| <= i < |prepared|
      ensures trace[i].Prepared? && trace[i].position != p
    {
      assert prepared[|before|..][i - |before|] == prepared[i];
    }
    assert ViewRefused(s, order, trace, Conflict, at);
  }

  ghost predicate StartsSoFar(s: Setup, keys: seq<Key>, prepared: seq<Instance>, prepares: seq<Event>, trace: seq<Event>, j: nat)
    requires j <= |keys|
  {
    && Progress(s, keys, prepared, prepares)
    && Faithful(s.world, trace)
    && |trace| == |prepares| + j && prepares <= trace && Starts(trace[|prepares|..], keys[..j])
  }

  ghost predicate StartFails(s: Setup, keys: seq<Key>, prepared: seq<Instance>, trace: seq<Event>, error: LiveError, j: nat) {
    && j < |keys| && |trace| == |keys| + j + 1 && Faithful(s.world, trace)
    && Progress(s, keys, prepared, trace[..|keys|])
    && Starts(trace[|keys|..|keys| + j], keys[..j])
    && trace[|keys| + j] == StartFailed(keys[j], error)
  }

  /** The start loop. */
  method StartLayers(s: Setup, ghost keys: seq<Key>, prepared: seq<Instance>, history: seq<Event>)
    returns (error: Option<LiveError>, trace: seq<Event>)
    requires Progress(s, keys, prepared, history)
    ensures error.None? ==> StartsSoFar(s, keys, prepared, history, trace, |keys|)
    ensures error.Some? ==> exists j :: StartFails(s, keys, prepared, trace, error.value, j)
  {
    trace := history;
    assert keys[..0] == [];
    for j := 0 to |prepared|
      invariant StartsSoFar(s, keys, prepared, history, trace, j)
    {
      hide AsPlanned, Answer, Faithful;
      var key := prepared[j].key;
      match s.world.start(trace, key) {
        case None =>
          StartStep(s, keys, prepared, history, trace, j);
          trace := trace + [Started(key)];
        case Some(e) =>
          StartFailsHere(s, keys, prepared, history, trace, j, e);
          return Some(e), trace + [StartFailed(key, e)];
      }
    }
    return None, trace;
  }

  lemma {:induction false} StartStep(s: Setup, keys: seq<Key>, prepared: seq<Instance>, history: seq<Event>, trace: seq<Event>, j: nat)
    requires j < |keys| && StartsSoFar(s, keys, prepared, history, trace, j) && s.world.start(trace, keys[j]) == None
    ensures StartsSoFar(s, keys, prepared, history, trace + [Started(keys[j])], j + 1)
  {
    hide Progress, Faithful;
    FaithfulStep(s.world, trace, Started(keys[j]));
    assert (trace + [Started(keys[j])])[|history|..] == trace[|history|..] + [Started(keys[j])];
    assert keys[..j + 1] == keys[..j] + [keys[j]];
  }

  lemma {:induction false} StartFailsHere(s: Setup, keys: seq<Key>, prepared: seq<Instance>, history: seq<Event>, trace: seq<Event>,
      j: nat, e: LiveError)
    requires j < |keys| && StartsSoFar(s, keys, prepared, history, trace, j) && s.world.start(trace, keys[j]) == Some(e)
    ensures StartFails(s, keys, prepared, trace + [StartFailed(keys[j], e)], e, j)
  {
    hide Faithful;
    var after := trace + [StartFailed(keys[j], e)];
    FaithfulStep(s.world, trace, StartFailed(keys[j], e));
    assert |history| == |keys|;
    assert after[..|keys|] == history;
    assert after[|keys|..|keys| + j] == trace[|history|..];
  }

  // ---------- Assembling the trace ----------

  lemma {:induction false} Assemble(s: Setup, order: seq<nat>, all: seq<Key>, prepared: seq<Instance>, prepares: seq<Event>,
      middle: seq<Event>, before: seq<Event>, trace: seq<Event>, error: LiveError)
    requires all == Keys(s.plan, order, |order|) && |prepared| <= |all|
    requires Progress(s, all[..|prepared|], prepared, prepares)
    requires before == prepares + middle && Failure(s, order, all, prepares, middle, error)
    requires before <= trace && |trace| == |before| + |prepared| && StopsReversed(trace[|before|..], all[..|prepared|])
    ensures RollsBack(s, order, all, trace, error, prepares, middle, trace[|before|..])
  {
    hide Failure, Faithful, AsPlanned, Keys, StopsReversed;
    assert trace == before + trace[|before|..];
  }

  lemma {:induction false} PrepareSide(s: Setup, order: seq<nat>, at: nat, error: LiveError, prepared: seq<Instance>, trace: seq<Event>)
    returns (prepares: seq<Event>, middle: seq<Event>)
    requires at < |order| && PrepareEnds(s, order, at, Fail(error), prepared, trace)
    ensures var all := Keys(s.plan, order, |order|);
      && |prepared| <= |all| && Progress(s, all[..|prepared|], prepared, prepares)
      && trace == prepares + middle && Failure(s, order, all, prepares, middle, error) && Faithful(s.world, trace)
  {
    hide Faithful, AsPlanned, Keys, ViewRefused;
    var all := Keys(s.plan, order, |order|);
    if PrepareFails(s, all, prepared, trace, error) {
      prepares, middle := trace[..|prepared|], trace[|prepared|..];
    } else {
      prepares, middle := trace, [];
    }
    assert trace == prepares + middle;
  }

  lemma {:induction false} StartSide(s: Setup, order: seq<nat>, all: seq<Key>, error: LiveError, prepared: seq<Instance>, trace: seq<Event>, j: nat)
    returns (prepares: seq<Event>, middle: seq<Event>)
    requires StartFails(s, all, prepared, trace, error, j)
    ensures |prepared| == |all| && all[..|prepared|] == all && Progress(s, all, prepared, prepares)
    ensures trace == prepares + middle && Failure(s, order, all, prepares, middle, error) && Faithful(s.world, trace)
  {
    hide Faithful, AsPlanned, Keys, ViewRefused;
    prepares, middle := trace[..|all|], trace[|all|..];
    assert middle[..j] == trace[|all|..|all| + j];
    assert trace == prepares + middle;
  }

  /** `with_rollback`: rollback failures change the message of the error and never its kind. */
  function WithRollback(error: LiveError, failures: nat): (r: LiveError)
    ensures r == error
  {
    if failures == 0 then error
    else
      match error
      case Io => Io
      case Config => Config
      case Protocol => Protocol
      case Transport => Transport
      case Authentication => Authentication
      case Authorization => Authorization
      case Capability => Capability
      case NotFound => NotFound
      case Conflict => Conflict
      case InvalidHolo => InvalidHolo
      case UnknownCommitState => UnknownCommitState
  }

  lemma {:induction false} KeysOfPrepared(s: Setup, keys: seq<Key>, prepared: seq<Instance>, trace: seq<Event>)
    requires Progress(s, keys, prepared, trace)
    ensures |keys| == |prepared| && forall i :: 0 <= i < |keys| ==> keys[i] == prepared[i].key
  {
  }

  /** The rollback of a failed attempt. */
  method Rollback(s: Setup, ghost order: seq<nat>, prepared: seq<Instance>, before: seq<Event>, error: LiveError,
                  ghost prepares: seq<Event>, ghost middle: seq<Event>)
    returns (r: LiveError, trace: seq<Event>)
    requires Faithful(s.world, before)
    requires var all := Keys(s.plan, order, |order|);
      && |prepared| <= |all| && Progress(s, all[..|prepared|], prepared, prepares)
      && before == prepares + middle && Failure(s, order, all, prepares, middle, error)
    ensures r == error && Faithful(s.world, trace)
    ensures exists stops :: RollsBack(s, order, Keys(s.plan, order, |order|), trace, error, prepares, middle, stops)
  {
    hide Progress, Faithful, Failure, Keys, StopsReversed, RollsBack;
    var failures;
    failures, trace := StopReverse(s.world, prepared, before);
    ghost var all := Keys(s.plan, order, |order|);
    KeysOfPrepared(s, all[..|prepared|], prepared, prepares);
    Assemble(s, order, all, prepared, prepares, middle, before, trace, error);
    r := WithRollback(error, failures);
  }

  /** The layers of a running tree are exactly its lifecycle keys, and every application has its gate. */
  ghost predicate Holds(s: Setup, running: Running)
    requires Indexed(s.plan.children)
  {
    && CheckPrimary(s.plan) == Ok(running.primary)
    && |running.layers| == |LifecycleKeys(s.plan)|
    && (forall i :: 0 <= i < |running.layers| ==> running.layers[i].key == LifecycleKeys(s.plan)[i])
    && running.gates == |s.plan.children| + 1
  }

  /** Every running layer is one that was prepared, in order, at the position it reported. */
  ghost predicate Reported(trace: seq<Event>, running: Running) {
    |running.layers| <= |trace| && forall i :: 0 <= i < |running.layers| ==>
      trace[i].Prepared? && running.layers[i] == Instance(trace[i].key, trace[i].position)
  }

  /** `prepare_and_start_with_admitted_grants`: whatever the providers answer and whenever they fail, the trace
      is all prepares then all starts, or a failing prefix followed by exactly one stop of every prepared layer
      in reverse, with the kind of the original error; no early return leaves a prepared layer behind. */
  method PrepareAndStart(s: Setup) returns (r: Result<Running>, trace: seq<Event>)
    requires Ready(s)
    ensures Faithful(s.world, trace)
    ensures CheckPrimary(s.plan).Err? ==> r == Err(CheckPrimary(s.plan).error) && trace == []
    ensures r.Ok? ==> Completed(s, trace) && Holds(s, r.value) && Reported(trace, r.value)
    ensures CheckPrimary(s.plan).Ok? && r.Err? ==> RolledBack(s, trace, r.error)
  {
    trace := [];
    var primary := CheckPrimary(s.plan);
    if primary.Err? {
      return Err(primary.error), trace;
    }
    ReadyIndexed(s);
    var traversal := LifecycleApplicationOrder(s.plan);
    var order := traversal.value;
    PreorderIsPermutation(s.plan.children);
    hide Progress, Keys, Ready, Faithful, PrepareEnds, Preorder, RolledBackIn, CheckPrimary, StartsSoFar, Completed, Holds, Reported, ViewsBound;
    var outcome, prepared, prepares := PrepareAll(s, order);
    match outcome {
      case Abort(unguarded) => return Err(unguarded), prepares;
      case Fail(failed) =>
        var error, rolled := RollbackPrepare(s, order, prepared, prepares, failed);
        return Err(error), rolled;
      case Continue =>
    }
    var error;
    error, trace := StartOrRollback(s, order, prepared, prepares);
    if error.Some? {
      return Err(error.value), trace;
    }
    SuccessHolds(s, order, primary.value, prepared, prepares, trace);
    return Ok(Running(primary.value, prepared, |order|)), trace;
  }

  /** The application loop. */
  method PrepareAll(s: Setup, order: seq<nat>) returns (outcome: Outcome, prepared: seq<Instance>, trace: seq<Event>)
    requires Ready(s) && order == Preorder(s.plan.children, 0) && s.plan.manifest.primary.Some?
    ensures !outcome.Abort?
    ensures outcome.Continue? ==> Progress(s, Keys(s.plan, order, |order|), prepared, trace) && ViewsBound(s, order, |order|, trace)
    ensures outcome.Fail? ==> exists at :: 0 <= at < |order| && PrepareEnds(s, order, at, outcome, prepared, trace)
  {
    PreorderInRange(s.plan.children, 0);
    prepared, trace := [], [];
    assert Progress(s, Keys(s.plan, order, 0), prepared, trace);
    NoViewsYet(s, order, trace);
    hide Progress, Keys, Ready, PrepareEnds, Preorder, ViewBound, ViewsBound;
    for at := 0 to |order|
      invariant Progress(s, Keys(s.plan, order, at), prepared, trace) && ViewsBound(s, order, at, trace)
    {
      ghost var history := trace;
      outcome, prepared, trace := PrepareApplication(s, order, at, order[at], prepared, trace);
      NeverAborts(s, order, at, outcome, prepared, trace);
      if !outcome.Continue? {
        return;
      }
      BoundStays(s, order, at, history, trace);
      OneMoreBound(s, order, at, trace);
    }
    outcome := Continue;
  }

  method RollbackPrepare(s: Setup, ghost order: seq<nat>, prepared: seq<Instance>, before: seq<Event>, error: LiveError)
    returns (r: LiveError, trace: seq<Event>)
    requires exists at :: 0 <= at < |order| && PrepareEnds(s, order, at, Fail(error), prepared, before)
    ensures r == error && Faithful(s.world, trace)
    ensures RolledBackIn(s, order, trace, error)
  {
    hide Progress, Keys, Faithful, PrepareEnds, Failure, RollsBack;
    ghost var at :| 0 <= at < |order| && PrepareEnds(s, order, at, Fail(error), prepared, before);
    ghost var prepares, middle := PrepareSide(s, order, at, error, prepared, before);
    r, trace := Rollback(s, order, prepared, before, error, prepares, middle);
  }

  /** The start phase with its rollback. */
  method StartOrRollback(s: Setup, ghost order: seq<nat>, prepared: seq<Instance>, prepares: seq<Event>)
    returns (error: Option<LiveError>, trace: seq<Event>)
    requires Progress(s, Keys(s.plan, order, |order|), prepared, prepares)
    ensures Faithful(s.world, trace)
    ensures var all := Keys(s.plan, order, |order|);
      && (error.None? ==> StartsSoFar(s, all, prepared, prepares, trace, |all|))
      && (error.Some? ==> RolledBackIn(s, order, trace, error.value))
  {
    hide Progress, Keys, Faithful, Failure, RollsBack, StartFails, Starts;
    ghost var all := Keys(s.plan, order, |order|);
    error, trace := StartLayers(s, all, prepared, prepares);
    if error.Some? {
      ghost var j :| StartFails(s, all, prepared, trace, error.value, j);
      ghost var p, middle := StartSide(s, order, all, error.value, prepared, trace, j);
      var kept;
      kept, trace := Rollback(s, order, prepared, trace, error.value, p, middle);
      error := Some(kept);
    }
  }

  lemma {:induction false} ReadyIndexed(s: Setup)
    requires Ready(s)
    ensures Indexed(s.plan.children) && SiblingsOrdered(s.plan.children)
  {
  }

  lemma {:induction false} NeverAborts(s: Setup, order: seq<nat>, at: nat, outcome: Outcome, prepared: seq<Instance>, trace: seq<Event>)
    requires at < |order| && PrepareEnds(s, order, at, outcome, prepared, trace)
    ensures !outcome.Abort?
    ensures outcome.Continue? ==> Progress(s, Keys(s.plan, order, at + 1), prepared, trace)
  {
  }

  lemma {:induction false} SuccessHolds(s: Setup, order: seq<nat>, primary: U32, prepared: seq<Instance>, prepares: seq<Event>, trace: seq<Event>)
    requires Indexed(s.plan.children) && order == Preorder(s.plan.children, 0) && CheckPrimary(s.plan) == Ok(primary)
    requires Progress(s, Keys(s.plan, order, |order|), prepared, prepares)
    requires StartsSoFar(s, Keys(s.plan, order, |order|), prepared, prepares, trace, |Keys(s.plan, order, |order|)|)
    requires ViewsBound(s, order, |order|, prepares)
    ensures Completed(s, trace) && Holds(s, Running(primary, prepared, |order|)) && Faithful(s.world, trace)
    ensures Reported(trace, Running(primary, prepared, |order|))
  {
    hide Keys, Preorder, Progress, StartsSoFar, Faithful, Prepares, Starts, CheckPrimary, ViewsBound;
    PreorderIsPermutation(s.plan.children);
    AllStarted(s, Keys(s.plan, order, |order|), prepared, prepares, trace);
    PreparedReported(s, Keys(s.plan, order, |order|), prepared, prepares, trace);
    BoundStays(s, order, |order|, prepares, trace);
  }

  lemma {:induction false} PreparedReported(s: Setup, all: seq<Key>, prepared: seq<Instance>, prepares: seq<Event>, trace: seq<Event>)
    requires Progress(s, all, prepared, prepares) && prepares <= trace
    ensures |prepared| <= |trace| && forall i :: 0 <= i < |prepared| ==> trace[i].Prepared? && prepared[i] == Instance(trace[i].key, trace[i].position)
  {
    hide AsPlanned, Faithful;
    assert forall i :: 0 <= i < |prepares| ==> trace[i] == prepares[i];
  }

  lemma {:induction false} AllStarted(s: Setup, all: seq<Key>, prepared: seq<Instance>, prepares: seq<Event>, trace: seq<Event>)
    requires Progress(s, all, prepared, prepares) && StartsSoFar(s, all, prepared, prepares, trace, |all|)
    ensures |trace| == 2 * |all| && Prepares(s, trace[..|all|], all) && Starts(trace[|all|..], all) && Faithful(s.world, trace)
    ensures |all| == |prepared| && forall i :: 0 <= i < |all| ==> all[i] == prepared[i].key
    ensures prepares <= trace
  {
    hide AsPlanned, Faithful;
    assert trace[..|all|] == prepares;
    assert all[..|all|] == all;
  }

  /** `prepare_and_start_with_grant`: a refused admission calls no provider at all. */
  method PrepareAndStartWithGrant(plan: ApplicationPlan, registry: ProviderRegistry, grant: EffectiveGrant, world: World)
    returns (r: Result<Running>, trace: seq<Event>)
    requires Indexed(plan.children) && SiblingsOrdered(plan.children) && PlanChosen(registry, plan)
    ensures Faithful(world, trace)
    ensures var run := AdmitAll(plan, grant);
      var s := Setup(plan, registry, run.grants, world);
      if run.error.Some? then r == Err(Authorization) && trace == []
      else if CheckPrimary(plan).Err? then r == Err(CheckPrimary(plan).error) && trace == []
      else if r.Ok? then Completed(s, trace) && Holds(s, r.value) && Reported(trace, r.value)
      else RolledBack(s, trace, r.error)
  {
    hide AdmitAll, Completed, RolledBack, PlanChosen, Admits, Holds, Reported, CheckPrimary;
    AdmissionAttenuates(plan, grant);
    var grants, decisions := AdmittedGrants(plan, grant);
    if grants.Err? {
      return Err(grants.error), [];
    }
    r, trace := PrepareAndStart(Setup(plan, registry, grants.value, world));
  }

  /** Every plan made from a planner report that this registry evaluated meets the preconditions above. */
  lemma {:induction false} PlannedTreesAreReady(up: Crates, archive: Archive, limits: PlanLimits,
      local: Kappa -> Result<Option<Bytes>>, r: Report, registry: ProviderRegistry)
    requires ManifestsRoundTrip(up) && Explain(up, archive, limits, local) == Ok(r)
    requires IntoPlan(Evaluate(registry, r)).Ok?
    ensures var plan := IntoPlan(Evaluate(registry, r)).value;
      Indexed(plan.children) && SiblingsOrdered(plan.children) && PlanChosen(registry, plan) && plan.manifest.primary.Some?
  {
    hide Explain, Evaluated, EvaluateProviders, IntoPlan, PlanChosen, PlanHolds, SiblingsOrdered, Indexed;
    var evaluate := context => Availability(registry, context);
    EvaluateProvidersEvaluates(r, evaluate);
    var after := EvaluateProviders(r, evaluate);
    assert after == Evaluate(registry, r);
    RunnableIffPlan(up, archive, limits, local, r, after);
    var g := Graph(SourcesOf(up, archive, limits, local), r.application, r.manifest);
    var plan := IntoPlan(after).value;
    PlannerMadeIndexed(g, plan);
    PlannerMadeOrdered(g, plan);
    EvaluatedPlanChosen(registry, r);
  }
}
