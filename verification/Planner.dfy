/** The planning worklist over a manifest graph (src/application_plan.rs:740-765, 843-1046, 1099-1107). */
module Planner {
  import opened Basics
  import opened Upstream
  import opened Resolver

  datatype ProviderAvailability = Unchecked | Available(provider: string) | Unavailable(reason: string)

  datatype PlannedLayer = PlannedLayer(
    position: U32, layer: Layer, primary: bool, source: Option<ResolutionSource>, provider: ProviderAvailability)

  datatype ChildReference = ChildReference(
    position: U32, parent: Kappa, application: Kappa, capabilities: Kappa, depth: U32,
    required: Option<Kappa>, layerCount: Option<nat>,
    applicationSource: Option<ResolutionSource>, capabilitiesSource: Option<ResolutionSource>)

  /** `PendingChildAdmission` */
  datatype Admission = Admission(
    position: U32, parentIndex: nat, parent: Kappa, index: nat, application: Kappa,
    delegated: CapabilityObject, requested: Option<CapabilityObject>,
    primary: Option<U32>, layers: seq<PlannedLayer>)

  /** `PendingApplication` */
  datatype Pending = Pending(
    index: nat, admission: Option<nat>, application: Kappa, manifest: AppManifest, depth: nat, path: seq<Kappa>)

  datatype Plan = Plan(
    closure: State, pending: seq<Pending>, children: seq<ChildReference>, admissions: seq<Admission>,
    requested: Option<CapabilityObject>, applicationCount: nat, maxDepth: nat, totalLayers: nat,
    applicationsLimited: bool)

  function Blocked(s: Plan, blocker: PlanBlocker): Plan {
    s.(closure := Block(s.closure, blocker))
  }

  function PositionOf(position: nat): Option<U32> {
    if position <= U32_MAX then Some(position) else None
  }

  /** `planned_layers` */
  function PlannedLayers(manifest: AppManifest): seq<PlannedLayer> {
    seq(|manifest.layers|, i requires 0 <= i < |manifest.layers| =>
      PlannedLayer(U32Of(i), manifest.layers[i], manifest.primary == PositionOf(i), None, Unchecked))
  }

  /** Record the layers of an application on its admission, when it has one. */
  function OpenAdmission(admissions: seq<Admission>, app: Pending): seq<Admission> {
    if app.admission.Some? && app.admission.value < |admissions| then
      var i := app.admission.value;
      admissions[i := admissions[i].(primary := app.manifest.primary, layers := PlannedLayers(app.manifest))]
    else admissions
  }

  function Open(s: Plan, app: Pending): Plan {
    s.(admissions := OpenAdmission(s.admissions, app),
       totalLayers := SaturatingAdd(s.totalLayers, |app.manifest.layers|))
  }

  function RequiresEdge(app: Pending): ManifestEdge {
    if app.depth == 0 then RequiredCapabilities else ChildRequiredCapabilities(app.application)
  }

  /** Record the decoded request of an application. */
  function SetRequested(s: Plan, app: Pending, request: CapabilityObject): Plan {
    if app.depth == 0 then s.(requested := Some(request))
    else if app.admission.Some? && app.admission.value < |s.admissions| then
      var i := app.admission.value;
      s.(admissions := s.admissions[i := s.admissions[i].(requested := Some(request))])
    else s
  }

  /** Resolve and decode what an application requires. */
  function Require(env: Sources, s: Plan, app: Pending): Result<Plan> {
    var answer :- Resolution(env, s.closure, app.manifest.required, RequiresEdge(app));
    var s1 := s.(closure := answer.state);
    if answer.resolved.None? then Ok(s1)
    else
      var resolved := answer.resolved.value;
      match DecodeCapabilities(env.up, resolved.kappa, resolved.bytes)
      case None => Ok(Blocked(s1, InvalidCapabilitySet(resolved.kappa)))
      case Some(request) => Ok(SetRequested(s1, app, request))
  }

  function LayerEdgeOf(app: Pending, position: nat): ManifestEdge {
    if app.depth == 0 then LayerEdge(U32Of(position)) else ChildLayer(app.application, U32Of(position))
  }

  /** Resolve the layers of an application from a position on. */
  function ResolveLayers(env: Sources, closure: State, app: Pending, from: nat): Result<State>
    decreases |app.manifest.layers| - from
  {
    if from >= |app.manifest.layers| then Ok(closure)
    else
      var answer :- Resolution(env, closure, app.manifest.layers[from].content, LayerEdgeOf(app, from));
      ResolveLayers(env, answer.state, app, from + 1)
  }

  /** The reference row for a child that was not resolved. */
  function Row(app: Pending, position: nat, edge: ChildEdge): ChildReference {
    ChildReference(U32Of(position), app.application, edge.application, edge.capabilities, U32Of(app.depth + 1),
                   None, None, None, None)
  }

  function SourceIn(resolved: Option<ResolvedObject>): Option<ResolutionSource> {
    match resolved
    case None => None
    case Some(r) => Some(r.source)
  }

  /** What the delegated capability object of a child edge turned out to be. */
  datatype Delegation = Delegation(closure: State, source: Option<ResolutionSource>, delegated: Option<CapabilityObject>)

  function Delegate(env: Sources, closure: State, app: Pending, position: nat, edge: ChildEdge): Result<Delegation> {
    var answer :- Resolution(env, closure, edge.capabilities, DelegatedCapabilities(app.application, U32Of(position)));
    if answer.resolved.None? then Ok(Delegation(answer.state, None, None))
    else
      var resolved := answer.resolved.value;
      match DecodeCapabilities(env.up, resolved.kappa, resolved.bytes)
      case None => Ok(Delegation(Block(answer.state, InvalidCapabilitySet(resolved.kappa)), Some(resolved.source), None))
      case Some(delegated) => Ok(Delegation(answer.state, Some(resolved.source), Some(delegated)))
  }

  /** Queue a child whose manifest is known, with an admission when its delegation is known too. */
  function Enqueue(s: Plan, app: Pending, position: nat, index: nat, kappa: Kappa, manifest: AppManifest,
                   delegated: Option<CapabilityObject>): Plan
  {
    var admission := if delegated.Some? then Some(|s.admissions|) else None;
    s.(admissions :=
         if delegated.None? then s.admissions
         else s.admissions + [Admission(U32Of(position), app.index, app.application, index, kappa,
                                        delegated.value, None, None, [])],
       pending := s.pending + [Pending(index, admission, kappa, manifest, app.depth + 1, app.path + [kappa])])
  }

  /** Record what was found behind a child edge. */
  function RecordChild(env: Sources, s: Plan, app: Pending, position: nat, edge: ChildEdge, d: Delegation, answer: Answer): Plan {
    var index := s.applicationCount;
    var row := Row(app, position, edge).(capabilitiesSource := d.source, applicationSource := SourceIn(answer.resolved));
    var s1 := s.(closure := answer.state, applicationCount := index + 1, maxDepth := Max(s.maxDepth, app.depth + 1));
    if answer.resolved.None? then s1.(children := s.children + [row])
    else
      match DecodeChildManifest(env.up, answer.resolved.value.bytes)
      case None =>
        Blocked(s1.(children := s.children + [row]),
                InvalidChildManifest(edge.application, ChildApplication(app.application, U32Of(position))))
      case Some(manifest) =>
        var known := row.(required := Some(manifest.required), layerCount := Some(|manifest.layers|));
        Enqueue(s1.(children := s.children + [known]), app, position, index,
                answer.resolved.value.kappa, manifest, d.delegated)
  }

  /** A child edge that passed the cycle, depth and count checks. */
  function AdmitChild(env: Sources, s: Plan, app: Pending, position: nat, edge: ChildEdge): Result<Plan> {
    var d :- Delegate(env, s.closure, app, position, edge);
    var answer :- Resolution(env, d.closure, edge.application, ChildApplication(app.application, U32Of(position)));
    Ok(RecordChild(env, s, app, position, edge, d, answer))
  }

  /** Why a child edge may not be followed. */
  datatype Refusal = Follow | Cycle | TooDeep | TooMany

  /** `child_cycle_path` and the two limit checks, in the program's order. */
  function Refuse(env: Sources, s: Plan, app: Pending, edge: ChildEdge): Refusal {
    if edge.application in app.path then Cycle
    else if app.depth + 1 > env.limits.maxDepth then TooDeep
    else if s.applicationsLimited || s.applicationCount >= env.limits.maxApplications then TooMany
    else Follow
  }

  function RefuseChild(env: Sources, s: Plan, app: Pending, position: nat, edge: ChildEdge, refusal: Refusal): Plan {
    var s1 := s.(children := s.children + [Row(app, position, edge)]);
    var applicationEdge := Some(ChildApplication(app.application, U32Of(position)));
    match refusal
    case Cycle => Blocked(s1, ChildCycle(app.path + [edge.application]))
    case TooDeep => Blocked(s1, LimitExceeded(DepthLimit, env.limits.maxDepth, U64Of(app.depth + 1), applicationEdge))
    case _ =>
      if s.applicationsLimited then s1
      else Blocked(s1, LimitExceeded(ApplicationLimit, env.limits.maxApplications, U64Of(s.applicationCount + 1), applicationEdge))
             .(applicationsLimited := true)
  }

  function VisitChild(env: Sources, s: Plan, app: Pending, position: nat): Result<Plan>
    requires position < |app.manifest.children|
  {
    var edge := app.manifest.children[position];
    var refusal := Refuse(env, s, app, edge);
    if refusal.Follow? then AdmitChild(env, s, app, position, edge)
    else Ok(RefuseChild(env, s, app, position, edge, refusal))
  }

  function VisitChildren(env: Sources, s: Plan, app: Pending, from: nat): Result<Plan>
    decreases |app.manifest.children| - from
  {
    if from >= |app.manifest.children| then Ok(s)
    else
      var s1 :- VisitChild(env, s, app, from);
      VisitChildren(env, s1, app, from + 1)
  }

  /** The state after one turn of the worklist, and whether the worklist stops there. */
  datatype Turn = Turn(plan: Plan, stop: bool)

  /** The part of a turn that resolves the application's own objects. */
  function VisitContents(env: Sources, s: Plan, app: Pending): Result<Plan> {
    var s1 :- Require(env, s, app);
    var closure :- ResolveLayers(env, s1.closure, app, 0);
    Ok(s1.(closure := closure))
  }

  function Visit(env: Sources, s: Plan, app: Pending): Result<Turn> {
    var begun := Open(s, app);
    if begun.totalLayers > env.limits.maxLayers then
      Ok(Turn(Blocked(begun, LimitExceeded(LayerLimit, env.limits.maxLayers, begun.totalLayers, None)), true))
    else
      var s1 :- VisitContents(env, begun, app);
      if s1.closure.halted then Ok(Turn(s1, true))
      else
        var s2 :- VisitChildren(env, s1, app, 0);
        Ok(Turn(s2, s2.closure.halted))
  }

  /** Applications that are queued or may still be counted. */
  function Room(env: Sources, s: Plan): nat {
    |s.pending| + if s.applicationCount < env.limits.maxApplications then env.limits.maxApplications - s.applicationCount else 0
  }

  lemma {:induction false} VisitChildRoom(env: Sources, s: Plan, app: Pending, position: nat)
    requires position < |app.manifest.children|
    ensures var r := VisitChild(env, s, app, position); r.Ok? ==> Room(env, r.value) <= Room(env, s)
  {
  }

  lemma {:induction false} VisitChildrenRoom(env: Sources, s: Plan, app: Pending, from: nat)
    ensures var r := VisitChildren(env, s, app, from); r.Ok? ==> Room(env, r.value) <= Room(env, s)
    decreases |app.manifest.children| - from
  {
    if from < |app.manifest.children| {
      VisitChildRoom(env, s, app, from);
      var r := VisitChild(env, s, app, from);
      if r.Ok? {
        VisitChildrenRoom(env, r.value, app, from + 1);
      }
    }
  }

  /** A turn never makes more room than it was given. */
  lemma {:induction false} VisitRoom(env: Sources, s: Plan, app: Pending)
    ensures var r := Visit(env, s, app); r.Ok? ==> Room(env, r.value.plan) <= Room(env, s)
  {
    hide VisitContents, VisitChildren, OpenAdmission;
    var begun := Open(s, app);
    ContentsRoom(env, begun, app);
    var s1 := VisitContents(env, begun, app);
    if s1.Ok? {
      VisitChildrenRoom(env, s1.value, app, 0);
    }
  }

  /** Resolving an application's own objects queues and counts nothing. */
  lemma {:induction false} ContentsRoom(env: Sources, s: Plan, app: Pending)
    ensures var r := VisitContents(env, s, app); r.Ok? ==> r.value.pending == s.pending && r.value.applicationCount == s.applicationCount
  {
    hide Resolution, ResolveLayers, DecodeCapabilities;
  }

  /** The worklist. It ends on every manifest graph, cyclic ones included, because each turn takes one
      application out of a room that never grows. */
  function Run(env: Sources, s: Plan): Result<Plan>
    decreases Room(env, s)
  {
    if s.pending == [] then Ok(s)
    else
      var rest := s.(pending := s.pending[1..]);
      var turn :- Visit(env, rest, s.pending[0]);
      if turn.stop then Ok(turn.plan)
      else
        assert Room(env, turn.plan) < Room(env, s) by {
          VisitRoom(env, rest, s.pending[0]);
        }
        Run(env, turn.plan)
  }

  /** The state before the first turn (src/application_plan.rs:843-867). */
  function Start(env: Sources, root: Kappa, manifest: AppManifest): Plan {
    var s := Plan(INITIAL, [Pending(0, None, root, manifest, 0, [root])], [], [], None, 1, 0, 0, false);
    if 1 > env.limits.maxApplications then
      Blocked(s, LimitExceeded(ApplicationLimit, env.limits.maxApplications, 1, None)).(applicationsLimited := true, pending := [])
    else s
  }
}
