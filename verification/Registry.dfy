/** Provider selection (src/holo_provider.rs:150-263). */
module Registry {
  import opened Basics
  import opened Upstream
  import opened Resolver
  import opened Planner
  import opened PlanReport

  datatype Provider = Provider(kind: LayerKind, contract: Option<string>, name: string)

  /** A registry, and what each of its providers answers when asked whether it can serve a layer. */
  datatype ProviderRegistry = ProviderRegistry(
    up: Crates, providers: seq<Provider>, refuses: (Provider, ProviderContext) -> Option<string>)

  function Find(providers: seq<Provider>, kind: LayerKind, contract: Option<string>): Option<Provider> {
    if providers == [] then None
    else if providers[0].kind == kind && providers[0].contract == contract then Some(providers[0])
    else Find(providers[1..], kind, contract)
  }

  /** `select`: an unknown guest contract is an error, an unserved kind is `None`. */
  function Select(registry: ProviderRegistry, layer: Layer): Result<Option<Provider>> {
    if layer.kind == WasmCodemodule then
      if layer.aux in registry.up.contracts then Ok(Find(registry.providers, layer.kind, Some(layer.aux))) else Err(Capability)
    else Ok(Find(registry.providers, layer.kind, None))
  }

  /** `availability` */
  function Availability(registry: ProviderRegistry, context: ProviderContext): ProviderAvailability {
    match Select(registry, context.layer)
    case Err(_) => Unavailable("contract")
    case Ok(None) => Unavailable("no provider")
    case Ok(Some(provider)) =>
      match registry.refuses(provider, context)
      case None => Available(provider.name)
      case Some(reason) => Unavailable(reason)
  }

  /** `ProviderRegistry::evaluate` */
  function Evaluate(registry: ProviderRegistry, r: Report): Report {
    EvaluateProviders(r, context => Availability(registry, context))
  }

  /** The provider named on a layer is the one the registry selects for it. */
  ghost predicate Chosen(registry: ProviderRegistry, layer: Layer, provider: string) {
    && Select(registry, layer).Ok? && Select(registry, layer).value.Some?
    && Select(registry, layer).value.value.name == provider
  }

  ghost predicate AllChosen(registry: ProviderRegistry, layers: seq<ResolvedLayer>) {
    forall i :: 0 <= i < |layers| ==> Chosen(registry, layers[i].layer, layers[i].provider)
  }

  ghost predicate PlanChosen(registry: ProviderRegistry, plan: ApplicationPlan) {
    && AllChosen(registry, plan.layers)
    && forall i :: 0 <= i < |plan.children| ==> AllChosen(registry, plan.children[i].layers)
  }

  /** After evaluation, an available layer with content names the provider the registry selects. */
  ghost predicate Answered(registry: ProviderRegistry, layers: seq<PlannedLayer>, objects: map<Kappa, ResolvedObject>, count: nat)
    requires count <= |layers|
  {
    forall i :: 0 <= i < count && layers[i].layer.content in objects && layers[i].provider.Available? ==>
      Chosen(registry, layers[i].layer, layers[i].provider.provider)
  }

  ghost predicate AllAnswered(registry: ProviderRegistry, admissions: seq<Admission>, objects: map<Kappa, ResolvedObject>, count: nat)
    requires count <= |admissions|
  {
    forall i :: 0 <= i < count ==> Answered(registry, admissions[i].layers, objects, |admissions[i].layers|)
  }

  /** The answers come from this registry. */
  ghost predicate Asks(registry: ProviderRegistry, evaluate: ProviderContext -> ProviderAvailability) {
    forall context :: evaluate(context) == Availability(registry, context)
  }

  lemma {:induction false} EvaluateLayersAnswers(registry: ProviderRegistry, evaluate: ProviderContext -> ProviderAvailability,
      application: Kappa, e: Evaluation, count: nat, objects: map<Kappa, ResolvedObject>)
    requires count <= |e.layers| && Asks(registry, evaluate)
    ensures Answered(registry, EvaluateLayers(application, e, count, objects, evaluate).layers, objects, count)
    decreases count
  {
    if count > 0 {
      EvaluateLayersAnswers(registry, evaluate, application, e, count - 1, objects);
    }
  }

  lemma {:induction false} EvaluateAdmissionsAnswers(registry: ProviderRegistry, evaluate: ProviderContext -> ProviderAvailability,
      admissions: seq<Admission>, blockers: seq<PlanBlocker>, count: nat, objects: map<Kappa, ResolvedObject>)
    requires count <= |admissions| && Asks(registry, evaluate)
    ensures AllAnswered(registry, EvaluateAdmissions(admissions, blockers, count, objects, evaluate).0, objects, count)
    decreases count
  {
    hide EvaluateLayers, Answered, Asks;
    if count > 0 {
      EvaluateAdmissionsAnswers(registry, evaluate, admissions, blockers, count - 1, objects);
      var (done, b) := EvaluateAdmissions(admissions, blockers, count - 1, objects, evaluate);
      var a := done[count - 1];
      EvaluateLayersAnswers(registry, evaluate, a.application, Evaluation(a.layers, b), |a.layers|, objects);
      var e := EvaluateLayers(a.application, Evaluation(a.layers, b), |a.layers|, objects, evaluate);
      assert EvaluateAdmissions(admissions, blockers, count, objects, evaluate).0 == done[count - 1 := a.(layers := e.layers)];
    }
  }

  lemma {:induction false} StrictLayersChosen(registry: ProviderRegistry, layers: seq<PlannedLayer>, objects: map<Kappa, ResolvedObject>)
    requires Answered(registry, layers, objects, |layers|) && StrictLayers(layers, objects).Ok?
    ensures AllChosen(registry, StrictLayers(layers, objects).value)
  {
    hide Chosen;
    if layers != [] {
      var rest := layers[1..];
      assert forall i :: 0 <= i < |rest| ==> rest[i] == layers[i + 1];
      StrictLayersChosen(registry, rest, objects);
    }
  }

  lemma {:induction false} StrictChildrenChosen(registry: ProviderRegistry, admissions: seq<Admission>, objects: map<Kappa, ResolvedObject>)
    requires AllAnswered(registry, admissions, objects, |admissions|)
    requires StrictChildren(admissions, objects).Ok?
    ensures forall i :: 0 <= i < |admissions| ==>
      |StrictChildren(admissions, objects).value| == |admissions| && AllChosen(registry, StrictChildren(admissions, objects).value[i].layers)
    ensures |StrictChildren(admissions, objects).value| == |admissions|
  {
    hide Answered, AllChosen, StrictLayers;
    if admissions != [] {
      StrictLayersChosen(registry, admissions[0].layers, objects);
      StrictChildrenChosen(registry, admissions[1..], objects);
    }
  }

  /** A plan made from a report this registry evaluated names, for every layer, the provider this registry
      selects. */
  lemma {:induction false} EvaluatedPlanChosen(registry: ProviderRegistry, r: Report)
    requires IntoPlan(Evaluate(registry, r)).Ok?
    ensures PlanChosen(registry, IntoPlan(Evaluate(registry, r)).value)
  {
    hide Answered, AllChosen, StrictLayers, StrictChildren, EvaluateLayers, EvaluateAdmissions, Availability;
    var evaluate := context => Availability(registry, context);
    var after := EvaluateProviders(r, evaluate);
    assert after == Evaluate(registry, r);
    var e := EvaluateLayers(r.application, Evaluation(r.layers, r.blockers), |r.layers|, r.objects, evaluate);
    EvaluateLayersAnswers(registry, evaluate, r.application, Evaluation(r.layers, r.blockers), |r.layers|, r.objects);
    EvaluateAdmissionsAnswers(registry, evaluate, r.admissions, e.blockers, |r.admissions|, r.objects);
    StrictLayersChosen(registry, after.layers, after.objects);
    StrictChildrenChosen(registry, after.admissions, after.objects);
  }

  // ---------- Which provider is selected ----------

  /** A provider for a layer: of its kind, and for a guest module of exactly its contract. */
  ghost predicate Serves(provider: Provider, layer: Layer) {
    && provider.kind == layer.kind
    && if layer.kind.WasmCodemodule? then provider.contract == Some(layer.aux) else provider.contract.None?
  }

  /** The first of the providers that serve a layer. */
  ghost predicate FirstServing(providers: seq<Provider>, layer: Layer, i: nat) {
    i < |providers| && Serves(providers[i], layer) && forall j :: 0 <= j < i ==> !Serves(providers[j], layer)
  }

  lemma {:induction false} FindIs(providers: seq<Provider>, layer: Layer)
    ensures var found := Find(providers, layer.kind, if layer.kind.WasmCodemodule? then Some(layer.aux) else None);
      match found
      case None => forall i :: 0 <= i < |providers| ==> !Serves(providers[i], layer)
      case Some(provider) => exists i: nat :: FirstServing(providers, layer, i) && providers[i] == provider
  {
    var contract := if layer.kind.WasmCodemodule? then Some(layer.aux) else None;
    if providers != [] {
      if Serves(providers[0], layer) {
        assert FirstServing(providers, layer, 0);
      } else {
        var rest := providers[1..];
        FindIs(rest, layer);
        assert providers == [providers[0]] + rest;
        var found := Find(rest, layer.kind, contract);
        if found.Some? {
          var i: nat :| FirstServing(rest, layer, i) && rest[i] == found.value;
          assert forall j :: 0 < j < |providers| ==> providers[j] == rest[j - 1];
          forall j | 0 <= j < i + 1
            ensures !Serves(providers[j], layer)
          {
            assert j > 0 ==> providers[j] == rest[j - 1];
          }
          assert FirstServing(providers, layer, i + 1) && providers[i + 1] == found.value;
        } else {
          forall i | 0 <= i < |providers|
            ensures !Serves(providers[i], layer)
          {
            assert i > 0 ==> providers[i] == rest[i - 1];
          }
        }
      }
    }
  }

  /** A guest module of an unknown contract is an error; any other layer gets the first provider that serves it. */
  lemma {:induction false} SelectIs(registry: ProviderRegistry, layer: Layer)
    ensures match Select(registry, layer)
      case Err(error) => error == Capability && layer.kind.WasmCodemodule? && layer.aux !in registry.up.contracts
      case Ok(chosen) =>
        && (layer.kind.WasmCodemodule? ==> layer.aux in registry.up.contracts)
        && match chosen
           case None => forall i :: 0 <= i < |registry.providers| ==> !Serves(registry.providers[i], layer)
           case Some(provider) => exists i: nat :: FirstServing(registry.providers, layer, i) && registry.providers[i] == provider
  {
    hide Find, FirstServing, Serves;
    FindIs(registry.providers, layer);
  }

  /** A layer is available exactly when the first provider that serves it accepts it, and then under its name. */
  lemma {:induction false} AvailableIff(registry: ProviderRegistry, context: ProviderContext, name: string)
    ensures Availability(registry, context) == Available(name) <==>
      && (context.layer.kind.WasmCodemodule? ==> context.layer.aux in registry.up.contracts)
      && exists i: nat :: FirstServing(registry.providers, context.layer, i) && registry.providers[i].name == name
           && registry.refuses(registry.providers[i], context).None?
    ensures !Availability(registry, context).Unchecked?
  {
    SelectIs(registry, context.layer);
    hide Select, Serves;
    FirstIsOne(registry.providers, context.layer);
  }

  lemma {:induction false} FirstIsOne(providers: seq<Provider>, layer: Layer)
    ensures forall i: nat, j: nat :: FirstServing(providers, layer, i) && FirstServing(providers, layer, j) ==> i == j
  {
    hide Serves;
  }
}
