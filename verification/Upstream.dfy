/** The parts of the upstream `hologram` crates that the program calls: content addressing and the two
    canonical codecs. They are values of this model, so every result holds for all of them; the laws a
    result needs are the named predicates below. */
module Upstream {
  import opened Basics
  import opened Capability

  datatype LayerKind = WasmCodemodule | TensorPlan | RootfsImage | View | InferenceModel

  datatype Layer = Layer(kind: LayerKind, content: Kappa, entry: string, aux: string)

  datatype ChildEdge = ChildEdge(application: Kappa, capabilities: Kappa)

  datatype AppManifest = AppManifest(
    primary: Option<U32>, required: Kappa, layers: seq<Layer>, children: seq<ChildEdge>)

  datatype Crates = Crates(
    address: Bytes -> Kappa,
    encodeManifest: AppManifest -> Bytes,
    parseManifest: Bytes -> Option<AppManifest>,
    validManifest: AppManifest -> bool,
    encodeCapabilities: Capabilities -> Bytes,
    parseCapabilities: Bytes -> Option<Capabilities>,
    contracts: set<string>)

  /** `normalize_wasm_contract`: only the exact contract identifiers are accepted. */
  function NormalizeContract(up: Crates, value: string): Result<string> {
    if value in up.contracts then Ok(value) else Err(InvalidHolo)
  }

  /** Decoding a canonical manifest gives the manifest back. */
  ghost predicate ManifestsRoundTrip(up: Crates) {
    forall m {:trigger up.encodeManifest(m)} :: up.validManifest(m) ==> up.parseManifest(up.encodeManifest(m)) == Some(m)
  }

  /** Decoding a canonical capability set gives the set back. */
  ghost predicate CapabilitiesRoundTrip(up: Crates) {
    forall c {:trigger up.encodeCapabilities(c)} :: up.parseCapabilities(up.encodeCapabilities(c)) == Some(c)
  }

  /** No two of these byte strings share a content address. */
  ghost predicate Distinguishes(address: Bytes -> Kappa, texts: set<Bytes>) {
    forall a, b {:trigger address(a), address(b)} :: a in texts && b in texts && address(a) == address(b) ==> a == b
  }

  /** Every label a manifest names. */
  function References(m: AppManifest): set<Kappa> {
    {m.required} + (set i | 0 <= i < |m.layers| :: m.layers[i].content)
    + (set i | 0 <= i < |m.children| :: m.children[i].application)
    + (set i | 0 <= i < |m.children| :: m.children[i].capabilities)
  }

  /** A capability set read from an archive, as a request or as a delegation. */
  datatype CapabilityObject = CapabilityObject(kappa: Kappa, canonical: Bytes, capabilities: Capabilities)

  /** `RequestedCapabilities::decode` and `DelegatedCapabilities::decode` */
  function DecodeCapabilities(up: Crates, kappa: Kappa, bytes: Bytes): Option<CapabilityObject> {
    if up.address(bytes) != kappa then None
    else
      match up.parseCapabilities(bytes)
      case None => None
      case Some(capabilities) =>
        if up.encodeCapabilities(capabilities) != bytes then None
        else Some(CapabilityObject(kappa, bytes, capabilities))
  }

  /** `decode_child_manifest` */
  function DecodeChildManifest(up: Crates, bytes: Bytes): Option<AppManifest> {
    match up.parseManifest(bytes)
    case None => None
    case Some(manifest) =>
      if up.validManifest(manifest) && up.encodeManifest(manifest) == bytes then Some(manifest) else None
  }
}
