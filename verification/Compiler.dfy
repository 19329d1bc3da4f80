/** The archive compiler (src/compile.rs:224-319, 377-471). */
module Compiler {
  import opened Basics
  import opened Capability
  import opened Upstream
  import opened Directory
  import opened BlobTable
  import opened PlanReport

  datatype Packaging = Fat | Thin

  /** A layer of a compile manifest after its own fields were checked, with its content. */
  datatype SourceLayer = SourceLayer(kind: LayerKind, entry: string, aux: string, content: Bytes)

  /** A child of a compile manifest: an archive and the capabilities delegated to it. */
  datatype ChildSource = ChildSource(archive: Archive, capabilities: Capabilities)

  datatype Specification = Specification(
    primary: Option<U32>, required: Capabilities, layers: seq<SourceLayer>, children: seq<ChildSource>)

  /** The upstream crates, and the address an archive gets once it is written out. */
  datatype Toolchain = Toolchain(up: Crates, addressOf: (Bytes, HoloDirectory, seq<Blob>) -> Kappa)

  datatype CompiledChild = CompiledChild(application: Kappa, capabilities: Kappa, blobs: seq<Blob>)

  function CapabilityBlob(up: Crates, c: Capabilities): Blob {
    Blob(up.address(up.encodeCapabilities(c)), up.encodeCapabilities(c))
  }

  function LayerBlobs(up: Crates, layers: seq<SourceLayer>): seq<Blob> {
    seq(|layers|, i requires 0 <= i < |layers| => Blob(up.address(layers[i].content), layers[i].content))
  }

  function BuiltLayers(up: Crates, layers: seq<SourceLayer>): seq<Layer> {
    seq(|layers|, i requires 0 <= i < |layers| =>
      Layer(layers[i].kind, up.address(layers[i].content), layers[i].entry, layers[i].aux))
  }

  predicate AllAddressed(up: Crates, blobs: seq<Blob>) {
    forall i :: 0 <= i < |blobs| ==> up.address(blobs[i].content) == blobs[i].kappa
  }

  /** The manifest of a child archive, with the checks made on it before its blobs are read. */
  function ChildManifest(up: Crates, archive: Archive): Result<AppManifest> {
    if archive.manifest.None? then Err(InvalidHolo)
    else
      match up.parseManifest(archive.manifest.value)
      case None => Err(InvalidHolo)
      case Some(m) =>
        if !up.validManifest(m) || up.encodeManifest(m) != archive.manifest.value then Err(InvalidHolo)
        else
          var _ :- VerifyRequired(up, m, archive.directories, archive.blobs);
          Ok(m)
  }

  /** `compile_child` */
  function CompileChild(up: Crates, child: ChildSource): Result<CompiledChild> {
    var m :- ChildManifest(up, child.archive);
    var application := Blob(up.address(up.encodeManifest(m)), up.encodeManifest(m));
    if !AllAddressed(up, child.archive.blobs) then Err(InvalidHolo)
    else
      var blobs := PutAll([application], child.archive.blobs);
      if !(References(m) <= BlobLabels(blobs)) then Err(Config)
      else
        var delegated := CapabilityBlob(up, child.capabilities);
        Ok(CompiledChild(application.kappa, delegated.kappa, Put(blobs, delegated)))
  }

  function CompileChildren(up: Crates, children: seq<ChildSource>): Result<seq<CompiledChild>> {
    if children == [] then Ok([])
    else
      var n := |children| - 1;
      var rest :- CompileChildren(up, children[..n]);
      var last :- CompileChild(up, children[n]);
      Ok(rest + [last])
  }

  /** The blob map after merging the closures of the children. */
  function Merge(table: seq<Blob>, children: seq<CompiledChild>): seq<Blob> {
    if children == [] then table else PutAll(Merge(table, children[..|children| - 1]), children[|children| - 1].blobs)
  }

  function OwnBlobs(up: Crates, spec: Specification): seq<Blob> {
    PutAll([CapabilityBlob(up, spec.required)], LayerBlobs(up, spec.layers))
  }

  function Edges(children: seq<CompiledChild>): seq<ChildEdge> {
    seq(|children|, i requires 0 <= i < |children| => ChildEdge(children[i].application, children[i].capabilities))
  }

  function Assembled(up: Crates, spec: Specification, edges: seq<ChildEdge>): AppManifest {
    AppManifest(spec.primary, CapabilityBlob(up, spec.required).kappa, BuiltLayers(up, spec.layers), edges)
  }

  /** Writing the archive once everything is compiled. */
  function Package(tc: Toolchain, m: AppManifest, blobs: seq<Blob>, packaging: Packaging): Result<Archive> {
    if !tc.up.validManifest(m) then Err(InvalidHolo)
    else
      var embedded := if packaging == Fat then blobs else [];
      var directory :- Derive(tc.up, m, embedded);
      var bytes := tc.up.encodeManifest(m);
      Ok(Archive(tc.addressOf(bytes, directory, embedded), Some(bytes), [Document(directory)], embedded))
  }

  /** `compile_manifest_with_options` */
  function Compile(tc: Toolchain, spec: Specification, packaging: Packaging): Result<Archive> {
    var children :- CompileChildren(tc.up, spec.children);
    Package(tc, Assembled(tc.up, spec, Edges(children)), Merge(OwnBlobs(tc.up, spec), children), packaging)
  }

  // ---------- The loops ----------

  /** `compile_manifest_with_options`: two loops fill one blob map and two lists. */
  method CompileManifest(tc: Toolchain, spec: Specification, packaging: Packaging) returns (r: Result<Archive>)
    ensures r == Compile(tc, spec, packaging)
  {
    var up := tc.up;
    hide Package, Merge, CompileChildren, PutAll;
    var blobs, layers := CompileLayers(up, spec);
    var compiled, edges, merged := CompileAllChildren(up, spec.children, blobs);
    if compiled.Err? {
      return Err(compiled.error);
    }
    return Package(tc, AppManifest(spec.primary, CapabilityBlob(up, spec.required).kappa, layers, edges), merged, packaging);
  }

  /** The layer loop. */
  method CompileLayers(up: Crates, spec: Specification) returns (blobs: seq<Blob>, layers: seq<Layer>)
    ensures blobs == OwnBlobs(up, spec) && layers == BuiltLayers(up, spec.layers)
  {
    hide Put;
    blobs, layers := [CapabilityBlob(up, spec.required)], [];
    ghost var all := LayerBlobs(up, spec.layers);
    for i := 0 to |spec.layers|
      invariant blobs == PutAll([CapabilityBlob(up, spec.required)], all[..i])
      invariant layers == BuiltLayers(up, spec.layers)[..i]
    {
      var source := spec.layers[i];
      assert all[..i + 1][..i] == all[..i] && all[..i + 1][i] == all[i];
      blobs := Put(blobs, Blob(up.address(source.content), source.content));
      layers := layers + [Layer(source.kind, up.address(source.content), source.entry, source.aux)];
    }
    assert all[..|spec.layers|] == all;
  }

  /** The child loop. */
  method CompileAllChildren(up: Crates, children: seq<ChildSource>, own: seq<Blob>)
    returns (r: Result<()>, edges: seq<ChildEdge>, blobs: seq<Blob>)
    ensures var compiled := CompileChildren(up, children);
      && (r.Err? ==> compiled == Err(r.error))
      && (r.Ok? ==> compiled.Ok? && edges == Edges(compiled.value) && blobs == Merge(own, compiled.value))
  {
    hide PutAll, CompileChild, CompileChildren, Merge, Edges;
    blobs, edges := own, [];
    ghost var done: seq<CompiledChild> := [];
    NoChildren(up, own);
    assert children[..0] == [];
    for i := 0 to |children|
      invariant CompileChildren(up, children[..i]) == Ok(done)
      invariant blobs == Merge(own, done) && edges == Edges(done)
    {
      var child := CompileChildArchive(up, children[i]);
      NextChild(up, children, i, done);
      if child.Err? {
        FirstBadChild(up, children, i + 1);
        return Err(child.error), edges, blobs;
      }
      blobs := MergeBlobs(blobs, child.value.blobs);
      edges := edges + [ChildEdge(child.value.application, child.value.capabilities)];
      MergeNext(own, done, child.value);
      done := done + [child.value];
    }
    assert children[..|children|] == children;
    return Ok(()), edges, blobs;
  }

  lemma {:induction false} NoChildren(up: Crates, own: seq<Blob>)
    ensures CompileChildren(up, []) == Ok([]) && Merge(own, []) == own && Edges([]) == []
  {
  }

  lemma {:induction false} NextChild(up: Crates, children: seq<ChildSource>, i: nat, done: seq<CompiledChild>)
    requires i < |children| && CompileChildren(up, children[..i]) == Ok(done)
    ensures CompileChildren(up, children[..i + 1]) ==
      match CompileChild(up, children[i]) case Err(error) => Err(error) case Ok(child) => Ok(done + [child])
  {
    hide CompileChild;
    assert children[..i + 1][..i] == children[..i];
  }

  lemma {:induction false} MergeNext(own: seq<Blob>, done: seq<CompiledChild>, child: CompiledChild)
    ensures Merge(own, done + [child]) == PutAll(Merge(own, done), child.blobs)
    ensures Edges(done + [child]) == Edges(done) + [ChildEdge(child.application, child.capabilities)]
  {
    hide PutAll;
    assert (done + [child])[..|done|] == done;
  }

  lemma {:induction false} FirstBadChild(up: Crates, children: seq<ChildSource>, n: nat)
    requires n <= |children| && CompileChildren(up, children[..n]).Err?
    ensures CompileChildren(up, children) == CompileChildren(up, children[..n])
    decreases |children| - n
  {
    hide CompileChild;
    if n < |children| {
      assert children[..n + 1][..n] == children[..n];
      FirstBadChild(up, children, n + 1);
    } else {
      assert children[..n] == children;
    }
  }

  /** A child's whole closure goes into the parent's map, blob by blob. */
  method MergeBlobs(table: seq<Blob>, blobs: seq<Blob>) returns (r: seq<Blob>)
    ensures r == PutAll(table, blobs)
  {
    r := table;
    for i := 0 to |blobs|
      invariant r == PutAll(table, blobs[..i])
    {
      assert blobs[..i + 1][..i] == blobs[..i];
      r := Put(r, blobs[i]);
    }
    assert blobs[..|blobs|] == blobs;
  }

  /** The loops of `compile_child`. */
  method CompileChildArchive(up: Crates, child: ChildSource) returns (r: Result<CompiledChild>)
    ensures r == CompileChild(up, child)
  {
    hide ChildManifest;
    var m := ChildManifest(up, child.archive);
    if m.Err? {
      return Err(m.error);
    }
    var application := up.address(up.encodeManifest(m.value));
    var blobs: seq<Blob> := [Blob(application, up.encodeManifest(m.value))];
    ghost var start := blobs;
    var content := child.archive.blobs;
    for i := 0 to |content|
      invariant blobs == PutAll(start, content[..i])
      invariant forall j :: 0 <= j < i ==> up.address(content[j].content) == content[j].kappa
    {
      if up.address(content[i].content) != content[i].kappa {
        return Err(InvalidHolo);
      }
      assert content[..i + 1][..i] == content[..i];
      blobs := Put(blobs, content[i]);
    }
    assert content[..|content|] == content;
    if !(References(m.value) <= BlobLabels(blobs)) {
      return Err(Config);
    }
    var delegated := CapabilityBlob(up, child.capabilities);
    return Ok(CompiledChild(application, delegated.kappa, Put(blobs, delegated)));
  }

  // ---------- What one compilation embeds ----------

  lemma {:induction false} OneIsOrdered(up: Crates, blob: Blob)
    requires up.address(blob.content) == blob.kappa
    ensures Ordered(up, [blob]) && BlobLabels([blob]) == {blob.kappa}
  {
    assert [blob][0].kappa in BlobLabels([blob]);
  }

  /** A compiled child carries its application, its delegation and the whole blob table of its archive. */
  ghost predicate Carries(child: ChildSource, c: CompiledChild) {
    && c.application in BlobLabels(c.blobs) && c.capabilities in BlobLabels(c.blobs)
    && BlobLabels(child.archive.blobs) <= BlobLabels(c.blobs)
  }

  lemma {:induction false} CompileChildKeeps(up: Crates, child: ChildSource)
    requires CompileChild(up, child).Ok?
    ensures var c := CompileChild(up, child).value;
      && Ordered(up, c.blobs) && Carries(child, c)
      && ChildManifest(up, child.archive).Ok?
      && c.application == up.address(up.encodeManifest(ChildManifest(up, child.archive).value))
      && c.capabilities == CapabilityBlob(up, child.capabilities).kappa
  {
    hide Ordered, BlobLabels, Put, PutAll, References, ChildManifest;
    var m := ChildManifest(up, child.archive).value;
    var application := Blob(up.address(up.encodeManifest(m)), up.encodeManifest(m));
    OneIsOrdered(up, application);
    PutAllKeeps(up, [application], child.archive.blobs);
    PutKeeps(up, PutAll([application], child.archive.blobs), CapabilityBlob(up, child.capabilities));
    PutLabels(PutAll([application], child.archive.blobs), CapabilityBlob(up, child.capabilities));
  }

  lemma {:induction false} CompileChildrenAt(up: Crates, children: seq<ChildSource>, i: nat)
    requires CompileChildren(up, children).Ok? && i < |children|
    ensures |CompileChildren(up, children).value| == |children|
    ensures CompileChild(up, children[i]) == Ok(CompileChildren(up, children).value[i])
    decreases |children|
  {
    hide CompileChild;
    var n := |children| - 1;
    CompileChildrenLength(up, children[..n]);
    if i < n {
      CompileChildrenAt(up, children[..n], i);
    }
  }

  lemma {:induction false} CompileChildrenLength(up: Crates, children: seq<ChildSource>)
    requires CompileChildren(up, children).Ok?
    ensures |CompileChildren(up, children).value| == |children|
    decreases |children|
  {
    hide CompileChild;
    if children != [] {
      CompileChildrenLength(up, children[..|children| - 1]);
    }
  }

  lemma {:induction false} MergeKeeps(up: Crates, table: seq<Blob>, children: seq<CompiledChild>)
    requires Ordered(up, table) && forall i :: 0 <= i < |children| ==> Ordered(up, children[i].blobs)
    ensures Ordered(up, Merge(table, children))
    ensures BlobLabels(table) <= BlobLabels(Merge(table, children))
    ensures forall i :: 0 <= i < |children| ==> BlobLabels(children[i].blobs) <= BlobLabels(Merge(table, children))
    decreases |children|
  {
    hide Ordered, BlobLabels, PutAll;
    if children != [] {
      var n := |children| - 1;
      MergeKeeps(up, table, children[..n]);
      OrderedBlobs(up, children[n].blobs);
      PutAllKeeps(up, Merge(table, children[..n]), children[n].blobs);
    }
  }

  lemma {:induction false} OrderedBlobs(up: Crates, table: seq<Blob>)
    requires Ordered(up, table)
    ensures AllAddressed(up, table)
  {
    OrderedIsAddressed(up, table);
  }

  lemma {:induction false} OwnBlobsKeep(up: Crates, spec: Specification)
    ensures Ordered(up, OwnBlobs(up, spec))
    ensures CapabilityBlob(up, spec.required).kappa in BlobLabels(OwnBlobs(up, spec))
    ensures forall i :: 0 <= i < |spec.layers| ==> up.address(spec.layers[i].content) in BlobLabels(OwnBlobs(up, spec))
  {
    hide Ordered, PutAll;
    OneIsOrdered(up, CapabilityBlob(up, spec.required));
    PutAllKeeps(up, [CapabilityBlob(up, spec.required)], LayerBlobs(up, spec.layers));
    forall i | 0 <= i < |spec.layers|
      ensures up.address(spec.layers[i].content) in BlobLabels(LayerBlobs(up, spec.layers))
    {
      assert LayerBlobs(up, spec.layers)[i].kappa == up.address(spec.layers[i].content);
    }
  }

  // ---------- Where the embedded bytes come from ----------

  lemma {:induction false} ChildContents(up: Crates, child: ChildSource, texts: set<Bytes>)
    requires CompileChild(up, child).Ok? && ContentsIn(child.archive.blobs, texts)
    requires up.encodeManifest(ChildManifest(up, child.archive).value) in texts && up.encodeCapabilities(child.capabilities) in texts
    ensures ContentsIn(CompileChild(up, child).value.blobs, texts)
  {
    hide Put, PutAll, ChildManifest, References, BlobLabels;
    var m := ChildManifest(up, child.archive).value;
    var application := Blob(up.address(up.encodeManifest(m)), up.encodeManifest(m));
    PutAllContents([application], child.archive.blobs, texts);
    PutContents(PutAll([application], child.archive.blobs), CapabilityBlob(up, child.capabilities), texts);
  }

  lemma {:induction false} MergeContents(table: seq<Blob>, children: seq<CompiledChild>, texts: set<Bytes>)
    requires ContentsIn(table, texts) && forall i :: 0 <= i < |children| ==> ContentsIn(children[i].blobs, texts)
    ensures ContentsIn(Merge(table, children), texts)
    decreases |children|
  {
    hide PutAll, ContentsIn;
    if children != [] {
      var n := |children| - 1;
      MergeContents(table, children[..n], texts);
      PutAllContents(Merge(table, children[..n]), children[n].blobs, texts);
    }
  }

  lemma {:induction false} OwnContents(up: Crates, spec: Specification, texts: set<Bytes>)
    requires up.encodeCapabilities(spec.required) in texts && forall i :: 0 <= i < |spec.layers| ==> spec.layers[i].content in texts
    ensures ContentsIn(OwnBlobs(up, spec), texts)
  {
    hide PutAll;
    PutAllContents([CapabilityBlob(up, spec.required)], LayerBlobs(up, spec.layers), texts);
  }

  /** What a fat archive is: it reads back as its manifest, its directory verifies, every label is the address
      of its bytes, and it embeds everything its manifest names along with the tables of its children. */
  ghost predicate FatArchive(up: Crates, spec: Specification, m: AppManifest, a: Archive) {
    && a.manifest == Some(up.encodeManifest(m)) && up.validManifest(m)
    && VerifyRequired(up, m, a.directories, a.blobs).Ok?
    && Addressed(up, a.blobs)
    && References(m) <= BlobLabels(a.blobs)
    && (forall i :: 0 <= i < |spec.children| ==> BlobLabels(spec.children[i].archive.blobs) <= BlobLabels(a.blobs))
  }

  lemma {:induction false} PackageVerifies(tc: Toolchain, m: AppManifest, blobs: seq<Blob>, packaging: Packaging)
    requires Package(tc, m, blobs, packaging).Ok?
    ensures var a := Package(tc, m, blobs, packaging).value;
      && a.manifest == Some(tc.up.encodeManifest(m)) && tc.up.validManifest(m)
      && VerifyRequired(tc.up, m, a.directories, a.blobs).Ok?
      && a.blobs == if packaging == Fat then blobs else []
  {
    hide Derive, VerifyRequired;
    DerivedVerifies(tc.up, m, if packaging == Fat then blobs else []);
  }

  lemma {:induction false} ReferencesWithin(up: Crates, spec: Specification, children: seq<CompiledChild>, labels: set<Kappa>)
    requires CapabilityBlob(up, spec.required).kappa in labels
    requires forall i :: 0 <= i < |spec.layers| ==> up.address(spec.layers[i].content) in labels
    requires forall i :: 0 <= i < |children| ==> children[i].application in labels && children[i].capabilities in labels
    ensures References(Assembled(up, spec, Edges(children))) <= labels
  {
  }

  /** Every fat archive the compiler emits is whole. */
  lemma {:induction false} CompileIsFat(tc: Toolchain, spec: Specification)
    requires Compile(tc, spec, Fat).Ok?
    ensures CompileChildren(tc.up, spec.children).Ok?
    ensures var m := Assembled(tc.up, spec, Edges(CompileChildren(tc.up, spec.children).value));
      FatArchive(tc.up, spec, m, Compile(tc, spec, Fat).value)
  {
    hide Ordered, BlobLabels, PutAll, Package, Merge, OwnBlobs, VerifyRequired, References, CompileChild, CompileChildren, Addressed, CapabilityBlob, Assembled, Carries;
    var up, children := tc.up, CompileChildren(tc.up, spec.children).value;
    forall i | 0 <= i < |spec.children|
      ensures |children| == |spec.children| && Ordered(up, children[i].blobs) && Carries(spec.children[i], children[i])
    {
      CompileChildrenAt(up, spec.children, i);
      CompileChildKeeps(up, spec.children[i]);
    }
    CompileChildrenLength(up, spec.children);
    OwnBlobsKeep(up, spec);
    MergeKeeps(up, OwnBlobs(up, spec), children);
    var blobs := Merge(OwnBlobs(up, spec), children);
    OrderedIsAddressed(up, blobs);
    forall i | 0 <= i < |children|
      ensures children[i].application in BlobLabels(blobs) && children[i].capabilities in BlobLabels(blobs)
      ensures BlobLabels(spec.children[i].archive.blobs) <= BlobLabels(blobs)
    {
      CarriesHas(spec.children[i], children[i]);
    }
    ReferencesWithin(up, spec, children, BlobLabels(blobs));
    PackageVerifies(tc, Assembled(up, spec, Edges(children)), blobs, Fat);
  }

  lemma {:induction false} CarriesHas(child: ChildSource, c: CompiledChild)
    requires Carries(child, c)
    ensures c.application in BlobLabels(c.blobs) && c.capabilities in BlobLabels(c.blobs)
    ensures BlobLabels(child.archive.blobs) <= BlobLabels(c.blobs)
  {
  }

  /** Fat and thin packaging of one specification carry the same manifest. */
  lemma {:induction false} PackagingsShareManifest(tc: Toolchain, spec: Specification)
    requires Compile(tc, spec, Fat).Ok?
    ensures Compile(tc, spec, Thin).Ok?
    ensures Compile(tc, spec, Thin).value.manifest == Compile(tc, spec, Fat).value.manifest
    ensures Compile(tc, spec, Thin).value.blobs == []
  {
    hide CompileChildren, Merge, OwnBlobs, Assembled, LayerRows, ChildRows, IndexBlobs;
    ThinTable(tc.up);
  }

  lemma {:induction false} ThinTable(up: Crates)
    ensures IndexBlobs(up, []) == Ok([])
  {
  }

  /** Every fat archive the compiler emits is accepted as a child of another. */
  lemma {:induction false} FatIsAcceptedAsChild(up: Crates, spec: Specification, m: AppManifest, a: Archive, capabilities: Capabilities)
    requires ManifestsRoundTrip(up) && FatArchive(up, spec, m, a)
    ensures ChildManifest(up, a) == Ok(m) && CompileChild(up, ChildSource(a, capabilities)).Ok?
  {
    hide Ordered, BlobLabels, PutAll, VerifyRequired, References, CapabilityBlob;
    var application := Blob(up.address(up.encodeManifest(m)), up.encodeManifest(m));
    OneIsOrdered(up, application);
    PutAllKeeps(up, [application], a.blobs);
  }
}
