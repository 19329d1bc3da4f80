/** Applications compiled from sources, children first, to any depth: what the compiler embeds is what the
    planner asks for (src/compile.rs:224-319, 377-471, src/application_plan.rs:767-1085). */
module CompiledTree {
  import opened Basics
  import opened Capability
  import opened Upstream
  import opened BlobTable
  import opened Directory
  import opened Resolver
  import opened Planner
  import opened PlanPaths
  import opened PlanReport
  import opened PlanClosure
  import opened PlanEquivalence
  import opened Compiler

  /** An application source whose children are sources too. */
  datatype Source = Source(primary: Option<U32>, required: Capabilities, layers: seq<SourceLayer>, children: seq<SourceChild>)

  datatype SourceChild = SourceChild(source: Source, capabilities: Capabilities)

  /** Compile a tree: every child to a fat archive first, then the parent. */
  function Emit(tc: Toolchain, src: Source, packaging: Packaging): Result<Archive>
    decreases src, |src.children| + 1
  {
    var children :- EmitChildren(tc, src, |src.children|);
    Compile(tc, SpecOf(src, children), packaging)
  }

  function EmitChildren(tc: Toolchain, src: Source, count: nat): Result<seq<ChildSource>>
    requires count <= |src.children|
    decreases src, count
  {
    if count == 0 then Ok([])
    else
      var rest :- EmitChildren(tc, src, count - 1);
      var child := src.children[count - 1];
      var archive :- Emit(tc, child.source, Fat);
      Ok(rest + [ChildSource(archive, child.capabilities)])
  }

  function SpecOf(src: Source, children: seq<ChildSource>): Specification {
    Specification(src.primary, src.required, src.layers, children)
  }

  /** The manifest a source stands for. */
  function ManifestFor(up: Crates, src: Source): AppManifest {
    AppManifest(src.primary, CapabilityBlob(up, src.required).kappa, BuiltLayers(up, src.layers),
      seq(|src.children|, i requires 0 <= i < |src.children| =>
        ChildEdge(up.address(up.encodeManifest(ManifestFor(up, src.children[i].source))),
                  CapabilityBlob(up, src.children[i].capabilities).kappa)))
  }

  function KappaFor(up: Crates, src: Source): Kappa {
    up.address(up.encodeManifest(ManifestFor(up, src)))
  }

  ghost predicate ValidTree(up: Crates, src: Source) {
    up.validManifest(ManifestFor(up, src)) && forall i :: 0 <= i < |src.children| ==> ValidTree(up, src.children[i].source)
  }

  /** Everything named anywhere in the tree. */
  ghost predicate Covered(up: Crates, src: Source, labels: set<Kappa>) {
    References(ManifestFor(up, src)) <= labels && forall i :: 0 <= i < |src.children| ==> Covered(up, src.children[i].source, labels)
  }

  /** Every byte string compiled anywhere in the tree: manifests, capability sets and layer contents. */
  function Texts(up: Crates, src: Source): set<Bytes>
    decreases src, |src.children| + 1
  {
    {up.encodeManifest(ManifestFor(up, src)), up.encodeCapabilities(src.required)}
    + (set i | 0 <= i < |src.layers| :: src.layers[i].content)
    + TextsBelow(up, src, |src.children|)
  }

  function TextsBelow(up: Crates, src: Source, count: nat): set<Bytes>
    requires count <= |src.children|
    decreases src, count
  {
    if count == 0 then {}
    else
      var child := src.children[count - 1];
      TextsBelow(up, src, count - 1) + Texts(up, child.source) + {up.encodeCapabilities(child.capabilities)}
  }

  lemma {:induction false} TextsHave(up: Crates, src: Source)
    ensures up.encodeManifest(ManifestFor(up, src)) in Texts(up, src) && up.encodeCapabilities(src.required) in Texts(up, src)
    ensures forall i :: 0 <= i < |src.layers| ==> src.layers[i].content in Texts(up, src)
    ensures forall i :: 0 <= i < |src.children| ==>
      Texts(up, src.children[i].source) <= Texts(up, src) && up.encodeCapabilities(src.children[i].capabilities) in Texts(up, src)
  {
    hide ManifestFor, TextsBelow;
    forall i | 0 <= i < |src.children|
      ensures Texts(up, src.children[i].source) <= Texts(up, src) && up.encodeCapabilities(src.children[i].capabilities) in Texts(up, src)
    {
      TextsBelowHave(up, src, |src.children|, i);
    }
  }

  lemma {:induction false} TextsBelowHave(up: Crates, src: Source, count: nat, i: nat)
    requires i < count <= |src.children|
    ensures Texts(up, src.children[i].source) <= TextsBelow(up, src, count)
    ensures up.encodeCapabilities(src.children[i].capabilities) in TextsBelow(up, src, count)
    decreases count
  {
    hide Texts;
    if i < count - 1 {
      TextsBelowHave(up, src, count - 1, i);
    }
  }

  lemma {:induction false} CoveredGrows(up: Crates, src: Source, labels: set<Kappa>, more: set<Kappa>)
    requires Covered(up, src, labels) && labels <= more
    ensures Covered(up, src, more)
    decreases src
  {
    hide References, ManifestFor;
    forall i | 0 <= i < |src.children|
      ensures Covered(up, src.children[i].source, more)
    {
      CoveredGrows(up, src.children[i].source, labels, more);
    }
  }

  // ---------- What compiling a tree embeds ----------

  lemma {:induction false} EmitChildrenAt(tc: Toolchain, src: Source, count: nat, i: nat)
    requires count <= |src.children| && i < count && EmitChildren(tc, src, count).Ok?
    ensures |EmitChildren(tc, src, count).value| == count && Emit(tc, src.children[i].source, Fat).Ok?
    ensures EmitChildren(tc, src, count).value[i] == ChildSource(Emit(tc, src.children[i].source, Fat).value, src.children[i].capabilities)
    decreases count
  {
    hide Emit;
    EmitChildrenLength(tc, src, count - 1);
    if i < count - 1 {
      EmitChildrenAt(tc, src, count - 1, i);
    }
  }

  lemma {:induction false} EmitChildrenLength(tc: Toolchain, src: Source, count: nat)
    requires count <= |src.children| && EmitChildren(tc, src, count).Ok?
    ensures |EmitChildren(tc, src, count).value| == count
    decreases count
  {
    hide Emit;
    if count > 0 {
      EmitChildrenLength(tc, src, count - 1);
    }
  }

  /** A fat archive of a tree: whole, and embedding the transitive closure of its manifest. */
  ghost predicate FatTree(up: Crates, src: Source, a: Archive) {
    && (exists spec :: FatArchive(up, spec, ManifestFor(up, src), a))
    && ValidTree(up, src)
    && Covered(up, src, BlobLabels(a.blobs))
  }

  lemma {:induction false} FatTreeChild(up: Crates, src: Source, a: Archive, capabilities: Capabilities)
    requires ManifestsRoundTrip(up) && FatTree(up, src, a)
    ensures ChildManifest(up, a) == Ok(ManifestFor(up, src)) && CompileChild(up, ChildSource(a, capabilities)).Ok?
    ensures CompileChild(up, ChildSource(a, capabilities)).value.application == KappaFor(up, src)
    ensures CompileChild(up, ChildSource(a, capabilities)).value.capabilities == CapabilityBlob(up, capabilities).kappa
  {
    hide CompileChild, FatArchive, ManifestFor, Covered, ValidTree, ChildManifest, CapabilityBlob;
    var spec :| FatArchive(up, spec, ManifestFor(up, src), a);
    FatIsAcceptedAsChild(up, spec, ManifestFor(up, src), a, capabilities);
    CompileChildKeeps(up, ChildSource(a, capabilities));
  }

  /** The edges of the compiled children are the edges of the source's manifest. */
  lemma {:induction false} EdgesAre(tc: Toolchain, src: Source, specs: seq<ChildSource>)
    requires ManifestsRoundTrip(tc.up) && |specs| == |src.children|
    requires forall i :: 0 <= i < |specs| ==>
      FatTree(tc.up, src.children[i].source, specs[i].archive) && specs[i].capabilities == src.children[i].capabilities
    requires CompileChildren(tc.up, specs).Ok?
    ensures Assembled(tc.up, SpecOf(src, specs), Edges(CompileChildren(tc.up, specs).value)) == ManifestFor(tc.up, src)
  {
    hide CompileChild, CompileChildren, FatTree, CapabilityBlob, BuiltLayers;
    var compiled := CompileChildren(tc.up, specs).value;
    CompileChildrenLength(tc.up, specs);
    forall i | 0 <= i < |specs|
      ensures Edges(compiled)[i] == ManifestFor(tc.up, src).children[i]
    {
      CompileChildrenAt(tc.up, specs, i);
      assert specs[i] == ChildSource(specs[i].archive, src.children[i].capabilities);
      FatTreeChild(tc.up, src.children[i].source, specs[i].archive, src.children[i].capabilities);
    }
    assert Edges(compiled) == ManifestFor(tc.up, src).children;
  }

  /** Every fat archive the compiler emits, from children it compiled itself to any depth, embeds the whole
      transitive closure of its manifest and passes the directory check. */
  lemma {:induction false} EmitIsFat(tc: Toolchain, src: Source)
    requires ManifestsRoundTrip(tc.up) && Emit(tc, src, Fat).Ok?
    ensures FatTree(tc.up, src, Emit(tc, src, Fat).value)
    decreases src
  {
    hide Compile, CompileChildren, FatArchive, ManifestFor, BlobLabels, References;
    var specs := EmitChildren(tc, src, |src.children|).value;
    var a := Emit(tc, src, Fat).value;
    EmitChildrenLength(tc, src, |src.children|);
    forall i | 0 <= i < |specs|
      ensures FatTree(tc.up, src.children[i].source, specs[i].archive) && specs[i].capabilities == src.children[i].capabilities
    {
      EmitChildrenAt(tc, src, |src.children|, i);
      EmitIsFat(tc, src.children[i].source);
    }
    hide FatTree, Covered, ValidTree, Emit, EmitChildren;
    var spec := SpecOf(src, specs);
    assert Compile(tc, spec, Fat) == Ok(a) by {
      EmitIs(tc, src, Fat);
    }
    CompileIsFat(tc, spec);
    EdgesAre(tc, src, specs);
    WholeTree(tc.up, src, specs, a);
  }

  lemma {:induction false} EmitIs(tc: Toolchain, src: Source, packaging: Packaging)
    requires Emit(tc, src, packaging).Ok?
    ensures EmitChildren(tc, src, |src.children|).Ok?
    ensures Compile(tc, SpecOf(src, EmitChildren(tc, src, |src.children|).value), packaging) == Emit(tc, src, packaging)
  {
  }

  lemma {:induction false} WholeTree(up: Crates, src: Source, specs: seq<ChildSource>, a: Archive)
    requires |specs| == |src.children| && forall i :: 0 <= i < |specs| ==> FatTree(up, src.children[i].source, specs[i].archive)
    requires FatArchive(up, SpecOf(src, specs), ManifestFor(up, src), a)
    ensures FatTree(up, src, a)
  {
    hide ManifestFor, BlobLabels, References, Addressed, VerifyRequired;
    forall i | 0 <= i < |src.children|
      ensures Covered(up, src.children[i].source, BlobLabels(a.blobs)) && ValidTree(up, src.children[i].source)
    {
      assert FatTree(up, src.children[i].source, specs[i].archive);
      CoveredGrows(up, src.children[i].source, BlobLabels(specs[i].archive.blobs), BlobLabels(a.blobs));
    }
  }

  /** What an emitted archive embeds was all compiled from the tree. */
  lemma {:induction false} EmitContents(tc: Toolchain, src: Source)
    requires ManifestsRoundTrip(tc.up) && Emit(tc, src, Fat).Ok?
    ensures ContentsIn(Emit(tc, src, Fat).value.blobs, Texts(tc.up, src))
    decreases src
  {
    hide Compile, ManifestFor, Texts, FatTree, ContentsIn, CompileChild, CompileChildren;
    var up, texts := tc.up, Texts(tc.up, src);
    EmitIs(tc, src, Fat);
    var specs := EmitChildren(tc, src, |src.children|).value;
    EmitChildrenLength(tc, src, |src.children|);
    TextsHave(up, src);
    CompileBlobs(tc, SpecOf(src, specs));
    var compiled := CompileChildren(up, specs).value;
    CompileChildrenLength(up, specs);
    forall i | 0 <= i < |compiled|
      ensures ContentsIn(compiled[i].blobs, texts)
    {
      var child := src.children[i];
      EmitChildrenAt(tc, src, |src.children|, i);
      EmitIsFat(tc, child.source);
      EmitContents(tc, child.source);
      TextsHave(up, child.source);
      ContentsGrow(specs[i].archive.blobs, Texts(up, child.source), texts);
      FatTreeChild(up, child.source, specs[i].archive, child.capabilities);
      CompileChildrenAt(up, specs, i);
      ChildContents(up, specs[i], texts);
    }
    OwnContents(up, SpecOf(src, specs), texts);
    MergeContents(OwnBlobs(up, SpecOf(src, specs)), compiled, texts);
  }

  lemma {:induction false} CompileBlobs(tc: Toolchain, spec: Specification)
    requires Compile(tc, spec, Fat).Ok?
    ensures CompileChildren(tc.up, spec.children).Ok?
    ensures Compile(tc, spec, Fat).value.blobs == Merge(OwnBlobs(tc.up, spec), CompileChildren(tc.up, spec.children).value)
  {
    hide CompileChildren, Merge, OwnBlobs, Assembled, Derive;
  }

  lemma {:induction false} ContentsGrow(blobs: seq<Blob>, texts: set<Bytes>, more: set<Bytes>)
    requires ContentsIn(blobs, texts) && texts <= more
    ensures ContentsIn(blobs, more)
  {
  }

  // ---------- Heights: a compiled tree has no cycle ----------

  function Height(src: Source): nat
    decreases src, |src.children| + 1
  {
    1 + Tallest(src, |src.children|)
  }

  function Tallest(src: Source, count: nat): nat
    requires count <= |src.children|
    decreases src, count
  {
    if count == 0 then 0 else Max(Tallest(src, count - 1), Height(src.children[count - 1].source))
  }

  lemma {:induction false} ChildIsLower(src: Source, i: nat)
    requires i < |src.children|
    ensures Height(src.children[i].source) < Height(src)
  {
    TallestBounds(src, |src.children|, i);
  }

  lemma {:induction false} TallestBounds(src: Source, count: nat, i: nat)
    requires i < count <= |src.children|
    ensures Height(src.children[i].source) <= Tallest(src, count)
    decreases count
  {
    hide Height;
    if i < count - 1 {
      TallestBounds(src, count - 1, i);
    }
  }

  /** Among texts without collisions the label determines the manifest. */
  lemma {:induction false} KappaIsManifest(up: Crates, texts: set<Bytes>, a: Source, b: Source)
    requires Distinguishes(up.address, texts) && ManifestsRoundTrip(up) && ValidTree(up, a) && ValidTree(up, b)
    requires Texts(up, a) <= texts && Texts(up, b) <= texts
    requires KappaFor(up, a) == KappaFor(up, b)
    ensures ManifestFor(up, a) == ManifestFor(up, b)
  {
    hide ManifestFor, Texts;
    TextsHave(up, a);
    TextsHave(up, b);
    var m, n := ManifestFor(up, a), ManifestFor(up, b);
    assert up.encodeManifest(m) == up.encodeManifest(n);
    assert Some(m) == up.parseManifest(up.encodeManifest(m)) == up.parseManifest(up.encodeManifest(n)) == Some(n);
  }

  /** Then the manifest determines the height of its tree. */
  lemma {:induction false} SameManifestSameHeight(up: Crates, texts: set<Bytes>, a: Source, b: Source)
    requires Distinguishes(up.address, texts) && ManifestsRoundTrip(up) && ValidTree(up, a) && ValidTree(up, b)
    requires Texts(up, a) <= texts && Texts(up, b) <= texts
    requires ManifestFor(up, a) == ManifestFor(up, b)
    ensures Height(a) == Height(b)
    decreases a
  {
    hide Texts, Distinguishes;
    TextsHave(up, a);
    TextsHave(up, b);
    assert |a.children| == |ManifestFor(up, a).children| == |b.children|;
    forall i | 0 <= i < |a.children|
      ensures Height(a.children[i].source) == Height(b.children[i].source)
    {
      var x, y := a.children[i].source, b.children[i].source;
      assert ManifestFor(up, a).children[i].application == ManifestFor(up, b).children[i].application;
      assert KappaFor(up, x) == KappaFor(up, y);
      hide ManifestFor;
      KappaIsManifest(up, texts, x, y);
      SameManifestSameHeight(up, texts, x, y);
    }
    hide *;
    SameTallest(a, b, |a.children|);
    HeightIs(a);
    HeightIs(b);
  }

  lemma {:induction false} HeightIs(a: Source)
    ensures Height(a) == 1 + Tallest(a, |a.children|)
  {
  }

  lemma {:induction false} SameTallest(a: Source, b: Source, count: nat)
    requires count <= |a.children| == |b.children|
    requires forall i :: 0 <= i < |a.children| ==> Height(a.children[i].source) == Height(b.children[i].source)
    ensures Tallest(a, count) == Tallest(b, count)
    decreases count
  {
    hide Height;
    if count > 0 {
      SameTallest(a, b, count - 1);
    }
  }

  // ---------- The planner over a compiled tree ----------

  /** What a compilation leaves: the labels it embedded, and the byte strings it gave labels to. */
  datatype Table = Table(labels: set<Kappa>, texts: set<Bytes>)

  function TableOf(up: Crates, src: Source, a: Archive): Table {
    Table(BlobLabels(a.blobs), Texts(up, src))
  }

  /** The sources hold one of the texts under every label, whatever the local store says, and no two texts
      share a label. */
  ghost predicate Holds(env: Sources, table: Table) {
    && Distinguishes(env.up.address, table.texts)
    && forall k :: k in table.labels ==> Good(env, k) && Stored(env, k) in table.texts
  }

  lemma {:induction false} EmbeddedHas(blobs: seq<Blob>, k: Kappa)
    requires k in BlobLabels(blobs)
    ensures k in EmbeddedMap(blobs)
    decreases |blobs|
  {
    var n := |blobs| - 1;
    var i :| 0 <= i < |blobs| && blobs[i].kappa == k;
    if i < n {
      assert blobs[..n][i].kappa == k;
      EmbeddedHas(blobs[..n], k);
    }
  }

  lemma {:induction false} EmbeddedContents(blobs: seq<Blob>, texts: set<Bytes>, k: Kappa)
    requires ContentsIn(blobs, texts) && k in EmbeddedMap(blobs)
    ensures EmbeddedMap(blobs)[k] in texts
    decreases |blobs|
  {
    var n := |blobs| - 1;
    if blobs != [] && k in EmbeddedMap(blobs[..n]) {
      EmbeddedContents(blobs[..n], texts, k);
    }
  }

  lemma {:induction false} ArchiveHolds(up: Crates, a: Archive, limits: PlanLimits, local: Kappa -> Result<Option<Bytes>>, texts: set<Bytes>)
    requires Addressed(up, a.blobs) && ContentsIn(a.blobs, texts) && Distinguishes(up.address, texts)
    ensures Holds(SourcesOf(up, a, limits, local), Table(BlobLabels(a.blobs), texts))
  {
    hide EmbeddedMap, BlobLabels, ContentsIn;
    EmbeddedAddressed(up, a.blobs);
    forall k | k in BlobLabels(a.blobs)
      ensures Good(SourcesOf(up, a, limits, local), k) && Stored(SourcesOf(up, a, limits, local), k) in texts
    {
      EmbeddedHas(a.blobs, k);
      EmbeddedContents(a.blobs, texts, k);
    }
  }

  /** What is held under the address of a text is that text. */
  lemma {:induction false} HeldBytes(env: Sources, table: Table, bytes: Bytes)
    requires Holds(env, table) && bytes in table.texts && env.up.address(bytes) in table.labels
    ensures Good(env, env.up.address(bytes)) && Stored(env, env.up.address(bytes)) == bytes
  {
    hide Stores, Stored;
  }

  lemma {:induction false} HeldCapabilities(env: Sources, table: Table, c: Capabilities)
    requires CapabilitiesRoundTrip(env.up) && Holds(env, table) && env.up.encodeCapabilities(c) in table.texts
    requires CapabilityBlob(env.up, c).kappa in table.labels
    ensures GoodCapabilities(env, CapabilityBlob(env.up, c).kappa)
  {
    hide Stores, Stored, Good, Holds;
    HeldBytes(env, table, env.up.encodeCapabilities(c));
  }

  lemma {:induction false} HeldManifest(env: Sources, table: Table, src: Source)
    requires ManifestsRoundTrip(env.up) && Holds(env, table) && Texts(env.up, src) <= table.texts
    requires ValidTree(env.up, src) && KappaFor(env.up, src) in table.labels
    ensures GoodManifest(env, KappaFor(env.up, src))
    ensures DecodeChildManifest(env.up, Stored(env, KappaFor(env.up, src))) == Some(ManifestFor(env.up, src))
  {
    hide Stored, Good, Holds, ManifestFor, Texts;
    TextsHave(env.up, src);
    HeldBytes(env, table, env.up.encodeManifest(ManifestFor(env.up, src)));
    StoredIfGood(env, KappaFor(env.up, src));
  }

  lemma {:induction false} StoredIfGood(env: Sources, k: Kappa)
    requires Good(env, k)
    ensures Stores(env, k)
  {
  }

  ghost predicate Laws(up: Crates) {
    ManifestsRoundTrip(up) && CapabilitiesRoundTrip(up)
  }

  /** A subtree whose labels and texts are all in the table. */
  ghost predicate Inside(env: Sources, table: Table, src: Source) {
    ValidTree(env.up, src) && Covered(env.up, src, table.labels) && Texts(env.up, src) <= table.texts
  }

  lemma {:induction false} InsideIsWhole(env: Sources, table: Table, src: Source)
    requires Laws(env.up) && Holds(env, table) && Inside(env, table, src)
    ensures Whole(env, ManifestFor(env.up, src))
  {
    hide Holds, CapabilityBlob, GoodCapabilities, GoodManifest, Texts;
    TextsHave(env.up, src);
    var up, m := env.up, ManifestFor(env.up, src);
    NamesInside(env, table, src);
    HeldCapabilities(env, table, src.required);
    forall i | 0 <= i < |m.layers|
      ensures Good(env, m.layers[i].content)
    {
      HeldGood(env, table, m.layers[i].content);
    }
    forall i | 0 <= i < |m.children|
      ensures GoodCapabilities(env, m.children[i].capabilities) && GoodManifest(env, m.children[i].application)
    {
      ChildNamed(up, src, i);
      HeldCapabilities(env, table, src.children[i].capabilities);
      HeldManifest(env, table, src.children[i].source);
    }
  }

  lemma {:induction false} HeldGood(env: Sources, table: Table, k: Kappa)
    requires Holds(env, table) && k in table.labels
    ensures Good(env, k)
  {
  }

  lemma {:induction false} NamesInside(env: Sources, table: Table, src: Source)
    requires Inside(env, table, src)
    ensures var m := ManifestFor(env.up, src);
      && m.required in table.labels
      && (forall i :: 0 <= i < |m.layers| ==> m.layers[i].content in table.labels)
      && (forall i :: 0 <= i < |m.children| ==> m.children[i].application in table.labels && m.children[i].capabilities in table.labels)
  {
    hide ManifestFor, ValidTree, Texts;
    var m := ManifestFor(env.up, src);
    var names := References(m);
    assert m.required in names;
    assert forall i :: 0 <= i < |m.layers| ==> m.layers[i].content in names;
    assert forall i :: 0 <= i < |m.children| ==> m.children[i].application in names && m.children[i].capabilities in names;
  }

  lemma {:induction false} ChildNamed(up: Crates, src: Source, i: nat)
    requires i < |src.children|
    ensures |ManifestFor(up, src).children| == |src.children|
    ensures ManifestFor(up, src).children[i]
      == ChildEdge(KappaFor(up, src.children[i].source), CapabilityBlob(up, src.children[i].capabilities).kappa)
  {
  }

  lemma {:induction false} ManifestWidth(up: Crates, src: Source)
    ensures |ManifestFor(up, src).children| == |src.children|
  {
  }

  /** The graph the planner walks over an archive of this tree. */
  ghost predicate Plans(g: Graph, table: Table, src: Source) {
    && Laws(g.env.up) && Holds(g.env, table) && Inside(g.env, table, src)
    && g.root == KappaFor(g.env.up, src) && g.manifest == ManifestFor(g.env.up, src)
  }

  /** A label on a path stands for a subtree. */
  ghost predicate Stands(g: Graph, table: Table, k: Kappa, sub: Source) {
    Inside(g.env, table, sub) && k == KappaFor(g.env.up, sub) && g.ManifestOf(k) == Some(ManifestFor(g.env.up, sub))
  }

  lemma {:induction false} RootStands(g: Graph, table: Table, src: Source)
    requires Plans(g, table, src)
    ensures Stands(g, table, g.root, src)
  {
    hide ManifestFor, Inside;
  }

  lemma {:induction false} ChildStands(g: Graph, table: Table, src: Source, sub: Source, i: nat)
    requires Plans(g, table, src) && Inside(g.env, table, sub) && i < |sub.children|
    ensures Stands(g, table, KappaFor(g.env.up, sub.children[i].source), sub.children[i].source)
  {
    var up, child := g.env.up, sub.children[i].source;
    TextsHave(up, sub);
    hide Texts;
    assert Inside(g.env, table, child);
    NamesInside(g.env, table, sub);
    ChildNamed(up, sub, i);
    hide ManifestFor, Covered, Holds;
    HeldManifest(g.env, table, child);
    if KappaFor(up, child) == g.root {
      KappaIsManifest(up, table.texts, child, src);
    }
  }

  /** Following an edge goes from a subtree to one of its children. */
  lemma {:induction false} Descend(g: Graph, table: Table, src: Source, sub: Source, k: Kappa, next: Kappa) returns (child: Source)
    requires Plans(g, table, src) && Stands(g, table, k, sub) && g.Edge(k, next)
    ensures Stands(g, table, next, child) && Height(child) < Height(sub)
  {
    hide ManifestFor, Inside, Plans, Height;
    var m := ManifestFor(g.env.up, sub);
    var i :| 0 <= i < |m.children| && m.children[i].application == next;
    ManifestWidth(g.env.up, sub);
    ChildNamed(g.env.up, sub, i);
    ChildStands(g, table, src, sub, i);
    ChildIsLower(sub, i);
    child := sub.children[i].source;
  }

  lemma {:induction false} PathAt(g: Graph, table: Table, src: Source, p: Pending, i: nat) returns (sub: Source)
    requires Plans(g, table, src) && g.Reached(p) && i <= p.depth
    ensures Stands(g, table, p.path[i], sub)
    decreases i
  {
    hide Plans, Stands, Graph.Edge;
    if i == 0 {
      RootStands(g, table, src);
      sub := src;
    } else {
      var above := PathAt(g, table, src, p, i - 1);
      sub := Descend(g, table, src, above, p.path[i - 1], p.path[i]);
    }
  }

  lemma {:induction false} PathBelow(g: Graph, table: Table, src: Source, p: Pending, i: nat, j: nat, above: Source) returns (sub: Source)
    requires Plans(g, table, src) && g.Reached(p) && i <= j <= p.depth && Stands(g, table, p.path[i], above)
    ensures Stands(g, table, p.path[j], sub) && Height(sub) <= Height(above)
    decreases j
  {
    hide Plans, Stands, Graph.Edge, Height;
    if i == j {
      sub := above;
    } else {
      var before := PathBelow(g, table, src, p, i, j - 1, above);
      sub := Descend(g, table, src, before, p.path[j - 1], p.path[j]);
    }
  }

  /** No application of a compiled tree is its own descendant. */
  lemma {:induction false} NoCycle(g: Graph, table: Table, src: Source, p: Pending, i: nat, j: nat)
    requires Plans(g, table, src) && g.Reached(p) && i < |p.manifest.children| && j <= p.depth
    ensures p.manifest.children[i].application != p.path[j]
  {
    hide ManifestFor, Covered, Graph.Edge, Height, Texts, Good, Stored, Distinguishes;
    var up := g.env.up;
    var above := PathAt(g, table, src, p, j);
    var sub := PathBelow(g, table, src, p, j, p.depth, above);
    assert p.manifest == ManifestFor(up, sub);
    ManifestWidth(up, sub);
    ChildNamed(up, sub, i);
    ChildStands(g, table, src, sub, i);
    ChildIsLower(sub, i);
    var child := sub.children[i].source;
    if p.manifest.children[i].application == p.path[j] {
      KappaIsManifest(up, table.texts, child, above);
      SameManifestSameHeight(up, table.texts, child, above);
    }
  }

  lemma {:induction false} TreeIsClosed(g: Graph, table: Table, src: Source)
    requires Plans(g, table, src)
    ensures Closed(g)
  {
    forall p: Pending | g.Reached(p)
      ensures Whole(g.env, p.manifest) && Acyclic(p)
    {
      ReachedIsWhole(g, table, src, p);
      forall i | 0 <= i < |p.manifest.children|
        ensures p.manifest.children[i].application !in p.path
      {
        ReachedNoCycle(g, table, src, p, i);
      }
    }
  }

  lemma {:induction false} ReachedIsWhole(g: Graph, table: Table, src: Source, p: Pending)
    requires Plans(g, table, src) && g.Reached(p)
    ensures Whole(g.env, p.manifest)
  {
    hide ManifestFor, Inside, Holds, Graph.Edge, Whole, Laws;
    var sub := PathAt(g, table, src, p, p.depth);
    InsideIsWhole(g.env, table, sub);
  }

  lemma {:induction false} ReachedNoCycle(g: Graph, table: Table, src: Source, p: Pending, i: nat)
    requires Plans(g, table, src) && g.Reached(p) && i < |p.manifest.children|
    ensures p.manifest.children[i].application !in p.path
  {
    hide Plans, Graph.Edge, Graph.ManifestOf;
    forall j | 0 <= j < |p.path|
      ensures p.path[j] != p.manifest.children[i].application
    {
      NoCycle(g, table, src, p, i, j);
    }
  }

  // ---------- Main results ----------

  /** The graph of an emitted archive. */
  ghost function EmittedGraph(tc: Toolchain, src: Source, limits: PlanLimits, local: Kappa -> Result<Option<Bytes>>): Graph
    requires Emit(tc, src, Fat).Ok?
  {
    Graph(SourcesOf(tc.up, Emit(tc, src, Fat).value, limits, local), KappaFor(tc.up, src), ManifestFor(tc.up, src))
  }

  lemma {:induction false} EmittedPlans(tc: Toolchain, src: Source, limits: PlanLimits, local: Kappa -> Result<Option<Bytes>>)
    requires Laws(tc.up) && Distinguishes(tc.up.address, Texts(tc.up, src)) && Emit(tc, src, Fat).Ok?
    ensures Plans(EmittedGraph(tc, src, limits, local), TableOf(tc.up, src, Emit(tc, src, Fat).value), src)
  {
    hide ManifestFor, Covered, ValidTree, BlobLabels, VerifyRequired, Emit, References, Addressed, Holds, Texts, ContentsIn, Distinguishes;
    EmitIsFat(tc, src);
    EmitContents(tc, src);
    ArchiveHolds(tc.up, Emit(tc, src, Fat).value, limits, local, Texts(tc.up, src));
  }

  /** An archive compiled fat from sources, to any depth, always plans, against any local store, an empty one
      included: nothing is missing, mismatched, undecodable or cyclic, so only a limit can block it, or being
      a library. */
  lemma {:induction false} FatArchivePlans(tc: Toolchain, src: Source, limits: PlanLimits, local: Kappa -> Result<Option<Bytes>>)
    requires Laws(tc.up) && Distinguishes(tc.up.address, Texts(tc.up, src)) && Emit(tc, src, Fat).Ok?
    ensures var a := Emit(tc, src, Fat).value;
      var r := Explain(tc.up, a, limits, local);
      && VerifyRequired(tc.up, ManifestFor(tc.up, src), a.directories, a.blobs).Ok?
      && Covered(tc.up, src, BlobLabels(a.blobs))
      && r.Ok? && r.value.manifest == ManifestFor(tc.up, src)
      && (forall i :: 0 <= i < |r.value.blockers| ==>
        r.value.blockers[i].LimitExceeded? || (r.value.blockers[i].LibraryArchive? && src.primary.None?))
  {
    hide Explain, ManifestFor, Covered, ValidTree, Closed, BlobLabels, VerifyRequired, Emit, References, Addressed, Holds, Plans, Texts;
    var up, a := tc.up, Emit(tc, src, Fat).value;
    EmitIsFat(tc, src);
    var m := ManifestFor(up, src);
    var g := Graph(SourcesOf(up, a, limits, local), up.address(up.encodeManifest(m)), m);
    EmittedPlans(tc, src, limits, local);
    TreeIsClosed(g, TableOf(up, src, a), src);
    ClosedPlans(up, a, limits, local, m);
    PrimaryIs(up, src);
  }

  lemma {:induction false} PrimaryIs(up: Crates, src: Source)
    ensures ManifestFor(up, src).primary == src.primary
  {
  }

  /** A thin archive planned against a store that holds the fat archive's blobs reports what the fat archive
      reports, apart from archive identity, content sources and embedded counts. */
  lemma {:induction false} ThinPlansLikeFat(tc: Toolchain, src: Source, limits: PlanLimits, local: Kappa -> Result<Option<Bytes>>,
      store: Kappa -> Result<Option<Bytes>>)
    requires ManifestsRoundTrip(tc.up) && Emit(tc, src, Fat).Ok?
    requires forall k :: store(k) == Lookup(SourcesOf(tc.up, Emit(tc, src, Fat).value, limits, local), k)
    ensures Emit(tc, src, Thin).Ok?
    ensures Emit(tc, src, Thin).value.blobs == []
    ensures SameOutcome(Explain(tc.up, Emit(tc, src, Thin).value, limits, store), Explain(tc.up, Emit(tc, src, Fat).value, limits, local))
  {
    hide Explain, Compile, VerifyRequired, SameOutcome, ManifestFor, EmitChildren, EmbeddedMap;
    var up, fat := tc.up, Emit(tc, src, Fat).value;
    var spec := SpecOf(src, EmitChildren(tc, src, |src.children|).value);
    PackagingsShareManifest(tc, spec);
    var thin := Emit(tc, src, Thin).value;
    NothingEmbedded();
    CompileVerifies(tc, spec, Fat);
    CompileVerifies(tc, spec, Thin);
    SameReports(up, thin, fat, limits, store, local);
  }

  lemma {:induction false} NothingEmbedded()
    ensures EmbeddedMap([]) == map[]
  {
  }

  lemma {:induction false} CompileVerifies(tc: Toolchain, spec: Specification, packaging: Packaging)
    requires ManifestsRoundTrip(tc.up) && Compile(tc, spec, packaging).Ok?
    ensures var a := Compile(tc, spec, packaging).value;
      && ReadManifest(tc.up, a).Ok?
      && VerifyRequired(tc.up, ReadManifest(tc.up, a).value, a.directories, a.blobs).Ok?
  {
    hide CompileChildren, Merge, OwnBlobs, Assembled, VerifyRequired, Package;
    var children := CompileChildren(tc.up, spec.children).value;
    PackageVerifies(tc, Assembled(tc.up, spec, Edges(children)), Merge(OwnBlobs(tc.up, spec), children), packaging);
  }
}
