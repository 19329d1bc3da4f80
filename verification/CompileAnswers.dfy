/** What the compiler writes, field by field, and exactly when it writes it (src/compile.rs:224-319, 377-471). */
module CompileAnswers {
  import opened Basics
  import opened Capability
  import opened Upstream
  import opened Directory
  import opened BlobTable
  import opened PlanReport
  import opened Compiler
  import DirectoryCheck

  /** The bytes and the address of a capability set. */
  ghost predicate Names(up: Crates, k: Kappa, c: Capabilities) {
    k == up.address(up.encodeCapabilities(c))
  }

  // ---------- Children ----------

  /** An archive that may be embedded: its manifest section is the canonical form of a valid manifest, and its directory
      describes that manifest and its blobs. */
  ghost predicate Sound(up: Crates, archive: Archive, m: AppManifest) {
    && archive.manifest.Some? && up.parseManifest(archive.manifest.value) == Some(m)
    && up.validManifest(m) && up.encodeManifest(m) == archive.manifest.value
    && DirectoryCheck.Accepted(up, m, archive.directories, archive.blobs)
  }

  /** Everything the manifest names is the manifest itself or a blob of the archive. */
  ghost predicate Whole(up: Crates, archive: Archive, m: AppManifest) {
    forall k :: k in References(m) ==> k == up.address(up.encodeManifest(m)) || k in BlobLabels(archive.blobs)
  }

  /** What is compiled for a child: its manifest's address, its delegation's address, and, in label order, its manifest,
      its archive's blobs and its delegation. */
  ghost predicate CompiledFrom(up: Crates, child: ChildSource, m: AppManifest, c: CompiledChild) {
    && c.application == up.address(up.encodeManifest(m)) && Names(up, c.capabilities, child.capabilities)
    && Ordered(up, c.blobs)
    && BlobLabels(c.blobs) == {c.application} + BlobLabels(child.archive.blobs) + {c.capabilities}
  }

  lemma {:induction false} ChildManifestIs(up: Crates, archive: Archive)
    ensures ChildManifest(up, archive).Ok? ==> Sound(up, archive, ChildManifest(up, archive).value)
    ensures ChildManifest(up, archive).Err? ==> ChildManifest(up, archive).error == InvalidHolo && forall m :: !Sound(up, archive, m)
  {
    hide VerifyRequired, DirectoryCheck.Accepted;
    if archive.manifest.Some? && up.parseManifest(archive.manifest.value).Some? {
      DirectoryCheck.VerifiedIffDescribed(up, up.parseManifest(archive.manifest.value).value, archive.directories, archive.blobs);
    }
  }

  lemma {:induction false} SoundIsAddressed(up: Crates, archive: Archive, m: AppManifest)
    requires Sound(up, archive, m)
    ensures forall i :: 0 <= i < |archive.blobs| ==> up.address(archive.blobs[i].content) == archive.blobs[i].kappa
  {
    hide DirectoryCheck.Describes;
  }

  lemma {:induction false} WholeIff(up: Crates, archive: Archive, m: AppManifest, labels: set<Kappa>)
    requires labels == {up.address(up.encodeManifest(m))} + BlobLabels(archive.blobs)
    ensures Whole(up, archive, m) <==> References(m) <= labels
  {
    hide References, BlobLabels;
  }

  /** A child is compiled exactly when its archive is sound and whole. */
  lemma {:induction false} ChildCompiledIff(up: Crates, child: ChildSource)
    ensures (forall m :: !Sound(up, child.archive, m)) ==> CompileChild(up, child) == Err(InvalidHolo)
    ensures forall m :: Sound(up, child.archive, m) ==>
      if Whole(up, child.archive, m) then CompileChild(up, child).Ok? && CompiledFrom(up, child, m, CompileChild(up, child).value)
      else CompileChild(up, child) == Err(Config)
  {
    ChildManifestIs(up, child.archive);
    hide ChildManifest, References, Ordered, BlobLabels, Put, PutAll, Whole;
    if ChildManifest(up, child.archive).Ok? {
      var m := ChildManifest(up, child.archive).value;
      SoundIsAddressed(up, child.archive, m);
      var application := Blob(up.address(up.encodeManifest(m)), up.encodeManifest(m));
      OneIsOrdered(up, application);
      PutAllKeeps(up, [application], child.archive.blobs);
      var blobs := PutAll([application], child.archive.blobs);
      PutKeeps(up, blobs, CapabilityBlob(up, child.capabilities));
      PutLabels(blobs, CapabilityBlob(up, child.capabilities));
      WholeIff(up, child.archive, m, BlobLabels(blobs));
      hide DirectoryCheck.Accepted;
      assert forall other :: Sound(up, child.archive, other) ==> other == m;
    }
  }

  // ---------- Archives ----------

  /** The manifest a specification asks for. */
  ghost predicate Specified(up: Crates, spec: Specification, m: AppManifest) {
    && m.primary == spec.primary && Names(up, m.required, spec.required)
    && |m.layers| == |spec.layers| && |m.children| == |spec.children|
    && (forall i :: 0 <= i < |m.layers| ==>
      && m.layers[i].kind == spec.layers[i].kind && m.layers[i].content == up.address(spec.layers[i].content)
      && m.layers[i].entry == spec.layers[i].entry && m.layers[i].aux == spec.layers[i].aux)
    && forall i :: 0 <= i < |m.children| ==>
      && spec.children[i].archive.manifest.Some?
      && m.children[i].application == up.address(spec.children[i].archive.manifest.value)
      && Names(up, m.children[i].capabilities, spec.children[i].capabilities)
  }

  /** Every label the archive of a specification embeds: its own capabilities and layer contents, and for every child
      its manifest, its delegation and whatever its archive embeds. */
  ghost predicate Embeds(up: Crates, spec: Specification, k: Kappa) {
    || Names(up, k, spec.required)
    || (exists i :: 0 <= i < |spec.layers| && k == up.address(spec.layers[i].content))
    || (exists i :: 0 <= i < |spec.children| && ChildBrings(up, spec.children[i], k))
  }

  ghost predicate ChildBrings(up: Crates, child: ChildSource, k: Kappa) {
    || (child.archive.manifest.Some? && k == up.address(child.archive.manifest.value))
    || k in BlobLabels(child.archive.blobs) || Names(up, k, child.capabilities)
  }

  ghost predicate Compilable(up: Crates, child: ChildSource) {
    exists m :: Sound(up, child.archive, m) && Whole(up, child.archive, m)
  }

  lemma {:induction false} CompilableIff(up: Crates, child: ChildSource)
    ensures CompileChild(up, child).Ok? <==> Compilable(up, child)
    ensures CompileChild(up, child).Ok? ==>
      var c := CompileChild(up, child).value;
      && child.archive.manifest.Some? && c.application == up.address(child.archive.manifest.value) && Names(up, c.capabilities, child.capabilities)
      && Ordered(up, c.blobs) && forall k :: k in BlobLabels(c.blobs) <==> ChildBrings(up, child, k)
  {
    ChildManifestIs(up, child.archive);
    ChildCompiledIff(up, child);
    hide Ordered, BlobLabels, Whole, DirectoryCheck.Accepted, CompileChild, ChildManifest;
    if ChildManifest(up, child.archive).Ok? {
      var m := ChildManifest(up, child.archive).value;
      assert forall other :: Sound(up, child.archive, other) ==> other == m;
    }
  }

  /** The error of the first child that does not compile. */
  lemma {:induction false} ChildrenCompiledIff(up: Crates, children: seq<ChildSource>)
    ensures CompileChildren(up, children).Ok? <==> forall i :: 0 <= i < |children| ==> Compilable(up, children[i])
    ensures CompileChildren(up, children).Err? ==>
      exists i :: 0 <= i < |children| && CompileChild(up, children[i]) == Err(CompileChildren(up, children).error)
        && forall j :: 0 <= j < i ==> Compilable(up, children[j])
    decreases |children|
  {
    hide Compilable, CompileChild;
    if children != [] {
      var n := |children| - 1;
      ChildrenCompiledIff(up, children[..n]);
      CompilableIff(up, children[n]);
      assert forall i :: 0 <= i < n ==> children[..n][i] == children[i];
      if CompileChildren(up, children[..n]).Err? {
        var i :| 0 <= i < |children[..n]| && CompileChild(up, children[..n][i]) == Err(CompileChildren(up, children[..n]).error)
          && forall j :: 0 <= j < i ==> Compilable(up, children[..n][j]);
        assert CompileChild(up, children[i]) == Err(CompileChildren(up, children).error);
        assert forall j :: 0 <= j < i ==> Compilable(up, children[j]);
      }
    }
  }

  lemma {:induction false} AssembledIsSpecified(up: Crates, spec: Specification)
    requires CompileChildren(up, spec.children).Ok?
    ensures Specified(up, spec, Assembled(up, spec, Edges(CompileChildren(up, spec.children).value)))
  {
    hide CompileChild, CompileChildren, Ordered, BlobLabels, ChildBrings;
    CompileChildrenLength(up, spec.children);
    forall i | 0 <= i < |spec.children|
      ensures var c := CompileChildren(up, spec.children).value[i];
        && spec.children[i].archive.manifest.Some?
        && c.application == up.address(spec.children[i].archive.manifest.value)
        && Names(up, c.capabilities, spec.children[i].capabilities)
    {
      CompileChildrenAt(up, spec.children, i);
      CompilableIff(up, spec.children[i]);
    }
  }

  lemma {:induction false} OwnLabels(up: Crates, spec: Specification)
    ensures Ordered(up, OwnBlobs(up, spec))
    ensures forall k :: k in BlobLabels(OwnBlobs(up, spec)) <==>
      Names(up, k, spec.required) || exists i :: 0 <= i < |spec.layers| && k == up.address(spec.layers[i].content)
  {
    hide Ordered, PutAll;
    var own, layers := CapabilityBlob(up, spec.required), LayerBlobs(up, spec.layers);
    OneIsOrdered(up, own);
    PutAllKeeps(up, [own], layers);
    forall k
      ensures k in BlobLabels(layers) <==> exists i :: 0 <= i < |spec.layers| && k == up.address(spec.layers[i].content)
    {
      if i :| 0 <= i < |spec.layers| && k == up.address(spec.layers[i].content) {
        assert layers[i].kappa == k;
      }
    }
  }

  ghost predicate AnyHas(children: seq<CompiledChild>, k: Kappa) {
    exists i :: 0 <= i < |children| && k in BlobLabels(children[i].blobs)
  }

  lemma {:induction false} AnyHasStep(children: seq<CompiledChild>, k: Kappa)
    requires children != []
    ensures AnyHas(children, k) <==> AnyHas(children[..|children| - 1], k) || k in BlobLabels(children[|children| - 1].blobs)
  {
    hide BlobLabels;
    var n := |children| - 1;
    if AnyHas(children[..n], k) {
      var i :| 0 <= i < n && k in BlobLabels(children[..n][i].blobs);
      assert k in BlobLabels(children[i].blobs);
    }
    if AnyHas(children, k) && k !in BlobLabels(children[n].blobs) {
      var i :| 0 <= i < |children| && k in BlobLabels(children[i].blobs);
      assert k in BlobLabels(children[..n][i].blobs);
    }
  }

  lemma {:induction false} MergeLabels(up: Crates, table: seq<Blob>, children: seq<CompiledChild>)
    requires Ordered(up, table) && forall i :: 0 <= i < |children| ==> Ordered(up, children[i].blobs)
    ensures Ordered(up, Merge(table, children))
    ensures forall k :: k in BlobLabels(Merge(table, children)) <==> k in BlobLabels(table) || AnyHas(children, k)
    decreases |children|
  {
    hide Ordered, BlobLabels, PutAll, AnyHas;
    if children == [] {
      NoneHas();
    } else {
      var n := |children| - 1;
      MergeLabels(up, table, children[..n]);
      OrderedBlobs(up, children[n].blobs);
      PutAllKeeps(up, Merge(table, children[..n]), children[n].blobs);
      forall k
        ensures AnyHas(children, k) <==> AnyHas(children[..n], k) || k in BlobLabels(children[n].blobs)
      {
        AnyHasStep(children, k);
      }
    }
  }

  lemma {:induction false} NoneHas()
    ensures forall k :: !AnyHas([], k)
  {
  }

  lemma {:induction false} AllLabels(up: Crates, spec: Specification)
    requires CompileChildren(up, spec.children).Ok?
    ensures var blobs := Merge(OwnBlobs(up, spec), CompileChildren(up, spec.children).value);
      Ordered(up, blobs) && forall k :: k in BlobLabels(blobs) <==> Embeds(up, spec, k)
  {
    hide Ordered, BlobLabels, Merge, CompileChild, CompileChildren, ChildBrings, OwnBlobs;
    var children := CompileChildren(up, spec.children).value;
    CompileChildrenLength(up, spec.children);
    forall i | 0 <= i < |children|
      ensures Ordered(up, children[i].blobs)
      ensures forall k :: k in BlobLabels(children[i].blobs) <==> ChildBrings(up, spec.children[i], k)
    {
      CompileChildrenAt(up, spec.children, i);
      CompilableIff(up, spec.children[i]);
    }
    OwnLabels(up, spec);
    MergeLabels(up, OwnBlobs(up, spec), children);
  }

  /** An archive written for a manifest: its canonical bytes, the one directory that describes it, the blobs it embeds
      in label order, each under its address, and the address it gets when written. */
  ghost predicate Writes(tc: Toolchain, spec: Specification, packaging: Packaging, m: AppManifest, a: Archive) {
    && a.manifest == Some(tc.up.encodeManifest(m))
    && |a.directories| == 1 && a.directories[0].Document?
    && DirectoryCheck.Describes(tc.up, m, a.blobs, a.directories[0].directory)
    && a.kappa == tc.addressOf(tc.up.encodeManifest(m), a.directories[0].directory, a.blobs)
    && Ordered(tc.up, a.blobs)
    && if packaging == Thin then a.blobs == [] else forall k :: k in BlobLabels(a.blobs) <==> Embeds(tc.up, spec, k)
  }

  /** Compiling writes an archive exactly when every child compiles and the manifest the specification asks for is valid
      and can be described; the first child that does not compile decides the error, and otherwise it is an invalid
      archive. */
  lemma {:induction false} CompiledIff(tc: Toolchain, spec: Specification, packaging: Packaging) returns (m: AppManifest)
    ensures Compile(tc, spec, packaging).Ok? ==>
      && (forall i :: 0 <= i < |spec.children| ==> Compilable(tc.up, spec.children[i]))
      && Specified(tc.up, spec, m) && tc.up.validManifest(m)
      && Writes(tc, spec, packaging, m, Compile(tc, spec, packaging).value)
    ensures Compile(tc, spec, packaging).Err? ==>
      var error := Compile(tc, spec, packaging).error;
      if forall i :: 0 <= i < |spec.children| ==> Compilable(tc.up, spec.children[i]) then
        && error == InvalidHolo && Specified(tc.up, spec, m)
        && (!tc.up.validManifest(m) || forall blobs, d :: Ordered(tc.up, blobs) ==> !DirectoryCheck.Describes(tc.up, m, blobs, d))
      else
        exists i :: 0 <= i < |spec.children| && CompileChild(tc.up, spec.children[i]) == Err(error) && forall j :: 0 <= j < i ==> Compilable(tc.up, spec.children[j])
  {
    hide CompileChild, CompileChildren, Ordered, BlobLabels, Merge, OwnBlobs, Compilable, Specified, Embeds, Derive, DirectoryCheck.Describes, Assembled;
    var up := tc.up;
    m := AppManifest(None, "", [], []);
    ChildrenCompiledIff(up, spec.children);
    if CompileChildren(up, spec.children).Ok? {
      var children := CompileChildren(up, spec.children).value;
      m := Assembled(up, spec, Edges(children));
      AssembledIsSpecified(up, spec);
      AllLabels(up, spec);
      NoneOrdered(up);
      var embedded := if packaging == Fat then Merge(OwnBlobs(up, spec), children) else [];
      var derived := Derive(up, m, embedded);
      if derived.Ok? {
        DirectoryCheck.DerivedIffDescribes(up, m, embedded, derived.value);
      } else {
        DirectoryCheck.DerivedIffDescribes(up, m, embedded, HoloDirectory(0, None, "", [], [], []));
        OrderedIsAddressed(up, embedded);
        NeverDescribed(up, m, embedded);
      }
    }
  }

  lemma {:induction false} NoneOrdered(up: Crates)
    ensures Ordered(up, [])
  {
  }

  /** Whether a manifest can be described does not depend on the blobs, as long as they are addressed. */
  lemma {:induction false} NeverDescribed(up: Crates, m: AppManifest, embedded: seq<Blob>)
    requires Addressed(up, embedded) && Derive(up, m, embedded).Err?
    ensures !up.validManifest(m) || forall blobs, d :: Ordered(up, blobs) ==> !DirectoryCheck.Describes(up, m, blobs, d)
  {
    hide Ordered, DirectoryCheck.DescribesBlobs, LayerRows, ChildRows, Addressed, IndexBlobs, DirectoryCheck.DescribesLayers, DirectoryCheck.DescribesChildren;
    IndexedIffAddressed(up, embedded);
    forall blobs, d | Ordered(up, blobs) && up.validManifest(m) && DirectoryCheck.Describes(up, m, blobs, d)
      ensures false
    {
      DirectoryCheck.LayerRowsAre(up, m.layers, d.layers);
      DirectoryCheck.ChildRowsAre(m.children, d.children);
    }
  }
}
