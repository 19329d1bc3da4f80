/** Which payloads a push publishes beside an archive (src/artifact_push.rs:55-77). */
module ArtifactContents {
  import opened Basics
  import opened Upstream
  import opened Directory
  import opened Compiler

  /** `external_payloads`: layer contents that are not in the archive's blob table. */
  function ExternalPayloads(directory: Option<HoloDirectory>): set<Kappa> {
    match directory
    case None => {}
    case Some(d) =>
      (set i | 0 <= i < |d.layers| :: d.layers[i].content) - (set i | 0 <= i < |d.blobs| :: d.blobs[i].kappa)
  }

  function Contents(m: AppManifest): set<Kappa> {
    set i | 0 <= i < |m.layers| :: m.layers[i].content
  }

  lemma {:induction false} RowContents(up: Crates, layers: seq<Layer>)
    requires LayerRows(up, layers).Ok?
    ensures |LayerRows(up, layers).value| == |layers|
    ensures forall i :: 0 <= i < |layers| ==> LayerRows(up, layers).value[i].content == layers[i].content
    decreases |layers|
  {
    if layers != [] {
      RowContents(up, layers[..|layers| - 1]);
    }
  }

  lemma {:induction false} TableLabels(table: seq<HoloBlob>)
    ensures Labels(table) == set i | 0 <= i < |table| :: table[i].kappa
    decreases |table|
  {
    if table != [] {
      TableLabels(table[1..]);
      forall k | k in Labels(table)
        ensures k in set i | 0 <= i < |table| :: table[i].kappa
      {
        if k != table[0].kappa {
          var i :| 0 <= i < |table[1..]| && table[1..][i].kappa == k;
          assert table[i + 1].kappa == k;
        } else {
          assert table[0].kappa == k;
        }
      }
    }
  }

  /** The external payloads of an archive are the layer contents its manifest names and its blobs lack. */
  lemma {:induction false} ExternalIsMissing(up: Crates, m: AppManifest, blobs: seq<Blob>)
    requires Derive(up, m, blobs).Ok?
    ensures ExternalPayloads(Some(Derive(up, m, blobs).value)) == Contents(m) - BlobLabels(blobs)
  {
    hide BlobLabels, Labels, LayerRows, IndexBlobs;
    var d := Derive(up, m, blobs).value;
    IndexedIffAddressed(up, blobs);
    TableLabels(d.blobs);
    RowContents(up, m.layers);
    assert (set i | 0 <= i < |d.layers| :: d.layers[i].content) == Contents(m);
  }

  /** A fat archive needs no payload beside it; a thin one needs every layer content. */
  lemma {:induction false} PackagingDecidesExternal(tc: Toolchain, spec: Specification)
    requires Compile(tc, spec, Fat).Ok?
    ensures Compile(tc, spec, Thin).Ok?
    ensures var m := Assembled(tc.up, spec, Edges(CompileChildren(tc.up, spec.children).value));
      var fat, thin := Compile(tc, spec, Fat).value, Compile(tc, spec, Thin).value;
      && VerifyRequired(tc.up, m, fat.directories, fat.blobs).Ok? && VerifyRequired(tc.up, m, thin.directories, thin.blobs).Ok?
      && ExternalPayloads(Some(VerifyRequired(tc.up, m, fat.directories, fat.blobs).value)) == {}
      && ExternalPayloads(Some(VerifyRequired(tc.up, m, thin.directories, thin.blobs).value)) == Contents(m)
  {
    hide CompileChildren, CompileChild, Assembled, Merge, OwnBlobs, ExternalPayloads, Derive, VerifyRequired, BlobLabels;
    var m := Assembled(tc.up, spec, Edges(CompileChildren(tc.up, spec.children).value));
    CompileIsFat(tc, spec);
    PackagingsShareManifest(tc, spec);
    var fat, thin := Compile(tc, spec, Fat).value, Compile(tc, spec, Thin).value;
    DerivedVerifies(tc.up, m, fat.blobs);
    DerivedVerifies(tc.up, m, thin.blobs);
    ExternalIsMissing(tc.up, m, fat.blobs);
    ExternalIsMissing(tc.up, m, thin.blobs);
    NoLabels();
  }

  lemma {:induction false} NoLabels()
    ensures BlobLabels([]) == {}
  {
  }
}
