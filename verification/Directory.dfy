/** The application directory carried by an archive (src/holo_directory.rs). JSON is a datatype here. */
module Directory {
  import opened Basics
  import opened Upstream

  /** A content blob of an archive: a label and the bytes stored under it. */
  datatype Blob = Blob(kappa: Kappa, content: Bytes)

  datatype HoloLayer = HoloLayer(
    position: U32, kind: string, content: Kappa, entry: string,
    contract: Option<string>, architecture: Option<string>, surface: Option<string>, engine: Option<string>)

  datatype HoloChild = HoloChild(
    position: U32, application: Kappa, capabilities: Kappa,
    parent: Option<Kappa>, depth: Option<U32>, required: Option<Kappa>,
    applicationSource: Option<string>, capabilitiesSource: Option<string>)

  datatype HoloBlob = HoloBlob(kappa: Kappa, byteLength: U64)

  datatype HoloDirectory = HoloDirectory(
    schemaVersion: nat, primaryLayer: Option<U32>, required: Kappa,
    layers: seq<HoloLayer>, children: seq<HoloChild>, blobs: seq<HoloBlob>)

  const DIRECTORY_SCHEMA_VERSION: nat := 1

  /** The bytes of a directory extension, as a JSON reader sees them. */
  datatype Encoded = Malformed | Document(directory: HoloDirectory)

  /** Text order, as a sorted map keeps its keys. */
  predicate Less(a: string, b: string) {
    b != [] && (a == [] || a[0] < b[0] || (a[0] == b[0] && Less(a[1..], b[1..])))
  }

  function InsertSorted(table: seq<HoloBlob>, row: HoloBlob): seq<HoloBlob> {
    if table == [] || Less(row.kappa, table[0].kappa) then [row] + table
    else [table[0]] + InsertSorted(table[1..], row)
  }

  function Labels(table: seq<HoloBlob>): set<Kappa> {
    if table == [] then {} else {table[0].kappa} + Labels(table[1..])
  }

  /** The blob table after one more blob; every label is re-derived and may appear only once. */
  function IndexBlob(up: Crates, table: seq<HoloBlob>, blob: Blob): Result<seq<HoloBlob>> {
    if up.address(blob.content) != blob.kappa || blob.kappa in Labels(table) then Err(InvalidHolo)
    else Ok(InsertSorted(table, HoloBlob(blob.kappa, U64Of(|blob.content|))))
  }

  function IndexBlobs(up: Crates, blobs: seq<Blob>): Result<seq<HoloBlob>> {
    if blobs == [] then Ok([])
    else
      var table :- IndexBlobs(up, blobs[..|blobs| - 1]);
      IndexBlob(up, table, blobs[|blobs| - 1])
  }

  /** The loop of `derive` over the physical blob table. */
  method IndexBlobTable(up: Crates, blobs: seq<Blob>) returns (r: Result<seq<HoloBlob>>)
    ensures r == IndexBlobs(up, blobs)
  {
    var table: seq<HoloBlob> := [];
    for i := 0 to |blobs|
      invariant IndexBlobs(up, blobs[..i]) == Ok(table)
    {
      assert blobs[..i + 1][..i] == blobs[..i];
      var next := IndexBlob(up, table, blobs[i]);
      if next.Err? {
        FirstBadBlob(up, blobs, i + 1);
        return next;
      }
      table := next.value;
    }
    assert blobs[..|blobs|] == blobs;
    return Ok(table);
  }

  lemma {:induction false} FirstBadBlob(up: Crates, blobs: seq<Blob>, n: nat)
    requires n <= |blobs| && IndexBlobs(up, blobs[..n]).Err?
    ensures IndexBlobs(up, blobs) == Err(InvalidHolo)
    decreases |blobs| - n
  {
    if n < |blobs| {
      assert blobs[..n + 1][..n] == blobs[..n];
      FirstBadBlob(up, blobs, n + 1);
    } else {
      assert blobs[..n] == blobs;
      ErrorKind(up, blobs);
    }
  }

  lemma {:induction false} ErrorKind(up: Crates, blobs: seq<Blob>)
    ensures IndexBlobs(up, blobs).Err? ==> IndexBlobs(up, blobs).error == InvalidHolo
  {
    if blobs != [] {
      ErrorKind(up, blobs[..|blobs| - 1]);
    }
  }

  function LayerRow(up: Crates, position: nat, layer: Layer): Result<HoloLayer> {
    if position > U32_MAX then Err(InvalidHolo)
    else
      match layer.kind
      case WasmCodemodule =>
        var contract :- NormalizeContract(up, layer.aux);
        Ok(HoloLayer(position, "wasm", layer.content, layer.entry, Some(contract), None, None, None))
      case TensorPlan => Ok(HoloLayer(position, "tensor", layer.content, layer.entry, None, None, None, None))
      case RootfsImage => Ok(HoloLayer(position, "rootfs", layer.content, layer.entry, None, Some(layer.aux), None, None))
      case View => Ok(HoloLayer(position, "view", layer.content, layer.entry, None, None, Some(layer.aux), None))
      case InferenceModel =>
        Ok(HoloLayer(position, "inference-model", layer.content, layer.entry, None, None, None, Some(layer.aux)))
  }

  function LayerRows(up: Crates, layers: seq<Layer>): Result<seq<HoloLayer>> {
    if layers == [] then Ok([])
    else
      var n := |layers| - 1;
      var rows :- LayerRows(up, layers[..n]);
      var row :- LayerRow(up, n, layers[n]);
      Ok(rows + [row])
  }

  function ChildRows(children: seq<ChildEdge>): Result<seq<HoloChild>> {
    if |children| > U32_MAX + 1 then Err(InvalidHolo)
    else Ok(seq(|children|, i requires 0 <= i < |children| =>
      HoloChild(i, children[i].application, children[i].capabilities, None, None, None, None, None)))
  }

  /** `derive` */
  function Derive(up: Crates, manifest: AppManifest, blobs: seq<Blob>): Result<HoloDirectory> {
    if !up.validManifest(manifest) then Err(InvalidHolo)
    else
      var table :- IndexBlobs(up, blobs);
      var layers :- LayerRows(up, manifest.layers);
      var children :- ChildRows(manifest.children);
      Ok(HoloDirectory(DIRECTORY_SCHEMA_VERSION, manifest.primary, manifest.required, layers, children, table))
  }

  function DecodeLayer(up: Crates, layer: HoloLayer): Result<HoloLayer> {
    if layer.kind == "wasm" then
      if layer.contract.None? then Err(InvalidHolo)
      else
        var contract :- NormalizeContract(up, layer.contract.value);
        Ok(layer.(contract := Some(contract)))
    else if layer.contract.Some? then Err(InvalidHolo)
    else Ok(layer)
  }

  function DecodeLayers(up: Crates, layers: seq<HoloLayer>): Result<seq<HoloLayer>> {
    if layers == [] then Ok([])
    else
      var n := |layers| - 1;
      var rows :- DecodeLayers(up, layers[..n]);
      var row :- DecodeLayer(up, layers[n]);
      Ok(rows + [row])
  }

  /** `decode` */
  function Decode(up: Crates, encoded: Encoded): Result<HoloDirectory> {
    if encoded.Malformed? || encoded.directory.schemaVersion != DIRECTORY_SCHEMA_VERSION then Err(InvalidHolo)
    else
      var layers :- DecodeLayers(up, encoded.directory.layers);
      Ok(encoded.directory.(layers := layers))
  }

  /** `verify_required`: exactly one directory, and it is the one the manifest and blobs derive. */
  function VerifyRequired(up: Crates, manifest: AppManifest, directories: seq<Encoded>, blobs: seq<Blob>): Result<HoloDirectory> {
    if |directories| != 1 then Err(InvalidHolo)
    else
      var declared :- Decode(up, directories[0]);
      var derived :- Derive(up, manifest, blobs);
      if declared != derived then Err(InvalidHolo) else Ok(derived)
  }

  lemma {:induction false} RowsDecode(up: Crates, layers: seq<Layer>)
    ensures var rows := LayerRows(up, layers); rows.Ok? ==> DecodeLayers(up, rows.value) == Ok(rows.value)
  {
    if layers != [] {
      var n := |layers| - 1;
      hide LayerRow, DecodeLayer;
      RowsDecode(up, layers[..n]);
      var rows := LayerRows(up, layers);
      if rows.Ok? {
        var m := |rows.value| - 1;
        assert rows.value[..m] == LayerRows(up, layers[..n]).value;
        RowDecodes(up, n, layers[n]);
      }
    }
  }

  lemma {:induction false} RowDecodes(up: Crates, position: nat, layer: Layer)
    ensures var row := LayerRow(up, position, layer); row.Ok? ==> DecodeLayer(up, row.value) == row
  {
    assert "tensor"[0] != "wasm"[0] && "rootfs"[0] != "wasm"[0] && "view"[0] != "wasm"[0] && "inference-model"[0] != "wasm"[0];
  }

  /** Writing the derived directory into the archive always satisfies the reader's check. */
  lemma {:induction false} DerivedVerifies(up: Crates, manifest: AppManifest, blobs: seq<Blob>)
    ensures var d := Derive(up, manifest, blobs);
      d.Ok? ==> VerifyRequired(up, manifest, [Document(d.value)], blobs) == d
  {
    RowsDecode(up, manifest.layers);
  }

  /** Labels are addresses of their bytes and no label is used twice. */
  ghost predicate Addressed(up: Crates, blobs: seq<Blob>) {
    && (forall i :: 0 <= i < |blobs| ==> up.address(blobs[i].content) == blobs[i].kappa)
    && (forall i, j :: 0 <= i < j < |blobs| ==> blobs[i].kappa != blobs[j].kappa)
  }

  lemma {:induction false} LabelsOfInsert(table: seq<HoloBlob>, row: HoloBlob)
    ensures Labels(InsertSorted(table, row)) == Labels(table) + {row.kappa}
  {
    if table == [] || Less(row.kappa, table[0].kappa) {
      assert ([row] + table)[1..] == table;
    } else {
      LabelsOfInsert(table[1..], row);
      assert ([table[0]] + InsertSorted(table[1..], row))[1..] == InsertSorted(table[1..], row);
    }
  }

  function BlobLabels(blobs: seq<Blob>): set<Kappa> {
    set i | 0 <= i < |blobs| :: blobs[i].kappa
  }

  lemma {:induction false} AddressedStep(up: Crates, blobs: seq<Blob>)
    requires blobs != []
    ensures var init, last := blobs[..|blobs| - 1], blobs[|blobs| - 1];
      && (Addressed(up, blobs) <==> Addressed(up, init) && up.address(last.content) == last.kappa && last.kappa !in BlobLabels(init))
      && BlobLabels(blobs) == BlobLabels(init) + {last.kappa}
  {
    var n := |blobs| - 1;
    var init, last := blobs[..n], blobs[n];
    forall k | k in BlobLabels(init) + {last.kappa}
      ensures k in BlobLabels(blobs)
    {
      if k in BlobLabels(init) {
        var i :| 0 <= i < n && init[i].kappa == k;
        assert blobs[i].kappa == k;
      }
    }
    if Addressed(up, init) && up.address(last.content) == last.kappa && last.kappa !in BlobLabels(init) {
      forall i, j | 0 <= i < j < |blobs|
        ensures blobs[i].kappa != blobs[j].kappa
      {
        assert init[i].kappa in BlobLabels(init);
      }
    }
  }

  /** The blob table is accepted exactly when every label is the address of its bytes and none repeats. */
  lemma {:induction false} IndexedIffAddressed(up: Crates, blobs: seq<Blob>)
    ensures IndexBlobs(up, blobs).Ok? <==> Addressed(up, blobs)
    ensures IndexBlobs(up, blobs).Ok? ==> Labels(IndexBlobs(up, blobs).value) == BlobLabels(blobs)
  {
    if blobs != [] {
      hide Addressed, BlobLabels, Labels, InsertSorted;
      var n := |blobs| - 1;
      IndexedIffAddressed(up, blobs[..n]);
      AddressedStep(up, blobs);
      var table := IndexBlobs(up, blobs[..n]);
      if table.Ok? {
        LabelsOfInsert(table.value, HoloBlob(blobs[n].kappa, U64Of(|blobs[n].content|)));
      }
    }
  }
}
