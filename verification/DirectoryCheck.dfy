/** Exactly which directories a reader accepts, field by field (src/holo_directory.rs:18-178). */
module DirectoryCheck {
  import opened Basics
  import opened Upstream
  import opened Directory
  import opened BlobTable

  /** Text order is lexicographic: the first difference decides, and a proper prefix comes first. */
  lemma {:induction false} LessIsLexicographic(a: string, b: string)
    ensures Less(a, b) <==> exists n: nat :: DiffersAt(a, b, n)
    decreases |a|
  {
    if b == [] {
    } else if a == [] || a[0] < b[0] {
      assert DiffersAt(a, b, 0);
    } else if a[0] == b[0] {
      LessIsLexicographic(a[1..], b[1..]);
      if Less(a, b) {
        var n: nat :| DiffersAt(a[1..], b[1..], n);
        assert a[..n + 1] == [a[0]] + a[1..][..n] && b[..n + 1] == [b[0]] + b[1..][..n];
        assert DiffersAt(a, b, n + 1);
      }
      if n: nat :| DiffersAt(a, b, n) {
        assert n > 0;
        assert a[1..][..n - 1] == a[..n][1..] && b[1..][..n - 1] == b[..n][1..];
        assert DiffersAt(a[1..], b[1..], n - 1);
      }
    } else {
      forall n: nat
        ensures !DiffersAt(a, b, n)
      {
        if DiffersAt(a, b, n) && n > 0 {
          FirstDiffers(a, b, n);
        }
      }
    }
  }

  lemma {:induction false} FirstDiffers(a: string, b: string, n: nat)
    requires DiffersAt(a, b, n) && n > 0
    ensures a[0] == b[0]
  {
    assert a[..n][0] == b[..n][0];
  }

  ghost predicate DiffersAt(a: string, b: string, n: nat) {
    n <= |a| && n < |b| && a[..n] == b[..n] && (n == |a| || a[n] < b[n])
  }

  // ---------- What a directory says ----------

  /** The row of a layer: its place, kind, content and entry, and the one further field its kind has. */
  ghost predicate DescribesLayer(up: Crates, position: nat, layer: Layer, row: HoloLayer) {
    && row.position == position && row.content == layer.content && row.entry == layer.entry
    && (row.contract.Some? <==> layer.kind.WasmCodemodule?) && (row.architecture.Some? <==> layer.kind.RootfsImage?)
    && (row.surface.Some? <==> layer.kind.View?) && (row.engine.Some? <==> layer.kind.InferenceModel?)
    && match layer.kind
       case WasmCodemodule => row.kind == "wasm" && layer.aux in up.contracts && row.contract == Some(layer.aux)
       case TensorPlan => row.kind == "tensor"
       case RootfsImage => row.kind == "rootfs" && row.architecture == Some(layer.aux)
       case View => row.kind == "view" && row.surface == Some(layer.aux)
       case InferenceModel => row.kind == "inference-model" && row.engine == Some(layer.aux)
  }

  ghost predicate DescribesLayers(up: Crates, layers: seq<Layer>, rows: seq<HoloLayer>) {
    |rows| == |layers| && forall i :: 0 <= i < |layers| ==> DescribesLayer(up, i, layers[i], rows[i])
  }

  /** The row of a child: its place and its two labels, and nothing that only a plan knows. */
  ghost predicate DescribesChildren(children: seq<ChildEdge>, rows: seq<HoloChild>) {
    && |rows| == |children|
    && forall i :: 0 <= i < |children| ==>
      && rows[i].position == i
      && rows[i].application == children[i].application && rows[i].capabilities == children[i].capabilities
      && rows[i].parent == None && rows[i].depth == None && rows[i].required == None
      && rows[i].applicationSource == None && rows[i].capabilitiesSource == None
  }

  ghost predicate InLabelOrder(table: seq<HoloBlob>) {
    forall i, j :: 0 <= i < j < |table| ==> Less(table[i].kappa, table[j].kappa)
  }

  ghost predicate Embeds(blobs: seq<Blob>, row: HoloBlob) {
    exists i :: 0 <= i < |blobs| && blobs[i].kappa == row.kappa && U64Of(|blobs[i].content|) == row.byteLength
  }

  /** One row for each blob, in label order, with the length of its bytes. */
  ghost predicate DescribesBlobs(blobs: seq<Blob>, table: seq<HoloBlob>) {
    InLabelOrder(table) && forall row :: row in table <==> Embeds(blobs, row)
  }

  ghost predicate Describes(up: Crates, m: AppManifest, blobs: seq<Blob>, d: HoloDirectory) {
    && d.schemaVersion == 1 && d.primaryLayer == m.primary && d.required == m.required
    && DescribesLayers(up, m.layers, d.layers) && DescribesChildren(m.children, d.children) && DescribesBlobs(blobs, d.blobs)
  }

  // ---------- The rows ----------

  lemma {:induction false} LayerRowIs(up: Crates, position: nat, layer: Layer, row: HoloLayer)
    ensures LayerRow(up, position, layer) == Ok(row) <==> DescribesLayer(up, position, layer, row)
    ensures LayerRow(up, position, layer).Err? ==> LayerRow(up, position, layer).error == InvalidHolo
  {
  }

  lemma {:induction false} LayerRowsAre(up: Crates, layers: seq<Layer>, rows: seq<HoloLayer>)
    ensures LayerRows(up, layers) == Ok(rows) <==> DescribesLayers(up, layers, rows)
    ensures LayerRows(up, layers).Err? ==> LayerRows(up, layers).error == InvalidHolo
    decreases |layers|
  {
    hide LayerRow, DescribesLayer;
    if layers != [] {
      var n := |layers| - 1;
      if |rows| == |layers| {
        assert rows == rows[..n] + [rows[n]];
        LayerRowsAre(up, layers[..n], rows[..n]);
        LayerRowIs(up, n, layers[n], rows[n]);
        if LayerRows(up, layers) == Ok(rows) {
          assert rows[..n] == LayerRows(up, layers[..n]).value;
        }
        assert DescribesLayers(up, layers, rows) <==> DescribesLayers(up, layers[..n], rows[..n]) && DescribesLayer(up, n, layers[n], rows[n]);
      } else {
        LayerRowsAre(up, layers[..n], []);
        LayerRowsWidth(up, layers);
        LayerRowErrs(up, n, layers[n]);
      }
    }
  }

  lemma {:induction false} LayerRowErrs(up: Crates, position: nat, layer: Layer)
    ensures LayerRow(up, position, layer).Err? ==> LayerRow(up, position, layer).error == InvalidHolo
  {
  }

  lemma {:induction false} LayerRowsWidth(up: Crates, layers: seq<Layer>)
    ensures LayerRows(up, layers).Ok? ==> |LayerRows(up, layers).value| == |layers|
    decreases |layers|
  {
    hide LayerRow;
    if layers != [] {
      LayerRowsWidth(up, layers[..|layers| - 1]);
    }
  }

  lemma {:induction false} ChildRowsAre(children: seq<ChildEdge>, rows: seq<HoloChild>)
    ensures ChildRows(children) == Ok(rows) <==> DescribesChildren(children, rows)
    ensures ChildRows(children).Err? ==> ChildRows(children).error == InvalidHolo
  {
    if DescribesChildren(children, rows) {
      assert |rows| > 0 ==> rows[|rows| - 1].position == |rows| - 1;
      forall i | 0 <= i < |rows|
        ensures rows[i] == HoloChild(i, children[i].application, children[i].capabilities, None, None, None, None, None)
      {
      }
      assert ChildRows(children).Ok? && ChildRows(children).value == rows;
    }
  }

  // ---------- The blob table ----------

  lemma {:induction false} InsertRows(table: seq<HoloBlob>, row: HoloBlob)
    ensures forall other :: other in InsertSorted(table, row) <==> other in table || other == row
    decreases |table|
  {
    if table != [] && !Less(row.kappa, table[0].kappa) {
      InsertRows(table[1..], row);
      assert forall other :: other in table <==> other == table[0] || other in table[1..];
    }
  }

  lemma {:induction false} InLabelsHas(table: seq<HoloBlob>, k: Kappa)
    ensures k in Labels(table) <==> exists i :: 0 <= i < |table| && table[i].kappa == k
    decreases |table|
  {
    if table != [] {
      InLabelsHas(table[1..], k);
      if k in Labels(table[1..]) {
        var i :| 0 <= i < |table| - 1 && table[1..][i].kappa == k;
        assert table[i + 1].kappa == k;
      }
      if i :| 0 <= i < |table| && table[i].kappa == k {
        assert i > 0 ==> table[1..][i - 1].kappa == k;
      }
    }
  }

  lemma {:induction false} InsertKeepsOrder(table: seq<HoloBlob>, row: HoloBlob)
    requires InLabelOrder(table) && row.kappa !in Labels(table)
    ensures InLabelOrder(InsertSorted(table, row))
    decreases |table|
  {
    hide Less;
    if table == [] {
    } else if Less(row.kappa, table[0].kappa) {
      var r := [row] + table;
      forall i, j | 0 <= i < j < |r|
        ensures Less(r[i].kappa, r[j].kappa)
      {
        if i == 0 && j > 1 {
          LessIsTransitive(row.kappa, table[0].kappa, table[j - 1].kappa);
        }
      }
    } else {
      var rest := InsertSorted(table[1..], row);
      InLabelsHas(table, row.kappa);
      InLabelsHas(table[1..], row.kappa);
      assert forall i :: 0 <= i < |table[1..]| ==> table[1..][i] == table[i + 1];
      InsertKeepsOrder(table[1..], row);
      InsertRows(table[1..], row);
      LessIsTotal(table[0].kappa, row.kappa);
      var r := [table[0]] + rest;
      forall i, j | 0 <= i < j < |r|
        ensures Less(r[i].kappa, r[j].kappa)
      {
        if i == 0 {
          assert r[j] in rest;
          if r[j] != row {
            assert r[j] in table[1..];
          }
        }
      }
    }
  }

  lemma {:induction false} TableIs(up: Crates, blobs: seq<Blob>)
    ensures IndexBlobs(up, blobs).Ok? ==> DescribesBlobs(blobs, IndexBlobs(up, blobs).value)
    decreases |blobs|
  {
    if blobs != [] && IndexBlobs(up, blobs).Ok? {
      hide InsertSorted, InLabelOrder, Labels, Embeds;
      var n := |blobs| - 1;
      TableIs(up, blobs[..n]);
      var table, row := IndexBlobs(up, blobs[..n]).value, HoloBlob(blobs[n].kappa, U64Of(|blobs[n].content|));
      InsertKeepsOrder(table, row);
      InsertRows(table, row);
      forall other
        ensures Embeds(blobs, other) <==> Embeds(blobs[..n], other) || other == row
      {
        EmbedsStep(blobs, other);
      }
    } else if blobs == [] {
    }
  }

  lemma {:induction false} EmbedsStep(blobs: seq<Blob>, row: HoloBlob)
    requires blobs != []
    ensures var n := |blobs| - 1;
      Embeds(blobs, row) <==> Embeds(blobs[..n], row) || row == HoloBlob(blobs[n].kappa, U64Of(|blobs[n].content|))
  {
    var n := |blobs| - 1;
    if Embeds(blobs[..n], row) {
      var i :| 0 <= i < n && blobs[..n][i].kappa == row.kappa && U64Of(|blobs[..n][i].content|) == row.byteLength;
      assert blobs[i].kappa == row.kappa && U64Of(|blobs[i].content|) == row.byteLength;
    }
    if Embeds(blobs, row) {
      var i :| 0 <= i < |blobs| && blobs[i].kappa == row.kappa && U64Of(|blobs[i].content|) == row.byteLength;
      assert i < n ==> blobs[..n][i].kappa == row.kappa && U64Of(|blobs[..n][i].content|) == row.byteLength;
    }
  }

  /** Tables in label order with the same rows are the same table. */
  lemma {:induction false} OrderDecidesTable(a: seq<HoloBlob>, b: seq<HoloBlob>)
    requires InLabelOrder(a) && InLabelOrder(b) && forall row :: row in a <==> row in b
    ensures a == b
    decreases |a|
  {
    assert b != [] ==> b[0] in b;
    if a != [] {
      assert a[0] in a && a[0] in b;
      var j :| 0 <= j < |b| && b[j] == a[0];
      assert b[0] in b && b[0] in a;
      var i :| 0 <= i < |a| && a[i] == b[0];
      if i > 0 && j > 0 {
        LessIsTransitive(a[0].kappa, b[0].kappa, a[0].kappa);
        LessIsStrict(a[0].kappa);
      }
      assert a[0] == b[0];
      forall row
        ensures row in a[1..] <==> row in b[1..]
      {
        TailRows(a, row);
        TailRows(b, row);
      }
      OrderDecidesTable(a[1..], b[1..]);
      assert a == [a[0]] + a[1..] && b == [b[0]] + b[1..];
    }
  }

  lemma {:induction false} TailRows(table: seq<HoloBlob>, row: HoloBlob)
    requires InLabelOrder(table) && table != []
    ensures row in table[1..] <==> row in table && row != table[0]
  {
    LessIsStrict(table[0].kappa);
    if row in table[1..] {
      var i :| 0 <= i < |table| - 1 && table[1..][i] == row;
      assert table[i + 1] == row;
    }
    if row in table && row != table[0] {
      var i :| 0 <= i < |table| && table[i] == row;
      assert table[1..][i - 1] == row;
    }
  }

  // ---------- The check ----------

  /** Decoding a directory checks it and changes nothing. */
  lemma {:induction false} DecodesToItself(up: Crates, layers: seq<HoloLayer>)
    ensures DecodeLayers(up, layers).Ok? ==> DecodeLayers(up, layers).value == layers
    ensures DecodeLayers(up, layers).Err? ==> DecodeLayers(up, layers).error == InvalidHolo
    decreases |layers|
  {
    if layers != [] {
      DecodesToItself(up, layers[..|layers| - 1]);
    }
  }

  /** A row of a directory as a reader accepts it by itself: a wasm row names a known contract, and no other does. */
  ghost predicate WellFormedRow(up: Crates, row: HoloLayer) {
    if row.kind == "wasm" then row.contract.Some? && row.contract.value in up.contracts else row.contract.None?
  }

  lemma {:induction false} RowsWellFormed(up: Crates, layers: seq<HoloLayer>)
    ensures DecodeLayers(up, layers).Ok? <==> forall i :: 0 <= i < |layers| ==> WellFormedRow(up, layers[i])
    decreases |layers|
  {
    if layers != [] {
      var n := |layers| - 1;
      RowsWellFormed(up, layers[..n]);
      assert forall i :: 0 <= i < n ==> layers[..n][i] == layers[i];
      assert DecodeLayer(up, layers[n]).Ok? <==> WellFormedRow(up, layers[n]);
      assert DecodeLayers(up, layers).Ok? <==> DecodeLayers(up, layers[..n]).Ok? && DecodeLayer(up, layers[n]).Ok?;
    }
  }

  /** A directory decodes exactly when it is a document of schema 1 with well-formed rows, and then to itself. */
  lemma {:induction false} DecodedIffWellFormed(up: Crates, encoded: Encoded)
    ensures Decode(up, encoded) ==
      if encoded.Document? && encoded.directory.schemaVersion == 1
         && (forall i :: 0 <= i < |encoded.directory.layers| ==> WellFormedRow(up, encoded.directory.layers[i]))
      then Ok(encoded.directory) else Err(InvalidHolo)
  {
    hide WellFormedRow, DecodeLayers;
    if encoded.Document? {
      RowsWellFormed(up, encoded.directory.layers);
      DecodesToItself(up, encoded.directory.layers);
    }
  }

  /** A directory is derived from a manifest and blobs exactly when it describes them. */
  lemma {:induction false} DerivedIffDescribes(up: Crates, m: AppManifest, blobs: seq<Blob>, d: HoloDirectory)
    ensures Derive(up, m, blobs) == Ok(d) <==> up.validManifest(m) && Addressed(up, blobs) && Describes(up, m, blobs, d)
    ensures Derive(up, m, blobs).Err? ==> Derive(up, m, blobs).error == InvalidHolo
  {
    hide LayerRows, ChildRows, IndexBlobs, DescribesLayers, DescribesChildren, Addressed;
    IndexedIffAddressed(up, blobs);
    ErrorKind(up, blobs);
    TableIs(up, blobs);
    LayerRowsAre(up, m.layers, d.layers);
    ChildRowsAre(m.children, d.children);
    if IndexBlobs(up, blobs).Ok? && DescribesBlobs(blobs, d.blobs) {
      OrderDecidesTable(IndexBlobs(up, blobs).value, d.blobs);
    }
  }

  ghost predicate Accepted(up: Crates, m: AppManifest, directories: seq<Encoded>, blobs: seq<Blob>) {
    && up.validManifest(m) && Addressed(up, blobs)
    && |directories| == 1 && directories[0].Document? && Describes(up, m, blobs, directories[0].directory)
  }

  /** The reader accepts an archive exactly when its manifest is valid, its blobs are stored under their addresses
      and it carries one directory, which describes them; every refusal is the same error. */
  lemma {:induction false} VerifiedIffDescribed(up: Crates, m: AppManifest, directories: seq<Encoded>, blobs: seq<Blob>)
    ensures VerifyRequired(up, m, directories, blobs).Ok? <==> Accepted(up, m, directories, blobs)
    ensures VerifyRequired(up, m, directories, blobs) ==
      if Accepted(up, m, directories, blobs) then Ok(directories[0].directory) else Err(InvalidHolo)
  {
    hide Describes, Derive, Addressed, DecodeLayers;
    if |directories| == 1 && directories[0].Document? {
      var d := directories[0].directory;
      DecodesToItself(up, d.layers);
      DerivedIffDescribes(up, m, blobs, d);
      assert directories == [Document(d)];
      if Derive(up, m, blobs) == Ok(d) {
        DerivedVerifies(up, m, blobs);
      }
    }
  }
}
