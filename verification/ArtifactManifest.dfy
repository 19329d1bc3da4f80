/** The distribution manifest of a named artifact (src/artifact_manifest.rs). JSON is a datatype here. */
module ArtifactManifest {
  import opened Basics

  datatype Json = Null | Boolean(b: bool) | Number(n: int) | Text(s: string) | List(items: seq<Json>) | Object(fields: map<string, Json>)

  datatype Role = ArchiveRole | LayerRole

  datatype ArtifactLayer = ArtifactLayer(kappa: Kappa, mediaType: string, size: U64, role: Role)

  datatype Manifest = Manifest(layers: seq<ArtifactLayer>, kind: Option<string>, name: Option<string>, tag: Option<string>)

  const ROLE := "dev.hologram.role"
  const KIND := "dev.hologram.kind"
  const NAME := "dev.hologram.name"
  const TAG := "dev.hologram.tag"

  function Get(document: Json, key: string): Option<Json> {
    if document.Object? && key in document.fields then Some(document.fields[key]) else None
  }

  function GetText(document: Json, key: string): Option<string> {
    match Get(document, key)
    case Some(Text(s)) => Some(s)
    case _ => None
  }

  predicate LowerHex(c: char) {
    '0' <= c <= '9' || 'a' <= c <= 'f'
  }

  /** `is_blake3` */
  predicate IsBlake3(kappa: string) {
    |kappa| == 71 && kappa[..7] == "blake3:" && forall i :: 7 <= i < 71 ==> LowerHex(kappa[i])
  }

  function RoleIn(entry: Json): Role {
    var annotations := Get(entry, "annotations");
    if annotations.Some? && GetText(annotations.value, ROLE) == Some("archive") then ArchiveRole else LayerRole
  }

  function SizeIn(entry: Json): U64 {
    match Get(entry, "size")
    case Some(Number(n)) => if 0 <= n <= U64_MAX then n else 0
    case _ => 0
  }

  function DecodeLayer(entry: Json): Result<ArtifactLayer> {
    match GetText(entry, "digest")
    case None => Err(Protocol)
    case Some(kappa) =>
      if !IsBlake3(kappa) then Err(Protocol)
      else
        var media := GetText(entry, "mediaType");
        Ok(ArtifactLayer(kappa, if media.Some? then media.value else "application/octet-stream", SizeIn(entry), RoleIn(entry)))
  }

  function DecodeLayers(entries: seq<Json>): Result<seq<ArtifactLayer>> {
    if entries == [] then Ok([])
    else
      var n := |entries| - 1;
      var rest :- DecodeLayers(entries[..n]);
      var last :- DecodeLayer(entries[n]);
      Ok(rest + [last])
  }

  function AnnotationIn(document: Json, key: string): Option<string> {
    match Get(document, "annotations")
    case None => None
    case Some(annotations) => GetText(annotations, key)
  }

  /** `ArtifactManifest::decode` */
  function Decode(document: Json): Result<Manifest> {
    match Get(document, "layers")
    case Some(List(entries)) =>
      var layers :- DecodeLayers(entries);
      Ok(Manifest(layers, AnnotationIn(document, KIND), AnnotationIn(document, NAME), AnnotationIn(document, TAG)))
    case _ => Err(Protocol)
  }

  /** The layer loop of `decode`. */
  method DecodeEntries(entries: seq<Json>) returns (r: Result<seq<ArtifactLayer>>)
    ensures r == DecodeLayers(entries)
  {
    hide DecodeLayer;
    var layers: seq<ArtifactLayer> := [];
    for i := 0 to |entries|
      invariant DecodeLayers(entries[..i]) == Ok(layers)
    {
      assert entries[..i + 1][..i] == entries[..i];
      var layer := DecodeLayer(entries[i]);
      if layer.Err? {
        FirstBadEntry(entries, i + 1);
        return Err(layer.error);
      }
      layers := layers + [layer.value];
    }
    assert entries[..|entries|] == entries;
    return Ok(layers);
  }

  lemma {:induction false} FirstBadEntry(entries: seq<Json>, n: nat)
    requires n <= |entries| && DecodeLayers(entries[..n]).Err?
    ensures DecodeLayers(entries) == DecodeLayers(entries[..n])
    decreases |entries| - n
  {
    hide DecodeLayer;
    if n < |entries| {
      assert entries[..n + 1][..n] == entries[..n];
      FirstBadEntry(entries, n + 1);
    } else {
      assert entries[..n] == entries;
    }
  }

  /** How many layers declare themselves the archive. */
  function Archives(layers: seq<ArtifactLayer>): nat {
    if layers == [] then 0 else Archives(layers[1..]) + if layers[0].role == ArchiveRole then 1 else 0
  }

  function FirstArchive(layers: seq<ArtifactLayer>): Option<ArtifactLayer> {
    if layers == [] then None else if layers[0].role == ArchiveRole then Some(layers[0]) else FirstArchive(layers[1..])
  }

  /** `archive`: the single archive layer. */
  function ArchiveOf(m: Manifest): (r: Result<ArtifactLayer>)
    ensures r.Ok? <==> Archives(m.layers) == 1
  {
    FirstArchiveExists(m.layers);
    match FirstArchive(m.layers)
    case None => Err(Protocol)
    case Some(archive) => if Archives(m.layers) > 1 then Err(Protocol) else Ok(archive)
  }

  lemma {:induction false} FirstArchiveExists(layers: seq<ArtifactLayer>)
    ensures FirstArchive(layers).Some? <==> Archives(layers) > 0
    ensures FirstArchive(layers).Some? ==> FirstArchive(layers).value in layers && FirstArchive(layers).value.role == ArchiveRole
    decreases |layers|
  {
    if layers != [] {
      FirstArchiveExists(layers[1..]);
    }
  }

  function RoleText(role: Role): string {
    if role == ArchiveRole then "archive" else "layer"
  }

  function EncodeLayer(layer: ArtifactLayer): Json {
    Object(map["mediaType" := Text(layer.mediaType), "digest" := Text(layer.kappa), "size" := Number(layer.size),
               "annotations" := Object(map[ROLE := Text(RoleText(layer.role))])])
  }

  function EncodeLayers(layers: seq<ArtifactLayer>): seq<Json> {
    seq(|layers|, i requires 0 <= i < |layers| => EncodeLayer(layers[i]))
  }

  function Annotate(annotations: map<string, Json>, key: string, value: Option<string>): map<string, Json> {
    if value.Some? then annotations[key := Text(value.value)] else annotations
  }

  function Annotations(m: Manifest): map<string, Json> {
    Annotate(Annotate(Annotate(map[], KIND, m.kind), NAME, m.name), TAG, m.tag)
  }

  /** `ArtifactManifest::encode` */
  function Encode(m: Manifest): Result<Json> {
    var archive :- ArchiveOf(m);
    Ok(Object(map[
      "schemaVersion" := Number(2),
      "mediaType" := Text("application/vnd.oci.image.manifest.v1+json"),
      "artifactType" := Text("application/vnd.hologram.artifact.v1+json"),
      "config" := Object(map["mediaType" := Text("application/vnd.oci.empty.v1+json"),
                             "digest" := Text(archive.kappa), "size" := Number(archive.size)]),
      "layers" := List(EncodeLayers(m.layers)),
      "annotations" := Object(Annotations(m))]))
  }

  // ---------- Round trip ----------

  lemma {:induction false} KeysDiffer()
    ensures KIND != NAME && KIND != TAG && NAME != TAG
    ensures "layers" != "annotations" && "layers" != "config" && "annotations" != "config"
    ensures "mediaType" != "digest" && "mediaType" != "size" && "mediaType" != "annotations"
    ensures "digest" != "size" && "digest" != "annotations" && "size" != "annotations" && "archive" != "layer"
    ensures "layers" != "schemaVersion" && "layers" != "mediaType" && "layers" != "artifactType"
    ensures "annotations" != "schemaVersion" && "annotations" != "artifactType"
  {
    assert |KIND| == |NAME| == 17 && |TAG| == 16;
    assert KIND[13] != NAME[13];
    assert "layers"[0] != "annotations"[0] && "layers"[0] != "config"[0] && "annotations"[0] != "config"[0];
    assert "mediaType"[0] != "digest"[0] && "mediaType"[0] != "size"[0] && "mediaType"[0] != "annotations"[0];
    assert "digest"[0] != "size"[0] && "digest"[0] != "annotations"[0] && "size"[0] != "annotations"[0];
    assert "archive"[0] != "layer"[0] && "layers"[0] != "schemaVersion"[0] && "layers"[0] != "mediaType"[0] && "layers"[0] != "artifactType"[0];
    assert "annotations"[0] != "schemaVersion"[0] && "annotations"[1] != "artifactType"[1];
  }

  /** A layer reads back exactly when its label is a blake3 label. */
  lemma {:induction false} LayerReadsBack(layer: ArtifactLayer)
    ensures DecodeLayer(EncodeLayer(layer)) == if IsBlake3(layer.kappa) then Ok(layer) else Err(Protocol)
  {
    hide IsBlake3;
    KeysDiffer();
    var entry := EncodeLayer(layer);
    assert GetText(entry, "digest") == Some(layer.kappa);
    assert GetText(entry, "mediaType") == Some(layer.mediaType);
    assert Get(entry, "size") == Some(Number(layer.size));
    assert RoleIn(entry) == layer.role;
  }

  ghost predicate AllBlake3(layers: seq<ArtifactLayer>) {
    forall i :: 0 <= i < |layers| ==> IsBlake3(layers[i].kappa)
  }

  lemma {:induction false} LayersReadBack(layers: seq<ArtifactLayer>)
    ensures DecodeLayers(EncodeLayers(layers)) == if AllBlake3(layers) then Ok(layers) else Err(Protocol)
    decreases |layers|
  {
    hide DecodeLayer, EncodeLayer, IsBlake3;
    if layers != [] {
      var n := |layers| - 1;
      assert EncodeLayers(layers)[..n] == EncodeLayers(layers[..n]);
      LayersReadBack(layers[..n]);
      LayerReadsBack(layers[n]);
      assert layers == layers[..n] + [layers[n]];
    }
  }

  lemma {:induction false} AnnotationsReadBack(m: Manifest)
    ensures var a := Object(Annotations(m)); GetText(a, KIND) == m.kind && GetText(a, NAME) == m.name && GetText(a, TAG) == m.tag
  {
    KeysDiffer();
  }

  /** `encode` succeeds exactly when there is one archive layer; then `decode` gives the same manifest back,
      roles included, exactly when every layer has a blake3 label, and rejects it otherwise. */
  lemma {:induction false} RoundTrip(m: Manifest)
    ensures Encode(m).Ok? <==> Archives(m.layers) == 1
    ensures Encode(m).Ok? ==> Decode(Encode(m).value) == if AllBlake3(m.layers) then Ok(m) else Err(Protocol)
  {
    hide Archives, AllBlake3, DecodeLayers, EncodeLayers, Annotations;
    if Encode(m).Ok? {
      KeysDiffer();
      LayersReadBack(m.layers);
      AnnotationsReadBack(m);
      var document := Encode(m).value;
      assert Get(document, "layers") == Some(List(EncodeLayers(m.layers)));
      assert Get(document, "annotations") == Some(Object(Annotations(m)));
    }
  }
}
