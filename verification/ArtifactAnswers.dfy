/** Which distribution manifests are read, what is written, and when a pull succeeds, in terms of the documents and the
    answers of the registry (src/artifact_manifest.rs:41-185, src/artifact_push.rs:113-166, src/artifact_pull.rs:65-153). */
module ArtifactAnswers {
  import opened Basics
  import opened ArtifactManifest
  import opened ArtifactPull
  import opened ArtifactPush

  // ---------- Labels and fields ----------

  /** `blake3:` and 64 lower-case hexadecimal digits. */
  ghost predicate Blake3Label(kappa: string) {
    exists digest :: kappa == "blake3:" + digest && |digest| == 64 && forall i :: 0 <= i < 64 ==> digest[i] in "0123456789abcdef"
  }

  lemma {:induction false} LowerHexIs(c: char)
    ensures LowerHex(c) <==> c in "0123456789abcdef"
  {
    var digits := "0123456789abcdef";
    if LowerHex(c) {
      var at := if c <= '9' then c as int - '0' as int else 10 + c as int - 'a' as int;
      assert digits[at] == c;
    }
  }

  lemma {:induction false} IsBlake3Iff(kappa: string)
    ensures IsBlake3(kappa) <==> Blake3Label(kappa)
  {
    hide LowerHex;
    if IsBlake3(kappa) {
      var digest := kappa[7..];
      forall i | 0 <= i < 64
        ensures digest[i] in "0123456789abcdef"
      {
        LowerHexIs(kappa[i + 7]);
      }
      assert kappa == "blake3:" + digest;
    }
    if digest :| kappa == "blake3:" + digest && |digest| == 64 && forall i :: 0 <= i < 64 ==> digest[i] in "0123456789abcdef" {
      forall i | 7 <= i < 71
        ensures LowerHex(kappa[i])
      {
        LowerHexIs(digest[i - 7]);
      }
    }
  }

  /** A field of an object. */
  ghost predicate Has(document: Json, key: string, value: Json) {
    document.Object? && key in document.fields && document.fields[key] == value
  }

  /** The text of a field, if it is a text. */
  ghost predicate TextOf(document: Json, key: string, value: Option<string>) {
    if value.Some? then Has(document, key, Text(value.value)) else forall s :: !Has(document, key, Text(s))
  }

  lemma {:induction false} GetTextIs(document: Json, key: string, value: Option<string>)
    ensures GetText(document, key) == value <==> TextOf(document, key, value)
  {
    if GetText(document, key).Some? {
      assert Has(document, key, Text(GetText(document, key).value));
    }
  }

  /** The text of an annotation, if there are annotations and it is a text. */
  ghost predicate Annotated(document: Json, key: string, value: Option<string>) {
    if value.Some? then exists a :: Has(document, "annotations", a) && Has(a, key, Text(value.value))
    else forall a, s :: Has(document, "annotations", a) ==> !Has(a, key, Text(s))
  }

  lemma {:induction false} AnnotationIs(document: Json, key: string, value: Option<string>)
    ensures AnnotationIn(document, key) == value <==> Annotated(document, key, value)
  {
    hide GetText;
    match Get(document, "annotations") {
      case None =>
        assert forall a :: !Has(document, "annotations", a);
      case Some(annotations) =>
        assert Has(document, "annotations", annotations);
        assert forall a :: Has(document, "annotations", a) ==> a == annotations;
        GetTextIs(annotations, key, value);
    }
  }

  // ---------- Reading ----------

  /** The size an entry states: a number that fits 64 bits, and 0 for anything else. */
  ghost predicate SizeOfEntry(entry: Json, size: U64) {
    if exists n :: 0 <= n <= 0xFFFF_FFFF_FFFF_FFFF && Has(entry, "size", Number(n)) then Has(entry, "size", Number(size)) else size == 0
  }

  /** The layer an entry states: a blake3 label, a media type that defaults to plain bytes, and the archive's role only
      when the entry declares it. */
  ghost predicate Reads(entry: Json, layer: ArtifactLayer) {
    && Has(entry, "digest", Text(layer.kappa)) && Blake3Label(layer.kappa)
    && (TextOf(entry, "mediaType", Some(layer.mediaType)) || (layer.mediaType == "application/octet-stream" && TextOf(entry, "mediaType", None)))
    && SizeOfEntry(entry, layer.size)
    && (layer.role == ArchiveRole <==> Annotated(entry, "dev.hologram.role", Some("archive")))
  }

  lemma {:induction false} SizeInIs(entry: Json, size: U64)
    ensures SizeIn(entry) == size <==> SizeOfEntry(entry, size)
  {
    match Get(entry, "size") {
      case Some(Number(n)) =>
        assert Has(entry, "size", Number(n));
        assert forall m :: Has(entry, "size", Number(m)) ==> m == n;
      case _ =>
        assert forall m :: !Has(entry, "size", Number(m));
    }
  }

  lemma {:induction false} RoleInIs(entry: Json)
    ensures RoleIn(entry) == ArchiveRole <==> Annotated(entry, "dev.hologram.role", Some("archive"))
  {
    hide GetText;
    AnnotationIs(entry, "dev.hologram.role", Some("archive"));
  }

  /** An entry is read exactly when it states a layer, and as the one it states. */
  lemma {:induction false} DecodeLayerIff(entry: Json, layer: ArtifactLayer)
    ensures DecodeLayer(entry) == Ok(layer) <==> Reads(entry, layer)
    ensures DecodeLayer(entry).Err? ==> DecodeLayer(entry).error == Protocol
  {
    hide GetText, IsBlake3, Blake3Label, SizeIn, SizeOfEntry, RoleIn, Annotated, TextOf, Has;
    GetTextIs(entry, "digest", Some(layer.kappa));
    GetTextIs(entry, "mediaType", Some(layer.mediaType));
    GetTextIs(entry, "mediaType", None);
    IsBlake3Iff(layer.kappa);
    SizeInIs(entry, layer.size);
    RoleInIs(entry);
    TextOfSome(entry, "digest", layer.kappa);
  }

  lemma {:induction false} TextOfSome(entry: Json, key: string, s: string)
    ensures TextOf(entry, key, Some(s)) <==> Has(entry, key, Text(s))
  {
  }

  lemma {:induction false} DecodeLayersIff(entries: seq<Json>, layers: seq<ArtifactLayer>)
    ensures DecodeLayers(entries) == Ok(layers) <==> ReadsAll(entries, layers)
    ensures DecodeLayers(entries).Err? ==> DecodeLayers(entries).error == Protocol
    decreases |entries|
  {
    hide DecodeLayer, Reads;
    if entries != [] {
      var n := |entries| - 1;
      if DecodeLayers(entries[..n]).Ok? && DecodeLayer(entries[n]).Ok? {
        DecodeLayersIff(entries[..n], DecodeLayers(entries[..n]).value);
        DecodeLayerIff(entries[n], DecodeLayer(entries[n]).value);
      }
      DecodeLayersIff(entries[..n], if layers == [] then [] else layers[..|layers| - 1]);
      if layers != [] {
        DecodeLayerIff(entries[n], layers[|layers| - 1]);
        assert layers == layers[..|layers| - 1] + [layers[|layers| - 1]];
      } else {
        DecodeLayerIff(entries[n], ArtifactLayer("", "", 0, LayerRole));
      }
    }
  }

  ghost predicate ReadsAll(entries: seq<Json>, layers: seq<ArtifactLayer>) {
    |entries| == |layers| && forall i :: 0 <= i < |entries| ==> Reads(entries[i], layers[i])
  }

  /** The manifest a document states. */
  ghost predicate Documents(document: Json, m: Manifest) {
    && (exists entries :: Has(document, "layers", List(entries)) && ReadsAll(entries, m.layers))
    && Annotated(document, "dev.hologram.kind", m.kind)
    && Annotated(document, "dev.hologram.name", m.name)
    && Annotated(document, "dev.hologram.tag", m.tag)
  }

  /** A document is read exactly when it states a manifest, and as the one it states; anything else is a protocol error. */
  lemma {:induction false} DecodedIff(document: Json, m: Manifest)
    ensures Decode(document) == Ok(m) <==> Documents(document, m)
    ensures Decode(document).Err? ==> Decode(document).error == Protocol
  {
    hide DecodeLayers, Reads, AnnotationIn, Annotated;
    AnnotationIs(document, KIND, m.kind);
    AnnotationIs(document, NAME, m.name);
    AnnotationIs(document, TAG, m.tag);
    match Get(document, "layers") {
      case Some(List(entries)) =>
        assert Has(document, "layers", List(entries));
        assert forall other :: Has(document, "layers", List(other)) ==> other == entries;
        DecodeLayersIff(entries, m.layers);
      case _ =>
        assert forall entries :: !Has(document, "layers", List(entries));
    }
  }

  /** The archive of a manifest is its only layer with the archive's role. */
  lemma {:induction false} ArchiveIff(m: Manifest, archive: ArtifactLayer)
    ensures ArchiveOf(m) == Ok(archive) <==>
      exists i :: 0 <= i < |m.layers| && m.layers[i] == archive && OnlyArchive(m.layers, i)
    ensures ArchiveOf(m).Err? ==> ArchiveOf(m).error == Protocol
  {
    CountArchives(m.layers);
    hide Archives, FirstArchive;
    if ArchiveOf(m).Ok? {
      var i :| 0 <= i < |m.layers| && OnlyArchive(m.layers, i) && FirstArchive(m.layers) == Some(m.layers[i]);
      assert forall j :: 0 <= j < |m.layers| && OnlyArchive(m.layers, j) ==> j == i;
    }
  }

  ghost predicate OnlyArchive(layers: seq<ArtifactLayer>, i: nat)
    requires i < |layers|
  {
    layers[i].role == ArchiveRole && forall j :: 0 <= j < |layers| && layers[j].role == ArchiveRole ==> j == i
  }

  lemma {:induction false} CountArchives(layers: seq<ArtifactLayer>)
    ensures Archives(layers) == 0 <==> forall i :: 0 <= i < |layers| ==> layers[i].role != ArchiveRole
    ensures Archives(layers) == 1 <==> exists i :: 0 <= i < |layers| && OnlyArchive(layers, i)
    ensures Archives(layers) == 1 ==> exists i :: 0 <= i < |layers| && OnlyArchive(layers, i) && FirstArchive(layers) == Some(layers[i])
    decreases |layers|
  {
    if layers != [] {
      var rest := layers[1..];
      CountArchives(rest);
      assert layers == [layers[0]] + rest;
      if layers[0].role == ArchiveRole {
        if Archives(rest) == 0 {
          assert OnlyArchive(layers, 0);
        } else {
          var k :| 0 <= k < |rest| && rest[k].role == ArchiveRole;
          assert layers[k + 1].role == ArchiveRole;
        }
      } else {
        if Archives(rest) == 1 {
          var i :| 0 <= i < |rest| && OnlyArchive(rest, i) && FirstArchive(rest) == Some(rest[i]);
          assert OnlyArchive(layers, i + 1);
        }
        if i :| 0 <= i < |layers| && OnlyArchive(layers, i) {
          assert OnlyArchive(rest, i - 1);
        }
        assert forall i :: 0 < i < |layers| ==> layers[i] == rest[i - 1];
      }
    }
  }

  // ---------- Writing ----------

  /** The text of a role. */
  ghost predicate Spells(role: Role, text: string) {
    text == match role case ArchiveRole => "archive" case LayerRole => "layer"
  }

  ghost predicate WritesEntry(layer: ArtifactLayer, entry: Json) {
    && entry.Object? && entry.fields.Keys == {"mediaType", "digest", "size", "annotations"}
    && Has(entry, "mediaType", Text(layer.mediaType)) && Has(entry, "digest", Text(layer.kappa)) && Has(entry, "size", Number(layer.size))
    && exists text :: Spells(layer.role, text) && Has(entry, "annotations", Object(map["dev.hologram.role" := Text(text)]))
  }

  ghost predicate WritesAll(layers: seq<ArtifactLayer>, entries: seq<Json>) {
    |entries| == |layers| && forall i :: 0 <= i < |entries| ==> WritesEntry(layers[i], entries[i])
  }

  /** The document a manifest is published as. */
  ghost predicate WritesManifest(m: Manifest, archive: ArtifactLayer, document: Json) {
    && document.Object? && document.fields.Keys == {"schemaVersion", "mediaType", "artifactType", "config", "layers", "annotations"}
    && Has(document, "schemaVersion", Number(2))
    && Has(document, "mediaType", Text("application/vnd.oci.image.manifest.v1+json"))
    && Has(document, "artifactType", Text("application/vnd.hologram.artifact.v1+json"))
    && Has(document, "config", Object(map["mediaType" := Text("application/vnd.oci.empty.v1+json"),
                                          "digest" := Text(archive.kappa), "size" := Number(archive.size)]))
    && (exists entries :: Has(document, "layers", List(entries)) && WritesAll(m.layers, entries))
    && Annotated(document, "dev.hologram.kind", m.kind)
    && Annotated(document, "dev.hologram.name", m.name)
    && Annotated(document, "dev.hologram.tag", m.tag)
    && exists a :: Has(document, "annotations", Object(a)) && a.Keys <= {"dev.hologram.kind", "dev.hologram.name", "dev.hologram.tag"}
  }

  lemma {:induction false} EncodeLayerWrites(layer: ArtifactLayer)
    ensures WritesEntry(layer, EncodeLayer(layer))
  {
    KeysDiffer();
    assert Spells(layer.role, RoleText(layer.role));
  }

  /** Encoding writes exactly one document, and only for a manifest with one archive. */
  lemma {:induction false} EncodeWrites(m: Manifest)
    ensures Encode(m).Ok? ==> exists i :: 0 <= i < |m.layers| && OnlyArchive(m.layers, i) && WritesManifest(m, m.layers[i], Encode(m).value)
    ensures Encode(m).Err? ==> Encode(m).error == Protocol && forall i :: 0 <= i < |m.layers| ==> !OnlyArchive(m.layers, i)
  {
    hide WritesEntry, EncodeLayer, OnlyArchive, Annotated, AnnotationIn, Annotations;
    if ArchiveOf(m).Ok? {
      ArchiveIff(m, ArchiveOf(m).value);
      var i :| 0 <= i < |m.layers| && m.layers[i] == ArchiveOf(m).value && OnlyArchive(m.layers, i);
      var document := Encode(m).value;
      KeysDiffer();
      forall k | 0 <= k < |m.layers|
        ensures WritesEntry(m.layers[k], EncodeLayers(m.layers)[k])
      {
        EncodeLayerWrites(m.layers[k]);
      }
      assert Has(document, "layers", List(EncodeLayers(m.layers)));
      assert Has(document, "annotations", Object(Annotations(m)));
      AnnotationsWritten(m, document);
      assert WritesManifest(m, m.layers[i], document);
    } else {
      forall i | 0 <= i < |m.layers|
        ensures !OnlyArchive(m.layers, i)
      {
        ArchiveIff(m, m.layers[i]);
      }
      ArchiveIff(m, ArtifactLayer("", "", 0, LayerRole));
    }
  }

  lemma {:induction false} AnnotationsWritten(m: Manifest, document: Json)
    requires Has(document, "annotations", Object(Annotations(m)))
    ensures Annotated(document, "dev.hologram.kind", m.kind)
    ensures Annotated(document, "dev.hologram.name", m.name)
    ensures Annotated(document, "dev.hologram.tag", m.tag)
    ensures Annotations(m).Keys <= {"dev.hologram.kind", "dev.hologram.name", "dev.hologram.tag"}
  {
    AnnotationsReadBack(m);
    AnnotationIs(document, KIND, m.kind);
    AnnotationIs(document, NAME, m.name);
    AnnotationIs(document, TAG, m.tag);
    hide Annotated;
  }

  /** What a push publishes: the archive first, then its payloads, and the name and tag it was pushed under. */
  ghost predicate Publishes(address: Bytes -> Kappa, p: Publication, m: Manifest) {
    && |m.layers| == |p.payloads| + 1
    && m.layers[0].kappa == address(p.archive) && m.layers[0].mediaType == "application/vnd.hologram.holo"
    && m.layers[0].size == U64Of(|p.archive|) && m.layers[0].role == ArchiveRole
    && (forall i :: 1 <= i < |m.layers| ==>
      && m.layers[i].kappa == p.payloads[i - 1].kappa && m.layers[i].mediaType == "application/octet-stream"
      && m.layers[i].size == U64Of(|p.payloads[i - 1].bytes|) && m.layers[i].role == LayerRole)
    && m.kind == Some("holo") && m.name == Some(p.name) && m.tag == Some(p.tag)
  }

  /** In every interleaving of pushes, every tag holds the document of what was last published under it. */
  lemma {:induction false} TagsPublish(address: Bytes -> Kappa, run: seq<System>, i: nat, name: Name)
    requires Blake3Labels(address) && IsRun(address, run) && i < |run| && name in run[i].tags
    ensures name in run[i].published
    ensures exists m :: Publishes(address, run[i].published[name], m) && Documents(run[i].tags[name], m)
  {
    hide IsRun, Documents, Decode;
    TagsAreComplete(address, run, i, name);
    var m := Decode(run[i].tags[name]).value;
    DecodedIff(run[i].tags[name], m);
    PublishesManifest(address, run[i].published[name]);
  }

  lemma {:induction false} PublishesManifest(address: Bytes -> Kappa, p: Publication)
    ensures Publishes(address, p, ManifestFor(address, p))
  {
  }

  // ---------- Pulling ----------

  /** The registry gives the bytes of a label. */
  ghost predicate Gives(address: Bytes -> Kappa, blob: Kappa -> Result<Bytes>, k: Kappa) {
    blob(k).Ok? && address(blob(k).value) == k
  }

  /** Why one layer cannot be pulled. */
  ghost predicate Fails(address: Bytes -> Kappa, blob: Kappa -> Result<Bytes>, objects: map<Kappa, Bytes>, k: Kappa, error: LiveError) {
    && k !in objects
    && match blob(k)
       case Err(e) => error == e
       case Ok(bytes) => address(bytes) != k && error == InvalidHolo
  }

  /** The store after pulling some layers: what was there, and what the registry gave for the rest. */
  ghost predicate Filled(blob: Kappa -> Result<Bytes>, before: map<Kappa, Bytes>, after: map<Kappa, Bytes>, layers: seq<ArtifactLayer>, count: nat)
    requires count <= |layers|
  {
    && (forall k :: k in before ==> k in after && after[k] == before[k])
    && (forall k :: k in after && k !in before ==> blob(k) == Ok(after[k]) && exists i :: 0 <= i < count && layers[i].kappa == k)
    && (forall i :: 0 <= i < count ==> layers[i].kappa in after)
  }

  ghost predicate Obtainable(address: Bytes -> Kappa, blob: Kappa -> Result<Bytes>, before: map<Kappa, Bytes>, layers: seq<ArtifactLayer>, count: nat)
    requires count <= |layers|
  {
    forall i :: 0 <= i < count ==> layers[i].kappa in before || Gives(address, blob, layers[i].kappa)
  }

  /** The first layer that cannot be pulled, and what was stored before it. */
  ghost predicate Breaks(address: Bytes -> Kappa, blob: Kappa -> Result<Bytes>, before: map<Kappa, Bytes>, after: map<Kappa, Bytes>,
      layers: seq<ArtifactLayer>, i: nat, error: LiveError)
    requires i < |layers|
  {
    && Obtainable(address, blob, before, layers, i) && Filled(blob, before, after, layers, i)
    && Fails(address, blob, before, layers[i].kappa, error)
  }

  ghost predicate BreaksBefore(address: Bytes -> Kappa, blob: Kappa -> Result<Bytes>, before: map<Kappa, Bytes>, after: map<Kappa, Bytes>,
      layers: seq<ArtifactLayer>, count: nat, error: LiveError)
    requires count <= |layers|
  {
    exists i: nat :: i < count && Breaks(address, blob, before, after, layers, i, error)
  }

  /** The store after one more layer. */
  lemma {:induction false} FilledMore(address: Bytes -> Kappa, blob: Kappa -> Result<Bytes>, before: map<Kappa, Bytes>, after: map<Kappa, Bytes>,
      layers: seq<ArtifactLayer>, i: nat)
    requires i < |layers| && Filled(blob, before, after, layers, i)
    ensures layers[i].kappa in after ==> Filled(blob, before, after, layers, i + 1)
    ensures layers[i].kappa !in after && blob(layers[i].kappa).Ok? ==>
      Filled(blob, before, after[layers[i].kappa := blob(layers[i].kappa).value], layers, i + 1)
  {
  }

  lemma {:induction false} ObtainableMore(address: Bytes -> Kappa, blob: Kappa -> Result<Bytes>, before: map<Kappa, Bytes>, after: map<Kappa, Bytes>,
      layers: seq<ArtifactLayer>, i: nat)
    requires i < |layers| && Filled(blob, before, after, layers, i)
    ensures Obtainable(address, blob, before, layers, i + 1) <==>
      Obtainable(address, blob, before, layers, i) && (layers[i].kappa in before || Gives(address, blob, layers[i].kappa))
    ensures Obtainable(address, blob, before, layers, i) && layers[i].kappa in after ==> Obtainable(address, blob, before, layers, i + 1)
  {
  }

  lemma {:induction false} FirstPulled(address: Bytes -> Kappa, blob: Kappa -> Result<Bytes>, before: map<Kappa, Bytes>, layers: seq<ArtifactLayer>, count: nat)
    requires count <= |layers| && forall i :: 0 <= i < |layers| ==> ValidId(layers[i].kappa)
    ensures var p := PullFirst(address, blob, before, layers, count);
      && (p.error.None? ==> Obtainable(address, blob, before, layers, count) && Filled(blob, before, p.objects, layers, count))
      && (p.error.Some? ==> BreaksBefore(address, blob, before, p.objects, layers, count, p.error.value))
    decreases count
  {
    hide ValidId, Obtainable, Filled, SaturatingAdd;
    if count == 0 {
      NoneToPull(address, blob, before, layers);
    } else {
      FirstPulled(address, blob, before, layers, count - 1);
      var p := PullFirst(address, blob, before, layers, count - 1);
      if p.error.None? {
        FilledMore(address, blob, before, p.objects, layers, count - 1);
        ObtainableMore(address, blob, before, p.objects, layers, count - 1);
        FilledKeeps(blob, before, p.objects, layers, count - 1);
        var after := PullFirst(address, blob, before, layers, count);
        if after.error.Some? {
          assert Breaks(address, blob, before, after.objects, layers, count - 1, after.error.value);
        }
      }
    }
  }

  lemma {:induction false} NoneToPull(address: Bytes -> Kappa, blob: Kappa -> Result<Bytes>, before: map<Kappa, Bytes>, layers: seq<ArtifactLayer>)
    ensures Obtainable(address, blob, before, layers, 0) && Filled(blob, before, before, layers, 0)
  {
  }

  lemma {:induction false} FilledKeeps(blob: Kappa -> Result<Bytes>, before: map<Kappa, Bytes>, after: map<Kappa, Bytes>, layers: seq<ArtifactLayer>, count: nat)
    requires count <= |layers| && Filled(blob, before, after, layers, count)
    ensures forall k :: k in before ==> k in after
  {
  }

  /** A layer that breaks a pull is not obtainable. */
  lemma {:induction false} BreaksIsUnobtainable(address: Bytes -> Kappa, blob: Kappa -> Result<Bytes>, before: map<Kappa, Bytes>, after: map<Kappa, Bytes>,
      layers: seq<ArtifactLayer>, error: LiveError)
    requires BreaksBefore(address, blob, before, after, layers, |layers|, error)
    ensures !Obtainable(address, blob, before, layers, |layers|)
  {
    hide Filled;
    var i: nat :| i < |layers| && Breaks(address, blob, before, after, layers, i, error);
    assert !Gives(address, blob, layers[i].kappa);
  }

  lemma {:induction false} Blake3IsValid(kappa: string)
    requires Blake3Label(kappa)
    ensures ValidId(kappa)
  {
    hide Blake3Label;
    IsBlake3Iff(kappa);
  }

  lemma {:induction false} ReadsLabels(entries: seq<Json>, m: Manifest)
    requires ReadsAll(entries, m.layers)
    ensures forall i :: 0 <= i < |m.layers| ==> ValidId(m.layers[i].kappa)
  {
    hide ValidId, Blake3Label, Annotated, TextOf, SizeOfEntry, Has;
    forall i | 0 <= i < |m.layers|
      ensures ValidId(m.layers[i].kappa)
    {
      assert Reads(entries[i], m.layers[i]);
      Blake3IsValid(m.layers[i].kappa);
    }
  }

  /** A manifest with one archive, which the tag's document states. */
  ghost predicate Names(fetch: Fetch, m: Manifest, archive: nat) {
    && fetch.manifest.Ok? && fetch.manifest.value.Some? && Documents(fetch.manifest.value.value, m)
    && archive < |m.layers| && OnlyArchive(m.layers, archive)
  }

  /** A successful pull: the archive it reports is the manifest's, and the store holds what it held and exactly the
      missing layers. */
  ghost predicate Succeeds(address: Bytes -> Kappa, fetch: Fetch, before: map<Kappa, Bytes>, after: map<Kappa, Bytes>, archive: Kappa, m: Manifest, a: nat) {
    && Names(fetch, m, a) && archive == m.layers[a].kappa
    && Obtainable(address, fetch.blob, before, m.layers, |m.layers|) && Filled(fetch.blob, before, after, m.layers, |m.layers|)
  }

  /** A pull that reads a manifest and fails on one of its layers. */
  ghost predicate BreaksOff(address: Bytes -> Kappa, fetch: Fetch, before: map<Kappa, Bytes>, after: map<Kappa, Bytes>, error: LiveError, m: Manifest, a: nat) {
    && Names(fetch, m, a)
    && BreaksBefore(address, fetch.blob, before, after, m.layers, |m.layers|, error)
    && !Obtainable(address, fetch.blob, before, m.layers, |m.layers|)
  }

  /** A pull succeeds exactly when the tag's document states a manifest with one archive, every layer of which the store
      has or the registry gives. Otherwise the registry's error, an unknown tag, an unreadable manifest or the first layer
      that is not to be had decides the error, and only layers before that one were stored. */
  lemma {:induction false} PulledIff(address: Bytes -> Kappa, fetch: Fetch, objects: map<Kappa, Bytes>)
    ensures var (r, p) := Pulled(address, fetch, objects);
      && (r.Ok? ==> exists m, a :: Succeeds(address, fetch, objects, p.objects, r.value.archive, m, a))
      && (r.Err? ==>
        match fetch.manifest
        case Err(error) => r.error == error && p.objects == objects
        case Ok(None) => r.error == NotFound && p.objects == objects
        case Ok(Some(_)) =>
          || (r.error == Protocol && p.objects == objects && forall m, a :: !Names(fetch, m, a))
          || exists m, a :: BreaksOff(address, fetch, objects, p.objects, r.error, m, a))
  {
    hide Decode, ArchiveOf, Documents, OnlyArchive, PullFirst, Filled, Obtainable, Fails, ValidId, BreaksBefore;
    if fetch.manifest.Ok? && fetch.manifest.value.Some? {
      var document := fetch.manifest.value.value;
      OneManifest(document);
      if Decode(document).Ok? {
        var m := Decode(document).value;
        DecodedIff(document, m);
        DocumentsLabels(document, m);
        OneArchive(m);
        if ArchiveOf(m).Ok? {
          var a: nat :| a < |m.layers| && OnlyArchive(m.layers, a) && m.layers[a] == ArchiveOf(m).value;
          FirstPulled(address, fetch.blob, objects, m.layers, |m.layers|);
          var (r, p) := Pulled(address, fetch, objects);
          if r.Ok? {
            assert Succeeds(address, fetch, objects, p.objects, r.value.archive, m, a);
          } else {
            BreaksIsUnobtainable(address, fetch.blob, objects, p.objects, m.layers, r.error);
            assert BreaksOff(address, fetch, objects, p.objects, r.error, m, a);
          }
        }
      }
    }
  }

  lemma {:induction false} DocumentsLabels(document: Json, m: Manifest)
    requires Documents(document, m)
    ensures forall i :: 0 <= i < |m.layers| ==> ValidId(m.layers[i].kappa)
  {
    hide Reads, ValidId, Annotated;
    var entries :| Has(document, "layers", List(entries)) && ReadsAll(entries, m.layers);
    ReadsLabels(entries, m);
  }

  lemma {:induction false} OneManifest(document: Json)
    ensures forall m :: Documents(document, m) ==> Decode(document) == Ok(m)
    ensures Decode(document).Err? ==> Decode(document).error == Protocol
  {
    hide Documents, Decode;
    forall m | Documents(document, m)
      ensures Decode(document) == Ok(m)
    {
      DecodedIff(document, m);
    }
    DecodedIff(document, Manifest([], None, None, None));
  }

  lemma {:induction false} OneArchive(m: Manifest)
    ensures ArchiveOf(m).Ok? ==> exists a: nat :: a < |m.layers| && OnlyArchive(m.layers, a) && m.layers[a] == ArchiveOf(m).value
    ensures ArchiveOf(m).Err? ==> ArchiveOf(m).error == Protocol && forall a: nat :: a < |m.layers| ==> !OnlyArchive(m.layers, a)
  {
    hide ArchiveOf, OnlyArchive;
    if ArchiveOf(m).Ok? {
      ArchiveIff(m, ArchiveOf(m).value);
    } else {
      ArchiveIff(m, ArtifactLayer("", "", 0, LayerRole));
      forall a: nat | a < |m.layers|
        ensures !OnlyArchive(m.layers, a)
      {
        ArchiveIff(m, m.layers[a]);
      }
    }
  }
}
