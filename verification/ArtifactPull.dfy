/** The local object store and pulling a named artifact into it (src/store.rs:65-129, 227-235,
    src/artifact_pull.rs:65-153). */
module ArtifactPull {
  import opened Basics
  import opened ArtifactManifest

  predicate AnyHex(c: char) {
    '0' <= c <= '9' || 'a' <= c <= 'f' || 'A' <= c <= 'F'
  }

  /** `validate_id` */
  predicate ValidId(id: string) {
    |id| == 71 && id[..7] == "blake3:" && forall i :: 7 <= i < 71 ==> AnyHex(id[i])
  }

  /** Every stored value hashes to its key. */
  ghost predicate Verified(address: Bytes -> Kappa, objects: map<Kappa, Bytes>) {
    forall k :: k in objects ==> address(objects[k]) == k
  }

  class ObjectStore {
    const address: Bytes -> Kappa
    var objects: map<Kappa, Bytes>

    ghost predicate Valid()
      reads this
    {
      Verified(address, objects)
    }

    constructor (address: Bytes -> Kappa)
      ensures Valid() && objects == map[] && this.address == address
    {
      this.address, objects := address, map[];
    }

    method GetCached(id: Kappa) returns (r: Result<Option<Bytes>>)
      ensures r == if !ValidId(id) then Err(NotFound) else Ok(if id in objects then Some(objects[id]) else None)
    {
      if !ValidId(id) {
        return Err(NotFound);
      }
      return Ok(if id in objects then Some(objects[id]) else None);
    }

    /** Bytes enter the store only under the address they produce. */
    method CacheAddressed(id: Kappa, bytes: Bytes) returns (r: Result<bool>)
      requires Valid()
      modifies this
      ensures Valid()
      ensures r == if !ValidId(id) then Err(NotFound) else if address(bytes) != id then Err(InvalidHolo) else Ok(id !in old(objects))
      ensures objects == if r == Ok(true) then old(objects)[id := bytes] else old(objects)
    {
      if !ValidId(id) {
        return Err(NotFound);
      }
      if address(bytes) != id {
        return Err(InvalidHolo);
      }
      if id in objects {
        return Ok(false);
      }
      objects := objects[id := bytes];
      return Ok(true);
    }
  }

  /** What the registry answers: the manifest document, if the tag is known, and the layer bytes. */
  datatype Fetch = Fetch(manifest: Result<Option<Json>>, blob: Kappa -> Result<Bytes>)

  datatype PullReport = PullReport(archive: Kappa, fetched: nat, present: nat, bytes: U64)

  /** A pull in progress; `stored` lists the labels this pull wrote, in order. */
  datatype Progress = Progress(
    objects: map<Kappa, Bytes>, fetched: nat, present: nat, bytes: U64, stored: seq<Kappa>, error: Option<LiveError>)

  function PullLayer(address: Bytes -> Kappa, blob: Kappa -> Result<Bytes>, p: Progress, kappa: Kappa): Progress {
    if p.error.Some? then p
    else if !ValidId(kappa) then p.(error := Some(NotFound))
    else if kappa in p.objects then p.(present := p.present + 1)
    else
      match blob(kappa)
      case Err(error) => p.(error := Some(error))
      case Ok(bytes) =>
        if address(bytes) != kappa then p.(error := Some(InvalidHolo))
        else Take(p, kappa, bytes)
  }

  function Take(p: Progress, kappa: Kappa, bytes: Bytes): Progress {
    Progress(p.objects[kappa := bytes], p.fetched + 1, p.present, SaturatingAdd(p.bytes, U64Of(|bytes|)), p.stored + [kappa], None)
  }

  function PullFirst(address: Bytes -> Kappa, blob: Kappa -> Result<Bytes>, objects: map<Kappa, Bytes>,
                     layers: seq<ArtifactLayer>, count: nat): Progress
    requires count <= |layers|
  {
    if count == 0 then Progress(objects, 0, 0, 0, [], None)
    else PullLayer(address, blob, PullFirst(address, blob, objects, layers, count - 1), layers[count - 1].kappa)
  }

  /** What is known before any layer is touched: the decoded manifest with its archive layer. */
  function Resolve(fetch: Fetch): Result<(Manifest, Kappa)> {
    var found :- fetch.manifest;
    match found
    case None => Err(NotFound)
    case Some(document) =>
      var m :- Decode(document);
      var archive :- ArchiveOf(m);
      Ok((m, archive.kappa))
  }

  /** The outcome of a pull and what it leaves in the store. */
  function Pulled(address: Bytes -> Kappa, fetch: Fetch, objects: map<Kappa, Bytes>): (Result<PullReport>, Progress) {
    match Resolve(fetch)
    case Err(error) => (Err(error), Progress(objects, 0, 0, 0, [], Some(error)))
    case Ok((m, archive)) =>
      var p := PullFirst(address, fetch.blob, objects, m.layers, |m.layers|);
      if p.error.Some? then (Err(p.error.value), p)
      else (Ok(PullReport(archive, p.fetched, p.present, p.bytes)), p)
  }

  /** `pull`: the final presence check never fails, and whatever happens the store stays verified. */
  method Pull(store: ObjectStore, fetch: Fetch) returns (r: Result<PullReport>)
    requires store.Valid()
    modifies store
    ensures store.Valid()
    ensures var (result, p) := Pulled(store.address, fetch, old(store.objects)); r == result && store.objects == p.objects
  {
    hide Verified, PullFirst, Resolve, Complete;
    var resolved := Resolve(fetch);
    if resolved.Err? {
      return Err(resolved.error);
    }
    var (m, archive) := resolved.value;
    ghost var before := store.objects;
    var error, fetched, present, bytes := PullLayers(store, fetch.blob, m.layers);
    if error.Some? {
      return Err(error.value);
    }
    AllPresent(store.address, fetch.blob, before, m);
    var complete := ConfirmPresent(store, m);
    if !complete {
      return Err(NotFound);
    }
    return Ok(PullReport(archive, fetched, present, bytes));
  }

  /** The transfer loop. */
  method PullLayers(store: ObjectStore, blob: Kappa -> Result<Bytes>, layers: seq<ArtifactLayer>)
    returns (error: Option<LiveError>, fetched: nat, present: nat, bytes: U64)
    requires store.Valid()
    modifies store
    ensures store.Valid()
    ensures var p := PullFirst(store.address, blob, old(store.objects), layers, |layers|);
      store.objects == p.objects && error == p.error && (error.None? ==> fetched == p.fetched && present == p.present && bytes == p.bytes)
  {
    hide Verified, PullLayer;
    fetched, present, bytes := 0, 0, 0;
    ghost var stored: seq<Kappa> := [];
    ghost var before := store.objects;
    for i := 0 to |layers|
      invariant store.Valid()
      invariant PullFirst(store.address, blob, before, layers, i) == Progress(store.objects, fetched, present, bytes, stored, None)
    {
      error, fetched, present, bytes, stored := FetchLayer(store, blob, layers[i].kappa, fetched, present, bytes, stored);
      if error.Some? {
        FailureStays(store.address, blob, before, layers, i + 1);
        return;
      }
    }
    error := None;
  }

  /** The final presence check. */
  method ConfirmPresent(store: ObjectStore, m: Manifest) returns (complete: bool)
    ensures complete <==> Complete(m, store.objects)
  {
    hide ValidId;
    for i := 0 to |m.layers|
      invariant forall j :: 0 <= j < i ==> ValidId(m.layers[j].kappa) && m.layers[j].kappa in store.objects
    {
      var cached := store.GetCached(m.layers[i].kappa);
      if cached.Err? || cached.value.None? {
        return false;
      }
    }
    return true;
  }

  lemma {:induction false} AllPresent(address: Bytes -> Kappa, blob: Kappa -> Result<Bytes>, objects: map<Kappa, Bytes>, m: Manifest)
    requires PullFirst(address, blob, objects, m.layers, |m.layers|).error.None?
    ensures Complete(m, PullFirst(address, blob, objects, m.layers, |m.layers|).objects)
  {
    hide PullFirst, ValidId;
    LayersPresent(address, blob, objects, m.layers, |m.layers|);
  }

  /** One layer: present already, or fetched and stored under the address its bytes produce. */
  method FetchLayer(store: ObjectStore, blob: Kappa -> Result<Bytes>, kappa: Kappa, fetched: nat, present: nat, bytes: U64, ghost stored: seq<Kappa>)
    returns (error: Option<LiveError>, fetched': nat, present': nat, bytes': U64, ghost stored': seq<Kappa>)
    requires store.Valid()
    modifies store
    ensures store.Valid()
    ensures PullLayer(store.address, blob, Progress(old(store.objects), fetched, present, bytes, stored, None), kappa)
      == Progress(store.objects, fetched', present', bytes', stored', error)
  {
    hide Verified, ValidId;
    fetched', present', bytes', stored' := fetched, present, bytes, stored;
    var cached := store.GetCached(kappa);
    if cached.Err? {
      return Some(cached.error), fetched', present', bytes', stored';
    }
    if cached.value.Some? {
      return None, fetched, present + 1, bytes, stored;
    }
    var found := blob(kappa);
    if found.Err? {
      return Some(found.error), fetched', present', bytes', stored';
    }
    var cachedNow := store.CacheAddressed(kappa, found.value);
    if cachedNow.Err? {
      return Some(cachedNow.error), fetched', present', bytes', stored';
    }
    return None, fetched + 1, present, SaturatingAdd(bytes, U64Of(|found.value|)), stored + [kappa];
  }

  lemma {:induction false} FailureStays(address: Bytes -> Kappa, blob: Kappa -> Result<Bytes>, objects: map<Kappa, Bytes>,
      layers: seq<ArtifactLayer>, count: nat)
    requires count <= |layers| && PullFirst(address, blob, objects, layers, count).error.Some?
    ensures PullFirst(address, blob, objects, layers, |layers|) == PullFirst(address, blob, objects, layers, count)
    decreases |layers| - count
  {
    hide PullLayer;
    if count < |layers| {
      LayerStops(address, blob, PullFirst(address, blob, objects, layers, count), layers[count].kappa);
      FailureStays(address, blob, objects, layers, count + 1);
    }
  }

  lemma {:induction false} LayerStops(address: Bytes -> Kappa, blob: Kappa -> Result<Bytes>, p: Progress, kappa: Kappa)
    requires p.error.Some?
    ensures PullLayer(address, blob, p, kappa) == p
  {
  }

  /** A layer that did not fail is present, and nothing was removed. */
  lemma {:induction false} LayerPresent(address: Bytes -> Kappa, blob: Kappa -> Result<Bytes>, p: Progress, kappa: Kappa)
    requires PullLayer(address, blob, p, kappa).error.None?
    ensures p.error.None? && ValidId(kappa) && kappa in PullLayer(address, blob, p, kappa).objects
    ensures forall k :: k in p.objects ==> k in PullLayer(address, blob, p, kappa).objects
  {
    hide ValidId;
  }

  lemma {:induction false} LayersPresent(address: Bytes -> Kappa, blob: Kappa -> Result<Bytes>, objects: map<Kappa, Bytes>,
      layers: seq<ArtifactLayer>, count: nat)
    requires count <= |layers| && PullFirst(address, blob, objects, layers, count).error.None?
    ensures forall i :: 0 <= i < count ==>
      ValidId(layers[i].kappa) && layers[i].kappa in PullFirst(address, blob, objects, layers, count).objects
    decreases count
  {
    hide ValidId, PullLayer;
    if count > 0 {
      LayerPresent(address, blob, PullFirst(address, blob, objects, layers, count - 1), layers[count - 1].kappa);
      LayersPresent(address, blob, objects, layers, count - 1);
    }
  }

  // ---------- Accounting ----------

  ghost function SizeOf(objects: map<Kappa, Bytes>, keys: seq<Kappa>): nat
    requires forall i :: 0 <= i < |keys| ==> keys[i] in objects
  {
    if keys == [] then 0 else SizeOf(objects, keys[..|keys| - 1]) + |objects[keys[|keys| - 1]]|
  }

  lemma {:induction false} SizeOfInsert(objects: map<Kappa, Bytes>, keys: seq<Kappa>, k: Kappa, bytes: Bytes)
    requires k !in objects && forall i :: 0 <= i < |keys| ==> keys[i] in objects
    ensures SizeOf(objects[k := bytes], keys) == SizeOf(objects, keys)
    decreases |keys|
  {
    if keys != [] {
      SizeOfInsert(objects, keys[..|keys| - 1], k, bytes);
    }
  }

  /** From `before` to `after`: nothing is lost or rewritten, and the new labels are the stored ones, each
      stored once. */
  ghost predicate GrowsOnce(before: map<Kappa, Bytes>, after: map<Kappa, Bytes>, stored: seq<Kappa>) {
    && (forall k :: k in before ==> k in after && after[k] == before[k])
    && (forall k :: k in after <==> k in before || k in stored)
    && NoDuplicates(stored)
    && (forall i :: 0 <= i < |stored| ==> stored[i] !in before)
  }

  lemma {:induction false} StoredExist(before: map<Kappa, Bytes>, after: map<Kappa, Bytes>, stored: seq<Kappa>)
    requires GrowsOnce(before, after, stored)
    ensures forall i :: 0 <= i < |stored| ==> stored[i] in after
  {
  }

  lemma {:induction false} GrowsOnceTake(before: map<Kappa, Bytes>, after: map<Kappa, Bytes>, stored: seq<Kappa>, kappa: Kappa, bytes: Bytes)
    requires GrowsOnce(before, after, stored) && kappa !in after
    ensures GrowsOnce(before, after[kappa := bytes], stored + [kappa])
  {
    StoredExist(before, after, stored);
    var all, table := stored + [kappa], after[kappa := bytes];
    forall k
      ensures k in table <==> k in before || k in all
    {
      assert k in all <==> k in stored || k == kappa;
    }
    forall i, j | 0 <= i < j < |all|
      ensures all[i] != all[j]
    {
      if j == |stored| {
        assert stored[i] in after;
      }
    }
  }

  /** The byte counter is the size of what was stored. */
  ghost predicate Accounts(before: map<Kappa, Bytes>, p: Progress) {
    && GrowsOnce(before, p.objects, p.stored)
    && (forall i :: 0 <= i < |p.stored| ==> p.stored[i] in p.objects)
    && p.fetched == |p.stored|
    && p.bytes == U64Of(SizeOf(p.objects, p.stored))
  }

  lemma {:induction false} TakeAccounts(address: Bytes -> Kappa, before: map<Kappa, Bytes>, p: Progress, kappa: Kappa, bytes: Bytes)
    requires Accounts(before, p) && Verified(address, p.objects) && kappa !in p.objects && address(bytes) == kappa
    ensures Accounts(before, Take(p, kappa, bytes)) && Verified(address, Take(p, kappa, bytes).objects)
  {
    hide GrowsOnce, SizeOf, Verified, U64Of, SaturatingAdd;
    SaturatingSum(SizeOf(p.objects, p.stored), |bytes|);
    GrowsOnceTake(before, p.objects, p.stored, kappa, bytes);
    SizeOfTake(p.objects, p.stored, kappa, bytes);
    VerifiedTake(address, p.objects, kappa, bytes);
  }

  lemma {:induction false} VerifiedTake(address: Bytes -> Kappa, objects: map<Kappa, Bytes>, kappa: Kappa, bytes: Bytes)
    requires Verified(address, objects) && address(bytes) == kappa
    ensures Verified(address, objects[kappa := bytes])
  {
  }

  lemma {:induction false} SizeOfTake(objects: map<Kappa, Bytes>, keys: seq<Kappa>, k: Kappa, bytes: Bytes)
    requires k !in objects && forall i :: 0 <= i < |keys| ==> keys[i] in objects
    ensures forall i :: 0 <= i < |keys + [k]| ==> (keys + [k])[i] in objects[k := bytes]
    ensures SizeOf(objects[k := bytes], keys + [k]) == SizeOf(objects, keys) + |bytes|
  {
    SizeOfInsert(objects, keys, k, bytes);
    assert (keys + [k])[..|keys|] == keys;
  }

  lemma {:induction false} LayerAccounts(address: Bytes -> Kappa, blob: Kappa -> Result<Bytes>, before: map<Kappa, Bytes>, p: Progress, kappa: Kappa)
    requires Accounts(before, p) && Verified(address, p.objects)
    ensures Accounts(before, PullLayer(address, blob, p, kappa)) && Verified(address, PullLayer(address, blob, p, kappa).objects)
  {
    hide ValidId, Take, SizeOf, GrowsOnce, Verified;
    var after := PullLayer(address, blob, p, kappa);
    if after.objects == p.objects && after.stored == p.stored && after.fetched == p.fetched && after.bytes == p.bytes {
    } else {
      TakeAccounts(address, before, p, kappa, blob(kappa).value);
    }
  }

  lemma {:induction false} FirstAccounts(address: Bytes -> Kappa, blob: Kappa -> Result<Bytes>, objects: map<Kappa, Bytes>,
      layers: seq<ArtifactLayer>, count: nat)
    requires count <= |layers| && Verified(address, objects)
    ensures var p := PullFirst(address, blob, objects, layers, count);
      Accounts(objects, p) && Verified(address, p.objects) && (p.error.None? ==> p.fetched + p.present == count)
    decreases count
  {
    hide ValidId, Accounts, Verified;
    if count == 0 {
      NothingPulled(objects);
    } else {
      FirstAccounts(address, blob, objects, layers, count - 1);
      LayerAccounts(address, blob, objects, PullFirst(address, blob, objects, layers, count - 1), layers[count - 1].kappa);
    }
  }

  lemma {:induction false} NothingPulled(objects: map<Kappa, Bytes>)
    ensures Accounts(objects, Progress(objects, 0, 0, 0, [], None))
  {
  }

  /** Every pull, failed or not, accounts for what it stored; a successful one counts every layer of the
      manifest, repeated ones included, and leaves all of them present. */
  lemma {:induction false} PullAccounts(address: Bytes -> Kappa, fetch: Fetch, objects: map<Kappa, Bytes>)
    requires Verified(address, objects)
    ensures var (r, p) := Pulled(address, fetch, objects);
      && Accounts(objects, p) && Verified(address, p.objects)
      && (r.Ok? ==>
        && Resolve(fetch).Ok?
        && r.value.fetched + r.value.present == |Resolve(fetch).value.0.layers|
        && r.value == PullReport(Resolve(fetch).value.1, |p.stored|, r.value.present, U64Of(SizeOf(p.objects, p.stored)))
        && Complete(Resolve(fetch).value.0, p.objects))
  {
    hide Accounts, Verified, ValidId;
    AccountsMeans();
    if Resolve(fetch).Ok? {
      var layers := Resolve(fetch).value.0.layers;
      FirstAccounts(address, fetch.blob, objects, layers, |layers|);
      if PullFirst(address, fetch.blob, objects, layers, |layers|).error.None? {
        LayersPresent(address, fetch.blob, objects, layers, |layers|);
      }
    } else {
      NothingPulledWith(objects, Resolve(fetch).error);
    }
  }

  lemma {:induction false} AccountsMeans()
    ensures forall before, p {:trigger Accounts(before, p)} :: Accounts(before, p) ==>
      (forall i :: 0 <= i < |p.stored| ==> p.stored[i] in p.objects) && p.fetched == |p.stored| && p.bytes == U64Of(SizeOf(p.objects, p.stored))
  {
  }

  lemma {:induction false} NothingPulledWith(objects: map<Kappa, Bytes>, error: LiveError)
    ensures Accounts(objects, Progress(objects, 0, 0, 0, [], Some(error)))
  {
  }

  /** Every layer of the manifest is in the store. */
  ghost predicate Complete(m: Manifest, objects: map<Kappa, Bytes>) {
    forall i :: 0 <= i < |m.layers| ==> ValidId(m.layers[i].kappa) && m.layers[i].kappa in objects
  }

  lemma {:induction false} FirstTransfersNothing(address: Bytes -> Kappa, blob: Kappa -> Result<Bytes>, objects: map<Kappa, Bytes>, m: Manifest, count: nat)
    requires count <= |m.layers| && Complete(m, objects)
    ensures PullFirst(address, blob, objects, m.layers, count) == Progress(objects, 0, count, 0, [], None)
    decreases count
  {
    hide ValidId;
    if count > 0 {
      FirstTransfersNothing(address, blob, objects, m, count - 1);
    }
  }

  // ---------- Sequences of pulls ----------

  /** The store and everything written after a sequence of pulls, each answered by its own registry. */
  function PullMany(address: Bytes -> Kappa, fetches: seq<Fetch>, objects: map<Kappa, Bytes>): (map<Kappa, Bytes>, seq<Kappa>)
    decreases |fetches|
  {
    if fetches == [] then (objects, [])
    else
      var n := |fetches| - 1;
      var (before, stored) := PullMany(address, fetches[..n], objects);
      var p := Pulled(address, fetches[n], before).1;
      (p.objects, stored + p.stored)
  }

  lemma {:induction false} GrowsOnceStep(a: map<Kappa, Bytes>, b: map<Kappa, Bytes>, stored: seq<Kappa>, p: Progress)
    requires GrowsOnce(a, b, stored) && Accounts(b, p)
    ensures GrowsOnce(a, p.objects, stored + p.stored)
  {
    StoredExist(a, b, stored);
    var all := stored + p.stored;
    forall i, j | 0 <= i < j < |all|
      ensures all[i] != all[j]
    {
      if i < |stored| <= j {
        assert stored[i] in b;
      }
    }
    forall k
      ensures k in p.objects <==> k in a || k in all
    {
      assert k in all <==> k in stored || k in p.stored;
    }
  }

  /** Over any sequence of failed and successful pulls: the store only grows, only with verified bytes, and no
      label is ever stored twice. */
  lemma {:induction false} PullManyKeeps(address: Bytes -> Kappa, fetches: seq<Fetch>, objects: map<Kappa, Bytes>)
    requires Verified(address, objects)
    ensures var (after, stored) := PullMany(address, fetches, objects);
      Verified(address, after) && GrowsOnce(objects, after, stored)
    decreases |fetches|
  {
    hide Verified, Accounts, Pulled;
    if fetches != [] {
      var n := |fetches| - 1;
      PullManyKeeps(address, fetches[..n], objects);
      var (before, stored) := PullMany(address, fetches[..n], objects);
      PullAccounts(address, fetches[n], before);
      GrowsOnceStep(objects, before, stored, Pulled(address, fetches[n], before).1);
    }
  }

  /** Once a pull of a manifest succeeded, every later pull that resolves the same manifest succeeds, counts
      every layer as present, transfers nothing and changes nothing, whatever happened in between. */
  lemma {:induction false} NextPullIsFree(address: Bytes -> Kappa, first: Fetch, between: seq<Fetch>, later: Fetch, objects: map<Kappa, Bytes>)
    requires Verified(address, objects) && Pulled(address, first, objects).0.Ok?
    requires Resolve(later) == Resolve(first)
    ensures var now := PullMany(address, between, Pulled(address, first, objects).1.objects).0;
      var (m, archive) := Resolve(first).value;
      && Pulled(address, later, now).0 == Ok(PullReport(archive, 0, |m.layers|, 0))
      && Pulled(address, later, now).1.objects == now
  {
    hide Verified, ValidId, Accounts, PullFirst, Resolve, GrowsOnce;
    PullAccounts(address, first, objects);
    var after := Pulled(address, first, objects).1.objects;
    PullManyKeeps(address, between, after);
    var now := PullMany(address, between, after).0;
    GrowsKeeps(after, now, PullMany(address, between, after).1);
    var m := Resolve(first).value.0;
    FirstTransfersNothing(address, later.blob, now, m, |m.layers|);
  }

  lemma {:induction false} GrowsKeeps(before: map<Kappa, Bytes>, after: map<Kappa, Bytes>, stored: seq<Kappa>)
    requires GrowsOnce(before, after, stored)
    ensures forall k :: k in before ==> k in after
  {
  }
}
