/** Publishing artifacts, as a system of steps taken by any number of pushes, each of which may be interrupted
    at any step (src/artifact_push.rs:61-173). */
module ArtifactPush {
  import opened Basics
  import opened Upstream
  import opened ArtifactManifest
  import opened ArtifactPull

  datatype Payload = Payload(kappa: Kappa, bytes: Bytes)

  /** A push: where to, what, and the payloads the archive references without embedding. */
  datatype Task = Task(repository: string, tag: string, name: string, archive: Bytes, external: seq<Kappa>, force: bool)

  datatype Stage =
    | CheckTag
    | Gather(payloads: seq<Payload>)
    | PutArchive(payloads: seq<Payload>)
    | PutPayload(payloads: seq<Payload>, next: nat)
    | PutManifest(payloads: seq<Payload>)
    | Published
    | Ended(error: LiveError)

  datatype Push = Push(task: Task, stage: Stage)

  /** What a push published under a tag. */
  datatype Publication = Publication(name: string, tag: string, archive: Bytes, payloads: seq<Payload>)

  type Name = (string, string)

  /** The registry and the pushes. `published` records what was published under each tag. */
  datatype System = System(
    blobs: map<(string, Kappa), Bytes>, tags: map<Name, Json>, published: map<Name, Publication>, pushes: seq<Push>)

  /** A push is interrupted, or goes on; when it reads a payload, the local store answers with some bytes. */
  datatype Choice = Interrupt(error: LiveError) | GoOn(read: Option<Bytes>)

  function LayerOf(kappa: Kappa, media: string, bytes: Bytes, role: Role): ArtifactLayer {
    ArtifactLayer(kappa, media, U64Of(|bytes|), role)
  }

  function ArchiveLayer(address: Bytes -> Kappa, archive: Bytes): ArtifactLayer {
    LayerOf(address(archive), "application/vnd.hologram.holo", archive, ArchiveRole)
  }

  function PayloadLayer(payload: Payload): ArtifactLayer {
    LayerOf(payload.kappa, "application/octet-stream", payload.bytes, LayerRole)
  }

  function PayloadLayers(payloads: seq<Payload>): seq<ArtifactLayer> {
    seq(|payloads|, i requires 0 <= i < |payloads| => PayloadLayer(payloads[i]))
  }

  /** The manifest a push publishes: the archive first, then every external payload. */
  function ManifestFor(address: Bytes -> Kappa, p: Publication): Manifest {
    Manifest([ArchiveLayer(address, p.archive)] + PayloadLayers(p.payloads),
             Some("holo"), Some(p.name), Some(p.tag))
  }

  function To(s: System, t: nat, stage: Stage): System
    requires t < |s.pushes|
  {
    s.(pushes := s.pushes[t := s.pushes[t].(stage := stage)])
  }

  function PublicationOf(task: Task, payloads: seq<Payload>): Publication {
    Publication(task.name, task.tag, task.archive, payloads)
  }

  function Publish(address: Bytes -> Kappa, s: System, t: nat, payloads: seq<Payload>): System
    requires t < |s.pushes|
  {
    var task := s.pushes[t].task;
    var publication := PublicationOf(task, payloads);
    match Encode(ManifestFor(address, publication))
    case Err(error) => To(s, t, Ended(error))
    case Ok(body) =>
      To(s, t, Published).(tags := s.tags[(task.repository, task.tag) := body],
                           published := s.published[(task.repository, task.tag) := publication])
  }

  function Step(address: Bytes -> Kappa, s: System, t: nat, choice: Choice): System
    requires t < |s.pushes|
  {
    var push := s.pushes[t];
    var task := push.task;
    if push.stage.Published? || push.stage.Ended? then s
    else if choice.Interrupt? then To(s, t, Ended(choice.error))
    else
      match push.stage
      case CheckTag =>
        if (task.repository, task.tag) in s.tags && !task.force then To(s, t, Ended(Conflict)) else To(s, t, Gather([]))
      case Gather(payloads) =>
        if |payloads| >= |task.external| then To(s, t, PutArchive(payloads))
        else if choice.read.Some? then
          To(s, t, Gather(payloads + [Payload(task.external[|payloads|], choice.read.value)]))
        else To(s, t, Ended(NotFound))
      case PutArchive(payloads) =>
        To(s, t, PutPayload(payloads, 0)).(blobs := s.blobs[(task.repository, address(task.archive)) := task.archive])
      case PutPayload(payloads, next) =>
        if next >= |payloads| then To(s, t, PutManifest(payloads))
        else To(s, t, PutPayload(payloads, next + 1))
               .(blobs := s.blobs[(task.repository, payloads[next].kappa) := payloads[next].bytes])
      case PutManifest(payloads) => Publish(address, s, t, payloads)
  }

  /** The local store is verified: what it answers for a payload is stored under its own address. */
  ghost predicate VerifiedRead(address: Bytes -> Kappa, push: Push, choice: Choice) {
    push.stage.Gather? && |push.stage.payloads| < |push.task.external| && choice.GoOn? && choice.read.Some? ==>
      address(choice.read.value) == push.task.external[|push.stage.payloads|]
  }

  ghost predicate StepsBy(address: Bytes -> Kappa, s: System, s': System, t: nat, choice: Choice) {
    t < |s.pushes| && VerifiedRead(address, s.pushes[t], choice) && s' == Step(address, s, t, choice)
  }

  ghost predicate Steps(address: Bytes -> Kappa, s: System, s': System) {
    exists t, choice :: StepsBy(address, s, s', t, choice)
  }

  ghost predicate Starts(s: System, s': System) {
    exists task :: s' == s.(pushes := s.pushes + [Push(task, CheckTag)])
  }

  ghost predicate IsRun(address: Bytes -> Kappa, run: seq<System>) {
    && run != [] && run[0] == System(map[], map[], map[], [])
    && forall i :: 0 <= i < |run| - 1 ==> Steps(address, run[i], run[i + 1]) || Starts(run[i], run[i + 1])
  }

  // ---------- The invariant ----------

  ghost predicate AllMatch(address: Bytes -> Kappa, payloads: seq<Payload>) {
    forall i :: 0 <= i < |payloads| ==> address(payloads[i].bytes) == payloads[i].kappa
  }

  ghost predicate Stored(s: System, repository: string, payloads: seq<Payload>, count: nat) {
    forall i :: 0 <= i < count && i < |payloads| ==> (repository, payloads[i].kappa) in s.blobs
  }

  ghost predicate Ready(address: Bytes -> Kappa, s: System, push: Push) {
    var repository, archive := push.task.repository, address(push.task.archive);
    match push.stage
    case Gather(payloads) => AllMatch(address, payloads)
    case PutArchive(payloads) => AllMatch(address, payloads)
    case PutPayload(payloads, next) =>
      AllMatch(address, payloads) && (repository, archive) in s.blobs && Stored(s, repository, payloads, next)
    case PutManifest(payloads) =>
      AllMatch(address, payloads) && (repository, archive) in s.blobs && Stored(s, repository, payloads, |payloads|)
    case _ => true
  }

  /** What a tag points at was published by a push, and all of it is stored in the tag's repository. */
  ghost predicate Backed(address: Bytes -> Kappa, s: System, name: Name) {
    && name in s.published && name in s.tags
    && var p := s.published[name];
    && Encode(ManifestFor(address, p)) == Ok(s.tags[name])
    && AllMatch(address, p.payloads)
    && (name.0, address(p.archive)) in s.blobs
    && Stored(s, name.0, p.payloads, |p.payloads|)
  }

  ghost predicate BlobsMatch(address: Bytes -> Kappa, s: System) {
    forall key :: key in s.blobs ==> address(s.blobs[key]) == key.1
  }

  ghost predicate Invariant(address: Bytes -> Kappa, s: System) {
    && BlobsMatch(address, s)
    && (forall name :: name in s.tags ==> Backed(address, s, name))
    && (forall t :: 0 <= t < |s.pushes| ==> Ready(address, s, s.pushes[t]))
  }

  /** Blobs are only added. */
  ghost predicate BlobsGrow(s: System, s': System) {
    s.blobs.Keys <= s'.blobs.Keys
  }

  lemma {:induction false} ReadyGrows(address: Bytes -> Kappa, s: System, s': System, push: Push)
    requires BlobsGrow(s, s') && Ready(address, s, push)
    ensures Ready(address, s', push)
  {
    hide AllMatch;
  }

  lemma {:induction false} BackedGrows(address: Bytes -> Kappa, s: System, s': System, name: Name)
    requires BlobsGrow(s, s') && Backed(address, s, name)
    requires name in s'.tags && name in s'.published && s'.tags[name] == s.tags[name] && s'.published[name] == s.published[name]
    ensures Backed(address, s', name)
  {
    hide AllMatch, Encode, ManifestFor;
  }

  lemma {:induction false} StepBlobs(address: Bytes -> Kappa, s: System, t: nat, choice: Choice)
    requires t < |s.pushes| && BlobsMatch(address, s) && Ready(address, s, s.pushes[t])
    ensures BlobsMatch(address, Step(address, s, t, choice)) && BlobsGrow(s, Step(address, s, t, choice))
    ensures |Step(address, s, t, choice).pushes| == |s.pushes|
    ensures forall u :: 0 <= u < |s.pushes| && u != t ==> Step(address, s, t, choice).pushes[u] == s.pushes[u]
  {
    hide Encode, ManifestFor, Stored, AllMatch;
    var push := s.pushes[t];
    if push.stage.PutPayload? && push.stage.next < |push.stage.payloads| {
      MatchAt(address, push.stage.payloads, push.stage.next);
    }
  }

  lemma {:induction false} MatchAt(address: Bytes -> Kappa, payloads: seq<Payload>, i: nat)
    requires AllMatch(address, payloads) && i < |payloads|
    ensures address(payloads[i].bytes) == payloads[i].kappa
  {
  }

  /** The step of a push leaves it ready for its next one. */
  lemma {:induction false} StepReady(address: Bytes -> Kappa, s: System, t: nat, choice: Choice)
    requires t < |s.pushes| && Ready(address, s, s.pushes[t]) && VerifiedRead(address, s.pushes[t], choice)
    ensures |Step(address, s, t, choice).pushes| == |s.pushes| && Ready(address, Step(address, s, t, choice), Step(address, s, t, choice).pushes[t])
  {
    hide Publish, Stored, AllMatch;
    var push := s.pushes[t];
    PublishEnds(address, s, t);
    if push.stage.PutPayload? && push.stage.next < |push.stage.payloads| {
      StoredNext(s, push.task.repository, push.stage.payloads, push.stage.next);
    } else if push.stage.PutPayload? {
      StoredAll(s, push.task.repository, push.stage.payloads, push.stage.next);
    } else if push.stage.PutArchive? {
      StoredNone(Step(address, s, t, choice), push.task.repository, push.stage.payloads);
    } else if push.stage.Gather? && choice.GoOn? && choice.read.Some? {
      MatchNext(address, push.stage.payloads, choice.read.value);
    } else {
      MatchNone(address);
    }
  }

  lemma {:induction false} PublishEnds(address: Bytes -> Kappa, s: System, t: nat)
    requires t < |s.pushes|
    ensures forall payloads :: var s' := Publish(address, s, t, payloads);
      |s'.pushes| == |s.pushes| && (s'.pushes[t].stage.Published? || s'.pushes[t].stage.Ended?)
  {
    hide Encode, ManifestFor;
  }

  lemma {:induction false} StoredNext(s: System, repository: string, payloads: seq<Payload>, next: nat)
    requires next < |payloads| && Stored(s, repository, payloads, next)
    ensures forall s': System :: s'.blobs == s.blobs[(repository, payloads[next].kappa) := payloads[next].bytes] ==>
      Stored(s', repository, payloads, next + 1)
  {
  }

  lemma {:induction false} StoredAll(s: System, repository: string, payloads: seq<Payload>, next: nat)
    requires next >= |payloads| && Stored(s, repository, payloads, next)
    ensures forall s': System :: s'.blobs == s.blobs ==> Stored(s', repository, payloads, |payloads|)
  {
  }

  lemma {:induction false} StoredNone(s: System, repository: string, payloads: seq<Payload>)
    ensures Stored(s, repository, payloads, 0)
  {
  }

  lemma {:induction false} MatchNone(address: Bytes -> Kappa)
    ensures AllMatch(address, [])
  {
  }

  lemma {:induction false} MatchNext(address: Bytes -> Kappa, payloads: seq<Payload>, bytes: Bytes)
    requires AllMatch(address, payloads)
    ensures AllMatch(address, payloads + [Payload(address(bytes), bytes)])
  {
  }

  lemma {:induction false} StepTags(address: Bytes -> Kappa, s: System, t: nat, choice: Choice)
    requires t < |s.pushes|
    ensures var s' := Step(address, s, t, choice);
      || (s'.tags == s.tags && s'.published == s.published)
      || (&& s.pushes[t].stage.PutManifest?
          && var task, publication := s.pushes[t].task, PublicationOf(s.pushes[t].task, s.pushes[t].stage.payloads);
          && s'.blobs == s.blobs
          && Encode(ManifestFor(address, publication)).Ok?
          && s'.tags == s.tags[(task.repository, task.tag) := Encode(ManifestFor(address, publication)).value]
          && s'.published == s.published[(task.repository, task.tag) := publication])
  {
    hide Encode, ManifestFor;
  }

  lemma {:induction false} StepBacked(address: Bytes -> Kappa, s: System, t: nat, choice: Choice, name: Name)
    requires t < |s.pushes| && Invariant(address, s) && name in Step(address, s, t, choice).tags
    ensures Backed(address, Step(address, s, t, choice), name)
  {
    hide Encode, ManifestFor, Step;
    var s' := Step(address, s, t, choice);
    assert Ready(address, s, s.pushes[t]);
    StepBlobs(address, s, t, choice);
    StepTags(address, s, t, choice);
    if name in s.tags {
      assert Backed(address, s, name);
    }
    if s'.tags == s.tags && s'.published == s.published {
      BackedGrows(address, s, s', name);
    } else {
      var task := s.pushes[t].task;
      if name != (task.repository, task.tag) {
        BackedGrows(address, s, s', name);
      }
    }
  }

  lemma {:induction false} StepKeeps(address: Bytes -> Kappa, s: System, t: nat, choice: Choice)
    requires t < |s.pushes| && Invariant(address, s) && VerifiedRead(address, s.pushes[t], choice)
    ensures Invariant(address, Step(address, s, t, choice)) && BlobsGrow(s, Step(address, s, t, choice))
  {
    hide Step, Ready, Backed, BlobsMatch, BlobsGrow;
    var s' := Step(address, s, t, choice);
    assert Ready(address, s, s.pushes[t]);
    StepBlobs(address, s, t, choice);
    StepReady(address, s, t, choice);
    forall u | 0 <= u < |s'.pushes|
      ensures Ready(address, s', s'.pushes[u])
    {
      if u != t {
        ReadyGrows(address, s, s', s.pushes[u]);
      }
    }
    forall name | name in s'.tags
      ensures Backed(address, s', name)
    {
      StepBacked(address, s, t, choice, name);
    }
  }

  lemma {:induction false} StartKeeps(address: Bytes -> Kappa, s: System, s': System)
    requires Invariant(address, s) && Starts(s, s')
    ensures Invariant(address, s') && BlobsGrow(s, s')
  {
    hide AllMatch, Encode, ManifestFor;
    forall u | 0 <= u < |s'.pushes|
      ensures Ready(address, s', s'.pushes[u])
    {
      if u < |s.pushes| {
        ReadyGrows(address, s, s', s.pushes[u]);
      }
    }
    forall name | name in s'.tags
      ensures Backed(address, s', name)
    {
      BackedGrows(address, s, s', name);
    }
  }

  lemma {:induction false} RunKeeps(address: Bytes -> Kappa, run: seq<System>, i: nat)
    requires IsRun(address, run) && i < |run|
    ensures Invariant(address, run[i])
    ensures i > 0 ==> BlobsGrow(run[i - 1], run[i])
    decreases i
  {
    hide Invariant, Step, BlobsGrow;
    if i == 0 {
      EmptyHolds(address);
    } else {
      RunKeeps(address, run, i - 1);
      if Steps(address, run[i - 1], run[i]) {
        var t, choice :| StepsBy(address, run[i - 1], run[i], t, choice);
        StepKeeps(address, run[i - 1], t, choice);
      } else {
        StartKeeps(address, run[i - 1], run[i]);
      }
    }
  }

  lemma {:induction false} EmptyHolds(address: Bytes -> Kappa)
    ensures Invariant(address, System(map[], map[], map[], []))
  {
  }

  lemma {:induction false} BlobsStay(address: Bytes -> Kappa, run: seq<System>, i: nat, j: nat, key: (string, Kappa))
    requires IsRun(address, run) && i <= j < |run| && key in run[i].blobs
    ensures key in run[j].blobs
    decreases j
  {
    hide IsRun, Invariant;
    if i < j {
      BlobsStay(address, run, i, j - 1, key);
      RunKeeps(address, run, j);
    }
  }

  // ---------- What holds in every run ----------

  /** In every interleaving of pushes, interrupted anywhere, every tag resolves to a manifest whose layers are
      all stored in its repository, under matching bytes. */
  lemma {:induction false} TagsAreComplete(address: Bytes -> Kappa, run: seq<System>, i: nat, name: Name)
    requires Blake3Labels(address) && IsRun(address, run) && i < |run| && name in run[i].tags
    ensures Decode(run[i].tags[name]).Ok?
    ensures var m := Decode(run[i].tags[name]).value;
      && name in run[i].published && m == ManifestFor(address, run[i].published[name])
      && ArchiveOf(m).Ok?
      && forall k :: 0 <= k < |m.layers| ==>
        (name.0, m.layers[k].kappa) in run[i].blobs && address(run[i].blobs[(name.0, m.layers[k].kappa)]) == m.layers[k].kappa
  {
    hide IsRun, Encode, Decode, ManifestFor, AllMatch, Stored;
    RunKeeps(address, run, i);
    assert Backed(address, run[i], name);
    PublishedReadsBack(address, run[i].published[name]);
    LayersStored(address, run[i], name);
  }

  /** The content address is a lower-case blake3 label. */
  ghost predicate Blake3Labels(address: Bytes -> Kappa) {
    forall bytes :: IsBlake3(address(bytes))
  }

  lemma {:induction false} LayersOf(address: Bytes -> Kappa, p: Publication, k: nat)
    requires k < |ManifestFor(address, p).layers|
    ensures |ManifestFor(address, p).layers| == |p.payloads| + 1
    ensures ManifestFor(address, p).layers[k].kappa == if k == 0 then address(p.archive) else p.payloads[k - 1].kappa
    ensures ManifestFor(address, p).layers[k].role == if k == 0 then ArchiveRole else LayerRole
  {
  }

  lemma {:induction false} PayloadsHaveNoArchive(layers: seq<ArtifactLayer>)
    requires forall i :: 0 <= i < |layers| ==> layers[i].role == LayerRole
    ensures Archives(layers) == 0
    decreases |layers|
  {
    if layers != [] {
      PayloadsHaveNoArchive(layers[1..]);
    }
  }

  lemma {:induction false} OneArchive(address: Bytes -> Kappa, p: Publication)
    ensures ArchiveOf(ManifestFor(address, p)).Ok?
    ensures ArchiveOf(ManifestFor(address, p)).value.kappa == address(p.archive)
  {
    var layers := ManifestFor(address, p).layers;
    PayloadsHaveNoArchive(PayloadLayers(p.payloads));
    assert layers[1..] == PayloadLayers(p.payloads);
  }

  /** What a push publishes reads back as it was published. */
  lemma {:induction false} PublishedReadsBack(address: Bytes -> Kappa, p: Publication)
    requires Blake3Labels(address) && AllMatch(address, p.payloads)
    ensures Encode(ManifestFor(address, p)).Ok? && Decode(Encode(ManifestFor(address, p)).value) == Ok(ManifestFor(address, p))
    ensures ArchiveOf(ManifestFor(address, p)).Ok?
  {
    hide Encode, Decode, IsBlake3, ManifestFor;
    var m := ManifestFor(address, p);
    OneArchive(address, p);
    RoundTrip(m);
    forall k | 0 <= k < |m.layers|
      ensures IsBlake3(m.layers[k].kappa)
    {
      LayersOf(address, p, k);
      if k > 0 {
        assert address(p.payloads[k - 1].bytes) == p.payloads[k - 1].kappa;
      }
    }
  }

  lemma {:induction false} LayersStored(address: Bytes -> Kappa, s: System, name: Name)
    requires Invariant(address, s) && Backed(address, s, name)
    ensures var m := ManifestFor(address, s.published[name]);
      forall k :: 0 <= k < |m.layers| ==>
        (name.0, m.layers[k].kappa) in s.blobs && address(s.blobs[(name.0, m.layers[k].kappa)]) == m.layers[k].kappa
  {
    hide Encode, ManifestFor, AllMatch, Ready;
    var p := s.published[name];
    var m := ManifestFor(address, p);
    forall k | 0 <= k < |m.layers|
      ensures (name.0, m.layers[k].kappa) in s.blobs && address(s.blobs[(name.0, m.layers[k].kappa)]) == m.layers[k].kappa
    {
      LayersOf(address, p, k);
    }
  }

  // ---------- Pulling what was pushed ----------

  /** A registry that answers with the manifest it had at some moment and with blobs of any later moments. */
  ghost predicate Serves(run: seq<System>, i: nat, name: Name, fetch: Fetch)
    requires i < |run|
  {
    && name in run[i].tags && fetch.manifest == Ok(Some(run[i].tags[name]))
    && forall k: Kappa :: ServedLater(run, i, (name.0, k), fetch)
  }

  ghost predicate ServedLater(run: seq<System>, i: nat, key: (string, Kappa), fetch: Fetch) {
    exists j :: ServedAt(run, i, j, key, fetch)
  }

  ghost predicate ServedAt(run: seq<System>, i: nat, j: nat, key: (string, Kappa), fetch: Fetch) {
    i <= j < |run| && fetch.blob(key.1) == if key in run[j].blobs then Ok(run[j].blobs[key]) else Err(NotFound)
  }

  lemma {:induction false} ServedBlob(address: Bytes -> Kappa, run: seq<System>, i: nat, name: Name, fetch: Fetch, k: Kappa)
    requires IsRun(address, run) && i < |run| && Serves(run, i, name, fetch) && (name.0, k) in run[i].blobs
    ensures fetch.blob(k).Ok? && address(fetch.blob(k).value) == k
  {
    hide IsRun;
    assert ServedLater(run, i, (name.0, k), fetch);
    var j :| ServedAt(run, i, j, (name.0, k), fetch);
    BlobsStay(address, run, i, j, (name.0, k));
    RunKeeps(address, run, j);
  }

  lemma {:induction false} PullSucceeds(address: Bytes -> Kappa, blob: Kappa -> Result<Bytes>, objects: map<Kappa, Bytes>, layers: seq<ArtifactLayer>, count: nat)
    requires count <= |layers|
    requires forall k :: 0 <= k < |layers| ==>
      ValidId(layers[k].kappa) && blob(layers[k].kappa).Ok? && address(blob(layers[k].kappa).value) == layers[k].kappa
    ensures PullFirst(address, blob, objects, layers, count).error.None?
    decreases count
  {
    hide PullLayer;
    if count > 0 {
      PullSucceeds(address, blob, objects, layers, count - 1);
      LayerSucceeds(address, blob, PullFirst(address, blob, objects, layers, count - 1), layers[count - 1].kappa);
    }
  }

  lemma {:induction false} LayerSucceeds(address: Bytes -> Kappa, blob: Kappa -> Result<Bytes>, p: Progress, kappa: Kappa)
    requires p.error.None? && ValidId(kappa) && blob(kappa).Ok? && address(blob(kappa).value) == kappa
    ensures PullLayer(address, blob, p, kappa).error.None?
  {
  }

  lemma {:induction false} Blake3IsValid(k: Kappa)
    requires IsBlake3(k)
    ensures ValidId(k)
  {
  }

  /** The labels of a publication. */
  function LabelsOf(address: Bytes -> Kappa, p: Publication): set<Kappa> {
    {address(p.archive)} + set i | 0 <= i < |p.payloads| :: p.payloads[i].kappa
  }

  /** Every byte string a pull of this publication can meet: what was published, what the store holds, and what
      the registry answers for its labels. */
  function AtHand(address: Bytes -> Kappa, p: Publication, fetch: Fetch, objects: map<Kappa, Bytes>): set<Bytes> {
    {p.archive} + (set i | 0 <= i < |p.payloads| :: p.payloads[i].bytes) + objects.Values
    + set k | k in LabelsOf(address, p) && fetch.blob(k).Ok? :: fetch.blob(k).value
  }

  /** None of them collide. */
  ghost predicate NoClash(address: Bytes -> Kappa, s: System, name: Name, fetch: Fetch, objects: map<Kappa, Bytes>) {
    name in s.published ==> Distinguishes(address, AtHand(address, s.published[name], fetch, objects))
  }

  /** A pull of any published tag, at any later time and into any verified store, succeeds and recovers the
      archive and every external payload byte for byte, with their roles. */
  lemma {:induction false} PullRecoversPush(address: Bytes -> Kappa, run: seq<System>, i: nat, name: Name, fetch: Fetch, objects: map<Kappa, Bytes>)
    requires Blake3Labels(address) && Verified(address, objects)
    requires IsRun(address, run) && i < |run| && Serves(run, i, name, fetch) && NoClash(address, run[i], name, fetch, objects)
    ensures name in run[i].published
    ensures var p := run[i].published[name];
      var (r, after) := Pulled(address, fetch, objects);
      && r.Ok? && r.value.archive == address(p.archive)
      && Resolve(fetch) == Ok((ManifestFor(address, p), address(p.archive)))
      && address(p.archive) in after.objects && after.objects[address(p.archive)] == p.archive
      && (forall k :: 0 <= k < |p.payloads| ==>
        p.payloads[k].kappa in after.objects && after.objects[p.payloads[k].kappa] == p.payloads[k].bytes)
  {
    hide IsRun, Encode, Decode, ManifestFor, AllMatch, Stored, Verified, PullFirst, IsBlake3, ValidId, AtHand, Distinguishes;
    RunKeeps(address, run, i);
    assert Backed(address, run[i], name);
    var p := run[i].published[name];
    var m := ManifestFor(address, p);
    PublishedReadsBack(address, p);
    OneArchive(address, p);
    LayersStored(address, run[i], name);
    forall k | 0 <= k < |m.layers|
      ensures ValidId(m.layers[k].kappa) && fetch.blob(m.layers[k].kappa).Ok? && address(fetch.blob(m.layers[k].kappa).value) == m.layers[k].kappa
    {
      ServedBlob(address, run, i, name, fetch, m.layers[k].kappa);
      Blake3IsValid(m.layers[k].kappa);
    }
    PullSucceeds(address, fetch.blob, objects, m.layers, |m.layers|);
    PullAccounts(address, fetch, objects);
    Recovered(address, p, fetch, objects);
  }

  /** What a pull holds under a label was in the store before or is what the registry answered for it. */
  lemma {:induction false} HeldFrom(address: Bytes -> Kappa, blob: Kappa -> Result<Bytes>, objects: map<Kappa, Bytes>,
      layers: seq<ArtifactLayer>, count: nat, k: Kappa)
    requires count <= |layers| && k in PullFirst(address, blob, objects, layers, count).objects
    ensures var held := PullFirst(address, blob, objects, layers, count).objects[k];
      (k in objects && held == objects[k]) || blob(k) == Ok(held)
    decreases count
  {
    if count > 0 {
      var before := PullFirst(address, blob, objects, layers, count - 1);
      if k in before.objects {
        HeldFrom(address, blob, objects, layers, count - 1, k);
      }
    }
  }

  lemma {:induction false} Recovered(address: Bytes -> Kappa, p: Publication, fetch: Fetch, objects: map<Kappa, Bytes>)
    requires AllMatch(address, p.payloads) && Distinguishes(address, AtHand(address, p, fetch, objects))
    requires var m := ManifestFor(address, p);
      var after := PullFirst(address, fetch.blob, objects, m.layers, |m.layers|).objects;
      Verified(address, after) && Complete(m, after)
    ensures var m := ManifestFor(address, p);
      var after := PullFirst(address, fetch.blob, objects, m.layers, |m.layers|).objects;
      && address(p.archive) in after && after[address(p.archive)] == p.archive
      && forall k :: 0 <= k < |p.payloads| ==> p.payloads[k].kappa in after && after[p.payloads[k].kappa] == p.payloads[k].bytes
  {
    hide ManifestFor, ValidId, PullFirst, Distinguishes;
    var m := ManifestFor(address, p);
    var after := PullFirst(address, fetch.blob, objects, m.layers, |m.layers|).objects;
    LayersWidth(address, p);
    LayersOf(address, p, 0);
    HeldIs(address, p, fetch, objects, p.archive);
    forall k | 0 <= k < |p.payloads|
      ensures p.payloads[k].kappa in after && after[p.payloads[k].kappa] == p.payloads[k].bytes
    {
      LayersOf(address, p, k + 1);
      assert address(p.payloads[k].bytes) == p.payloads[k].kappa == m.layers[k + 1].kappa;
      HeldIs(address, p, fetch, objects, p.payloads[k].bytes);
    }
  }

  /** What is held under the label of something published is that very byte string. */
  lemma {:induction false} HeldIs(address: Bytes -> Kappa, p: Publication, fetch: Fetch, objects: map<Kappa, Bytes>, bytes: Bytes)
    requires Distinguishes(address, AtHand(address, p, fetch, objects))
    requires bytes in AtHand(address, p, fetch, objects) && address(bytes) in LabelsOf(address, p)
    requires var m := ManifestFor(address, p);
      var after := PullFirst(address, fetch.blob, objects, m.layers, |m.layers|).objects;
      Verified(address, after) && address(bytes) in after
    ensures var m := ManifestFor(address, p);
      PullFirst(address, fetch.blob, objects, m.layers, |m.layers|).objects[address(bytes)] == bytes
  {
    hide ManifestFor, PullFirst;
    var m := ManifestFor(address, p);
    var held := PullFirst(address, fetch.blob, objects, m.layers, |m.layers|).objects[address(bytes)];
    HeldFrom(address, fetch.blob, objects, m.layers, |m.layers|, address(bytes));
    assert held in AtHand(address, p, fetch, objects);
  }

  // ---------- Such pulls exist ----------

  function LabelIn(digit: char): Kappa {
    "blake3:" + seq(64, i => digit)
  }

  /** An address with only two labels. */
  function TwoLabels(bytes: Bytes): Kappa {
    LabelIn(if bytes == [] then '0' else '1')
  }

  function ThinTask(): Task {
    Task("library", "latest", "demo", [], [LabelIn('1')], false)
  }

  function ThinStore(): map<Kappa, Bytes> {
    map[LabelIn('1') := [1]]
  }

  lemma {:induction false} TwoLabelsAreBlake3()
    ensures Blake3Labels(TwoLabels) && LabelIn('0') != LabelIn('1')
  {
    assert LabelIn('0')[7] != LabelIn('1')[7];
    forall bytes: Bytes
      ensures IsBlake3(TwoLabels(bytes))
    {
      var kappa := TwoLabels(bytes);
      assert kappa[..7] == "blake3:";
    }
  }

  /** A registry that answers from one state. */
  function Answering(s: System, name: Name): Fetch
    requires name in s.tags
  {
    Fetch(Ok(Some(s.tags[name])), k => if (name.0, k) in s.blobs then Ok(s.blobs[(name.0, k)]) else Err(NotFound))
  }

  lemma {:induction false} AnsweringServes(run: seq<System>, i: nat, name: Name)
    requires i < |run| && name in run[i].tags
    ensures Serves(run, i, name, Answering(run[i], name))
  {
    var fetch := Answering(run[i], name);
    forall k: Kappa
      ensures ServedLater(run, i, (name.0, k), fetch)
    {
      assert ServedAt(run, i, i, (name.0, k), fetch);
    }
  }

  /** One push alone, from an empty registry, as a run. */
  lemma {:induction false} AloneRun(address: Bytes -> Kappa, task: Task, store: map<Kappa, Bytes>, steps: nat) returns (run: seq<System>)
    requires Verified(address, store)
    ensures IsRun(address, run) && |run| == steps + 2
    ensures run[steps + 1] == Alone(address, System(map[], map[], map[], [Push(task, CheckTag)]), 0, store, steps)
    decreases steps
  {
    hide Verified, Step;
    var empty, started := System(map[], map[], map[], []), System(map[], map[], map[], [Push(task, CheckTag)]);
    AloneStart(address, started, 0, store);
    if steps == 0 {
      assert started == empty.(pushes := empty.pushes + [Push(task, CheckTag)]);
      assert Starts(empty, started);
      run := [empty, started];
    } else {
      var before := AloneRun(address, task, store, steps - 1);
      AloneIsARun(address, started, 0, store, steps - 1);
      hide Alone;
      run := before + [Alone(address, started, 0, store, steps)];
      RunSnoc(address, before, Alone(address, started, 0, store, steps));
    }
  }

  lemma {:induction false} RunSnoc(address: Bytes -> Kappa, run: seq<System>, s: System)
    requires IsRun(address, run) && Steps(address, run[|run| - 1], s)
    ensures IsRun(address, run + [s])
  {
    hide Steps, Starts;
    var longer := run + [s];
    forall i | 0 <= i < |longer| - 1
      ensures Steps(address, longer[i], longer[i + 1]) || Starts(longer[i], longer[i + 1])
    {
      assert longer[i] == run[i];
      if i + 1 < |run| {
        assert longer[i + 1] == run[i + 1];
      }
    }
  }

  /** The hypotheses of `PullRecoversPush` can be met: a thin archive is pushed with its external payload under
      an address that has only two labels, and pulled into an empty store. */
  lemma {:induction false} PullableExists()
    returns (address: Bytes -> Kappa, run: seq<System>, i: nat, name: Name, fetch: Fetch, objects: map<Kappa, Bytes>)
    ensures Blake3Labels(address) && Verified(address, objects)
    ensures IsRun(address, run) && i < |run| && Serves(run, i, name, fetch) && NoClash(address, run[i], name, fetch, objects)
    ensures name in run[i].published && run[i].published[name].payloads != []
  {
    hide IsRun, Serves, Alone, Encode, ManifestFor, LabelIn, Distinguishes;
    address, name, objects := TwoLabels, ("library", "latest"), map[];
    var task, store := ThinTask(), ThinStore();
    var started := System(map[], map[], map[], [Push(task, CheckTag)]);
    TwoLabelsAreBlake3();
    assert Verified(address, store);
    var steps := PushIsARun(address, started, 0, store);
    run := AloneRun(address, task, store, steps);
    i := steps + 1;
    var p := PublicationOf(task, Payloads(store, task.external));
    assert p.payloads == [Payload(LabelIn('1'), [1])];
    fetch := Answering(run[i], name);
    AnsweringServes(run, i, name);
    OnePayloadUploaded(address, task, p.payloads);
    assert AtHand(address, p, fetch, objects) == {[], [1]};
    TwoTexts();
  }

  lemma {:induction false} TwoTexts()
    ensures Distinguishes(TwoLabels, {[], [1]})
  {
    TwoLabelsAreBlake3();
    hide LabelIn;
  }

  lemma {:induction false} OnePayloadUploaded(address: Bytes -> Kappa, task: Task, payloads: seq<Payload>)
    requires |payloads| == 1
    ensures Uploaded(address, map[], task, payloads, 1)
      == map[(task.repository, address(task.archive)) := task.archive][(task.repository, payloads[0].kappa) := payloads[0].bytes]
  {
    assert Uploaded(address, map[], task, payloads, 0) == map[(task.repository, address(task.archive)) := task.archive];
  }

  lemma {:induction false} LayersWidth(address: Bytes -> Kappa, p: Publication)
    ensures |ManifestFor(address, p).layers| == |p.payloads| + 1
  {
  }

  /** A push that finds its tag taken, without being told to move it, writes nothing at all. */
  lemma {:induction false} TakenTagIsRefused(address: Bytes -> Kappa, s: System, t: nat, read: Option<Bytes>)
    requires t < |s.pushes| && s.pushes[t].stage.CheckTag? && !s.pushes[t].task.force
    requires (s.pushes[t].task.repository, s.pushes[t].task.tag) in s.tags
    ensures var s' := Step(address, s, t, GoOn(read));
      s'.pushes[t].stage == Ended(Conflict) && s'.blobs == s.blobs && s'.tags == s.tags && s'.published == s.published
  {
  }

  // ---------- One push on its own ----------

  datatype PushReport = PushReport(archive: Kappa, layersPublished: nat, bytes: U64, replaced: bool)

  /** The payloads as the local store holds them, in order. */
  function Payloads(store: map<Kappa, Bytes>, external: seq<Kappa>): seq<Payload>
    requires forall i :: 0 <= i < |external| ==> external[i] in store
  {
    seq(|external|, i requires 0 <= i < |external| => Payload(external[i], store[external[i]]))
  }

  predicate HasAll(store: map<Kappa, Bytes>, external: seq<Kappa>) {
    forall i :: 0 <= i < |external| ==> external[i] in store
  }

  function PayloadBytes(payloads: seq<Payload>): nat {
    if payloads == [] then 0 else PayloadBytes(payloads[..|payloads| - 1]) + |payloads[|payloads| - 1].bytes|
  }

  /** `push`: `lookup` is the error of the tag lookup, if it fails, and `fails` is what the registry answers to
      the n-th upload. A refused or incomplete push writes
      nothing; a failed upload never touches a tag; a successful push stores every layer and then the tag. */
  method PushArtifact(address: Bytes -> Kappa, blobs: map<(string, Kappa), Bytes>, tags: map<Name, Json>,
                      store: map<Kappa, Bytes>, task: Task, lookup: Option<LiveError>, fails: nat -> Option<LiveError>)
    returns (r: Result<PushReport>, blobs': map<(string, Kappa), Bytes>, tags': map<Name, Json>)
    ensures r.Err? ==> tags' == tags
    ensures lookup.Some? ==> r == Err(lookup.value) && blobs' == blobs
    ensures lookup.None? && (task.repository, task.tag) in tags && !task.force ==> r == Err(Conflict) && blobs' == blobs
    ensures lookup.None? && ((task.repository, task.tag) !in tags || task.force) && !HasAll(store, task.external) ==> r == Err(NotFound) && blobs' == blobs
    ensures lookup.None? && ((task.repository, task.tag) !in tags || task.force) && HasAll(store, task.external) && (forall n :: fails(n).None?) ==> r.Ok?
    ensures lookup.None? && ((task.repository, task.tag) !in tags || task.force) && HasAll(store, task.external) && r.Err? ==>
      BrokeOff(address, blobs, task, Payloads(store, task.external), fails, 1 + |task.external|, r.error, blobs')
    ensures r.Ok? ==>
      && (forall n :: 0 <= n <= 1 + |task.external| ==> fails(n).None?)
      && HasAll(store, task.external)
      && var p := PublicationOf(task, Payloads(store, task.external));
      && Encode(ManifestFor(address, p)).Ok?
      && tags' == tags[(task.repository, task.tag) := Encode(ManifestFor(address, p)).value]
      && blobs' == Uploaded(address, blobs, task, p.payloads, |p.payloads|)
      && r.value == PushReport(address(task.archive), 1 + |task.external|, U64Of(|task.archive| + PayloadBytes(p.payloads)),
                               (task.repository, task.tag) in tags)
  {
    hide Encode, FirstFailure, BrokeOff, Uploaded;
    blobs', tags' := blobs, tags;
    if lookup.Some? {
      return Err(lookup.value), blobs', tags';
    }
    var replaced := (task.repository, task.tag) in tags;
    if replaced && !task.force {
      return Err(Conflict), blobs', tags';
    }
    var gathered := GatherPayloads(store, task.external);
    if gathered.None? {
      return Err(NotFound), blobs', tags';
    }
    var layers, bytes, error;
    blobs', layers, bytes, error := Upload(address, blobs, task, gathered.value, fails);
    if error.Some? {
      BrokeOffLater(address, blobs, task, gathered.value, fails, error.value, blobs');
      return Err(error.value), blobs', tags';
    }
    var manifest := Manifest(layers, Some("holo"), Some(task.name), Some(task.tag));
    assert manifest == ManifestFor(address, PublicationOf(task, gathered.value));
    EncodesOne(address, PublicationOf(task, gathered.value));
    var body := Encode(manifest);
    if body.Err? {
      return Err(Protocol), blobs', tags';
    }
    var refused := fails(1 + |task.external|);
    if refused.Some? {
      BreaksOffAt(address, blobs, task, gathered.value, fails, 1 + |task.external|, 1 + |task.external|, refused.value, blobs');
      return Err(refused.value), blobs', tags';
    }
    tags' := tags[(task.repository, task.tag) := body.value];
    return Ok(PushReport(address(task.archive), |layers|, bytes, replaced)), blobs', tags';
  }

  /** The blobs after the archive and the first `count` payloads were uploaded. */
  function Uploaded(address: Bytes -> Kappa, blobs: map<(string, Kappa), Bytes>, task: Task, payloads: seq<Payload>, count: nat)
    : map<(string, Kappa), Bytes>
    requires count <= |payloads|
  {
    if count == 0 then blobs[(task.repository, address(task.archive)) := task.archive]
    else Uploaded(address, blobs, task, payloads, count - 1)[(task.repository, payloads[count - 1].kappa) := payloads[count - 1].bytes]
  }

  /** The first upload that fails, and what was uploaded before it. */
  ghost predicate FirstFailure(address: Bytes -> Kappa, blobs: map<(string, Kappa), Bytes>, task: Task, payloads: seq<Payload>,
      fails: nat -> Option<LiveError>, n: nat, error: LiveError, after: map<(string, Kappa), Bytes>)
  {
    && n <= |payloads| + 1 && fails(n) == Some(error) && (forall m :: 0 <= m < n ==> fails(m).None?)
    && after == if n == 0 then blobs else Uploaded(address, blobs, task, payloads, n - 1)
  }

  ghost predicate BrokeOff(address: Bytes -> Kappa, blobs: map<(string, Kappa), Bytes>, task: Task, payloads: seq<Payload>,
      fails: nat -> Option<LiveError>, last: nat, error: LiveError, after: map<(string, Kappa), Bytes>)
  {
    exists n: nat :: n <= last && FirstFailure(address, blobs, task, payloads, fails, n, error, after)
  }

  lemma {:induction false} BreaksOffAt(address: Bytes -> Kappa, blobs: map<(string, Kappa), Bytes>, task: Task, payloads: seq<Payload>,
      fails: nat -> Option<LiveError>, n: nat, last: nat, error: LiveError, after: map<(string, Kappa), Bytes>)
    requires n <= last <= |payloads| + 1 && fails(n) == Some(error) && forall m :: 0 <= m < n ==> fails(m).None?
    requires after == if n == 0 then blobs else Uploaded(address, blobs, task, payloads, n - 1)
    ensures BrokeOff(address, blobs, task, payloads, fails, last, error, after)
  {
    hide Uploaded;
    assert FirstFailure(address, blobs, task, payloads, fails, n, error, after);
  }

  lemma {:induction false} BrokeOffLater(address: Bytes -> Kappa, blobs: map<(string, Kappa), Bytes>, task: Task, payloads: seq<Payload>,
      fails: nat -> Option<LiveError>, error: LiveError, after: map<(string, Kappa), Bytes>)
    requires BrokeOff(address, blobs, task, payloads, fails, |payloads|, error, after)
    ensures BrokeOff(address, blobs, task, payloads, fails, |payloads| + 1, error, after)
    ensures exists n :: fails(n) == Some(error)
  {
    hide Uploaded;
  }

  lemma {:induction false} UploadedSoFar(address: Bytes -> Kappa, blobs: map<(string, Kappa), Bytes>, task: Task, payloads: seq<Payload>, i: nat)
    requires i <= |payloads|
    ensures UploadState(address, blobs, task, payloads, i).0 == Uploaded(address, blobs, task, payloads, i)
  {
    hide Uploaded;
  }

  /** Everything is read before anything is written. */
  method GatherPayloads(store: map<Kappa, Bytes>, external: seq<Kappa>) returns (r: Option<seq<Payload>>)
    ensures r.Some? <==> HasAll(store, external)
    ensures r.Some? ==> r.value == Payloads(store, external)
  {
    var payloads: seq<Payload> := [];
    for i := 0 to |external|
      invariant forall j :: 0 <= j < i ==> external[j] in store
      invariant payloads == Payloads(store, external[..i])
    {
      if external[i] !in store {
        return None;
      }
      payloads := payloads + [Payload(external[i], store[external[i]])];
    }
    assert external[..|external|] == external;
    return Some(payloads);
  }

  /** The uploads: the archive, then the payloads, growing the layer list and the byte counter. */
  method Upload(address: Bytes -> Kappa, blobs: map<(string, Kappa), Bytes>, task: Task, payloads: seq<Payload>, fails: nat -> Option<LiveError>)
    returns (blobs': map<(string, Kappa), Bytes>, layers: seq<ArtifactLayer>, bytes: U64, error: Option<LiveError>)
    ensures error.Some? ==> BrokeOff(address, blobs, task, payloads, fails, |payloads|, error.value, blobs')
    ensures error.None? ==>
      && (forall n :: 0 <= n <= |payloads| ==> fails(n).None?)
      && blobs' == Uploaded(address, blobs, task, payloads, |payloads|)
      && layers == ManifestFor(address, PublicationOf(task, payloads)).layers
      && bytes == U64Of(|task.archive| + PayloadBytes(payloads))
  {
    hide *;
    blobs', layers, bytes, error := blobs, [], 0, fails(0);
    if error.Some? {
      BreaksOffAt(address, blobs, task, payloads, fails, 0, |payloads|, error.value, blobs');
      return;
    }
    blobs' := blobs'[(task.repository, address(task.archive)) := task.archive];
    bytes := U64Of(|task.archive|);
    layers := [ArchiveLayer(address, task.archive)];
    UploadStarts(address, blobs, task, payloads);
    for i := 0 to |payloads|
      invariant UploadState(address, blobs, task, payloads, i) == (blobs', layers, bytes) && error.None?
      invariant forall n :: 0 <= n <= i ==> fails(n).None?
    {
      error := fails(1 + i);
      if error.Some? {
        UploadedSoFar(address, blobs, task, payloads, i);
        BreaksOffAt(address, blobs, task, payloads, fails, 1 + i, |payloads|, error.value, blobs');
        return;
      }
      var payload := payloads[i];
      UploadStep(address, blobs, task, payloads, i);
      blobs' := blobs'[(task.repository, payload.kappa) := payload.bytes];
      bytes := SaturatingAdd(bytes, U64Of(|payload.bytes|));
      layers := layers + [PayloadLayer(payload)];
    }
    UploadEnds(address, blobs, task, payloads);
  }

  /** The registry, the layer list and the byte counter after the archive and the first `count` payloads. */
  ghost function UploadState(address: Bytes -> Kappa, blobs: map<(string, Kappa), Bytes>, task: Task, payloads: seq<Payload>, count: nat)
    : (map<(string, Kappa), Bytes>, seq<ArtifactLayer>, U64)
    requires count <= |payloads|
  {
    (Uploaded(address, blobs, task, payloads, count), [ArchiveLayer(address, task.archive)] + PayloadLayers(payloads[..count]),
     U64Of(|task.archive| + PayloadBytes(payloads[..count])))
  }

  lemma {:induction false} UploadStarts(address: Bytes -> Kappa, blobs: map<(string, Kappa), Bytes>, task: Task, payloads: seq<Payload>)
    ensures UploadState(address, blobs, task, payloads, 0)
      == (blobs[(task.repository, address(task.archive)) := task.archive], [ArchiveLayer(address, task.archive)], U64Of(|task.archive|))
  {
    hide ArchiveLayer, PayloadLayer;
    assert payloads[..0] == [] && PayloadLayers([]) == [];
    assert [ArchiveLayer(address, task.archive)] + [] == [ArchiveLayer(address, task.archive)];
  }

  lemma {:induction false} UploadedStep(address: Bytes -> Kappa, blobs: map<(string, Kappa), Bytes>, task: Task, payloads: seq<Payload>, i: nat)
    requires i < |payloads|
    ensures Uploaded(address, blobs, task, payloads, i + 1)
      == Uploaded(address, blobs, task, payloads, i)[(task.repository, payloads[i].kappa) := payloads[i].bytes]
  {
  }

  lemma {:induction false} LayersStep(payloads: seq<Payload>, i: nat)
    requires i < |payloads|
    ensures PayloadLayers(payloads[..i + 1]) == PayloadLayers(payloads[..i]) + [PayloadLayer(payloads[i])]
  {
    hide PayloadLayer;
  }

  lemma {:induction false} BytesStep(size: nat, payloads: seq<Payload>, i: nat)
    requires i < |payloads|
    ensures U64Of(size + PayloadBytes(payloads[..i + 1])) == SaturatingAdd(U64Of(size + PayloadBytes(payloads[..i])), U64Of(|payloads[i].bytes|))
  {
    assert payloads[..i + 1][..i] == payloads[..i];
    assert PayloadBytes(payloads[..i + 1]) == PayloadBytes(payloads[..i]) + |payloads[i].bytes|;
  }

  lemma {:induction false} Regroup(a: seq<ArtifactLayer>, b: seq<ArtifactLayer>, c: seq<ArtifactLayer>)
    ensures a + (b + c) == (a + b) + c
  {
  }

  lemma {:induction false} UploadStep(address: Bytes -> Kappa, blobs: map<(string, Kappa), Bytes>, task: Task, payloads: seq<Payload>, i: nat)
    requires i < |payloads|
    ensures var (b, l, n) := UploadState(address, blobs, task, payloads, i);
      UploadState(address, blobs, task, payloads, i + 1)
        == (b[(task.repository, payloads[i].kappa) := payloads[i].bytes], l + [PayloadLayer(payloads[i])],
            SaturatingAdd(n, U64Of(|payloads[i].bytes|)))
  {
    hide *;
    UploadedStep(address, blobs, task, payloads, i);
    UploadLayers(address, task, payloads, i);
    BytesStep(|task.archive|, payloads, i);
    UploadIs(address, blobs, task, payloads, i);
    UploadIs(address, blobs, task, payloads, i + 1);
  }

  lemma {:induction false} UploadIs(address: Bytes -> Kappa, blobs: map<(string, Kappa), Bytes>, task: Task, payloads: seq<Payload>, count: nat)
    requires count <= |payloads|
    ensures UploadState(address, blobs, task, payloads, count)
      == (Uploaded(address, blobs, task, payloads, count), [ArchiveLayer(address, task.archive)] + PayloadLayers(payloads[..count]),
          U64Of(|task.archive| + PayloadBytes(payloads[..count])))
  {
  }

  lemma {:induction false} UploadLayers(address: Bytes -> Kappa, task: Task, payloads: seq<Payload>, i: nat)
    requires i < |payloads|
    ensures [ArchiveLayer(address, task.archive)] + PayloadLayers(payloads[..i + 1])
      == [ArchiveLayer(address, task.archive)] + PayloadLayers(payloads[..i]) + [PayloadLayer(payloads[i])]
  {
    hide *;
    LayersStep(payloads, i);
    Regroup([ArchiveLayer(address, task.archive)], PayloadLayers(payloads[..i]), [PayloadLayer(payloads[i])]);
  }

  lemma {:induction false} UploadEnds(address: Bytes -> Kappa, blobs: map<(string, Kappa), Bytes>, task: Task, payloads: seq<Payload>)
    ensures UploadState(address, blobs, task, payloads, |payloads|)
      == (Uploaded(address, blobs, task, payloads, |payloads|), ManifestFor(address, PublicationOf(task, payloads)).layers,
          U64Of(|task.archive| + PayloadBytes(payloads)))
  {
    hide ArchiveLayer, PayloadLayer, Uploaded, PayloadBytes, PayloadLayers;
    assert payloads[..|payloads|] == payloads;
  }

  lemma {:induction false} EncodesOne(address: Bytes -> Kappa, p: Publication)
    ensures Encode(ManifestFor(address, p)).Ok?
  {
    hide Encode, ManifestFor;
    OneArchive(address, p);
    RoundTrip(ManifestFor(address, p));
  }

  // ---------- One push is an uninterrupted run ----------

  /** What the local store answers to the push's next step. */
  function NextRead(push: Push, store: map<Kappa, Bytes>): Choice {
    var next := if push.stage.Gather? then |push.stage.payloads| else 0;
    GoOn(if push.stage.Gather? && next < |push.task.external| && push.task.external[next] in store
         then Some(store[push.task.external[next]]) else None)
  }

  /** The system after push `t` took some steps on its own. */
  function Alone(address: Bytes -> Kappa, s: System, t: nat, store: map<Kappa, Bytes>, steps: nat): (r: System)
    requires t < |s.pushes|
    ensures |r.pushes| == |s.pushes|
  {
    if steps == 0 then s
    else
      var before := Alone(address, s, t, store, steps - 1);
      StepKeepsLength(address, before, t, NextRead(before.pushes[t], store));
      Step(address, before, t, NextRead(before.pushes[t], store))
  }

  /** Reading from a verified store is what the step system allows, so these steps are steps of a run. */
  lemma {:induction false} AloneIsARun(address: Bytes -> Kappa, s: System, t: nat, store: map<Kappa, Bytes>, steps: nat)
    requires t < |s.pushes| && Verified(address, store)
    ensures Steps(address, Alone(address, s, t, store, steps), Alone(address, s, t, store, steps + 1))
  {
    hide Step;
    AloneStep(address, s, t, store, steps);
    var before := Alone(address, s, t, store, steps);
    assert StepsBy(address, before, Alone(address, s, t, store, steps + 1), t, NextRead(before.pushes[t], store));
  }

  lemma {:induction false} StepKeepsLength(address: Bytes -> Kappa, s: System, t: nat, choice: Choice)
    requires t < |s.pushes|
    ensures |Step(address, s, t, choice).pushes| == |s.pushes|
  {
    hide Encode, ManifestFor;
  }

  lemma {:induction false} ToAgain(s: System, t: nat, a: Stage, b: Stage)
    requires t < |s.pushes|
    ensures To(To(s, t, a), t, b) == To(s, t, b) && To(s, t, a).pushes[t] == Push(s.pushes[t].task, a)
  {
    assert s.pushes[t := s.pushes[t].(stage := a)][t := s.pushes[t].(stage := b)] == s.pushes[t := s.pushes[t].(stage := b)];
  }

  ghost predicate MayPush(s: System, t: nat) {
    t < |s.pushes| && s.pushes[t].stage.CheckTag?
      && ((s.pushes[t].task.repository, s.pushes[t].task.tag) !in s.tags || s.pushes[t].task.force)
  }

  lemma {:induction false} AloneGathers(address: Bytes -> Kappa, s: System, t: nat, store: map<Kappa, Bytes>, i: nat)
    requires MayPush(s, t) && i <= |s.pushes[t].task.external| && HasAll(store, s.pushes[t].task.external[..i])
    ensures Alone(address, s, t, store, 1 + i) == To(s, t, Gather(Payloads(store, s.pushes[t].task.external[..i])))
    decreases i
  {
    hide Publish;
    var task := s.pushes[t].task;
    if i == 0 {
      assert Alone(address, s, t, store, 0) == s;
      assert Payloads(store, task.external[..0]) == [];
    } else {
      var before := Payloads(store, task.external[..i - 1]);
      assert task.external[..i][..i - 1] == task.external[..i - 1];
      assert forall j :: 0 <= j < i - 1 ==> task.external[..i - 1][j] == task.external[..i][j];
      AloneGathers(address, s, t, store, i - 1);
      hide Alone;
      AloneStep(address, s, t, store, i);
      var k := task.external[i - 1];
      assert task.external[..i][i - 1] == k;
      var after := before + [Payload(k, store[k])];
      assert Payloads(store, task.external[..i]) == after;
      ToAgain(s, t, Gather(before), Gather(after));
    }
  }

  lemma {:induction false} AloneStep(address: Bytes -> Kappa, s: System, t: nat, store: map<Kappa, Bytes>, steps: nat)
    requires t < |s.pushes|
    ensures var before := Alone(address, s, t, store, steps);
      |before.pushes| == |s.pushes| && Alone(address, s, t, store, steps + 1) == Step(address, before, t, NextRead(before.pushes[t], store))
  {
    hide Step;
  }

  /** A payload the store lacks ends the push before anything is written. */
  lemma {:induction false} AloneMisses(address: Bytes -> Kappa, s: System, t: nat, store: map<Kappa, Bytes>, i: nat)
    requires MayPush(s, t) && i < |s.pushes[t].task.external|
    requires HasAll(store, s.pushes[t].task.external[..i]) && s.pushes[t].task.external[i] !in store
    ensures Alone(address, s, t, store, 2 + i) == To(s, t, Ended(NotFound))
  {
    hide Alone, Publish;
    var gathered := Payloads(store, s.pushes[t].task.external[..i]);
    AloneGathers(address, s, t, store, i);
    AloneStep(address, s, t, store, 1 + i);
    ToAgain(s, t, Gather(gathered), Ended(NotFound));
  }

  /** The state while the payloads are being uploaded. */
  function Uploading(address: Bytes -> Kappa, s: System, t: nat, payloads: seq<Payload>, i: nat): System
    requires t < |s.pushes| && i <= |payloads|
  {
    To(s, t, PutPayload(payloads, i)).(blobs := Uploaded(address, s.blobs, s.pushes[t].task, payloads, i))
  }

  lemma {:induction false} AloneStores(address: Bytes -> Kappa, s: System, t: nat, store: map<Kappa, Bytes>)
    requires MayPush(s, t) && HasAll(store, s.pushes[t].task.external)
    ensures var payloads := Payloads(store, s.pushes[t].task.external);
      Alone(address, s, t, store, 3 + |payloads|) == Uploading(address, s, t, payloads, 0)
  {
    hide Alone, Publish;
    var task := s.pushes[t].task;
    var payloads := Payloads(store, task.external);
    var n := |payloads|;
    assert task.external[..n] == task.external;
    AloneGathers(address, s, t, store, n);
    AloneStep(address, s, t, store, 1 + n);
    ToAgain(s, t, Gather(payloads), PutArchive(payloads));
    assert Alone(address, s, t, store, 2 + n) == To(s, t, PutArchive(payloads));
    AloneStep(address, s, t, store, 2 + n);
    ToAgain(s, t, PutArchive(payloads), PutPayload(payloads, 0));
  }

  lemma {:induction false} AloneUploads(address: Bytes -> Kappa, s: System, t: nat, store: map<Kappa, Bytes>, i: nat)
    requires MayPush(s, t) && HasAll(store, s.pushes[t].task.external) && i <= |s.pushes[t].task.external|
    ensures var payloads := Payloads(store, s.pushes[t].task.external);
      |payloads| == |s.pushes[t].task.external| && Alone(address, s, t, store, 3 + |payloads| + i) == Uploading(address, s, t, payloads, i)
    decreases i
  {
    hide Alone, Publish;
    var task := s.pushes[t].task;
    var payloads := Payloads(store, task.external);
    var n := |payloads|;
    hide Step, Uploading;
    if i == 0 {
      AloneStores(address, s, t, store);
    } else {
      AloneUploads(address, s, t, store, i - 1);
      AloneStep(address, s, t, store, 3 + n + (i - 1));
      UploadingStep(address, s, t, payloads, i - 1, NextRead(Uploading(address, s, t, payloads, i - 1).pushes[t], store));
    }
  }

  lemma {:induction false} UploadingStep(address: Bytes -> Kappa, s: System, t: nat, payloads: seq<Payload>, i: nat, choice: Choice)
    requires t < |s.pushes| && i < |payloads| && choice.GoOn?
    ensures Step(address, Uploading(address, s, t, payloads, i), t, choice) == Uploading(address, s, t, payloads, i + 1)
  {
    hide Publish;
    ToAgain(s, t, PutPayload(payloads, i), PutPayload(payloads, i + 1));
    UploadedStep(address, s.blobs, s.pushes[t].task, payloads, i);
    hide Uploaded;
    var next := Uploaded(address, s.blobs, s.pushes[t].task, payloads, i + 1);
    assert To(Uploading(address, s, t, payloads, i), t, PutPayload(payloads, i + 1)).pushes == To(s, t, PutPayload(payloads, i + 1)).pushes;
  }

  lemma {:induction false} UploadedEnds(address: Bytes -> Kappa, s: System, t: nat, payloads: seq<Payload>, choice: Choice)
    requires t < |s.pushes| && choice.GoOn?
    ensures Step(address, Uploading(address, s, t, payloads, |payloads|), t, choice)
      == To(s, t, PutManifest(payloads)).(blobs := Uploaded(address, s.blobs, s.pushes[t].task, payloads, |payloads|))
  {
    hide Publish, Uploaded;
    ToAgain(s, t, PutPayload(payloads, |payloads|), PutManifest(payloads));
    assert To(Uploading(address, s, t, payloads, |payloads|), t, PutManifest(payloads)).pushes == To(s, t, PutManifest(payloads)).pushes;
  }

  /** Uninterrupted, a push that may publish and finds every payload ends published, with the registry that
      `PushArtifact` leaves when no upload fails; one that may not, or misses a payload, ends with the same error
      and an untouched registry. */
  lemma {:induction false} PushIsARun(address: Bytes -> Kappa, s: System, t: nat, store: map<Kappa, Bytes>) returns (steps: nat)
    requires t < |s.pushes| && s.pushes[t].stage.CheckTag?
    ensures var task, after := s.pushes[t].task, Alone(address, s, t, store, steps);
      && |after.pushes| == |s.pushes|
      && (!MayPush(s, t) ==> after == To(s, t, Ended(Conflict)))
      && (MayPush(s, t) && !HasAll(store, task.external) ==> after == To(s, t, Ended(NotFound)))
      && (MayPush(s, t) && HasAll(store, task.external) ==>
        var p := PublicationOf(task, Payloads(store, task.external));
        && after.pushes[t].stage.Published?
        && Encode(ManifestFor(address, p)).Ok?
        && after.tags == s.tags[(task.repository, task.tag) := Encode(ManifestFor(address, p)).value]
        && after.published == s.published[(task.repository, task.tag) := p]
        && after.blobs == Uploaded(address, s.blobs, task, p.payloads, |p.payloads|))
  {
    hide Alone, Encode, ManifestFor, Publish, Uploaded, Uploading;
    var task := s.pushes[t].task;
    if !MayPush(s, t) {
      steps := 1;
      AloneStart(address, s, t, store);
      AloneStep(address, s, t, store, 0);
    } else if !HasAll(store, task.external) {
      var missing :| 0 <= missing < |task.external| && task.external[missing] !in store;
      var i := FirstMissing(store, task.external, 0, missing);
      steps := 2 + i;
      AloneMisses(address, s, t, store, i);
    } else {
      var payloads := Payloads(store, task.external);
      var n := |payloads|;
      AloneUploads(address, s, t, store, n);
      AloneStep(address, s, t, store, 3 + n + n);
      UploadedEnds(address, s, t, payloads, NextRead(Uploading(address, s, t, payloads, n).pushes[t], store));
      AloneStep(address, s, t, store, 4 + n + n);
      steps := 5 + n + n;
      var last := To(s, t, PutManifest(payloads)).(blobs := Uploaded(address, s.blobs, task, payloads, n));
      ToAgain(s, t, PutManifest(payloads), Published);
      assert last.pushes[t] == Push(task, PutManifest(payloads));
      PublishIs(address, last, t, payloads);
    }
  }

  lemma {:induction false} AloneStart(address: Bytes -> Kappa, s: System, t: nat, store: map<Kappa, Bytes>)
    requires t < |s.pushes|
    ensures Alone(address, s, t, store, 0) == s
  {
  }

  lemma {:induction false} PublishIs(address: Bytes -> Kappa, s: System, t: nat, payloads: seq<Payload>)
    requires t < |s.pushes|
    ensures var task, after := s.pushes[t].task, Publish(address, s, t, payloads);
      var p := PublicationOf(task, payloads);
      && Encode(ManifestFor(address, p)).Ok? && |after.pushes| == |s.pushes| && after.pushes[t].stage.Published?
      && after.tags == s.tags[(task.repository, task.tag) := Encode(ManifestFor(address, p)).value] && after.blobs == s.blobs
      && after.published == s.published[(task.repository, task.tag) := p]
  {
    hide Encode, ManifestFor;
    EncodesOne(address, PublicationOf(s.pushes[t].task, payloads));
  }

  lemma {:induction false} FirstMissing(store: map<Kappa, Bytes>, external: seq<Kappa>, from: nat, missing: nat) returns (i: nat)
    requires from <= missing < |external| && HasAll(store, external[..from]) && external[missing] !in store
    ensures i < |external| && HasAll(store, external[..i]) && external[i] !in store
    decreases missing - from
  {
    if external[from] !in store {
      i := from;
    } else {
      assert external[..from + 1] == external[..from] + [external[from]];
      i := FirstMissing(store, external, from + 1, missing);
    }
  }
}
