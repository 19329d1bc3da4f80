/** The planner's memoising content resolver (src/application_plan.rs:627-738). */
module Resolver {
  import opened Basics
  import opened Upstream

  datatype ResolutionSource = Embedded | LocalStore

  datatype ManifestEdge =
    | RequiredCapabilities
    | LayerEdge(position: U32)
    | ChildApplication(parent: Kappa, position: U32)
    | DelegatedCapabilities(parent: Kappa, position: U32)
    | ChildRequiredCapabilities(application: Kappa)
    | ChildLayer(application: Kappa, position: U32)

  datatype Limit = LayerLimit | ApplicationLimit | DepthLimit | ObjectLimit | ByteLimit

  datatype PlanBlocker =
    | MissingObject(kappa: Kappa, edge: ManifestEdge)
    | ContentMismatch(kappa: Kappa, edge: ManifestEdge, source: ResolutionSource)
    | InvalidCapabilitySet(kappa: Kappa)
    | ProviderUnavailable(application: Kappa, position: U32, reason: string)
    | InvalidChildManifest(kappa: Kappa, edge: ManifestEdge)
    | ChildCycle(path: seq<Kappa>)
    | LimitExceeded(limit: Limit, maximum: U64, actual: U64, at: Option<ManifestEdge>)
    | LibraryArchive

  datatype PlanLimits = PlanLimits(
    maxLayers: USize, maxApplications: USize, maxDepth: USize, maxObjects: USize, maxResolvedBytes: U64)

  datatype ResolvedObject = ResolvedObject(kappa: Kappa, bytes: Bytes, source: ResolutionSource)

  datatype ResolutionFailure = Missing | Mismatch(source: ResolutionSource)

  /** Where content may come from: the archive's own blobs first, then the local store. The local resolver
      is a function of the label because no label reaches it twice (ResolveAllKeeps). */
  datatype Sources = Sources(
    up: Crates, embedded: map<Kappa, Bytes>, local: Kappa -> Result<Option<Bytes>>, limits: PlanLimits)

  /** `queries` is the log of calls to the local resolver. */
  datatype State = State(
    referenced: set<Kappa>, failures: map<Kappa, ResolutionFailure>, objects: map<Kappa, ResolvedObject>,
    blockers: seq<PlanBlocker>, resolvedBytes: U64, embeddedCount: nat, halted: bool, queries: multiset<Kappa>)

  const INITIAL := State({}, map[], map[], [], 0, 0, false, multiset{})

  datatype Answer = Answer(state: State, resolved: Option<ResolvedObject>)

  function FailureBlocker(failure: ResolutionFailure, kappa: Kappa, edge: ManifestEdge): PlanBlocker {
    match failure
    case Missing => MissingObject(kappa, edge)
    case Mismatch(source) => ContentMismatch(kappa, edge, source)
  }

  function Block(s: State, blocker: PlanBlocker): State {
    s.(blockers := s.blockers + [blocker])
  }

  function Fail(s: State, kappa: Kappa, failure: ResolutionFailure, edge: ManifestEdge): State {
    Block(s.(failures := s.failures[kappa := failure]), FailureBlocker(failure, kappa, edge))
  }

  /** The content a label denotes for this planner, and where it comes from. */
  function Lookup(env: Sources, kappa: Kappa): Result<Option<Bytes>> {
    if kappa in env.embedded then Ok(Some(env.embedded[kappa])) else env.local(kappa)
  }

  function SourceOf(env: Sources, kappa: Kappa): ResolutionSource {
    if kappa in env.embedded then Embedded else LocalStore
  }

  /** Count one more referenced label. */
  function Reference(env: Sources, s: State, kappa: Kappa): State {
    if kappa in s.referenced then s
    else s.(referenced := s.referenced + {kappa},
            embeddedCount := if kappa in env.embedded then s.embeddedCount + 1 else s.embeddedCount)
  }

  /** Count the label and, when the archive does not hold it, query the local resolver. */
  function Ask(env: Sources, s: State, kappa: Kappa): State {
    var s1 := Reference(env, s, kappa);
    if kappa in env.embedded then s1 else s1.(queries := s1.queries + multiset{kappa})
  }

  /** Check and record the bytes found for a label. */
  function Accept(env: Sources, s: State, kappa: Kappa, edge: ManifestEdge, found: Option<Bytes>): Answer {
    var source := SourceOf(env, kappa);
    if found.None? then Answer(Fail(s, kappa, Missing, edge), None)
    else
      var bytes := found.value;
      if env.up.address(bytes) != kappa then Answer(Fail(s, kappa, Mismatch(source), edge), None)
      else
        var total := SaturatingAdd(s.resolvedBytes, U64Of(|bytes|));
        if total > env.limits.maxResolvedBytes then
          Answer(Block(s, LimitExceeded(ByteLimit, env.limits.maxResolvedBytes, total, Some(edge))).(halted := true), None)
        else
          var resolved := ResolvedObject(kappa, bytes, source);
          Answer(s.(resolvedBytes := total, objects := s.objects[kappa := resolved]), Some(resolved))
  }

  /** The label is already resolved or failed, or no further label may be looked up. */
  predicate Settled(env: Sources, s: State, kappa: Kappa) {
    kappa in s.objects || kappa in s.failures || s.halted
    || (kappa !in s.referenced && |s.referenced| + 1 > env.limits.maxObjects)
  }

  /** The answer for a settled label, given without looking anything up. */
  function Recall(env: Sources, s: State, kappa: Kappa, edge: ManifestEdge): Answer
    requires Settled(env, s, kappa)
  {
    if kappa in s.objects then Answer(s, Some(s.objects[kappa]))
    else if kappa in s.failures then Answer(Block(s, FailureBlocker(s.failures[kappa], kappa, edge)), None)
    else if s.halted then Answer(s, None)
    else
      var blocker := LimitExceeded(ObjectLimit, env.limits.maxObjects, U64Of(|s.referenced| + 1), Some(edge));
      Answer(Block(s, blocker).(halted := true), None)
  }

  /** `ClosureResolver::resolve` as a function of the resolver's state. */
  function Resolution(env: Sources, s: State, kappa: Kappa, edge: ManifestEdge): Result<Answer> {
    if Settled(env, s, kappa) then Ok(Recall(env, s, kappa, edge))
    else
      var found :- Lookup(env, kappa);
      Ok(Accept(env, Ask(env, s, kappa), kappa, edge, found))
  }

  ghost predicate ObjectMatches(env: Sources, kappa: Kappa, resolved: ResolvedObject) {
    && resolved.kappa == kappa
    && resolved.source == SourceOf(env, kappa)
    && Lookup(env, kappa) == Ok(Some(resolved.bytes))
    && env.up.address(resolved.bytes) == kappa
  }

  /** Every referenced label is resolved or failed, never both, until the resolver halts; failing and
      halting are always explained by a blocker; and resolved bytes are exactly what the sources hold. */
  ghost predicate Invariant(env: Sources, s: State) {
    && (forall k :: k in s.objects ==> k in s.referenced && k !in s.failures && ObjectMatches(env, k, s.objects[k]))
    && (forall k :: k in s.failures ==> k in s.referenced && s.blockers != [])
    && (s.halted ==> s.blockers != [])
    && (!s.halted ==> forall k :: k in s.referenced ==> k in s.objects || k in s.failures)
  }

  /** Nothing recorded is ever lost or rewritten. */
  ghost predicate Grows(s: State, t: State) {
    && s.referenced <= t.referenced
    && s.blockers <= t.blockers
    && (s.halted ==> t.halted)
    && (forall k :: k in s.objects ==> k in t.objects && t.objects[k] == s.objects[k])
    && (forall k :: k in s.failures ==> k in t.failures && t.failures[k] == s.failures[k])
  }

  lemma {:induction false} AcceptKeeps(env: Sources, s: State, kappa: Kappa, edge: ManifestEdge, found: Option<Bytes>)
    requires !s.halted && kappa in s.referenced && kappa !in s.objects && kappa !in s.failures
    requires forall k :: k in s.objects ==> k in s.referenced && k !in s.failures && ObjectMatches(env, k, s.objects[k])
    requires forall k :: k in s.failures ==> k in s.referenced && s.blockers != []
    requires forall k :: k in s.referenced && k != kappa ==> k in s.objects || k in s.failures
    requires Lookup(env, kappa) == Ok(found)
    ensures Invariant(env, Accept(env, s, kappa, edge, found).state)
  {
  }

  lemma {:induction false} AcceptGrows(env: Sources, s: State, kappa: Kappa, edge: ManifestEdge, found: Option<Bytes>)
    requires !s.halted && kappa in s.referenced && kappa !in s.objects && kappa !in s.failures
    ensures var r := Accept(env, s, kappa, edge, found);
      && Grows(s, r.state)
      && (r.resolved.None? ==> r.state.blockers != [])
      && (r.resolved.Some? ==>
        r.state.blockers == s.blockers && kappa in r.state.objects && r.resolved.value == r.state.objects[kappa])
  {
  }

  /** One call keeps the invariant, only adds, and a missing answer is always explained by a blocker. */
  lemma {:induction false} ResolveKeeps(env: Sources, s: State, kappa: Kappa, edge: ManifestEdge)
    requires Invariant(env, s)
    ensures var r := Resolution(env, s, kappa, edge);
      r.Ok? ==>
        && Invariant(env, r.value.state)
        && Grows(s, r.value.state)
        && (r.value.resolved.None? ==> r.value.state.blockers != [])
        && (r.value.resolved.Some? ==>
          && r.value.state.blockers == s.blockers
          && kappa in r.value.state.objects
          && r.value.resolved.value == r.value.state.objects[kappa])
  {
    if !Settled(env, s, kappa) {
      var t := Ask(env, s, kappa);
      if Lookup(env, kappa).Ok? {
        AcceptKeeps(env, t, kappa, edge, Lookup(env, kappa).value);
        AcceptGrows(env, t, kappa, edge, Lookup(env, kappa).value);
      }
    }
  }

  /** Total size of the resolved objects, each counted once. */
  ghost function TotalBytes(objects: map<Kappa, ResolvedObject>): nat
    decreases |objects|
  {
    if objects == map[] then 0
    else
      var k :| k in objects;
      |objects[k].bytes| + TotalBytes(objects - {k})
  }

  lemma {:induction false} TotalBytesRemove(objects: map<Kappa, ResolvedObject>, k: Kappa)
    requires k in objects
    ensures TotalBytes(objects) == |objects[k].bytes| + TotalBytes(objects - {k})
    decreases |objects|
  {
    var j :| j in objects && TotalBytes(objects) == |objects[j].bytes| + TotalBytes(objects - {j});
    if j != k {
      TotalBytesRemove(objects - {j}, k);
      TotalBytesRemove(objects - {k}, j);
      assert objects - {j} - {k} == objects - {k} - {j};
    }
  }

  lemma {:induction false} TotalBytesInsert(objects: map<Kappa, ResolvedObject>, k: Kappa, resolved: ResolvedObject)
    requires k !in objects
    ensures TotalBytes(objects[k := resolved]) == TotalBytes(objects) + |resolved.bytes|
  {
    TotalBytesRemove(objects[k := resolved], k);
    assert objects[k := resolved] - {k} == objects;
  }

  lemma {:induction false} CountInsert(r: set<Kappa>, e: set<Kappa>, k: Kappa)
    requires k !in r
    ensures |r + {k}| == |r| + 1
    ensures |(r + {k}) * e| == |r * e| + if k in e then 1 else 0
    ensures multiset((r + {k}) - e) == multiset(r - e) + if k in e then multiset{} else multiset{k}
  {
    if k in e {
      assert (r + {k}) * e == r * e + {k};
      assert (r + {k}) - e == r - e;
    } else {
      assert (r + {k}) * e == r * e;
      assert (r + {k}) - e == (r - e) + {k};
    }
  }

  /** The counters are exact and within their limits, and every label outside the archive was asked of the
      local resolver exactly once. */
  ghost predicate Accounting(env: Sources, s: State) {
    && |s.referenced| <= env.limits.maxObjects
    && s.embeddedCount == |s.referenced * env.embedded.Keys|
    && s.queries == multiset(s.referenced - env.embedded.Keys)
  }

  ghost predicate ByteAccounting(env: Sources, s: State) {
    && s.resolvedBytes == U64Of(TotalBytes(s.objects))
    && s.resolvedBytes <= env.limits.maxResolvedBytes
  }

  lemma {:induction false} RecallKeepsTables(env: Sources, s: State, kappa: Kappa, edge: ManifestEdge)
    requires Settled(env, s, kappa)
    ensures var t := Recall(env, s, kappa, edge).state;
      t == s.(blockers := t.blockers, halted := t.halted)
  {
  }

  lemma {:induction false} AcceptKeepsCounts(env: Sources, s: State, kappa: Kappa, edge: ManifestEdge, found: Option<Bytes>)
    ensures var t := Accept(env, s, kappa, edge, found).state;
      t.referenced == s.referenced && t.embeddedCount == s.embeddedCount && t.queries == s.queries
  {
  }

  lemma {:induction false} AcceptAccountsBytes(env: Sources, s: State, kappa: Kappa, edge: ManifestEdge, found: Option<Bytes>)
    requires ByteAccounting(env, s) && kappa !in s.objects
    ensures ByteAccounting(env, Accept(env, s, kappa, edge, found).state)
  {
    if found.Some? {
      TotalBytesInsert(s.objects, kappa, ResolvedObject(kappa, found.value, SourceOf(env, kappa)));
    }
  }

  lemma {:induction false} AskAccounts(env: Sources, s: State, kappa: Kappa)
    requires Accounting(env, s) && kappa !in s.referenced && |s.referenced| + 1 <= env.limits.maxObjects
    ensures Accounting(env, Ask(env, s, kappa))
  {
    CountInsert(s.referenced, env.embedded.Keys, kappa);
  }

  lemma {:induction false} ResolveAccounts(env: Sources, s: State, kappa: Kappa, edge: ManifestEdge)
    requires Invariant(env, s) && Accounting(env, s)
    ensures var r := Resolution(env, s, kappa, edge); r.Ok? ==> Accounting(env, r.value.state)
  {
    if Settled(env, s, kappa) {
      RecallKeepsTables(env, s, kappa, edge);
    } else {
      AskAccounts(env, s, kappa);
      if Lookup(env, kappa).Ok? {
        AcceptKeepsCounts(env, Ask(env, s, kappa), kappa, edge, Lookup(env, kappa).value);
      }
    }
  }

  lemma {:induction false} ResolveAccountsBytes(env: Sources, s: State, kappa: Kappa, edge: ManifestEdge)
    requires ByteAccounting(env, s)
    ensures var r := Resolution(env, s, kappa, edge); r.Ok? ==> ByteAccounting(env, r.value.state)
  {
    if Settled(env, s, kappa) {
      RecallKeepsTables(env, s, kappa, edge);
    } else if Lookup(env, kappa).Ok? {
      AcceptAccountsBytes(env, Ask(env, s, kappa), kappa, edge, Lookup(env, kappa).value);
    }
  }

  datatype Call = Call(kappa: Kappa, edge: ManifestEdge)

  function ResolveAll(env: Sources, s: State, calls: seq<Call>): Result<State>
    decreases |calls|
  {
    if calls == [] then Ok(s)
    else
      var a :- Resolution(env, s, calls[0].kappa, calls[0].edge);
      ResolveAll(env, a.state, calls[1..])
  }

  /** Over any sequence of calls the tables stay consistent, counts and bytes stay exact and bounded, and
      no label reaches the local resolver twice. */
  lemma {:induction false} ResolveAllKeeps(env: Sources, s: State, calls: seq<Call>)
    requires Invariant(env, s) && Accounting(env, s) && ByteAccounting(env, s)
    ensures var r := ResolveAll(env, s, calls);
      r.Ok? ==>
        && Invariant(env, r.value) && Accounting(env, r.value) && ByteAccounting(env, r.value)
        && (forall k :: r.value.queries[k] <= 1)
        && (env.limits.maxResolvedBytes < U64_MAX ==> r.value.resolvedBytes == TotalBytes(r.value.objects))
    decreases |calls|
  {
    if calls != [] {
      var a := Resolution(env, s, calls[0].kappa, calls[0].edge);
      ResolveKeeps(env, s, calls[0].kappa, calls[0].edge);
      ResolveAccounts(env, s, calls[0].kappa, calls[0].edge);
      ResolveAccountsBytes(env, s, calls[0].kappa, calls[0].edge);
      if a.Ok? {
        ResolveAllKeeps(env, a.value.state, calls[1..]);
      }
    }
  }

  lemma {:induction false} InitialKeeps(env: Sources)
    ensures Invariant(env, INITIAL) && Accounting(env, INITIAL) && ByteAccounting(env, INITIAL)
  {
    assert {} * env.embedded.Keys == {} && {} - env.embedded.Keys == {};
  }

  /** The resolver as the program keeps it: tables and counters updated in place. */
  class ClosureResolver {
    const env: Sources
    var referenced: set<Kappa>
    var failures: map<Kappa, ResolutionFailure>
    var objects: map<Kappa, ResolvedObject>
    var blockers: seq<PlanBlocker>
    var resolvedBytes: U64
    var embeddedCount: nat
    var halted: bool
    ghost var queries: multiset<Kappa>

    ghost function Value(): State
      reads this
    {
      State(referenced, failures, objects, blockers, resolvedBytes, embeddedCount, halted, queries)
    }

    constructor (env: Sources)
      ensures Value() == INITIAL && this.env == env
    {
      this.env := env;
      referenced, failures, objects, blockers := {}, map[], map[], [];
      resolvedBytes, embeddedCount, halted, queries := 0, 0, false, multiset{};
    }

    method Resolve(kappa: Kappa, edge: ManifestEdge) returns (r: Result<Option<ResolvedObject>>)
      modifies this
      ensures var answer := Resolution(env, old(Value()), kappa, edge);
        && (answer.Ok? ==> r == Ok(answer.value.resolved) && Value() == answer.value.state)
        && (answer.Err? ==> r == Err(answer.error))
    {
      if kappa in objects {
        return Ok(Some(objects[kappa]));
      }
      if kappa in failures {
        blockers := blockers + [FailureBlocker(failures[kappa], kappa, edge)];
        return Ok(None);
      }
      if halted {
        return Ok(None);
      }
      if kappa !in referenced {
        var actual := |referenced| + 1;
        if actual > env.limits.maxObjects {
          blockers := blockers + [LimitExceeded(ObjectLimit, env.limits.maxObjects, U64Of(actual), Some(edge))];
          halted := true;
          return Ok(None);
        }
        referenced := referenced + {kappa};
        if kappa in env.embedded {
          embeddedCount := embeddedCount + 1;
        }
      }
      var bytes, source;
      if kappa in env.embedded {
        bytes, source := Some(env.embedded[kappa]), Embedded;
      } else {
        queries := queries + multiset{kappa};
        var found := env.local(kappa);
        if found.Err? {
          return Err(found.error);
        }
        bytes, source := found.value, LocalStore;
      }
      assert Value() == Ask(env, old(Value()), kappa);
      r := Record(kappa, edge, bytes, source);
    }

    /** The checks after the bytes are known (src/application_plan.rs:694-736). */
    method Record(kappa: Kappa, edge: ManifestEdge, found: Option<Bytes>, source: ResolutionSource)
      returns (r: Result<Option<ResolvedObject>>)
      requires source == SourceOf(env, kappa)
      modifies this
      ensures var answer := Accept(env, old(Value()), kappa, edge, found);
        r == Ok(answer.resolved) && Value() == answer.state
    {
      if found.None? {
        failures := failures[kappa := Missing];
        blockers := blockers + [MissingObject(kappa, edge)];
        return Ok(None);
      }
      var bytes := found.value;
      if env.up.address(bytes) != kappa {
        failures := failures[kappa := Mismatch(source)];
        blockers := blockers + [ContentMismatch(kappa, edge, source)];
        return Ok(None);
      }
      var total := SaturatingAdd(resolvedBytes, U64Of(|bytes|));
      if total > env.limits.maxResolvedBytes {
        blockers := blockers + [LimitExceeded(ByteLimit, env.limits.maxResolvedBytes, total, Some(edge))];
        halted := true;
        return Ok(None);
      }
      resolvedBytes := total;
      var resolved := ResolvedObject(kappa, bytes, source);
      objects := objects[kappa := resolved];
      return Ok(Some(resolved));
    }
  }
}
