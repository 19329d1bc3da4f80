/** Bounded resolution of typed storage graphs (src/holo_graph.rs). */
module StorageGraph {
  import opened Basics
  import opened BreadthFirst

  /** The local store, the content address and the registered realizations: each registered name has an
      extractor that lists an object's references or rejects it. */
  datatype Storage = Storage(
    get: Kappa -> Option<Bytes>,
    address: Bytes -> Kappa,
    registry: map<Bytes, Bytes -> Option<seq<Kappa>>>)

  datatype Limits = Limits(maxDepth: USize, maxObjects: USize, maxEdges: USize, maxBytes: U64)

  datatype Closure = Closure(readable: seq<Kappa>, edgeCount: nat, resolvedBytes: nat, maxDepth: nat)

  // ---------- Frames ----------

  const KappaLabelBytes: nat := 71

  /** `u32::from_le_bytes` */
  function FromLe(b: Bytes): U32
    requires |b| == 4
  {
    var low: int, mid: int, high: int, top: int := b[0], b[1], b[2], b[3];
    low + 0x100 * mid + 0x1_0000 * high + 0x100_0000 * top
  }

  function ToLe(n: U32): (b: Bytes)
    ensures |b| == 4
  {
    [n % 0x100, n / 0x100 % 0x100, n / 0x1_0000 % 0x100, n / 0x100_0000]
  }

  lemma {:induction false} LeRoundTrip(n: U32)
    ensures FromLe(ToLe(n)) == n
  {
    var a: int, b: int, c: int := n / 0x100, n / 0x1_0000, n / 0x100_0000;
    assert n == 0x100 * a + n % 0x100;
    assert a == 0x100 * b + a % 0x100;
    assert b == 0x100 * c + b % 0x100;
  }

  lemma {:induction false} LeUnique(b: Bytes)
    requires |b| == 4
    ensures ToLe(FromLe(b)) == b
  {
    var n: int, mid: int, high: int, top: int := FromLe(b), b[1], b[2], b[3];
    assert n % 0x100 == b[0];
    assert n / 0x100 == mid + 0x100 * high + 0x1_0000 * top;
    assert n / 0x100 % 0x100 == mid;
    assert n / 0x1_0000 == high + 0x100 * top;
    assert n / 0x1_0000 % 0x100 == high;
  }

  /** `read_u32`: the number and the cursor after it. */
  function ReadU32(bytes: Bytes, cursor: nat): Option<(U32, nat)> {
    if cursor + 4 <= |bytes| then Some((FromLe(bytes[cursor..cursor + 4]), cursor + 4)) else None
  }

  /** `validate_canonical_frame` */
  method ValidateCanonicalFrame(bytes: Bytes, nul: nat, references: nat) returns (ok: bool)
    requires nul < |bytes|
    ensures ok <==> Framed(bytes, nul, references)
  {
    FramedIff(bytes, nul, references);
    var cursor := nul + 1;
    var count := ReadU32(bytes, cursor);
    if count.None? {
      return false;
    }
    cursor := count.value.1;
    if count.value.0 != references {
      return false;
    }
    cursor := cursor + count.value.0 * KappaLabelBytes;
    var payload := ReadU32(bytes, cursor);
    if payload.None? {
      return false;
    }
    cursor := payload.value.1;
    return cursor + payload.value.0 == |bytes|;
  }

  /** After the terminated name: the reference count, that many labels, the payload length and the payload, and
      nothing else. */
  ghost predicate FrameIs(bytes: Bytes, nul: nat, references: nat, labels: Bytes, payload: Bytes)
  {
    && nul < |bytes| && references <= U32_MAX && |payload| <= U32_MAX
    && |labels| == references * 71
    && bytes == bytes[..nul + 1] + ToLe(references) + labels + ToLe(|payload|) + payload
  }

  ghost predicate Framed(bytes: Bytes, nul: nat, references: nat) {
    exists labels, payload :: FrameIs(bytes, nul, references, labels, payload)
  }

  /** The check by cursor. */
  predicate FrameFits(bytes: Bytes, nul: nat, references: nat) {
    match ReadU32(bytes, nul + 1)
    case None => false
    case Some((count, cursor)) =>
      count == references &&
      match ReadU32(bytes, cursor + count * KappaLabelBytes)
      case None => false
      case Some((length, start)) => start + length == |bytes|
  }

  lemma {:induction false} FramedIff(bytes: Bytes, nul: nat, references: nat)
    requires nul < |bytes|
    ensures Framed(bytes, nul, references) <==> FrameFits(bytes, nul, references)
  {
    if FrameFits(bytes, nul, references) {
      FrameFitsIsFramed(bytes, nul, references);
    }
    if Framed(bytes, nul, references) {
      var labels, payload :| FrameIs(bytes, nul, references, labels, payload);
      FramedFits(bytes, nul, references, labels, payload);
    }
  }

  lemma {:induction false} FramedFits(bytes: Bytes, nul: nat, references: nat, labels: Bytes, payload: Bytes)
    requires FrameIs(bytes, nul, references, labels, payload)
    ensures FrameFits(bytes, nul, references)
  {
    hide ToLe, FromLe;
    var a, b := nul + 1, nul + 5 + |labels|;
    assert bytes[a..a + 4] == ToLe(references);
    assert bytes[b..b + 4] == ToLe(|payload|);
    LeRoundTrip(references);
    LeRoundTrip(|payload|);
  }

  lemma {:induction false} FrameFitsIsFramed(bytes: Bytes, nul: nat, references: nat)
    requires nul < |bytes| && FrameFits(bytes, nul, references)
    ensures Framed(bytes, nul, references)
  {
    hide ToLe, FromLe;
    var a := nul + 1;
    var b := a + 4 + references * KappaLabelBytes;
    var labels, payload := bytes[a + 4..b], bytes[b + 4..];
    LeUnique(bytes[a..a + 4]);
    LeUnique(bytes[b..b + 4]);
    SplitFive(bytes, a, b);
    assert ToLe(references) == bytes[a..a + 4] && ToLe(|payload|) == bytes[b..b + 4];
    assert FrameIs(bytes, nul, references, labels, payload);
  }

  lemma {:induction false} SplitFive(bytes: Bytes, a: nat, b: nat)
    requires a + 4 <= b && b + 4 <= |bytes|
    ensures bytes == bytes[..a] + bytes[a..a + 4] + bytes[a + 4..b] + bytes[b..b + 4] + bytes[b + 4..]
  {
    assert bytes[..b] == bytes[..a] + bytes[a..a + 4] + bytes[a + 4..b];
    assert bytes == bytes[..b] + bytes[b..b + 4] + bytes[b + 4..];
  }

  /** The position of the first zero byte. */
  function FirstZero(bytes: Bytes, from: nat): (r: Option<nat>)
    requires from <= |bytes|
    ensures r.Some? ==> from <= r.value < |bytes| && bytes[r.value] == 0
    ensures forall i :: from <= i < (if r.Some? then r.value else |bytes|) ==> bytes[i] != 0
    decreases |bytes| - from
  {
    if from == |bytes| then None else if bytes[from] == 0 then Some(from) else FirstZero(bytes, from + 1)
  }

  /** `typed_references`: `None` is a malformed realization; untyped and unknown objects have no references. */
  function TypedReferences(s: Storage, bytes: Bytes): Option<seq<Kappa>> {
    match FirstZero(bytes, 0)
    case None => Some([])
    case Some(nul) =>
      if bytes[..nul] !in s.registry then Some([])
      else
        match s.registry[bytes[..nul]](bytes)
        case None => None
        case Some(references) => if FrameFits(bytes, nul, |references|) then Some(references) else None
  }

  /** A typed object is accepted exactly when its extractor answers and it is framed for that many references;
      the frame can then be read in one way only. What the labels between the count and the payload spell is up
      to the extractor, which is upstream. */
  lemma {:induction false} AcceptedIsFramed(s: Storage, bytes: Bytes, nul: nat)
    requires FirstZero(bytes, 0) == Some(nul) && bytes[..nul] in s.registry
    ensures var extracted := s.registry[bytes[..nul]](bytes);
      && (TypedReferences(s, bytes).Some? <==> extracted.Some? && Framed(bytes, nul, |extracted.value|))
      && (TypedReferences(s, bytes).Some? ==> TypedReferences(s, bytes) == extracted)
    ensures forall references, more, labels, other, payload, rest ::
      FrameIs(bytes, nul, references, labels, payload) && FrameIs(bytes, nul, more, other, rest) ==>
        references == more && labels == other && payload == rest
  {
    var extracted := s.registry[bytes[..nul]](bytes);
    if extracted.Some? {
      FramedIff(bytes, nul, |extracted.value|);
    }
    forall references, more, labels, other, payload, rest |
      FrameIs(bytes, nul, references, labels, payload) && FrameIs(bytes, nul, more, other, rest)
      ensures references == more && labels == other && payload == rest
    {
      FrameUnique(bytes, nul, references, labels, payload, more, other, rest);
    }
  }

  /** A frame can be read in one way only. */
  lemma {:induction false} FrameUnique(bytes: Bytes, nul: nat, references: nat, labels: Bytes, payload: Bytes,
      more: nat, other: Bytes, rest: Bytes)
    requires FrameIs(bytes, nul, references, labels, payload) && FrameIs(bytes, nul, more, other, rest)
    ensures references == more && labels == other && payload == rest
  {
    hide ToLe, FromLe;
    LeRoundTrip(references);
    LeRoundTrip(more);
    var a := nul + 1;
    assert ToLe(references) == bytes[a..a + 4] == ToLe(more);
    var b := a + 4 + |labels|;
    assert labels == bytes[a + 4..b] == other;
    assert payload == bytes[b + 4..] == rest;
  }

  /** The object's name ends at its first zero byte. */
  ghost predicate NameEnds(bytes: Bytes, nul: nat) {
    nul < |bytes| && bytes[nul] == 0 && forall i :: 0 <= i < nul ==> bytes[i] != 0
  }

  /** The object carries no registered name: it has no zero byte, or what precedes the first one is unknown. */
  ghost predicate Untyped(s: Storage, bytes: Bytes) {
    forall nul: nat :: NameEnds(bytes, nul) ==> bytes[..nul] !in s.registry
  }

  /** The object is named, its extractor lists these references, and it is framed for that many. */
  ghost predicate Typed(s: Storage, bytes: Bytes, nul: nat, references: seq<Kappa>) {
    && NameEnds(bytes, nul) && bytes[..nul] in s.registry
    && s.registry[bytes[..nul]](bytes) == Some(references) && Framed(bytes, nul, |references|)
  }

  /** What an object refers to: an untyped one is a leaf. */
  ghost predicate Refers(s: Storage, bytes: Bytes, references: seq<Kappa>) {
    (Untyped(s, bytes) && references == []) || exists nul: nat :: Typed(s, bytes, nul, references)
  }

  lemma {:induction false} FirstZeroIs(bytes: Bytes, nul: nat)
    ensures FirstZero(bytes, 0) == Some(nul) <==> NameEnds(bytes, nul)
  {
  }

  /** The references of every byte string: a leaf, an accepted typed object, or none at all when malformed. */
  lemma {:induction false} TypedReferencesAre(s: Storage, bytes: Bytes, references: seq<Kappa>)
    ensures TypedReferences(s, bytes) == Some(references) <==> Refers(s, bytes, references)
  {
    hide FrameFits, Framed;
    forall nul: nat
      ensures FirstZero(bytes, 0) == Some(nul) <==> NameEnds(bytes, nul)
    {
      FirstZeroIs(bytes, nul);
    }
    hide FirstZero, NameEnds;
    if FirstZero(bytes, 0).Some? {
      var nul := FirstZero(bytes, 0).value;
      assert NameEnds(bytes, nul);
      NameLength(bytes, nul);
      FramedIff(bytes, nul, |references|);
      if Typed(s, bytes, nul, references) {
        assert Refers(s, bytes, references);
      }
    }
  }

  lemma {:induction false} NameLength(bytes: Bytes, nul: nat)
    requires NameEnds(bytes, nul)
    ensures nul < |bytes|
  {
  }

  // ---------- The search ----------

  /** Present, stored under its own address, and well framed if typed. */
  predicate Good(s: Storage, k: Kappa) {
    s.get(k).Some? && s.address(s.get(k).value) == k && TypedReferences(s, s.get(k).value).Some?
  }

  function References(s: Storage, k: Kappa): seq<Kappa> {
    if Good(s, k) then TypedReferences(s, s.get(k).value).value else []
  }

  function Size(s: Storage, k: Kappa): nat {
    if s.get(k).Some? then |s.get(k).value| else 0
  }

  /** Over all stores: an object is good exactly when it is present, stored under its own address, and refers to
      something definite; then those are its references. */
  lemma {:induction false} GoodIff(s: Storage, k: Kappa)
    ensures Good(s, k) <==>
      s.get(k).Some? && s.address(s.get(k).value) == k && exists references :: Refers(s, s.get(k).value, references)
    ensures Good(s, k) ==> forall references :: Refers(s, s.get(k).value, references) <==> references == References(s, k)
    ensures !Good(s, k) ==> References(s, k) == []
  {
    hide TypedReferences, Refers;
    if s.get(k).Some? {
      var bytes := s.get(k).value;
      forall references
        ensures TypedReferences(s, bytes) == Some(references) <==> Refers(s, bytes, references)
      {
        TypedReferencesAre(s, bytes, references);
      }
      if TypedReferences(s, bytes).Some? {
        assert Refers(s, bytes, TypedReferences(s, bytes).value);
      }
    }
  }

  function WebOf(s: Storage, roots: seq<Kappa>): Web {
    Web(k => References(s, k), roots)
  }

  function BytesOf(s: Storage): Kappa -> nat {
    k => Size(s, k)
  }

  function EdgesOf(s: Storage): Kappa -> nat {
    k => |References(s, k)|
  }

  ghost predicate ValidLimits(roots: seq<Kappa>, limits: Limits) {
    roots != [] && limits.maxObjects > 0 && limits.maxEdges > 0 && limits.maxBytes > 0
  }

  /** The condition for success on the order up to the depth limit. */
  ghost predicate Fits(s: Storage, roots: seq<Kappa>, limits: Limits) {
    var w := WebOf(s, roots);
    var all := Order(w, limits.maxDepth);
    && (forall k :: k in all ==> Good(s, k))
    && |all| <= limits.maxObjects
    && Sum(BytesOf(s), all) <= limits.maxBytes
    && Sum(EdgesOf(s), all) <= limits.maxEdges
    && Flat(w, Level(w, limits.maxDepth)) == []
  }

  /** The search is at level `d`: `near` is what is left of it and `far` is what is known of the next. */
  ghost predicate Searching(s: Storage, roots: seq<Kappa>, limits: Limits, d: nat, near: seq<Kappa>, far: seq<Kappa>,
                            readable: seq<Kappa>) {
    var w := WebOf(s, roots);
    && d <= limits.maxDepth
    && Extend(readable, near) == Order(w, d)
    && |Before(w, d)| <= |readable|
    && far == Flat(w, readable[|Before(w, d)|..])
    && (far != [] ==> d < limits.maxDepth)
  }

  ghost predicate Accounted(s: Storage, limits: Limits, readable: seq<Kappa>, edges: nat, bytes: nat) {
    && (forall k :: k in readable ==> Good(s, k))
    && |readable| <= limits.maxObjects
    && bytes == Sum(BytesOf(s), readable) <= limits.maxBytes
    && edges == Sum(EdgesOf(s), readable) <= limits.maxEdges
  }

  /** The greatest distance met so far. */
  ghost predicate Deepest(s: Storage, roots: seq<Kappa>, d: nat, readable: seq<Kappa>, observed: nat) {
    var w := WebOf(s, roots);
    if readable == [] then d == 0 && observed == 0
    else if |readable| > |Before(w, d)| then observed == d
    else d > 0 && observed == d - 1 && Level(w, d - 1) != []
  }

  lemma {:induction false} SearchStarts(s: Storage, roots: seq<Kappa>, limits: Limits)
    ensures Searching(s, roots, limits, 0, roots, [], [])
    ensures Deepest(s, roots, 0, [], 0)
  {
    hide Order, Flat;
    var w := WebOf(s, roots);
    OrderZero(w);
    BeforeNone(w);
    FlatEmpty(w, []);
  }

  /** The level is done: go one deeper. */
  lemma {:induction false} SearchDescends(s: Storage, roots: seq<Kappa>, limits: Limits, d: nat, far: seq<Kappa>, readable: seq<Kappa>, observed: nat)
    requires Searching(s, roots, limits, d, [], far, readable) && far != [] && Deepest(s, roots, d, readable, observed)
    ensures Searching(s, roots, limits, d + 1, far, [], readable) && Deepest(s, roots, d + 1, readable, observed)
  {
    hide Order, Flat, Level, Before;
    var w := WebOf(s, roots);
    ExtendSeen(readable, []);
    OrderStep(w, d);
    OrderStep(w, d + 1);
    BeforeIs(w, d + 1);
    assert readable[|Before(w, d)|..] == Level(w, d);
    assert readable[|readable|..] == [];
    FlatEmpty(w, []);
  }

  lemma {:induction false} SearchSkips(s: Storage, roots: seq<Kappa>, limits: Limits, d: nat, near: seq<Kappa>, far: seq<Kappa>, readable: seq<Kappa>)
    requires Searching(s, roots, limits, d, near, far, readable) && near != [] && near[0] in readable
    ensures Searching(s, roots, limits, d, near[1..], far, readable)
  {
    hide Order, Flat, Level, Before;
  }

  /** What is next is the next object of the order. */
  lemma {:induction false} NextInOrder(s: Storage, roots: seq<Kappa>, limits: Limits, d: nat, near: seq<Kappa>, far: seq<Kappa>, readable: seq<Kappa>)
    requires Searching(s, roots, limits, d, near, far, readable) && near != [] && near[0] !in readable
    ensures d <= limits.maxDepth
    ensures readable + [near[0]] <= Order(WebOf(s, roots), limits.maxDepth)
    ensures near[0] in Order(WebOf(s, roots), limits.maxDepth)
    ensures near[0] in Level(WebOf(s, roots), d)
  {
    hide Order, Flat, Level, Before;
    var w := WebOf(s, roots);
    ExtendIs(readable + [near[0]], near[1..]);
    OrderStep(w, d);
    OrderGrows(w, d, limits.maxDepth);
    assert (readable + [near[0]])[|readable|] == near[0];
    var at := |readable| - |Before(w, d)|;
    assert Order(w, d)[|readable|] == near[0] == Level(w, d)[at];
    assert Order(w, limits.maxDepth)[|readable|] == near[0];
  }

  lemma {:induction false} SearchTakes(s: Storage, roots: seq<Kappa>, limits: Limits, d: nat, near: seq<Kappa>, far: seq<Kappa>, readable: seq<Kappa>,
      references: seq<Kappa>)
    requires Searching(s, roots, limits, d, near, far, readable) && near != [] && near[0] !in readable
    requires references == References(s, near[0]) && (d == limits.maxDepth ==> references == [])
    ensures Searching(s, roots, limits, d, near[1..], far + references, readable + [near[0]])
    ensures Deepest(s, roots, d, readable + [near[0]], d)
  {
    hide Order, Flat, Level, Before, References;
    var w := WebOf(s, roots);
    var skip := |Before(w, d)|;
    assert (readable + [near[0]])[skip..] == readable[skip..] + [near[0]];
    FlatSnoc(w, readable[skip..], near[0]);
  }

  lemma {:induction false} TooMuch(s: Storage, roots: seq<Kappa>, limits: Limits, prefix: seq<Kappa>)
    requires prefix <= Order(WebOf(s, roots), limits.maxDepth)
    requires |prefix| > limits.maxObjects || Sum(BytesOf(s), prefix) > limits.maxBytes || Sum(EdgesOf(s), prefix) > limits.maxEdges
    ensures !Fits(s, roots, limits)
  {
    hide Order, Flat, Level, Good;
    var all := Order(WebOf(s, roots), limits.maxDepth);
    SumGrows(BytesOf(s), prefix, all);
    SumGrows(EdgesOf(s), prefix, all);
  }

  lemma {:induction false} TooDeep(s: Storage, roots: seq<Kappa>, limits: Limits, k: Kappa)
    requires k in Level(WebOf(s, roots), limits.maxDepth) && References(s, k) != []
    ensures !Fits(s, roots, limits)
  {
    hide Order, Flat, Level, Good, References;
    FlatEmpty(WebOf(s, roots), Level(WebOf(s, roots), limits.maxDepth));
  }

  lemma {:induction false} NotGood(s: Storage, roots: seq<Kappa>, limits: Limits, k: Kappa)
    requires k in Order(WebOf(s, roots), limits.maxDepth) && !Good(s, k)
    ensures !Fits(s, roots, limits)
  {
    hide Order, Flat, Level, Good;
  }

  /** What a successful search returns. */
  ghost predicate Resolves(s: Storage, roots: seq<Kappa>, limits: Limits, c: Closure) {
    var w := WebOf(s, roots);
    && c.readable == Order(w, limits.maxDepth)
    && c.edgeCount == Sum(EdgesOf(s), c.readable)
    && c.resolvedBytes == Sum(BytesOf(s), c.readable)
    && c.maxDepth <= limits.maxDepth && Level(w, c.maxDepth) != [] && Order(w, c.maxDepth) == c.readable
  }

  lemma {:induction false} SearchEnds(s: Storage, roots: seq<Kappa>, limits: Limits, d: nat, readable: seq<Kappa>, edges: nat, bytes: nat, observed: nat)
    requires Searching(s, roots, limits, d, [], [], readable) && Accounted(s, limits, readable, edges, bytes)
    requires Deepest(s, roots, d, readable, observed) && roots != []
    ensures Fits(s, roots, limits) && Resolves(s, roots, limits, Closure(readable, edges, bytes, observed))
  {
    hide Order, Flat, Level, Before, Good, Sum;
    var w := WebOf(s, roots);
    ExtendSeen(readable, []);
    OrderStep(w, d);
    assert readable[|Before(w, d)|..] == Level(w, d);
    Settled(w, d, limits.maxDepth);
    NotEmpty(s, roots, d);
    if observed != d {
      BeforeIs(w, d);
    }
  }

  lemma {:induction false} NotEmpty(s: Storage, roots: seq<Kappa>, d: nat)
    requires roots != []
    ensures Order(WebOf(s, roots), d) != []
  {
    hide Order, Flat, Level, Before;
    var w := WebOf(s, roots);
    OrderZero(w);
    ExtendIs([], roots);
    assert roots[0] in Order(w, 0);
    OrderGrows(w, 0, d);
  }

  /** One queued object, as `resolve_storage_graph` checks it; `Some` carries its bytes' length and references. */
  method ReadObject(s: Storage, kappa: Kappa) returns (r: Option<(nat, seq<Kappa>)>)
    ensures r == if Good(s, kappa) then Some((Size(s, kappa), References(s, kappa))) else None
  {
    var bytes := s.get(kappa);
    if bytes.None? || s.address(bytes.value) != kappa {
      return None;
    }
    var references := TypedReferences(s, bytes.value);
    if references.None? {
      return None;
    }
    return Some((|bytes.value|, references.value));
  }

  /** The keys of a queue. */
  function KeysOf(queue: seq<(Kappa, nat)>): (r: seq<Kappa>)
    ensures |r| == |queue|
  {
    seq(|queue|, i requires 0 <= i < |queue| => queue[i].0)
  }

  /** The queue holds the rest of level `d` first, then what is known of level `d + 1`. */
  ghost predicate Queued(queue: seq<(Kappa, nat)>, near: seq<Kappa>, far: seq<Kappa>, d: nat) {
    && KeysOf(queue) == near + far
    && (forall i :: 0 <= i < |near| ==> queue[i].1 == d)
    && (forall i :: |near| <= i < |queue| ==> queue[i].1 == d + 1)
  }

  /** Every reference joins the end of the queue at the same depth. */
  method PushAll(queue: seq<(Kappa, nat)>, list: seq<Kappa>, depth: nat) returns (r: seq<(Kappa, nat)>)
    ensures queue <= r && |r| == |queue| + |list|
    ensures forall i :: 0 <= i < |list| ==> r[|queue| + i] == (list[i], depth)
  {
    r := queue;
    for i := 0 to |list|
      invariant queue <= r && |r| == |queue| + i
      invariant forall j :: 0 <= j < i ==> r[|queue| + j] == (list[j], depth)
    {
      r := r + [(list[i], depth)];
    }
  }

  /** The whole state of the loop. */
  ghost predicate Loop(s: Storage, roots: seq<Kappa>, limits: Limits, queue: seq<(Kappa, nat)>, d: nat, near: seq<Kappa>,
      far: seq<Kappa>, readable: seq<Kappa>, edges: nat, bytes: nat, observed: nat) {
    && Queued(queue, near, far, d)
    && Searching(s, roots, limits, d, near, far, readable)
    && Accounted(s, limits, readable, edges, bytes)
    && Deepest(s, roots, d, readable, observed)
  }

  /** Before popping, `near` can be taken to be non-empty. */
  lemma {:induction false} Refill(s: Storage, roots: seq<Kappa>, limits: Limits, queue: seq<(Kappa, nat)>, d: nat, near: seq<Kappa>,
      far: seq<Kappa>, readable: seq<Kappa>, edges: nat, bytes: nat, observed: nat)
    returns (d': nat, near': seq<Kappa>, far': seq<Kappa>)
    requires queue != [] && Loop(s, roots, limits, queue, d, near, far, readable, edges, bytes, observed)
    ensures Loop(s, roots, limits, queue, d', near', far', readable, edges, bytes, observed)
    ensures near' != [] && near'[0] == queue[0].0 && queue[0].1 == d' <= limits.maxDepth
  {
    hide Accounted;
    if near == [] {
      SearchDescends(s, roots, limits, d, far, readable, observed);
      d', near', far' := d + 1, far, [];
      assert near + far == far == far + [];
    } else {
      d', near', far' := d, near, far;
    }
    assert (near' + far')[0] == near'[0];
  }

  /** A repeated object is dropped. */
  lemma {:induction false} LoopSkips(s: Storage, roots: seq<Kappa>, limits: Limits, queue: seq<(Kappa, nat)>, d: nat, near: seq<Kappa>,
      far: seq<Kappa>, readable: seq<Kappa>, edges: nat, bytes: nat, observed: nat)
    requires queue != [] && near != [] && near[0] in readable
    requires Loop(s, roots, limits, queue, d, near, far, readable, edges, bytes, observed)
    ensures Loop(s, roots, limits, queue[1..], d, near[1..], far, readable, edges, bytes, observed)
  {
    hide Accounted, Searching, Deepest;
    SearchSkips(s, roots, limits, d, near, far, readable);
    QueuePops(queue, near, far, d, [], queue[1..]);
    assert far + [] == far;
  }

  /** An object is taken and its references are queued. */
  lemma {:induction false} LoopTakes(s: Storage, roots: seq<Kappa>, limits: Limits, queue: seq<(Kappa, nat)>, d: nat, near: seq<Kappa>,
      far: seq<Kappa>, readable: seq<Kappa>, edges: nat, bytes: nat, observed: nat, references: seq<Kappa>, after: seq<(Kappa, nat)>)
    requires queue != [] && near != [] && near[0] !in readable && Good(s, near[0])
    requires Loop(s, roots, limits, queue, d, near, far, readable, edges, bytes, observed)
    requires references == References(s, near[0]) && (d == limits.maxDepth ==> references == [])
    requires |readable| < limits.maxObjects
    requires bytes + Size(s, near[0]) <= limits.maxBytes && edges + |references| <= limits.maxEdges
    requires queue[1..] <= after && |after| == |queue| - 1 + |references|
    requires forall i :: 0 <= i < |references| ==> after[|queue| - 1 + i] == (references[i], d + 1)
    ensures Loop(s, roots, limits, after, d, near[1..], far + references, readable + [near[0]],
                 edges + |references|, bytes + Size(s, near[0]), d)
  {
    QueuePops(queue, near, far, d, references, after);
    SearchTakes(s, roots, limits, d, near, far, readable, references);
    SumSnoc(BytesOf(s), readable, near[0]);
    SumSnoc(EdgesOf(s), readable, near[0]);
    hide Searching, Deepest, Good, References, Sum, Queued, Size;
  }

  lemma {:induction false} QueuePops(queue: seq<(Kappa, nat)>, near: seq<Kappa>, far: seq<Kappa>, d: nat, references: seq<Kappa>,
      after: seq<(Kappa, nat)>)
    requires queue != [] && near != [] && Queued(queue, near, far, d)
    requires queue[1..] <= after && |after| == |queue| - 1 + |references|
    requires forall i :: 0 <= i < |references| ==> after[|queue| - 1 + i] == (references[i], d + 1)
    ensures Queued(after, near[1..], far + references, d)
  {
    var keys := near[1..] + (far + references);
    forall i | 0 <= i < |after|
      ensures after[i].0 == keys[i] && after[i].1 == if i < |near| - 1 then d else d + 1
    {
      if i < |queue| - 1 {
        assert after[i] == queue[i + 1];
        assert KeysOf(queue)[i + 1] == (near + far)[i + 1];
      } else {
        assert after[i] == (references[i - (|queue| - 1)], d + 1);
      }
    }
    assert KeysOf(after) == keys;
  }

  /** The body of the loop for an object that was not seen before. Every failing check refutes `Fits`, and the
      first depth check, on the object's own depth, never fails. */
  method VisitObject(s: Storage, ghost roots: seq<Kappa>, limits: Limits, kappa: Kappa, depth: nat, rest: seq<(Kappa, nat)>,
                     readable: seq<Kappa>, edges: nat, bytes: nat, observed: nat,
                     ghost queue: seq<(Kappa, nat)>, ghost d: nat, ghost near: seq<Kappa>, ghost far: seq<Kappa>)
    returns (ok: bool, queue': seq<(Kappa, nat)>, readable': seq<Kappa>, edges': nat, bytes': nat, observed': nat, ghost far': seq<Kappa>)
    requires Loop(s, roots, limits, queue, d, near, far, readable, edges, bytes, observed)
    requires near != [] && near[0] == kappa && kappa !in readable && d == depth && |readable| <= limits.maxObjects
    requires queue != [] && rest == queue[1..]
    ensures depth <= limits.maxDepth
    ensures !ok ==> !Fits(s, roots, limits)
    ensures ok ==> Loop(s, roots, limits, queue', d, near[1..], far', readable', edges', bytes', observed')
    ensures ok ==> readable' == readable + [kappa] && |readable'| <= limits.maxObjects
  {
    hide Loop, Fits, Good, References, Size;
    queue', readable', edges', bytes', observed', far' := rest, readable, edges, bytes, observed, far;
    LoopNext(s, roots, limits, queue, d, near, far, readable, edges, bytes, observed);
    if |readable| >= limits.maxObjects {
      return false, queue', readable', edges', bytes', observed', far';
    }
    if depth > limits.maxDepth {
      return false, queue', readable', edges', bytes', observed', far';
    }
    var read := ReadObject(s, kappa);
    if read.None? {
      return false, queue', readable', edges', bytes', observed', far';
    }
    var (size, references) := read.value;
    bytes' := bytes + size;
    edges' := edges + |references|;
    if bytes' > limits.maxBytes || edges' > limits.maxEdges {
      return false, queue', readable', edges', bytes', observed', far';
    }
    if depth == limits.maxDepth && references != [] {
      return false, queue', readable', edges', bytes', observed', far';
    }
    queue' := PushAll(rest, references, depth + 1);
    LoopTakes(s, roots, limits, queue, d, near, far, readable, edges, bytes, observed, references, queue');
    observed' := Max(observed, depth);
    readable' := readable + [kappa];
    far' := far + references;
    ok := true;
  }

  /** `resolve_storage_graph`: it succeeds exactly when the roots and limits are valid and everything within the
      depth limit is good, fits and ends there; then it returns the breadth-first order with its exact totals
      and its true depth. */
  method ResolveStorageGraph(s: Storage, roots: seq<Kappa>, limits: Limits) returns (r: Result<Closure>)
    ensures r.Ok? <==> ValidLimits(roots, limits) && Fits(s, roots, limits)
    ensures r.Ok? ==> Resolves(s, roots, limits, r.value)
    ensures r.Err? ==> r.error == Capability
  {
    if roots == [] || limits.maxObjects == 0 || limits.maxEdges == 0 || limits.maxBytes == 0 {
      return Err(Capability);
    }
    var queue: seq<(Kappa, nat)> := PushAll([], roots, 0);
    var seen: set<Kappa>, readable: seq<Kappa> := {}, [];
    var edges: nat, bytes: nat, observed: nat := 0, 0, 0;
    ghost var d: nat, near: seq<Kappa>, far: seq<Kappa> := 0, roots, [];
    LoopStarts(s, roots, limits, queue);
    hide Loop, Fits, Resolves, Good, References, Size, Order, Level;
    while queue != []
      invariant Loop(s, roots, limits, queue, d, near, far, readable, edges, bytes, observed)
      invariant forall k :: k in seen <==> k in readable
      invariant |readable| <= limits.maxObjects
      decreases limits.maxObjects - |readable|, |queue|
    {
      d, near, far := Refill(s, roots, limits, queue, d, near, far, readable, edges, bytes, observed);
      var (kappa, depth) := queue[0];
      ghost var before := queue;
      queue := queue[1..];
      if kappa in seen {
        LoopSkips(s, roots, limits, before, d, near, far, readable, edges, bytes, observed);
        near := near[1..];
        continue;
      }
      seen := seen + {kappa};
      var ok;
      ok, queue, readable, edges, bytes, observed, far :=
        VisitObject(s, roots, limits, kappa, depth, queue, readable, edges, bytes, observed, before, d, near, far);
      if !ok {
        return Err(Capability);
      }
      near := near[1..];
    }
    LoopEnds(s, roots, limits, d, near, far, readable, edges, bytes, observed);
    return Ok(Closure(readable, edges, bytes, observed));
  }

  lemma {:induction false} LoopStarts(s: Storage, roots: seq<Kappa>, limits: Limits, queue: seq<(Kappa, nat)>)
    requires |queue| == |roots| && forall i :: 0 <= i < |roots| ==> queue[i] == (roots[i], 0)
    ensures Loop(s, roots, limits, queue, 0, roots, [], [], 0, 0, 0)
  {
    hide Searching, Deepest;
    SearchStarts(s, roots, limits);
    assert KeysOf(queue) == roots + [];
  }

  /** Everything the body checks about a new object refutes `Fits` when it fails. */
  lemma {:induction false} LoopNext(s: Storage, roots: seq<Kappa>, limits: Limits, queue: seq<(Kappa, nat)>, d: nat, near: seq<Kappa>,
      far: seq<Kappa>, readable: seq<Kappa>, edges: nat, bytes: nat, observed: nat)
    requires near != [] && near[0] !in readable && Loop(s, roots, limits, queue, d, near, far, readable, edges, bytes, observed)
    ensures |readable| >= limits.maxObjects ==> !Fits(s, roots, limits)
    ensures !Good(s, near[0]) ==> !Fits(s, roots, limits)
    ensures bytes + Size(s, near[0]) > limits.maxBytes ==> !Fits(s, roots, limits)
    ensures edges + |References(s, near[0])| > limits.maxEdges ==> !Fits(s, roots, limits)
    ensures d == limits.maxDepth && References(s, near[0]) != [] ==> !Fits(s, roots, limits)
    ensures observed <= d <= limits.maxDepth
  {
    hide Order, Level, Good, Size, References, Sum, Fits, Searching, Queued;
    NextInOrder(s, roots, limits, d, near, far, readable);
    SumSnoc(BytesOf(s), readable, near[0]);
    SumSnoc(EdgesOf(s), readable, near[0]);
    var next := readable + [near[0]];
    if |next| > limits.maxObjects || Sum(BytesOf(s), next) > limits.maxBytes || Sum(EdgesOf(s), next) > limits.maxEdges {
      TooMuch(s, roots, limits, next);
    }
    if !Good(s, near[0]) {
      NotGood(s, roots, limits, near[0]);
    }
    if d == limits.maxDepth && References(s, near[0]) != [] {
      TooDeep(s, roots, limits, near[0]);
    }
  }

  lemma {:induction false} LoopEnds(s: Storage, roots: seq<Kappa>, limits: Limits, d: nat, near: seq<Kappa>, far: seq<Kappa>,
      readable: seq<Kappa>, edges: nat, bytes: nat, observed: nat)
    requires roots != [] && Loop(s, roots, limits, [], d, near, far, readable, edges, bytes, observed)
    ensures Fits(s, roots, limits) && Resolves(s, roots, limits, Closure(readable, edges, bytes, observed))
  {
    hide Searching, Deepest, Accounted, Fits, Resolves;
    assert near == [] && far == [];
    SearchEnds(s, roots, limits, d, readable, edges, bytes, observed);
  }

  // ---------- In terms of reachability ----------

  /** The condition for success, over what is reachable: everything reachable is good, nothing at the depth
      limit has references, and the whole reachable set fits. */
  lemma {:induction false} FitsIffReachable(s: Storage, roots: seq<Kappa>, limits: Limits)
    ensures var w := WebOf(s, roots);
      var all := Order(w, limits.maxDepth);
      Fits(s, roots, limits) <==>
        && (forall k :: Reachable(w, k) ==> Good(s, k))
        && (forall k :: AtDistance(w, k, limits.maxDepth) ==> References(s, k) == [])
        && |all| <= limits.maxObjects && Sum(BytesOf(s), all) <= limits.maxBytes && Sum(EdgesOf(s), all) <= limits.maxEdges
  {
    hide Order, Level, Good, References, Sum, Within, AtDistance, Reachable;
    var w := WebOf(s, roots);
    FlatEmpty(w, Level(w, limits.maxDepth));
    forall k
      ensures k in Level(w, limits.maxDepth) <==> AtDistance(w, k, limits.maxDepth)
    {
      LevelIsDistance(w, limits.maxDepth, k);
    }
    if Flat(w, Level(w, limits.maxDepth)) == [] {
      forall k
        ensures Reachable(w, k) <==> k in Order(w, limits.maxDepth)
      {
        SettledIsReachable(w, limits.maxDepth, k);
      }
    }
  }

  /** A successful search returns the reachable set, without duplicates, nearest first, and its depth is the
      greatest distance of any reachable object. */
  lemma {:induction false} ResolvedIsReachable(s: Storage, roots: seq<Kappa>, limits: Limits, c: Closure)
    requires Fits(s, roots, limits) && Resolves(s, roots, limits, c)
    ensures var w := WebOf(s, roots);
      && NoDuplicates(c.readable)
      && (forall k :: k in c.readable <==> Reachable(w, k))
      && (forall k :: k in c.readable ==> Within(w, k, c.maxDepth))
      && (exists k :: k in c.readable && AtDistance(w, k, c.maxDepth))
      && (forall n: nat :: n <= c.maxDepth ==> Order(w, n) <= c.readable)
  {
    hide Order, Level, Good, References, Sum, Within, AtDistance, Reachable, Flat;
    var w := WebOf(s, roots);
    OrderStep(w, limits.maxDepth);
    OrderStep(w, c.maxDepth);
    forall k
      ensures k in c.readable <==> Reachable(w, k)
      ensures k in c.readable ==> Within(w, k, c.maxDepth)
    {
      SettledIsReachable(w, limits.maxDepth, k);
      OrderIsWithin(w, c.maxDepth, k);
    }
    var k := Level(w, c.maxDepth)[0];
    LevelIsDistance(w, c.maxDepth, k);
    forall n: nat | n <= c.maxDepth
      ensures Order(w, n) <= c.readable
    {
      OrderGrows(w, n, c.maxDepth);
    }
  }
}
