/** Routing of requests over configured endpoints (src/client.rs:65-154, 247-276). */
module Client {
  import opened Basics

  datatype Endpoint = Endpoint(name: string, url: string)

  datatype OperationKind = Read | Mutation | Stream

  datatype Request = HandshakeRequest | Operation(id: string, kind: OperationKind, payload: Bytes)

  datatype Response = ErrorReply(error: LiveError) | CapabilityManifest(operations: set<string>) | Reply(payload: Bytes)

  function KindOf(request: Request): OperationKind {
    if request.HandshakeRequest? then Read else request.kind
  }

  function IdOf(request: Request): string {
    if request.HandshakeRequest? then "system.handshake" else request.id
  }

  /** What the capability negotiation with one endpoint decides about a call. */
  datatype Verdict = Proceed | Miss | Skip | Refuse(error: LiveError)

  /** A request sent to an endpoint, by its position in the configured order. */
  datatype Sent = Sent(to: nat, request: Request)

  predicate IsSecurity(error: LiveError) {
    error == Authentication || error == Authorization
  }

  /** The endpoints a request was dispatched to, in order. */
  function Dispatched(log: seq<Sent>, request: Request): seq<nat> {
    if log == [] then []
    else
      var n := |log| - 1;
      Dispatched(log[..n], request) + (if log[n].request == request then [log[n].to] else [])
  }

  lemma {:induction false} DispatchedAppend(log: seq<Sent>, sent: Sent, request: Request)
    ensures Dispatched(log + [sent], request) == Dispatched(log, request) + (if sent.request == request then [sent.to] else [])
  {
    assert (log + [sent])[..|log|] == log;
  }

  /** A handshake succeeds when it is answered with a capability manifest. */
  predicate Advertises(answer: Result<Response>) {
    answer.Ok? && answer.value.CapabilityManifest?
  }

  /** A manifest cache never forgets or rewrites an entry. */
  ghost predicate CacheGrows(before: map<string, set<string>>, after: map<string, set<string>>) {
    forall url :: url in before ==> url in after && after[url] == before[url]
  }

  /** A dispatch that was answered this way decides the call: an answer is handed on as it is, an error reply as
      its error, and a failure of a request other than a read leaves a commit state nobody knows, unless the
      endpoint rejected the credentials. */
  ghost predicate Decides(request: Request, answer: Result<Response>, r: Result<Response>) {
    match answer
    case Ok(ErrorReply(error)) => r == Err(error)
    case Ok(response) => r == Ok(response)
    case Err(error) =>
      if error == Authentication || error == Authorization || request.HandshakeRequest? || request.kind == Read then r == Err(error)
      else r == Err(UnknownCommitState)
  }

  /** The error of a handshake that was answered with anything but a manifest. */
  ghost predicate Refuses(answer: Result<Response>, error: LiveError) {
    match answer
    case Err(failure) => error == failure
    case Ok(ErrorReply(reply)) => error == reply
    case Ok(CapabilityManifest(_)) => false
    case Ok(Reply(_)) => error == Protocol
  }

  /** The operation a request is negotiated under. */
  lemma {:induction false} OperationOf(request: Request)
    ensures request.HandshakeRequest? ==> IdOf(request) == "system.handshake" && KindOf(request) == Read
    ensures request.Operation? ==> IdOf(request) == request.id && KindOf(request) == request.kind
  {
  }

  class LiveClient {
    const endpoints: seq<Endpoint>
    const allowReadFallback: bool
    /** What an endpoint answers, given everything sent before. */
    const network: (seq<Sent>, nat, Request) -> Result<Response>
    var manifests: map<string, set<string>>
    var log: seq<Sent>

    constructor (endpoints: seq<Endpoint>, allowReadFallback: bool, network: (seq<Sent>, nat, Request) -> Result<Response>)
      ensures this.endpoints == endpoints && this.allowReadFallback == allowReadFallback && this.network == network
      ensures manifests == map[] && log == []
    {
      this.endpoints, this.allowReadFallback, this.network := endpoints, allowReadFallback, network;
      manifests, log := map[], [];
    }

    method SendDirect(e: nat, request: Request) returns (r: Result<Response>)
      modifies this`log
      ensures log == old(log) + [Sent(e, request)]
      ensures r == network(old(log), e, request)
    {
      r := network(log, e, request);
      log := log + [Sent(e, request)];
    }

    /** Every handshake sent from this point of the log on succeeded. */
    ghost predicate Negotiated(log: seq<Sent>, from: nat) {
      forall i :: from <= i < |log| && log[i].request.HandshakeRequest? ==>
        Advertises(network(log[..i], log[i].to, HandshakeRequest))
    }

    lemma {:induction false} NegotiatedBefore(before: seq<Sent>, after: seq<Sent>, from: nat)
      requires before <= after && Negotiated(after, from)
      ensures Negotiated(before, from)
    {
      forall i | from <= i < |before|
        ensures before[i] == after[i] && before[..i] == after[..i]
      {
      }
    }

    /** A failed handshake at the end of a log. */
    lemma {:induction false} NotNegotiated(before: seq<Sent>, e: nat, from: nat)
      requires from <= |before| && !Advertises(network(before, e, HandshakeRequest))
      ensures !Negotiated(before + [Sent(e, HandshakeRequest)], from)
    {
      var after := before + [Sent(e, HandshakeRequest)];
      assert after[..|before|] == before && after[|before|] == Sent(e, HandshakeRequest);
    }

    /** With these manifests the endpoint is known to offer the operation. */
    ghost predicate Offers(known: map<string, set<string>>, e: nat, id: string) {
      e < |endpoints| && endpoints[e].url in known && id in known[endpoints[e].url]
    }

    /** The endpoint is known not to offer it. */
    ghost predicate Declines(known: map<string, set<string>>, e: nat, id: string) {
      e < |endpoints| && endpoints[e].url in known && id !in known[endpoints[e].url]
    }

    /** The endpoint is the first one that offers the operation. */
    ghost predicate Routes(known: map<string, set<string>>, e: nat, id: string) {
      Offers(known, e, id) && forall f: nat :: f < e ==> Declines(known, f, id)
    }

    /** No endpoint offers it. */
    ghost predicate NoRoute(known: map<string, set<string>>, id: string) {
      forall e: nat :: e < |endpoints| ==> Declines(known, e, id)
    }

    /** A handshake with this endpoint was sent from this point of the log on, and failed. */
    ghost predicate Failed(log: seq<Sent>, from: nat, e: nat) {
      exists i: nat :: from <= i < |log| && log[i] == Sent(e, HandshakeRequest) && !Advertises(network(log[..i], e, HandshakeRequest))
    }

    /** Why an endpoint was passed over: it is known not to offer the operation, or its handshake failed. */
    ghost predicate Passed(known: map<string, set<string>>, log: seq<Sent>, from: nat, e: nat, id: string) {
      Declines(known, e, id) || Failed(log, from, e)
    }

    lemma {:induction false} FailedHere(before: seq<Sent>, e: nat, from: nat)
      requires from <= |before| && !Advertises(network(before, e, HandshakeRequest))
      ensures Failed(before + [Sent(e, HandshakeRequest)], from, e)
    {
      var after := before + [Sent(e, HandshakeRequest)];
      assert after[..|before|] == before && after[|before|] == Sent(e, HandshakeRequest);
    }

    lemma {:induction false} PassedStays(before: map<string, set<string>>, now: map<string, set<string>>, log: seq<Sent>, longer: seq<Sent>,
        from: nat, e: nat, id: string)
      requires Passed(before, log, from, e, id) && CacheGrows(before, now) && log <= longer
      ensures Passed(now, longer, from, e, id)
    {
      if Failed(log, from, e) {
        var i: nat :| from <= i < |log| && log[i] == Sent(e, HandshakeRequest) && !Advertises(network(log[..i], e, HandshakeRequest));
        assert longer[i] == log[i] && longer[..i] == log[..i];
      }
    }

    /** `handshake`: a cached manifest is reused and nothing is sent; otherwise one handshake is sent, and a
        manifest it answers is cached. */
    method Handshake(e: nat) returns (r: Result<set<string>>)
      requires e < |endpoints|
      modifies this
      ensures endpoints[e].url in old(manifests) ==>
        log == old(log) && manifests == old(manifests) && r == Ok(old(manifests)[endpoints[e].url])
      ensures endpoints[e].url !in old(manifests) ==>
        && log == old(log) + [Sent(e, HandshakeRequest)]
        && var answer := network(old(log), e, HandshakeRequest);
        && (Advertises(answer) ==>
          r == Ok(answer.value.operations) && manifests == old(manifests)[endpoints[e].url := answer.value.operations])
        && (!Advertises(answer) ==> manifests == old(manifests) && r.Err? && Refuses(answer, r.error))
    {
      var url := endpoints[e].url;
      if url in manifests {
        return Ok(manifests[url]);
      }
      var response := SendDirect(e, HandshakeRequest);
      match response {
        case Err(error) => return Err(error);
        case Ok(CapabilityManifest(operations)) =>
          manifests := manifests[url := operations];
          return Ok(operations);
        case Ok(ErrorReply(error)) => return Err(error);
        case Ok(Reply(_)) => return Err(Protocol);
      }
    }

    /** After this failure no other endpoint may be tried: the credentials were rejected, the client may not fall
        back, or the request is not a read. */
    ghost predicate MustStop(request: Request, error: LiveError) {
      error == Authentication || error == Authorization || !allowReadFallback || (request.Operation? && request.kind != Read)
    }

    /** The transport failed, and the next endpoint may be tried. */
    ghost predicate FallsBack(request: Request, answer: Result<Response>) {
      answer.Err? && !MustStop(request, answer.error)
    }

    /** The negotiation of `call` with one endpoint; a handshake is sent without any. */
    method Consult(e: nat, request: Request) returns (verdict: Verdict)
      requires e < |endpoints|
      modifies this
      ensures Dispatched(log, request) == Dispatched(old(log), request)
      ensures old(log) <= log && CacheGrows(old(manifests), manifests)
      ensures request.HandshakeRequest? ==> verdict == Proceed && log == old(log) && manifests == old(manifests)
      ensures forall url :: url != endpoints[e].url ==> (url in manifests <==> url in old(manifests))
      ensures log == old(log) || log == old(log) + [Sent(e, HandshakeRequest)]
      ensures verdict.Skip? ==> request.Operation? && exists error :: Refuses(network(old(log), e, HandshakeRequest), error) && !MustStop(request, error)
      ensures verdict.Refuse? ==> request.Operation? && MustStop(request, verdict.error)
      ensures verdict.Refuse? ==> log == old(log) + [Sent(e, HandshakeRequest)] && Refuses(network(old(log), e, HandshakeRequest), verdict.error)
      ensures request.Operation? ==>
        && (verdict.Proceed? <==> Offers(manifests, e, request.id)) && (verdict.Miss? <==> Declines(manifests, e, request.id))
        && (verdict.Skip? || verdict.Refuse? ==> forall from :: 0 <= from <= |old(log)| ==> !Negotiated(log, from) && Failed(log, from, e))
    {
      if request.HandshakeRequest? {
        return Proceed;
      }
      var manifest := Handshake(e);
      HandshakeIsNoDispatch(old(log), log, e, request);
      if manifest.Err? {
        forall from | 0 <= from <= |old(log)|
          ensures !Negotiated(log, from) && Failed(log, from, e)
        {
          NotNegotiated(old(log), e, from);
          FailedHere(old(log), e, from);
        }
        if IsSecurity(manifest.error) || request.kind != Read || !allowReadFallback {
          return Refuse(manifest.error);
        }
        return Skip;
      }
      return if request.id in manifest.value then Proceed else Miss;
    }

    /** The dispatch of `call` to one endpoint: the result of the call, or `None` to try the next endpoint, which
        happens exactly when the transport failed and the client may fall back. */
    method Dispatch(e: nat, request: Request) returns (r: Option<Result<Response>>)
      modifies this`log
      ensures log == old(log) + [Sent(e, request)]
      ensures Dispatched(log, request) == Dispatched(old(log), request) + [e]
      ensures r.None? <==> FallsBack(request, network(old(log), e, request))
      ensures r.Some? ==> Decides(request, network(old(log), e, request), r.value)
      ensures KindOf(request) != Read ==> r.Some?
    {
      DispatchedAppend(log, Sent(e, request), request);
      var answer := SendDirect(e, request);
      match answer {
        case Ok(ErrorReply(error)) => return Some(Err(error));
        case Ok(response) => return Some(Ok(response));
        case Err(error) =>
          if IsSecurity(error) {
            return Some(Err(error));
          }
          if KindOf(request) != Read {
            return Some(Err(UnknownCommitState));
          }
          if !allowReadFallback {
            return Some(Err(error));
          }
          return None;
      }
    }

    /** Where a call is, after its first `e` endpoints: `known` and `history` are the manifests and the log it
        began with. */
    ghost predicate Searched(known: map<string, set<string>>, history: seq<Sent>, now: map<string, set<string>>, log: seq<Sent>,
                             id: string, e: nat, to: seq<nat>, misses: nat) {
      && history <= log && CacheGrows(known, now) && e <= |endpoints|
      && (forall i :: 0 <= i < |to| ==> Offers(now, to[i], id))
      && (Negotiated(log, |history|) ==>
        if to == [] then misses == e && forall f: nat :: f < e ==> Declines(now, f, id) else Routes(now, to[0], id))
      && (forall x: nat :: Routes(known, x, id) ==> if to == [] then e <= x else to[0] == x)
      && (NoRoute(known, id) ==> to == [])
    }

    /** Every dispatch of the request between two points of the log fell back. */
    ghost predicate FellBack(log: seq<Sent>, from: nat, upto: nat, request: Request) {
      upto <= |log| && forall j :: from <= j < upto && log[j].request == request ==> FallsBack(request, network(log[..j], log[j].to, request))
    }

    lemma {:induction false} FellBackStep(log: seq<Sent>, from: nat, request: Request, sent: Sent)
      requires FellBack(log, from, |log|, request)
      ensures FellBack(log + [sent], from, |log|, request)
      ensures sent.request != request || FallsBack(request, network(log, sent.to, request)) ==> FellBack(log + [sent], from, |log| + 1, request)
    {
      hide FallsBack;
      var longer := log + [sent];
      assert longer[..|log|] == log;
      forall j | from <= j < |log| && longer[j].request == request
        ensures FallsBack(request, network(longer[..j], longer[j].to, request))
      {
        assert longer[..j] == log[..j];
      }
    }

    /** How a call ends that returns from its loop: its last message was a dispatch whose answer decided it, or a
        handshake whose failure stopped it. */
    ghost predicate Ended(log: seq<Sent>, request: Request, to: seq<nat>, r: Result<Response>) {
      && log != []
      && var last := log[|log| - 1];
      var answer := network(log[..|log| - 1], last.to, last.request);
      if last.request == request then
        to != [] && to[|to| - 1] == last.to && !FallsBack(request, answer) && Decides(request, answer, r)
      else
        last.request == HandshakeRequest && r.Err? && Refuses(answer, r.error) && MustStop(request, r.error)
    }

    lemma {:induction false} EndsWith(log: seq<Sent>, sent: Sent, request: Request, to: seq<nat>, r: Result<Response>)
      ensures Ended(log + [sent], request, to, r) <==>
        var answer := network(log, sent.to, sent.request);
        if sent.request == request then
          to != [] && to[|to| - 1] == sent.to && !FallsBack(request, answer) && Decides(request, answer, r)
        else
          sent.request == HandshakeRequest && r.Err? && Refuses(answer, r.error) && MustStop(request, r.error)
    {
      assert (log + [sent])[..|log|] == log;
    }

    /** Endpoints known not to offer an operation, among the first `e`. */
    ghost predicate AnyDeclines(known: map<string, set<string>>, e: nat, id: string) {
      exists f: nat :: f < e && Declines(known, f, id)
    }

    lemma {:induction false} NoneYet(request: Request)
      ensures FellBack(log, |log|, |log|, request) && (request.Operation? ==> !AnyDeclines(manifests, 0, request.id))
    {
    }

    /** Only what this endpoint answered was learned. */
    lemma {:induction false} DeclinesStep(before: map<string, set<string>>, now: map<string, set<string>>, e: nat, id: string)
      requires e < |endpoints| && CacheGrows(before, now)
      requires forall url :: url != endpoints[e].url ==> (url in now <==> url in before)
      ensures AnyDeclines(now, e + 1, id) <==> AnyDeclines(before, e, id) || Declines(now, e, id)
    {
      if AnyDeclines(before, e, id) {
        var f: nat :| f < e && Declines(before, f, id);
        assert Declines(now, f, id);
      }
      if Declines(now, e, id) {
        assert e < e + 1 && Declines(now, e, id);
      }
      if AnyDeclines(now, e + 1, id) && !Declines(now, e, id) {
        var f: nat :| f < e + 1 && Declines(now, f, id);
        assert endpoints[f].url != endpoints[e].url;
        assert Declines(before, f, id);
      }
    }

    /** What is known stays known. */
    lemma {:induction false} KnownStays(known: map<string, set<string>>, now: map<string, set<string>>, id: string)
      requires CacheGrows(known, now)
      ensures forall e: nat :: Offers(known, e, id) ==> Offers(now, e, id)
      ensures forall e: nat :: Declines(known, e, id) ==> Declines(now, e, id)
      ensures forall e: nat :: Routes(known, e, id) ==> Routes(now, e, id)
    {
    }

    lemma {:induction false} GrowsOn(known: map<string, set<string>>, before: map<string, set<string>>, now: map<string, set<string>>)
      requires CacheGrows(known, before) && CacheGrows(before, now)
      ensures CacheGrows(known, now)
    {
    }

    /** What a known route says about one endpoint. */
    lemma {:induction false} RouteAt(known: map<string, set<string>>, e: nat, id: string)
      requires e < |endpoints|
      ensures forall x: nat :: Routes(known, x, id) ==> if e < x then Declines(known, e, id) else if e == x then Offers(known, e, id) else true
      ensures NoRoute(known, id) ==> Declines(known, e, id)
      ensures !(Offers(known, e, id) && Declines(known, e, id))
    {
    }

    /** The verdict on the next endpoint, after more was sent and learned. */
    lemma {:induction false} SearchGoesOn(known: map<string, set<string>>, history: seq<Sent>, before: map<string, set<string>>, sent: seq<Sent>,
        now: map<string, set<string>>, log: seq<Sent>, id: string, e: nat, to: seq<nat>, misses: nat)
      requires Searched(known, history, before, sent, id, e, to, misses) && e < |endpoints|
      requires CacheGrows(before, now) && sent <= log
      ensures Declines(now, e, id) ==> Searched(known, history, now, log, id, e + 1, to, misses + 1)
      ensures Offers(now, e, id) ==> Searched(known, history, now, log, id, e + 1, to + [e], misses)
      ensures !Negotiated(log, |history|) && !Offers(now, e, id) && !Declines(now, e, id) ==>
        Searched(known, history, now, log, id, e + 1, to, misses)
    {
      GrowsOn(known, before, now);
      KnownStays(known, now, id);
      KnownStays(before, now, id);
      RouteAt(known, e, id);
      RouteAt(now, e, id);
      hide Negotiated, Offers, Declines, CacheGrows;
      if Negotiated(log, |history|) {
        NegotiatedBefore(sent, log, |history|);
      }
    }

    lemma {:induction false} SearchEnds(known: map<string, set<string>>, history: seq<Sent>, now: map<string, set<string>>, log: seq<Sent>,
        id: string, e: nat, to: seq<nat>, misses: nat)
      requires Searched(known, history, now, log, id, e, to, misses)
      ensures history <= log && CacheGrows(known, now)
      ensures forall i :: 0 <= i < |to| ==> Offers(now, to[i], id)
      ensures Negotiated(log, |history|) ==> if to == [] then misses == e else Routes(now, to[0], id)
      ensures Negotiated(log, |history|) && to == [] && e == |endpoints| ==> NoRoute(now, id)
      ensures forall x: nat :: Routes(known, x, id) && (to != [] || e > x) ==> to != [] && to[0] == x
      ensures forall x: nat :: Routes(known, x, id) ==> x < |endpoints|
      ensures NoRoute(known, id) ==> to == []
    {
    }

    lemma {:induction false} SearchBegins(known: map<string, set<string>>, history: seq<Sent>, id: string)
      ensures CacheGrows(known, known) && Searched(known, history, known, history, id, 0, [], 0)
    {
    }

    /** A failed handshake refutes `Negotiated`, and no route was known through this endpoint. */
    lemma {:induction false} SearchFails(known: map<string, set<string>>, history: seq<Sent>, before: map<string, set<string>>, sent: seq<Sent>,
        now: map<string, set<string>>, log: seq<Sent>, id: string, e: nat, to: seq<nat>, misses: nat)
      requires Searched(known, history, before, sent, id, e, to, misses) && e < |endpoints|
      requires CacheGrows(before, now) && sent <= log
      requires !Negotiated(log, |history|) && !Offers(now, e, id) && !Declines(now, e, id)
      ensures history <= log && CacheGrows(known, now)
      ensures forall i :: 0 <= i < |to| ==> Offers(now, to[i], id)
      ensures forall x: nat :: Routes(known, x, id) ==> to != [] && to[0] == x
      ensures NoRoute(known, id) ==> to == []
    {
      GrowsOn(known, before, now);
      KnownStays(known, now, id);
      KnownStays(before, now, id);
      RouteAt(known, e, id);
      hide Negotiated, Offers, Declines, CacheGrows, Routes;
    }

    /** `call`. `to` lists the endpoints the request was dispatched to, and `exhausted` says that the loop ended
        without returning. A request other than a read is dispatched at most once, and that dispatch decides the
        result; a read visits endpoints in order. When every handshake this call makes succeeds, the first
        dispatch goes to the first endpoint that offers the operation; a route that is known already is taken
        whatever the network does. */
    method Call(request: Request) returns (r: Result<Response>, ghost to: seq<nat>, ghost exhausted: bool)
      modifies this
      ensures Dispatched(log, request) == Dispatched(old(log), request) + to
      ensures forall i, j :: 0 <= i < j < |to| ==> to[i] < to[j] < |endpoints|
      ensures KindOf(request) != Read ==> |to| <= 1 && (exhausted ==> to == [])
      ensures KindOf(request) != Read && to != [] ==> |log| > 0 && log[|log| - 1] == Sent(to[0], request)
      ensures !exhausted ==> |log| > |old(log)| && Ended(log, request, to, r) && FellBack(log, |old(log)|, |log| - 1, request)
      ensures exhausted ==> FellBack(log, |old(log)|, |log|, request)
      ensures exhausted ==>
        r == if request.Operation? && AnyDeclines(manifests, |endpoints|, request.id) then Err(Capability) else Err(Transport)
      ensures AllPassed(manifests, log, |old(log)|, if exhausted then |endpoints| else log[|log| - 1].to, request, to)
      ensures old(log) <= log && CacheGrows(old(manifests), manifests)
      ensures request.Operation? ==> forall i :: 0 <= i < |to| ==> Offers(manifests, to[i], request.id)
      ensures request.Operation? && Negotiated(log, |old(log)|) ==>
        && (to != [] ==> Routes(manifests, to[0], request.id))
        && (to == [] ==> NoRoute(manifests, request.id) && exhausted && r == if endpoints == [] then Err(Transport) else Err(Capability))
      ensures request.Operation? ==> forall e: nat :: Routes(old(manifests), e, request.id) ==> to != [] && to[0] == e
      ensures request.Operation? && NoRoute(old(manifests), request.id) ==> to == []
    {
      hide Dispatched, Decides, FallsBack, MustStop, Refuses, FellBack, Ended, AnyDeclines, AllPassed, Passed, Failed, Negotiated, Searched, Offers, Declines, Routes, NoRoute, CacheGrows;
      var misses := 0;
      ghost var known, history := manifests, log;
      to, exhausted := [], false;
      SearchBegins(known, history, IdOf(request));
      NoneYet(request);
      AllPassedBegins(known, history, request);
      for e := 0 to |endpoints|
        invariant Dispatched(log, request) == Dispatched(history, request) + to
        invariant forall i, j :: 0 <= i < j < |to| ==> to[i] < to[j] < |endpoints|
        invariant forall i :: 0 <= i < |to| ==> to[i] < e
        invariant KindOf(request) != Read ==> to == []
        invariant FellBack(log, |history|, |log|, request)
        invariant AllPassed(manifests, log, |history|, e, request, to)
        invariant misses > 0 <==> request.Operation? && AnyDeclines(manifests, e, request.id)
        invariant history <= log && (request.HandshakeRequest? ==> manifests == known)
        invariant request.Operation? ==> Searched(known, history, manifests, log, request.id, e, to, misses)
      {
        ghost var before, sent := manifests, log;
        var verdict := Consult(e, request);
        ghost var consulted := log;
        FellBackStep(sent, |history|, request, Sent(e, HandshakeRequest));
        if request.Operation? {
          DeclinesStep(before, manifests, e, request.id);
        }
        AllPassedOn(before, manifests, sent, log, |history|, e, request, to);
        AllPassedNow(manifests, log, |history|, e, request, to);
        match verdict {
          case Refuse(error) =>
            EndsWith(sent, Sent(e, HandshakeRequest), request, to, Err(error));
            SearchFails(known, history, before, sent, manifests, log, request.id, e, to, misses);
            return Err(error), to, false;
          case Miss =>
            SearchGoesOn(known, history, before, sent, manifests, log, request.id, e, to, misses);
            misses := misses + 1;
          case Skip =>
            SearchGoesOn(known, history, before, sent, manifests, log, request.id, e, to, misses);
          case Proceed =>
            var answer := Dispatch(e, request);
            assert log[..|log| - 1] == consulted;
            SearchBegins(manifests, log, IdOf(request));
            AllPassedOn(manifests, manifests, consulted, log, |history|, e, request, to);
            AllPassedTo(manifests, log, |history|, e, request, to);
            if request.Operation? {
              SearchGoesOn(known, history, before, sent, manifests, log, request.id, e, to, misses);
              SearchEnds(known, history, manifests, log, request.id, e + 1, to + [e], misses);
            }
            to := to + [e];
            FellBackStep(consulted, |history|, request, Sent(e, request));
            if answer.Some? {
              EndsWith(consulted, Sent(e, request), request, to, answer.value);
              return answer.value, to, false;
            }
        }
      }
      if request.Operation? {
        SearchEnds(known, history, manifests, log, request.id, |endpoints|, to, misses);
      }
      exhausted := true;
      return if misses > 0 then Err(Capability) else Err(Transport), to, exhausted;
    }

    /** Endpoints passed over stay so. */
    lemma {:induction false} PassedOn(before: map<string, set<string>>, now: map<string, set<string>>, log: seq<Sent>, longer: seq<Sent>,
        from: nat, e: nat, id: string, to: seq<nat>)
      requires CacheGrows(before, now) && log <= longer
      requires forall f: nat :: f < e ==> f in to || Passed(before, log, from, f, id)
      ensures forall f: nat :: f < e ==> f in to || Passed(now, longer, from, f, id)
    {
      hide Passed, CacheGrows;
      forall f: nat | f < e && f !in to
        ensures Passed(now, longer, from, f, id)
      {
        PassedStays(before, now, log, longer, from, f, id);
      }
    }

    /** Every endpoint before this one was dispatched to or passed over; a handshake passes over none. */
    ghost predicate AllPassed(known: map<string, set<string>>, log: seq<Sent>, from: nat, e: nat, request: Request, to: seq<nat>) {
      forall f: nat :: f < e ==> f in to || (request.Operation? && Passed(known, log, from, f, request.id))
    }

    lemma {:induction false} AllPassedBegins(known: map<string, set<string>>, log: seq<Sent>, request: Request)
      ensures AllPassed(known, log, |log|, 0, request, [])
    {
    }

    lemma {:induction false} AllPassedOn(before: map<string, set<string>>, now: map<string, set<string>>, log: seq<Sent>, longer: seq<Sent>,
        from: nat, e: nat, request: Request, to: seq<nat>)
      requires CacheGrows(before, now) && log <= longer && AllPassed(before, log, from, e, request, to)
      ensures AllPassed(now, longer, from, e, request, to)
    {
      hide Passed, CacheGrows;
      if request.Operation? {
        PassedOn(before, now, log, longer, from, e, request.id, to);
      }
    }

    lemma {:induction false} AllPassedNow(known: map<string, set<string>>, log: seq<Sent>, from: nat, e: nat, request: Request, to: seq<nat>)
      requires AllPassed(known, log, from, e, request, to)
      ensures request.Operation? && (Declines(known, e, request.id) || Failed(log, from, e)) ==> AllPassed(known, log, from, e + 1, request, to)
    {
      hide Declines, Failed;
    }

    lemma {:induction false} AllPassedTo(known: map<string, set<string>>, log: seq<Sent>, from: nat, e: nat, request: Request, to: seq<nat>)
      requires AllPassed(known, log, from, e, request, to)
      ensures AllPassed(known, log, from, e + 1, request, to + [e]) && AllPassed(known, log, from, e, request, to + [e])
    {
      hide Passed;
      assert forall f :: f in to ==> f in to + [e];
    }

    lemma {:induction false} PassedNow(known: map<string, set<string>>, log: seq<Sent>, from: nat, e: nat, id: string)
      ensures Declines(known, e, id) || Failed(log, from, e) ==> Passed(known, log, from, e, id)
    {
    }

    lemma {:induction false} HandshakeGrows(before: map<string, set<string>>, now: map<string, set<string>>, e: nat)
      requires e < |endpoints|
      requires now == before || (endpoints[e].url !in before && endpoints[e].url in now && now == before[endpoints[e].url := now[endpoints[e].url]])
      ensures CacheGrows(before, now)
    {
    }

    /** The last message is a handshake, which rejected the credentials. */
    ghost predicate Rejected(log: seq<Sent>, error: LiveError) {
      && log != []
      && var last := log[|log| - 1];
      last.request == HandshakeRequest && Refuses(network(log[..|log| - 1], last.to, HandshakeRequest), error)
      && (error == Authentication || error == Authorization)
    }

    /** `explain_route` dispatches nothing. The endpoint it names offers the operation, and is the first one that
        does when every handshake made on the way succeeds. */
    method ExplainRoute(request: Request) returns (r: Result<nat>)
      modifies this
      ensures request.Operation? ==> Dispatched(log, request) == Dispatched(old(log), request)
      ensures old(log) <= log && CacheGrows(old(manifests), manifests)
      ensures r.Ok? ==> Offers(manifests, r.value, IdOf(request))
      ensures r.Err? ==> r.error == Capability || (|log| > |old(log)| && Rejected(log, r.error))
      ensures forall f: nat :: f < (if r.Ok? then r.value else if r.error == Capability then |endpoints| else log[|log| - 1].to) ==>
        Passed(manifests, log, |old(log)|, f, IdOf(request))
      ensures Negotiated(log, |old(log)|) ==>
        && (r.Ok? ==> Routes(manifests, r.value, IdOf(request)))
        && (r.Err? ==> NoRoute(manifests, IdOf(request)) && r == Err(Capability))
    {
      hide Negotiated, Dispatched, Passed, Failed, Refuses, CacheGrows;
      SearchBegins(manifests, log, IdOf(request));
      for e := 0 to |endpoints|
        invariant forall f: nat :: f < e ==> Passed(manifests, log, |old(log)|, f, IdOf(request))
        invariant request.Operation? ==> Dispatched(log, request) == Dispatched(old(log), request)
        invariant old(log) <= log && CacheGrows(old(manifests), manifests)
        invariant Negotiated(log, |old(log)|) ==> forall f: nat :: f < e ==> Declines(manifests, f, IdOf(request))
      {
        ghost var before, sent := manifests, log;
        var manifest := Handshake(e);
        HandshakeGrows(before, manifests, e);
        GrowsOn(old(manifests), before, manifests);
        PassedOn(before, manifests, sent, log, |old(log)|, e, IdOf(request), []);
        KnownStays(before, manifests, IdOf(request));
        if request.Operation? {
          HandshakeIsNoDispatch(sent, log, e, request);
        }
        if Negotiated(log, |old(log)|) {
          NegotiatedBefore(sent, log, |old(log)|);
        }
        if manifest.Err? {
          NotNegotiated(sent, e, |old(log)|);
          FailedHere(sent, e, |old(log)|);
          PassedNow(manifests, log, |old(log)|, e, IdOf(request));
          assert log[..|log| - 1] == sent;
          if IsSecurity(manifest.error) {
            return Err(manifest.error);
          }
        } else if IdOf(request) in manifest.value {
          return Ok(e);
        } else {
          PassedNow(manifests, log, |old(log)|, e, IdOf(request));
        }
      }
      return Err(Capability);
    }

    /** When every handshake of the explanation succeeds, the target it names is the first endpoint a following
        `call` dispatches to, and the call dispatches to none exactly when there is no target. `between` is the
        length of the log when the explanation ended. */
    method ExplainThenCall(request: Request) returns (route: Result<nat>, r: Result<Response>, ghost to: seq<nat>, ghost between: nat)
      requires request.Operation?
      modifies this
      ensures old(log) <= log && |old(log)| <= between <= |log|
      ensures Negotiated(log[..between], |old(log)|) ==> (route.Ok? <==> to != []) && (to != [] ==> route == Ok(to[0]))
    {
      hide Negotiated, Dispatched;
      route := ExplainRoute(request);
      between := |log|;
      ghost var explained := log;
      ghost var exhausted;
      r, to, exhausted := Call(request);
      assert log[..between] == explained;
    }
  }

  lemma {:induction false} HandshakeIsNoDispatch(before: seq<Sent>, after: seq<Sent>, e: nat, request: Request)
    requires request.Operation? && (after == before || after == before + [Sent(e, HandshakeRequest)])
    ensures Dispatched(after, request) == Dispatched(before, request)
  {
    if after != before {
      DispatchedAppend(before, Sent(e, HandshakeRequest), request);
    }
  }
}
