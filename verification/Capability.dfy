/** Capability sets and the admission relation between them (README.md:406-422). */
module Capability {
  import opened Basics

  /** `https://host:port/segment/segment` */
  datatype EndpointScope = EndpointScope(origin: string, path: seq<string>)

  datatype Capabilities = Capabilities(
    storageRoots: set<Kappa>, storageQuota: nat,
    fetchEndpoints: set<EndpointScope>, announceEndpoints: set<EndpointScope>,
    publishChannels: set<Kappa>, subscribeChannels: set<Kappa>,
    memoryMax: nat, cpuTimePerEvent: nat, priorityWeight: nat)

  /** A scalar budget of 0 is unbounded. */
  predicate BudgetAdmits(grant: nat, request: nat) {
    grant == 0 || 0 < request <= grant
  }

  /** A scope narrows only on the exact origin and at path-segment boundaries. */
  predicate ScopeAdmits(grant: EndpointScope, request: EndpointScope) {
    grant.origin == request.origin && grant.path <= request.path
  }

  predicate ScopesAdmit(grant: set<EndpointScope>, request: set<EndpointScope>) {
    forall r :: r in request ==> exists g :: g in grant && ScopeAdmits(g, r)
  }

  predicate Admits(grant: Capabilities, request: Capabilities) {
    && request.storageRoots <= grant.storageRoots
    && BudgetAdmits(grant.storageQuota, request.storageQuota)
    && ScopesAdmit(grant.fetchEndpoints, request.fetchEndpoints)
    && ScopesAdmit(grant.announceEndpoints, request.announceEndpoints)
    && request.publishChannels <= grant.publishChannels
    && request.subscribeChannels <= grant.subscribeChannels
    && BudgetAdmits(grant.memoryMax, request.memoryMax)
    && BudgetAdmits(grant.cpuTimePerEvent, request.cpuTimePerEvent)
    && BudgetAdmits(grant.priorityWeight, request.priorityWeight)
  }

  lemma ScopesAdmitTransitive(a: set<EndpointScope>, b: set<EndpointScope>, c: set<EndpointScope>)
    requires ScopesAdmit(a, b) && ScopesAdmit(b, c)
    ensures ScopesAdmit(a, c)
  {
    forall r | r in c
      ensures exists g :: g in a && ScopeAdmits(g, r)
    {
      var m :| m in b && ScopeAdmits(m, r);
      var g :| g in a && ScopeAdmits(g, m);
      assert ScopeAdmits(g, r);
    }
  }

  /** Attenuation composes, so authority never grows along a chain of delegations. */
  lemma AdmitsTransitive(a: Capabilities, b: Capabilities, c: Capabilities)
    requires Admits(a, b) && Admits(b, c)
    ensures Admits(a, c)
  {
    ScopesAdmitTransitive(a.fetchEndpoints, b.fetchEndpoints, c.fetchEndpoints);
    ScopesAdmitTransitive(a.announceEndpoints, b.announceEndpoints, c.announceEndpoints);
  }

  lemma AdmitsReflexive(a: Capabilities)
    ensures Admits(a, a)
  {
    assert forall r :: r in a.fetchEndpoints ==> ScopeAdmits(r, r);
    assert forall r :: r in a.announceEndpoints ==> ScopeAdmits(r, r);
  }

  /** Something an application may do with its capabilities. */
  datatype Use =
    | Storage(root: Kappa) | Quota(amount: nat)
    | Fetch(url: EndpointScope) | Announce(url: EndpointScope)
    | Publish(channel: Kappa) | Subscribe(channel: Kappa)
    | Memory(amount: nat) | CpuTime(amount: nat) | Priority(amount: nat)

  /** An amount fits a budget, where a budget of 0 is no bound. */
  ghost predicate WithinBudget(budget: nat, amount: nat) {
    budget != 0 ==> amount <= budget
  }

  /** The address is one of a listed origin, and lies below the path listed with it. */
  ghost predicate WithinScopes(scopes: set<EndpointScope>, url: EndpointScope) {
    exists path, rest :: EndpointScope(url.origin, path) in scopes && url.path == path + rest
  }

  ghost predicate Permits(c: Capabilities, use: Use) {
    match use
    case Storage(root) => root in c.storageRoots
    case Quota(amount) => WithinBudget(c.storageQuota, amount)
    case Fetch(url) => WithinScopes(c.fetchEndpoints, url)
    case Announce(url) => WithinScopes(c.announceEndpoints, url)
    case Publish(channel) => channel in c.publishChannels
    case Subscribe(channel) => channel in c.subscribeChannels
    case Memory(amount) => WithinBudget(c.memoryMax, amount)
    case CpuTime(amount) => WithinBudget(c.cpuTimePerEvent, amount)
    case Priority(amount) => WithinBudget(c.priorityWeight, amount)
  }

  lemma {:induction false} BudgetsNest(grant: nat, request: nat)
    ensures BudgetAdmits(grant, request) <==> forall n :: WithinBudget(request, n) ==> WithinBudget(grant, n)
  {
    assert WithinBudget(request, request);
    assert request == 0 ==> WithinBudget(request, grant + 1);
  }

  lemma {:induction false} ScopesNest(grant: set<EndpointScope>, request: set<EndpointScope>)
    ensures ScopesAdmit(grant, request) <==> forall u :: WithinScopes(request, u) ==> WithinScopes(grant, u)
  {
    if ScopesAdmit(grant, request) {
      forall u | WithinScopes(request, u)
        ensures WithinScopes(grant, u)
      {
        var path, rest :| EndpointScope(u.origin, path) in request && u.path == path + rest;
        var g :| g in grant && ScopeAdmits(g, EndpointScope(u.origin, path));
        assert EndpointScope(u.origin, g.path) in grant && u.path == g.path + (path[|g.path|..] + rest);
      }
    }
    if forall u :: WithinScopes(request, u) ==> WithinScopes(grant, u) {
      forall r | r in request
        ensures exists g :: g in grant && ScopeAdmits(g, r)
      {
        assert EndpointScope(r.origin, r.path) in request && r.path == r.path + [];
        assert WithinScopes(request, r);
        var path, rest :| EndpointScope(r.origin, path) in grant && r.path == path + rest;
        assert ScopeAdmits(EndpointScope(r.origin, path), r);
      }
    }
  }

  /** The nine parts of `Permits`, one at a time. */
  lemma {:induction false} PermitsEach(grant: Capabilities, request: Capabilities)
    requires forall use :: Permits(request, use) ==> Permits(grant, use)
    ensures request.storageRoots <= grant.storageRoots && request.publishChannels <= grant.publishChannels
    ensures request.subscribeChannels <= grant.subscribeChannels
    ensures forall n :: WithinBudget(request.storageQuota, n) ==> WithinBudget(grant.storageQuota, n)
    ensures forall n :: WithinBudget(request.memoryMax, n) ==> WithinBudget(grant.memoryMax, n)
    ensures forall n :: WithinBudget(request.cpuTimePerEvent, n) ==> WithinBudget(grant.cpuTimePerEvent, n)
    ensures forall n :: WithinBudget(request.priorityWeight, n) ==> WithinBudget(grant.priorityWeight, n)
    ensures forall u :: WithinScopes(request.fetchEndpoints, u) ==> WithinScopes(grant.fetchEndpoints, u)
    ensures forall u :: WithinScopes(request.announceEndpoints, u) ==> WithinScopes(grant.announceEndpoints, u)
  {
    hide WithinBudget, WithinScopes;
    forall k | k in request.storageRoots
      ensures k in grant.storageRoots
    {
      assert Permits(request, Storage(k));
    }
    forall k | k in request.publishChannels
      ensures k in grant.publishChannels
    {
      assert Permits(request, Publish(k));
    }
    forall k | k in request.subscribeChannels
      ensures k in grant.subscribeChannels
    {
      assert Permits(request, Subscribe(k));
    }
    forall n | WithinBudget(request.storageQuota, n)
      ensures WithinBudget(grant.storageQuota, n)
    {
      assert Permits(request, Quota(n));
    }
    forall n | WithinBudget(request.memoryMax, n)
      ensures WithinBudget(grant.memoryMax, n)
    {
      assert Permits(request, Memory(n));
    }
    forall n | WithinBudget(request.cpuTimePerEvent, n)
      ensures WithinBudget(grant.cpuTimePerEvent, n)
    {
      assert Permits(request, CpuTime(n));
    }
    forall n | WithinBudget(request.priorityWeight, n)
      ensures WithinBudget(grant.priorityWeight, n)
    {
      assert Permits(request, Priority(n));
    }
    forall u | WithinScopes(request.fetchEndpoints, u)
      ensures WithinScopes(grant.fetchEndpoints, u)
    {
      assert Permits(request, Fetch(u));
    }
    forall u | WithinScopes(request.announceEndpoints, u)
      ensures WithinScopes(grant.announceEndpoints, u)
    {
      assert Permits(request, Announce(u));
    }
  }

  /** One set admits another exactly when it permits everything the other permits. */
  lemma {:induction false} AdmitsIffPermits(grant: Capabilities, request: Capabilities)
    ensures Admits(grant, request) <==> forall use :: Permits(request, use) ==> Permits(grant, use)
  {
    BudgetsNest(grant.storageQuota, request.storageQuota);
    BudgetsNest(grant.memoryMax, request.memoryMax);
    BudgetsNest(grant.cpuTimePerEvent, request.cpuTimePerEvent);
    BudgetsNest(grant.priorityWeight, request.priorityWeight);
    ScopesNest(grant.fetchEndpoints, request.fetchEndpoints);
    ScopesNest(grant.announceEndpoints, request.announceEndpoints);
    hide BudgetAdmits, WithinBudget, ScopesAdmit, WithinScopes;
    if forall use :: Permits(request, use) ==> Permits(grant, use) {
      PermitsEach(grant, request);
    }
  }
}
