/** The cache of per-tenant Temporal clients: looked up under a read lock, dialed without a lock,
    looked up again and stored under the write lock. */
module TenantClients {
  import opened Outcomes

  /** Clients are numbered in the order in which they were dialed. */
  type Client = nat

  class TemporalClient {
    var tenantClients: map<string, Client>

    constructor ()
      ensures tenantClients == map[]
    {
      tenantClients := map[];
    }

    /** The fast path, under the read lock. */
    method Lookup(tenant: string) returns (c: Option<Client>)
      ensures c.Some? <==> tenant in tenantClients
      ensures c.Some? ==> tenantClients[tenant] == c.value
    {
      if tenant in tenantClients {
        return Some(tenantClients[tenant]);
      }
      return None;
    }

    /** The end of the slow path, under the write lock: the client to return. If that is not the
        one just dialed, the caller closes its own. */
    method Store(tenant: string, dialed: Client) returns (c: Client)
      modifies this
      ensures tenantClients == Stored(old(tenantClients), tenant, dialed)
      ensures c == tenantClients[tenant]
    {
      if tenant in tenantClients {
        return tenantClients[tenant];
      }
      tenantClients := tenantClients[tenant := dialed];
      return dialed;
    }

    /** A call that no other comes between; dialed is what dialing gives, if it is needed and
        succeeds. The tenant's client afterwards is the one returned, clients already cached stay,
        and no client is dialed in vain. */
    method ClientForTenant(tenant: string, dialed: Option<Client>) returns (c: Option<Client>)
      modifies this
      ensures c.None? <==> tenant !in old(tenantClients) && dialed.None?
      ensures c.None? ==> tenantClients == old(tenantClients)
      ensures c.Some? ==> tenant in tenantClients && tenantClients[tenant] == c.value
      ensures forall t :: t in old(tenantClients) ==> t in tenantClients && tenantClients[t] == old(tenantClients[t])
      ensures tenant !in old(tenantClients) ==> c == dialed
    {
      c := Lookup(tenant);
      if c.Some? || dialed.None? {
        return c;
      }
      var stored := Store(tenant, dialed.value);
      return Some(stored);
    }
  }

  function Stored(cache: map<string, Client>, tenant: string, dialed: Client): map<string, Client> {
    if tenant in cache then cache else cache[tenant := dialed]
  }

  // ----- Any number of callers -----

  /** A caller that missed the cache, one that has dialed, and one that lost the race and has yet to
      close its client before it returns the stored one. */
  datatype Call =
    | Missed(tenant: string)
    | Dialed(tenant: string, own: Client)
    | Lost(tenant: string, own: Client, stored: Client)

  datatype Sys = Sys(
    cache: map<string, Client>, calls: map<nat, Call>, next: Client,
    closed: seq<Client>, returned: set<(string, Client)>)

  datatype Step =
    | Start(call: nat, tenant: string)
    | DialOk(call: nat)
    | DialFailed(call: nat)
    | Store(call: nat)
    | Close(call: nat)

  ghost predicate Enabled(s: Sys, a: Step) {
    match a
    case Start(c, _) => c !in s.calls
    case DialOk(c) => c in s.calls && s.calls[c].Missed?
    case DialFailed(c) => c in s.calls && s.calls[c].Missed?
    case Store(c) => c in s.calls && s.calls[c].Dialed?
    case Close(c) => c in s.calls && s.calls[c].Lost?
  }

  ghost function Next(s: Sys, a: Step): Sys
    requires Enabled(s, a)
  {
    match a
    case Start(c, t) =>
      if t in s.cache then s.(returned := s.returned + {(t, s.cache[t])})
      else s.(calls := s.calls[c := Missed(t)])
    case DialOk(c) => s.(calls := s.calls[c := Dialed(s.calls[c].tenant, s.next)], next := s.next + 1)
    case DialFailed(c) => s.(calls := s.calls - {c})
    case Store(c) =>
      var t, own := s.calls[c].tenant, s.calls[c].own;
      var cache := Stored(s.cache, t, own);
      if cache[t] == own then s.(cache := cache, calls := s.calls - {c}, returned := s.returned + {(t, own)})
      else s.(calls := s.calls[c := Lost(t, own, cache[t])])
    case Close(c) =>
      s.(calls := s.calls - {c}, closed := s.closed + [s.calls[c].own],
         returned := s.returned + {(s.calls[c].tenant, s.calls[c].stored)})
  }

  const START := Sys(map[], map[], 0, [], {})

  ghost predicate Schedule(s: Sys, steps: seq<Step>)
    decreases steps
  {
    steps == [] || (Enabled(s, steps[0]) && Schedule(Next(s, steps[0]), steps[1..]))
  }

  ghost function Run(s: Sys, steps: seq<Step>): Sys
    requires Schedule(s, steps)
    decreases steps
  {
    if steps == [] then s else Run(Next(s, steps[0]), steps[1..])
  }

  // ----- Where each dialed client is -----

  ghost predicate Cached(s: Sys, id: Client) {
    exists t :: t in s.cache && s.cache[t] == id
  }

  ghost predicate Holder(s: Sys, c: nat) {
    c in s.calls && !s.calls[c].Missed?
  }

  ghost predicate Held(s: Sys, id: Client) {
    exists c :: Holder(s, c) && s.calls[c].own == id
  }

  ghost predicate CacheApart(s: Sys) {
    && (forall t :: t in s.cache ==> s.cache[t] < s.next && s.cache[t] !in s.closed)
    && (forall t, t' :: t in s.cache && t' in s.cache && t != t' ==> s.cache[t] != s.cache[t'])
  }

  ghost predicate CallsApart(s: Sys) {
    && (forall c :: Holder(s, c) ==> s.calls[c].own < s.next && s.calls[c].own !in s.closed)
    && (forall c, t :: Holder(s, c) && t in s.cache ==> s.calls[c].own != s.cache[t])
    && (forall c, c' :: Holder(s, c) && Holder(s, c') && c != c' ==> s.calls[c].own != s.calls[c'].own)
  }

  ghost predicate ClosedApart(s: Sys) {
    && (forall i | 0 <= i < |s.closed| :: s.closed[i] < s.next)
    && (forall i, j | 0 <= i < j < |s.closed| :: s.closed[i] != s.closed[j])
  }

  /** No client is in two places. */
  ghost predicate Apart(s: Sys) {
    CacheApart(s) && CallsApart(s) && ClosedApart(s)
  }

  /** Every dialed client is somewhere. */
  ghost predicate Covered(s: Sys) {
    forall id: Client | id < s.next :: Cached(s, id) || Held(s, id) || id in s.closed
  }

  /** What has been or will be returned for a tenant is what the cache holds for it. */
  ghost predicate Agreed(s: Sys) {
    && (forall t, id :: (t, id) in s.returned ==> t in s.cache && s.cache[t] == id)
    && (forall c :: c in s.calls && s.calls[c].Lost? ==>
          s.calls[c].tenant in s.cache && s.cache[s.calls[c].tenant] == s.calls[c].stored)
  }

  ghost predicate Inv(s: Sys) {
    Apart(s) && Covered(s) && Agreed(s)
  }

  lemma NextKeepsCacheApart(s: Sys, a: Step)
    requires Apart(s) && Enabled(s, a)
    ensures CacheApart(Next(s, a))
  {
    assert (a.Store? || a.Close?) ==> Holder(s, a.call);
  }

  lemma NextKeepsCallsApart(s: Sys, a: Step)
    requires Apart(s) && Enabled(s, a)
    ensures CallsApart(Next(s, a))
  {
    var s' := Next(s, a);
    assert forall c :: Holder(s', c) && c != a.call ==> Holder(s, c) && s.calls[c] == s'.calls[c];
    assert (a.Store? || a.Close?) ==> Holder(s, a.call);
    assert Holder(s', a.call) ==> a.DialOk? || Holder(s, a.call);
  }

  lemma NextKeepsClosedApart(s: Sys, a: Step)
    requires Apart(s) && Enabled(s, a)
    ensures ClosedApart(Next(s, a))
  {
    assert a.Close? ==> Holder(s, a.call);
  }

  lemma NextIsCovered(s: Sys, a: Step)
    requires Covered(s) && Apart(s) && Enabled(s, a)
    ensures Covered(Next(s, a))
  {
    var s' := Next(s, a);
    forall id: Client | id < s'.next ensures Cached(s', id) || Held(s', id) || id in s'.closed {
      if id == s.next {
        assert Holder(s', a.call);
      } else if Cached(s, id) {
        var t :| t in s.cache && s.cache[t] == id;
        assert t in s'.cache && s'.cache[t] == id;
      } else if Held(s, id) {
        var c :| Holder(s, c) && s.calls[c].own == id;
        if c != a.call || a.Start? {
          assert Holder(s', c);
        } else if a.Store? {
          var t := s.calls[c].tenant;
          if t in s.cache {
            assert Holder(s', c);
          } else {
            assert t in s'.cache && s'.cache[t] == id;
          }
        } else {
          assert s'.closed[|s.closed|] == id;
        }
      } else {
        assert id in s'.closed;
      }
    }
  }

  lemma NextIsAgreed(s: Sys, a: Step)
    requires Agreed(s) && Enabled(s, a)
    ensures Agreed(Next(s, a))
  {
  }

  lemma {:induction false} RunKeepsInv(s: Sys, steps: seq<Step>)
    requires Inv(s) && Schedule(s, steps)
    ensures Inv(Run(s, steps))
    decreases steps
  {
    hide CacheApart, CallsApart, ClosedApart, Covered, Agreed, Next, Enabled;
    if steps != [] {
      NextKeepsCacheApart(s, steps[0]);
      NextKeepsCallsApart(s, steps[0]);
      NextKeepsClosedApart(s, steps[0]);
      NextIsCovered(s, steps[0]);
      NextIsAgreed(s, steps[0]);
      RunKeepsInv(Next(s, steps[0]), steps[1..]);
    }
  }

  /** Over any interleaving of callers, all calls for a tenant that succeed return the same client,
      and no client that was returned is ever closed. */
  lemma OneClientPerTenant(steps: seq<Step>, later: seq<Step>, tenant: string, first: Client, second: Client)
    requires Schedule(START, steps) && Schedule(Run(START, steps), later)
    requires (tenant, first) in Run(START, steps).returned
    requires (tenant, second) in Run(Run(START, steps), later).returned
    ensures first == second && first !in Run(Run(START, steps), later).closed
  {
    var s := Run(START, steps);
    RunKeepsInv(START, steps);
    RunKeepsInv(s, later);
    CacheIsKept(s, later, tenant);
  }

  lemma {:induction false} CacheIsKept(s: Sys, steps: seq<Step>, tenant: string)
    requires Schedule(s, steps) && tenant in s.cache
    ensures tenant in Run(s, steps).cache && Run(s, steps).cache[tenant] == s.cache[tenant]
    decreases steps
  {
    if steps != [] {
      CacheIsKept(Next(s, steps[0]), steps[1..], tenant);
    }
  }

  /** Every dialed client is cached, held by exactly one caller, or was closed exactly once, and
      only one of these. */
  lemma EachClientOnce(steps: seq<Step>, id: Client)
    requires Schedule(START, steps) && id < Run(START, steps).next
    ensures var s := Run(START, steps);
            && (Cached(s, id) || Held(s, id) || id in s.closed)
            && (forall c, c' :: Holder(s, c) && Holder(s, c') && s.calls[c].own == id == s.calls[c'].own ==> c == c')
            && !(Cached(s, id) && Held(s, id)) && !(Cached(s, id) && id in s.closed) && !(Held(s, id) && id in s.closed)
            && multiset(s.closed)[id] <= 1
  {
    RunKeepsInv(START, steps);
    DistinctOnce(Run(START, steps).closed, id);
  }

  lemma {:induction false} DistinctOnce(ids: seq<Client>, id: Client)
    requires forall i, j | 0 <= i < j < |ids| :: ids[i] != ids[j]
    ensures multiset(ids)[id] <= 1
  {
    if ids != [] {
      DistinctOnce(ids[1..], id);
      assert ids == [ids[0]] + ids[1..];
      if ids[0] == id {
        assert id !in ids[1..];
      }
    }
  }

  /** When no call is going on, every client ever dialed is cached or has been closed. */
  lemma NothingLeaks(steps: seq<Step>, id: Client)
    requires Schedule(START, steps) && Run(START, steps).calls == map[] && id < Run(START, steps).next
    ensures Cached(Run(START, steps), id) <==> id !in Run(START, steps).closed
  {
    EachClientOnce(steps, id);
  }
}
