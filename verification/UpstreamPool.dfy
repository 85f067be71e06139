/**
 The upstream pool as objects updated in place, called one operation at a time.  Every method
 does the step of the same name in PoolRuns.  The `removed` flag of a server is never set, so
 it is left out of the filters.
 */
module UpstreamPool {
  import opened Wrappers
  import opened Upstream
  import opened PoolRuns

  class UpstreamServer {
    const id: nat
    const uri: string
    const maxConnections: nat
    const maxStickySessions: nat
    var availablePermits: nat
    var stickySessions: map<Uuid, int>

    ghost function View(): Server
      reads this
    {
      Server(id, uri, maxConnections, availablePermits, maxStickySessions, stickySessions)
    }

    constructor (id: nat, upstream: Config)
      ensures View() == NewServer(id, upstream)
    {
      this.id := id;
      uri := upstream.uri;
      maxConnections := upstream.connections;
      availablePermits := upstream.connections;
      maxStickySessions := upstream.stickySessions;
      stickySessions := map[];
    }

    /** Mark a session as used now, unless it is gone: never brings a session back. */
    method UpdateId(id: Uuid, now: int)
      modifies this`stickySessions
      ensures View() == if id in old(stickySessions) then Stick(old(View()), id, now) else old(View())
    {
      if id in stickySessions {
        stickySessions := stickySessions[id := now];
      }
    }

    /** Stick an id to this server, unless the server is full. */
    method TryAddSticky(id: Uuid, now: int) returns (ok: bool)
      modifies this`stickySessions
      ensures ok <==> !FullSticky(old(View()))
      ensures View() == if ok then Stick(old(View()), id, now) else old(View())
    {
      if |stickySessions| >= maxStickySessions {
        return false;
      }
      stickySessions := stickySessions[id := now];
      ok := true;
    }

    /** End the sessions not used for longer than `expiry`. */
    method ExpireSticky(now: int, expiry: nat) returns (ended: set<Uuid>)
      modifies this`stickySessions
      ensures ended == Stale(old(View()), now, expiry)
      ensures View() == old(View()).(sticky := old(stickySessions) - ended)
    {
      ended := set id | id in stickySessions && Age(now, stickySessions[id]) > expiry;
      stickySessions := stickySessions - ended;
    }

    method TryAcquire() returns (ok: bool)
      modifies this`availablePermits
      ensures ok <==> old(availablePermits) > 0
      ensures View() == if ok then Take(old(View())) else old(View())
    {
      ok := availablePermits > 0;
      if ok {
        availablePermits := availablePermits - 1;
      }
    }

    method DropPermit()
      modifies this`availablePermits
      ensures View() == old(View()).(available := old(availablePermits) + 1)
    {
      availablePermits := availablePermits + 1;
    }

    /** The subtraction does not go below zero while no more permits are free than exist. */
    function CurrentConnections(): nat
      reads this
      requires availablePermits <= maxConnections
    {
      maxConnections - availablePermits
    }
  }

  class UpstreamPool {
    var pool: seq<UpstreamServer>
    var nextId: nat

    ghost function Servers(): (s: seq<Server>)
      reads this, pool
    {
      Views(pool)
    }

    ghost function View(): Pool
      reads this, pool
    {
      Pool(Servers(), nextId)
    }

    /** The entries are different objects, and the pool they show is sound. */
    ghost predicate Valid()
      reads this, pool
    {
      && Separate(pool)
      && Sound(View())
    }

    constructor ()
      ensures Valid() && View() == Pool([], 1)
    {
      pool, nextId := [], 1;
    }

    /** The servers by sessions and connections, or by connections alone, least first. */
    method Least(bySessions: bool) returns (order: seq<nat>)
      requires NoneOverdrawn(Servers())
      ensures order == StableOrder(Keys(Servers(), bySessions), |pool|)
    {
      ghost var servers := Servers();
      var ranked: seq<(int, int)> := [];
      for i := 0 to |pool|
        invariant |ranked| == i && forall j :: 0 <= j < i ==> ranked[j] == Key(servers[j], bySessions)
      {
        assert servers[i] == pool[i].View();
        var connections := pool[i].CurrentConnections();
        ranked := ranked + [(if bySessions then |pool[i].stickySessions| else 0, connections)];
      }
      assert ranked == Keys(servers, bySessions);
      order := StableOrder(ranked, |pool|);
    }

    /** Skip the full servers of an order. */
    method FirstFree(order: seq<nat>) returns (p: nat)
      requires forall q :: 0 <= q < |order| ==> order[q] < |pool|
      ensures p <= |order| && (p < |order| ==> Servers()[order[p]].available > 0)
      ensures forall q :: 0 <= q < p ==> Servers()[order[q]].available == 0
    {
      ghost var servers := Servers();
      p := 0;
      while p < |order| && pool[order[p]].availablePermits == 0
        invariant p <= |order| && forall q :: 0 <= q < p ==> servers[order[q]].available == 0
      {
        assert servers[order[p]] == pool[order[p]].View();
        p := p + 1;
      }
      assert p < |order| ==> servers[order[p]] == pool[order[p]].View();
    }

    /** Go through the servers, least first, skip full ones, and take the first permit there is:
        one of server k, or none if k is the number of servers. */
    method AcquireLeast(bySessions: bool) returns (k: nat)
      requires Separate(pool) && NoneOverdrawn(Servers())
      modifies pool
      ensures pool == old(pool) && nextId == old(nextId) && k <= |pool|
      ensures k == |pool| ==> Choice(old(Servers()), bySessions) == None && Servers() == old(Servers())
      ensures k < |pool| ==>
                && Choice(old(Servers()), bySessions) == Some(k)
                && Servers() == old(Servers())[k := Take(old(Servers())[k])]
    {
      hide Choice, StableOrder, Keys, FullSticky, Key;
      ghost var servers := Servers();
      var order := Least(bySessions);
      var p := FirstFree(order);
      if p == |order| {
        NoneInOrderIsNone(servers, bySessions, order);
        return |pool|;
      }
      FirstOfOrderIsChoice(servers, bySessions, order, p);
      k := order[p];
      var ok := pool[k].TryAcquire();
      assert Servers() == servers[k := pool[k].View()];
    }

    /** acquire_connection_permit.  With nobody else to free a permit the wait that follows a failed
        search ends with its timeout. */
    method AcquireConnectionPermit() returns (granted: Option<string>)
      requires Valid()
      modifies pool
      ensures Valid() && pool == old(pool)
      ensures (View(), ReplyOf(granted)) == Step(old(View()), AcquireConnection)
    {
      StepKeepsSound(View(), AcquireConnection);
      SoundParts(View());
      var k := AcquireLeast(false);
      granted := if k < |pool| then Some(pool[k].uri) else None;
      assert View() == Step(old(View()), AcquireConnection).0;
    }

    /** The search for the server an id is stuck to, read lock by read lock. */
    method FindHolder(id: Uuid) returns (k: nat)
      ensures k == Holder(Servers(), id)
    {
      ghost var servers := Servers();
      k := 0;
      while k < |pool| && id !in pool[k].stickySessions
        invariant k <= |pool| && forall j :: 0 <= j < k ==> id !in servers[j].sticky
      {
        assert servers[k] == pool[k].View();
        k := k + 1;
      }
      assert k < |pool| ==> servers[k] == pool[k].View();
    }

    /** acquire_sticky_permit, with one attempt for an id that is new. */
    method AcquireStickyPermit(id: Uuid, now: int) returns (granted: Option<string>)
      requires Valid()
      modifies pool
      ensures Valid() && pool == old(pool)
      ensures (View(), ReplyOf(granted)) == Step(old(View()), AcquireSticky(id, now))
    {
      StepKeepsSound(View(), AcquireSticky(id, now));
      SoundParts(View());
      granted := AcquireForId(id, now);
      assert View() == Step(old(View()), AcquireSticky(id, now)).0;
    }

    method AcquireForId(id: Uuid, now: int) returns (granted: Option<string>)
      requires Separate(pool) && NoneOverdrawn(Servers()) && DistinctIds(Servers())
      modifies pool
      ensures pool == old(pool) && nextId == old(nextId)
      ensures (Servers(), ReplyOf(granted)) == AcquireStickyStep(old(Servers()), id, now)
    {
      var k := FindHolder(id);
      if k < |pool| {
        granted := ExistingStickyUri(k, id, now);
      } else {
        granted := NewStickyUri(id, now);
      }
    }

    /** Mark the session as used, then take a permit of its server if there is one. */
    method ExistingStickyUri(k: nat, id: Uuid, now: int) returns (granted: Option<string>)
      requires Separate(pool) && k < |pool| && id in pool[k].stickySessions
      modifies pool
      ensures pool == old(pool) && nextId == old(nextId)
      ensures
        var touched := Stick(old(Servers())[k], id, now);
        && Servers() == old(Servers())[k := if touched.available == 0 then touched else Take(touched)]
        && granted == if touched.available == 0 then None else Some(touched.uri)
    {
      ghost var servers := Servers();
      var upstream := pool[k];
      upstream.UpdateId(id, now);
      var ok := upstream.TryAcquire();
      assert Servers() == servers[k := upstream.View()];
      granted := if ok then Some(upstream.uri) else None;
    }

    method FindById(id: nat, ghost c: nat) returns (k: nat)
      requires c < |pool| && pool[c].id == id && DistinctIds(Servers())
      ensures k == c
    {
      forall j | 0 <= j < c ensures pool[j].id != id {
        assert Servers()[j].id != Servers()[c].id;
      }
      k := 0;
      while pool[k].id != id
        invariant 0 <= k <= c
        decreases c - k
      {
        k := k + 1;
      }
    }

    /** With a permit of server c in hand: find the server by its id and ask it for a session;
        without one the permit is dropped again. */
    method StickOrDrop(c: nat, id: Uuid, now: int) returns (granted: Option<string>)
      requires Separate(pool) && DistinctIds(Servers()) && c < |pool|
      modifies pool
      ensures pool == old(pool) && nextId == old(nextId)
      ensures
        var was := old(Servers())[c];
        if FullSticky(was) then
          granted == None && Servers() == old(Servers())[c := was.(available := was.available + 1)]
        else
          granted == Some(was.uri) && Servers() == old(Servers())[c := Stick(was, id, now)]
    {
      ghost var servers := Servers();
      var k := FindById(pool[c].id, c);
      var ok := pool[k].TryAddSticky(id, now);
      if ok {
        granted := Some(pool[k].uri);
      } else {
        pool[c].DropPermit();
        granted := None;
      }
      assert Servers() == servers[c := pool[c].View()];
    }

    /** One attempt of new_sticky_uri. */
    method NewStickyUri(id: Uuid, now: int) returns (granted: Option<string>)
      requires Separate(pool) && NoneOverdrawn(Servers()) && DistinctIds(Servers())
      modifies pool
      ensures pool == old(pool) && nextId == old(nextId)
      ensures (Servers(), ReplyOf(granted)) == NewStickyStep(old(Servers()), id, now)
    {
      hide Choice, Separate, NoneOverdrawn, Views;
      ghost var servers := Servers();
      var k := AcquireLeast(true);
      if k == |pool| {
        return None;
      }
      ghost var taken := Take(servers[k]);
      granted := StickOrDrop(k, id, now);
      UpdateTwice(servers, k, taken, Servers()[k]);
    }

    /** A guard for server k is dropped, and its permit with it. */
    method DropGuard(k: nat)
      requires Valid() && k < |pool| && pool[k].availablePermits < pool[k].maxConnections
      modifies pool
      ensures Valid() && pool == old(pool)
      ensures (View(), Done) == Step(old(View()), Release(pool[k].id))
    {
      ghost var servers := Servers();
      StepKeepsSound(View(), Release(pool[k].id));
      SoundParts(View());
      ReleasedAt(servers, k);
      pool[k].DropPermit();
      assert Servers() == servers[k := pool[k].View()];
      assert View() == Step(old(View()), Release(pool[k].id)).0;
    }

    /** remove_sticky_session */
    method RemoveStickySession(id: Uuid)
      requires Valid()
      modifies pool
      ensures Valid() && pool == old(pool)
      ensures (View(), Done) == Step(old(View()), RemoveSession(id))
    {
      StepKeepsSound(View(), RemoveSession(id));
      RemoveFirstSession(id);
      assert View() == Step(old(View()), RemoveSession(id)).0;
    }

    method RemoveFirstSession(id: Uuid)
      requires Separate(pool)
      modifies pool
      ensures pool == old(pool) && nextId == old(nextId)
      ensures Servers() == RemoveSessionStep(old(Servers()), id)
    {
      ghost var servers := Servers();
      var k := FindHolder(id);
      if k < |pool| {
        pool[k].stickySessions := pool[k].stickySessions - {id};
        assert Servers() == servers[k := pool[k].View()];
      }
    }

    /** expire_sticky */
    method ExpireSticky(now: int, expiry: nat) returns (ended: set<Uuid>)
      requires Valid()
      modifies pool
      ensures Valid() && pool == old(pool)
      ensures (View(), Ended(ended)) == Step(old(View()), ExpireSessions(now, expiry))
    {
      hide Sound, ExpireStep, AllStale, Views;
      StepKeepsSound(View(), ExpireSessions(now, expiry));
      ended := ExpireEach(now, expiry);
      assert View() == Step(old(View()), ExpireSessions(now, expiry)).0;
    }

    method ExpireEach(now: int, expiry: nat) returns (ended: set<Uuid>)
      requires Separate(pool)
      modifies pool
      ensures pool == old(pool) && nextId == old(nextId)
      ensures Servers() == ExpireStep(old(Servers()), now, expiry)
      ensures ended == AllStale(old(Servers()), now, expiry)
    {
      hide ExpireStep, AllStale, Stale, PartlyExpired;
      ghost var servers := Servers();
      ExpireEnds(servers, now, expiry);
      ended := {};
      for i := 0 to |pool|
        invariant ended == AllStale(servers[..i], now, expiry)
        invariant Servers() == PartlyExpired(servers, now, expiry, i)
      {
        ExpireSnoc(servers, now, expiry, i);
        ghost var before := Servers();
        assert before[i] == pool[i].View();
        var here := pool[i].ExpireSticky(now, expiry);
        assert Servers() == before[i := pool[i].View()];
        ended := ended + here;
      }
      assert servers[..|servers|] == servers;
    }

    /** add_upstreams */
    method AddUpstreams(upstreams: seq<Config>)
      requires Valid()
      modifies this
      ensures Valid() && (forall s :: s in pool ==> s in old(pool) || fresh(s))
      ensures (View(), Done) == Step(old(View()), PoolRuns.AddUpstreams(upstreams))
    {
      StepKeepsSound(View(), PoolRuns.AddUpstreams(upstreams));
      var known := KnownUris();
      AddUnknown(upstreams, known);
      assert View() == Step(old(View()), PoolRuns.AddUpstreams(upstreams)).0;
    }

    method KnownUris() returns (known: set<string>)
      ensures known == Uris(Servers())
    {
      ghost var servers := Servers();
      known := {};
      for i := 0 to |pool|
        invariant known == Uris(servers[..i])
      {
        assert servers[..i + 1][..i] == servers[..i];
        known := known + {pool[i].uri};
      }
      assert servers[..|servers|] == servers;
    }

    method AddUnknown(upstreams: seq<Config>, known: set<string>)
      requires Separate(pool)
      modifies this
      ensures Separate(pool) && (forall s :: s in pool ==> s in old(pool) || fresh(s))
      ensures View() == AddStep(old(View()), upstreams, known)
    {
      ghost var was := View();
      assert AddStep(was, upstreams[..0], known) == was;
      hide AddStep;
      for k := 0 to |upstreams|
        invariant Separate(pool) && forall s :: s in pool ==> s in old(pool) || fresh(s)
        invariant View() == AddStep(was, upstreams[..k], known)
      {
        AddSnoc(was, upstreams, known, k);
        if upstreams[k].uri !in known {
          ghost var before := Servers();
          var server := new UpstreamServer(nextId, upstreams[k]);
          pool := pool + [server];
          nextId := nextId + 1;
          assert Servers() == before + [server.View()];
        }
      }
      assert upstreams[..|upstreams|] == upstreams;
    }

    /** remove_uris */
    method RemoveUris(uris: seq<string>)
      requires Valid()
      modifies this
      ensures Valid() && forall s :: s in pool ==> s in old(pool)
      ensures (View(), Done) == Step(old(View()), PoolRuns.RemoveUris(set u | u in uris))
    {
      StepKeepsSound(View(), PoolRuns.RemoveUris(set u | u in uris));
      Retain(set u | u in uris);
      assert View() == Step(old(View()), PoolRuns.RemoveUris(set u | u in uris)).0;
    }

    method Retain(gone: set<string>)
      requires Separate(pool)
      modifies this
      ensures Separate(pool) && (forall s :: s in pool ==> s in old(pool)) && nextId == old(nextId)
      ensures Servers() == RetainStep(old(Servers()), gone)
    {
      hide RetainStep;
      ghost var servers := Servers();
      var kept: seq<UpstreamServer> := [];
      for i := 0 to |pool|
        invariant pool == old(pool) && nextId == old(nextId) && Servers() == servers
        invariant forall s :: s in kept ==> s in pool[..i]
        invariant Separate(kept) && Views(kept) == RetainStep(servers[..i], gone)
      {
        RetainSnoc(servers, gone, i);
        assert pool[i] !in pool[..i] && servers[i] == pool[i].View();
        if pool[i].uri !in gone {
          assert Views(kept + [pool[i]]) == Views(kept) + [pool[i].View()];
          kept := kept + [pool[i]];
        }
      }
      assert servers[..|servers|] == servers;
      pool := kept;
    }
  }

  ghost predicate NoneOverdrawn(servers: seq<Server>) {
    forall i :: 0 <= i < |servers| ==> servers[i].available <= servers[i].maxConnections
  }

  ghost predicate DistinctIds(servers: seq<Server>) {
    forall i, j :: 0 <= i < j < |servers| ==> servers[i].id != servers[j].id
  }

  /** No object stands in the pool twice. */
  ghost predicate Separate(pool: seq<UpstreamServer>) {
    forall i, j :: 0 <= i < j < |pool| ==> pool[i] != pool[j]
  }

  ghost function Views(pool: seq<UpstreamServer>): (s: seq<Server>)
    reads pool
    ensures |s| == |pool|
    ensures forall i :: 0 <= i < |pool| ==> s[i] == pool[i].View()
  {
    seq(|pool|, i requires 0 <= i < |pool| reads pool => pool[i].View())
  }

  lemma ReleasedAt(servers: seq<Server>, k: nat)
    requires DistinctIds(servers) && k < |servers| && servers[k].available < servers[k].maxConnections
    ensures ReleaseStep(servers, servers[k].id) == servers[k := servers[k].(available := servers[k].available + 1)]
  {
  }

  lemma UpdateTwice(servers: seq<Server>, k: nat, x: Server, y: Server)
    requires k < |servers|
    ensures servers[k := x][k := y] == servers[k := y]
    ensures servers[k := servers[k]] == servers
  {
  }

  lemma SoundParts(pool: Pool)
    requires Sound(pool)
    ensures NoneOverdrawn(pool.servers) && DistinctIds(pool.servers)
  {
    forall i | 0 <= i < |pool.servers| ensures pool.servers[i].available <= pool.servers[i].maxConnections {
      assert Within(pool.servers[i], pool.nextId);
    }
    forall i, j | 0 <= i < j < |pool.servers| ensures pool.servers[i].id != pool.servers[j].id {
      assert Apart(pool.servers[i], pool.servers[j]);
    }
  }

  /** The sessions once the first i servers are done. */
  function PartlyExpired(servers: seq<Server>, now: int, expiry: nat, i: nat): seq<Server>
    requires i <= |servers|
  {
    ExpireStep(servers[..i], now, expiry) + servers[i..]
  }

  lemma ExpireSnoc(servers: seq<Server>, now: int, expiry: nat, i: nat)
    requires i < |servers|
    ensures AllStale(servers[..i + 1], now, expiry)
            == AllStale(servers[..i], now, expiry) + Stale(servers[i], now, expiry)
    ensures PartlyExpired(servers, now, expiry, i)[i] == servers[i]
    ensures PartlyExpired(servers, now, expiry, i + 1)
            == PartlyExpired(servers, now, expiry, i)
                 [i := servers[i].(sticky := servers[i].sticky - Stale(servers[i], now, expiry))]
  {
    assert servers[..i + 1][..i] == servers[..i];
  }

  lemma ExpireEnds(servers: seq<Server>, now: int, expiry: nat)
    ensures PartlyExpired(servers, now, expiry, 0) == servers && AllStale(servers[..0], now, expiry) == {}
    ensures PartlyExpired(servers, now, expiry, |servers|) == ExpireStep(servers, now, expiry)
  {
    assert servers[..|servers|] == servers && servers[|servers|..] == [];
  }

  lemma AddSnoc(pool: Pool, upstreams: seq<Config>, known: set<string>, k: nat)
    requires k < |upstreams|
    ensures
      var before := AddStep(pool, upstreams[..k], known);
      AddStep(pool, upstreams[..k + 1], known)
      == if upstreams[k].uri in known then before
         else Pool(before.servers + [NewServer(before.nextId, upstreams[k])], before.nextId + 1)
  {
    assert upstreams[..k + 1][..k] == upstreams[..k];
  }

  lemma RetainSnoc(servers: seq<Server>, gone: set<string>, i: nat)
    requires i < |servers|
    ensures RetainStep(servers[..i + 1], gone)
            == RetainStep(servers[..i], gone) + (if servers[i].uri in gone then [] else [servers[i]])
  {
    assert servers[..i + 1][..i] == servers[..i];
  }

  function ReplyOf(granted: Option<string>): Reply {
    match granted
    case None => Denied
    case Some(uri) => Granted(uri)
  }
}
