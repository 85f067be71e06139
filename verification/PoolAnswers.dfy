/**
 What each call on the pool answers and changes, said on the fields of the servers, and how long a
 session lasts over a sequence of calls.
 */
module PoolAnswers {
  import opened Wrappers
  import opened Upstream
  import opened PoolRuns

  // ---------------------------------------------------------------- permits and sessions

  /** A call for any server hands out a permit exactly if one is free: one of the server with fewest
      connections in use, the earliest of several.  Nothing else changes. */
  lemma ConnectionAnswers(pool: Pool)
    ensures
      var (after, reply) := Step(pool, AcquireConnection);
      && (reply == Denied <==> forall j :: 0 <= j < |pool.servers| ==> pool.servers[j].available == 0)
      && (reply == Denied ==> after == pool)
      && (reply != Denied ==>
            exists i: nat ::
              LeastConnected(pool.servers, i) && TakesOne(pool, after, i) && reply == Granted(pool.servers[i].uri))
  {
    var c := Choice(pool.servers, false);
    NoChoiceIff(pool.servers, false);
    if c.Some? {
      LeastConnectionsIff(pool.servers, c.value);
      assert LeastConnected(pool.servers, c.value);
      assert TakesOne(pool, Step(pool, AcquireConnection).0, c.value);
    }
  }

  /** Exactly one permit has been taken, of server i, and nothing else has changed. */
  ghost predicate TakesOne(pool: Pool, after: Pool, i: nat) {
    && i < |pool.servers| && pool.servers[i].available > 0
    && after == pool.(servers := pool.servers[i := pool.servers[i].(available := pool.servers[i].available - 1)])
  }

  /** A call for an id that is stuck to server i marks the session with the instant, and hands out a
      permit of that server exactly if one is free.  Nothing else changes. */
  lemma StuckAnswers(pool: Pool, id: Uuid, now: int, i: nat)
    requires Sound(pool) && i < |pool.servers| && id in pool.servers[i].sticky
    ensures
      var (after, reply) := Step(pool, AcquireSticky(id, now));
      var s := pool.servers[i];
      var marked := s.sticky[id := now];
      if s.available > 0 then
        && reply == Granted(s.uri)
        && after == pool.(servers := pool.servers[i := s.(available := s.available - 1, sticky := marked)])
      else
        && reply == Denied
        && after == pool.(servers := pool.servers[i := s.(sticky := marked)])
  {
    HolderAt(pool, id, i);
  }

  /** One attempt for an id that is not stuck: if server i is the one with fewest sessions among those
      with a permit, the id is stuck there, with the instant, and gets one permit of it, exactly if
      that server has fewer sessions than it allows; otherwise nothing changes. */
  lemma NewAnswers(pool: Pool, id: Uuid, now: int, i: nat)
    requires (forall j :: 0 <= j < |pool.servers| ==> id !in pool.servers[j].sticky) && LeastStuck(pool.servers, i)
    ensures
      var (after, reply) := Step(pool, AcquireSticky(id, now));
      var s := pool.servers[i];
      if |s.sticky| < s.maxSticky then
        && reply == Granted(s.uri)
        && after == pool.(servers := pool.servers[i := s.(available := s.available - 1, sticky := s.sticky[id := now])])
      else
        reply == Denied && after == pool
  {
    LeastSessionsIff(pool.servers, i);
  }

  /** And nothing changes if no server has a permit. */
  lemma NewWithoutPermit(pool: Pool, id: Uuid, now: int)
    requires forall j :: 0 <= j < |pool.servers| ==> id !in pool.servers[j].sticky && pool.servers[j].available == 0
    ensures Step(pool, AcquireSticky(id, now)) == (pool, Denied)
  {
    NoChoiceIff(pool.servers, true);
  }

  /** Dropping the guard undoes what handing it out did. */
  lemma ReleaseUndoesConnection(pool: Pool, i: nat)
    requires Sound(pool) && TakesOne(pool, Step(pool, AcquireConnection).0, i)
    ensures Step(Step(pool, AcquireConnection).0, Release(pool.servers[i].id)).0 == pool
  {
    var after := Step(pool, AcquireConnection).0;
    StepKeepsSound(pool, AcquireConnection);
    ReleaseAnswers(after, i);
    assert Within(pool.servers[i], pool.nextId);
    hide Step;
    assert after.servers[i := pool.servers[i]] == pool.servers;
  }

  /** Dropping a guard gives its server one permit back, and changes nothing else. */
  lemma ReleaseAnswers(pool: Pool, i: nat)
    requires Sound(pool) && i < |pool.servers| && pool.servers[i].available < pool.servers[i].maxConnections
    ensures Step(pool, Release(pool.servers[i].id)).0
            == pool.(servers := pool.servers[i := pool.servers[i].(available := pool.servers[i].available + 1)])
  {
    var after := ReleaseStep(pool.servers, pool.servers[i].id);
    forall j | 0 <= j < |pool.servers| && j != i ensures after[j] == pool.servers[j] {
      assert if j < i then Apart(pool.servers[j], pool.servers[i]) else Apart(pool.servers[i], pool.servers[j]);
    }
  }

  /** Removing an id takes its session from every server, and changes nothing else. */
  lemma RemovalAnswers(pool: Pool, id: Uuid, j: nat)
    requires Sound(pool) && j < |pool.servers|
    ensures
      var after := Step(pool, RemoveSession(id)).0;
      && |after.servers| == |pool.servers| && after.nextId == pool.nextId
      && after.servers[j] == pool.servers[j].(sticky := after.servers[j].sticky)
      && forall x, t :: Session(after.servers[j], x, t) <==> Session(pool.servers[j], x, t) && x != id
  {
    if id in pool.servers[j].sticky { HolderAt(pool, id, j); }
  }

  /** The server has a session of the id, last used at t. */
  predicate Session(s: Server, id: Uuid, t: int) {
    id in s.sticky && s.sticky[id] == t
  }

  /** Expiry ends exactly the sessions last used longer ago than the expiry, names their ids, and
      changes nothing else. */
  lemma ExpiryAnswers(pool: Pool, now: int, expiry: nat, j: nat)
    requires j < |pool.servers|
    ensures
      var after := Step(pool, ExpireSessions(now, expiry)).0;
      && |after.servers| == |pool.servers| && after.nextId == pool.nextId
      && after.servers[j] == pool.servers[j].(sticky := after.servers[j].sticky)
      && forall x, t :: Session(after.servers[j], x, t) <==> Session(pool.servers[j], x, t) && now - t <= expiry
  {
  }

  lemma ExpiryNames(pool: Pool, now: int, expiry: nat, id: Uuid)
    ensures
      var reply := Step(pool, ExpireSessions(now, expiry)).1;
      && reply.Ended?
      && (id in reply.ids <==>
            exists j :: 0 <= j < |pool.servers| && id in pool.servers[j].sticky && now - pool.servers[j].sticky[id] > expiry)
  {
    AllStaleMember(pool.servers, now, expiry, id);
  }

  lemma {:induction false} AllStaleMember(servers: seq<Server>, now: int, expiry: nat, id: Uuid)
    ensures id in AllStale(servers, now, expiry) <==>
            exists j :: 0 <= j < |servers| && id in servers[j].sticky && now - servers[j].sticky[id] > expiry
    decreases |servers|
  {
    if servers != [] {
      var n := |servers| - 1;
      AllStaleMember(servers[..n], now, expiry, id);
      if j :| 0 <= j < n && id in servers[..n][j].sticky && now - servers[..n][j].sticky[id] > expiry {
        assert servers[j] == servers[..n][j];
      }
      if j :| 0 <= j < n && id in servers[j].sticky && now - servers[j].sticky[id] > expiry {
        assert servers[..n][j] == servers[j];
      }
    }
  }

  // ---------------------------------------------------------------- how long a session lasts

  /** No call of the sequence asks for the id. */
  ghost predicate NotAsked(ops: seq<Op>, id: Uuid) {
    forall k :: 0 <= k < |ops| && ops[k].AcquireSticky? ==> ops[k].id != id
  }

  /** The call ends a session of the id that was last used at t on the server with this URI. */
  predicate Ends(op: Op, id: Uuid, t: int, uri: string) {
    || (op.RemoveSession? && op.id == id)
    || (op.ExpireSessions? && op.now - t > op.expiry)
    || (op.RemoveUris? && uri in op.uris)
  }

  /** Some server with this URI has a session of the id, last used at t. */
  ghost predicate StuckSince(pool: Pool, id: Uuid, t: int, uri: string) {
    exists i :: 0 <= i < |pool.servers| && Session(pool.servers[i], id, t) && pool.servers[i].uri == uri
  }

  ghost predicate Nowhere(pool: Pool, id: Uuid) {
    forall i :: 0 <= i < |pool.servers| ==> id !in pool.servers[i].sticky
  }

  lemma GrantedSession(pool: Pool, id: Uuid, t: int)
    requires Sound(pool)
    ensures
      var (after, reply) := Step(pool, AcquireSticky(id, t));
      && (reply.Granted? ==> StuckSince(after, id, t, reply.uri))
      && (Nowhere(after, id) || exists uri :: StuckSince(after, id, t, uri))
  {
    var after := Step(pool, AcquireSticky(id, t)).0;
    var i := Holder(pool.servers, id);
    if i < |pool.servers| {
      StuckAnswers(pool, id, t, i);
      assert Session(after.servers[i], id, t);
      assert StuckSince(after, id, t, pool.servers[i].uri);
    } else {
      var c := Choice(pool.servers, true);
      if c.Some? {
        LeastSessionsIff(pool.servers, c.value);
        NewAnswers(pool, id, t, c.value);
        if |pool.servers[c.value].sticky| < pool.servers[c.value].maxSticky {
          assert Session(after.servers[c.value], id, t);
          assert StuckSince(after, id, t, pool.servers[c.value].uri);
        }
      } else {
        NoChoiceIff(pool.servers, true);
        NewWithoutPermit(pool, id, t);
      }
    }
  }

  lemma SessionUntouched(pool: Pool, op: Op, id: Uuid, i: nat)
    requires i < |pool.servers| && (op.AcquireConnection? || op.Release? || (op.AcquireSticky? && op.id != id))
    ensures
      var after := Step(pool, op).0;
      && |after.servers| == |pool.servers| && after.servers[i].uri == pool.servers[i].uri
      && (id in after.servers[i].sticky <==> id in pool.servers[i].sticky)
      && (id in pool.servers[i].sticky ==> after.servers[i].sticky[id] == pool.servers[i].sticky[id])
  {
    hide Choice, Holder, FullSticky;
  }

  /** A call that neither asks for the id nor adds or removes servers leaves every session of it as it
      was, or ends it. */
  lemma SessionInPlace(pool: Pool, op: Op, id: Uuid, i: nat, t: int)
    requires Sound(pool) && i < |pool.servers| && !op.AddUpstreams? && !op.RemoveUris?
    requires op.AcquireSticky? ==> op.id != id
    ensures
      var after := Step(pool, op).0;
      && |after.servers| == |pool.servers| && after.servers[i].uri == pool.servers[i].uri
      && (Session(after.servers[i], id, t) <==>
            Session(pool.servers[i], id, t) && !Ends(op, id, t, pool.servers[i].uri))
  {
    hide Step, Sound;
    if op.RemoveSession? {
      RemovalAnswers(pool, op.id, i);
    } else if op.ExpireSessions? {
      ExpiryAnswers(pool, op.now, op.expiry, i);
    } else {
      SessionUntouched(pool, op, id, i);
    }
  }

  lemma SessionWasThere(pool: Pool, op: Op, id: Uuid, i: nat)
    requires Sound(pool) && i < |pool.servers| && !op.AddUpstreams? && !op.RemoveUris?
    requires op.AcquireSticky? ==> op.id != id
    ensures
      var after := Step(pool, op).0;
      && |after.servers| == |pool.servers|
      && (id in after.servers[i].sticky ==>
            var t := after.servers[i].sticky[id];
            Session(pool.servers[i], id, t) && !Ends(op, id, t, pool.servers[i].uri))
  {
    SessionInPlace(pool, op, id, i, 0);
    var after := Step(pool, op).0;
    hide Step;
    if id in after.servers[i].sticky { SessionInPlace(pool, op, id, i, after.servers[i].sticky[id]); }
  }

  lemma RetainedSession(pool: Pool, uris: set<string>, id: Uuid, t: int, i: nat)
    requires Sound(pool) && i < |pool.servers| && Session(pool.servers[i], id, t)
    ensures
      var after := Step(pool, RemoveUris(uris)).0;
      if pool.servers[i].uri in uris then Nowhere(after, id) else StuckSince(after, id, t, pool.servers[i].uri)
  {
    var after := Step(pool, RemoveUris(uris)).0;
    if pool.servers[i].uri in uris {
      forall k | 0 <= k < |after.servers| ensures id !in after.servers[k].sticky {
        var j := RetainFrom(pool.servers, uris, k);
        if id in pool.servers[j].sticky { HolderAt(pool, id, i); HolderAt(pool, id, j); }
      }
    } else {
      RetainKeeps(pool.servers, uris, i);
      var k :| 0 <= k < |after.servers| && after.servers[k] == pool.servers[i];
      assert Session(after.servers[k], id, t);
    }
  }

  /** A call that does not ask for the id ends its session or leaves it as it was. */
  lemma StepKeepsSession(pool: Pool, op: Op, id: Uuid, t: int, uri: string)
    requires Sound(pool) && StuckSince(pool, id, t, uri) && (op.AcquireSticky? ==> op.id != id)
    ensures
      var after := Step(pool, op).0;
      if Ends(op, id, t, uri) then Nowhere(after, id) else StuckSince(after, id, t, uri)
  {
    var after := Step(pool, op).0;
    var i :| 0 <= i < |pool.servers| && Session(pool.servers[i], id, t) && pool.servers[i].uri == uri;
    if op.RemoveUris? {
      RetainedSession(pool, op.uris, id, t, i);
    } else if op.AddUpstreams? {
      AddKeepsSound(pool, op.upstreams, Uris(pool.servers));
      assert Session(after.servers[i], id, t);
    } else {
      hide Step;
      SessionInPlace(pool, op, id, i, t);
      forall j | 0 <= j < |after.servers| && j != i ensures id !in after.servers[j].sticky {
        SessionWasThere(pool, op, id, j);
        HolderAt(pool, id, i);
        if id in pool.servers[j].sticky { HolderAt(pool, id, j); }
      }
      SessionWasThere(pool, op, id, i);
    }
  }

  lemma StepKeepsNowhere(pool: Pool, op: Op, id: Uuid)
    requires Sound(pool) && Nowhere(pool, id) && (op.AcquireSticky? ==> op.id != id)
    ensures Nowhere(Step(pool, op).0, id)
  {
    var after := Step(pool, op).0;
    forall k | 0 <= k < |after.servers| ensures id !in after.servers[k].sticky {
      if op.RemoveUris? {
        var j := RetainFrom(pool.servers, op.uris, k);
      } else if op.AddUpstreams? {
        AddKeepsSound(pool, op.upstreams, Uris(pool.servers));
      } else {
        SameServers(pool, op);
        SessionWasThere(pool, op, id, k);
      }
    }
  }

  /** How long a session lasts.  An id last asked for at t keeps its server, however many calls are
      made that do not ask for it, exactly until one of them removes it, expires sessions more than
      the expiry after t, or removes the server's URI; from then on it is nowhere. */
  lemma {:induction false} SessionLasts(pool: Pool, ops: seq<Op>, id: Uuid, t: int, uri: string)
    requires Sound(pool) && StuckSince(pool, id, t, uri) && NotAsked(ops, id)
    ensures
      if exists k :: 0 <= k < |ops| && Ends(ops[k], id, t, uri) then Nowhere(Run(pool, ops), id)
      else StuckSince(Run(pool, ops), id, t, uri)
    decreases |ops|
  {
    hide Sound, StuckSince, Nowhere, Step, Ends;
    if ops != [] {
      var n := |ops| - 1;
      var before, op := ops[..n], ops[n];
      SessionLasts(pool, before, id, t, uri);
      RunKeepsSound(pool, before);
      if k :| 0 <= k < n && Ends(ops[k], id, t, uri) {
        assert Ends(before[k], id, t, uri);
        StepKeepsNowhere(Run(pool, before), op, id);
      } else {
        assert forall k :: 0 <= k < n ==> !Ends(before[k], id, t, uri);
        StepKeepsSession(Run(pool, before), op, id, t, uri);
      }
    }
  }

  /** In particular after a call for the id that was granted: whether it is still stuck, and then to
      the server that was granted, is a matter of the later calls alone. */
  lemma GrantedSessionLasts(pool: Pool, id: Uuid, t: int, ops: seq<Op>, now: int, expiry: nat)
    requires Sound(pool) && Step(pool, AcquireSticky(id, t)).1.Granted? && NotAsked(ops, id)
    ensures
      var (after, reply) := Step(pool, AcquireSticky(id, t));
      var later := Run(after, ops);
      && (if exists k :: 0 <= k < |ops| && Ends(ops[k], id, t, reply.uri) then Nowhere(later, id)
          else StuckSince(later, id, t, reply.uri))
      && (StuckSince(later, id, t, reply.uri) ==>
            (Nowhere(Step(later, ExpireSessions(now, expiry)).0, id) <==> now - t > expiry))
  {
    var (after, reply) := Step(pool, AcquireSticky(id, t));
    GrantedSession(pool, id, t);
    StepKeepsSound(pool, AcquireSticky(id, t));
    SessionLasts(after, ops, id, t, reply.uri);
    RunKeepsSound(after, ops);
    hide Step, Sound;
    if StuckSince(Run(after, ops), id, t, reply.uri) {
      StepKeepsSession(Run(after, ops), ExpireSessions(now, expiry), id, t, reply.uri);
    }
  }

  // ---------------------------------------------------------------- servers added and removed

  /** Adding leaves the servers there are and puts one behind them for each configuration whose URI
      was not known, in order: with the next ids, the URI and the two limits configured, all
      connections free and no session. */
  lemma {:induction false} AddedServers(pool: Pool, upstreams: seq<Config>, known: set<string>) returns (ks: seq<nat>)
    ensures Increasing(ks)
    ensures forall k :: 0 <= k < |upstreams| ==> (k in ks <==> upstreams[k].uri !in known)
    ensures forall p :: 0 <= p < |ks| ==> ks[p] < |upstreams|
    ensures
      var after := AddStep(pool, upstreams, known);
      && after.nextId == pool.nextId + |ks| && |after.servers| == |pool.servers| + |ks|
      && after.servers[..|pool.servers|] == pool.servers
      && forall p :: 0 <= p < |ks| ==>
           var c := upstreams[ks[p]];
           after.servers[|pool.servers| + p]
           == Server(pool.nextId + p, c.uri, c.connections, c.connections, c.stickySessions, map[])
    decreases |upstreams|
  {
    if upstreams == [] {
      ks := [];
    } else {
      var n := |upstreams| - 1;
      ks := AddedServers(pool, upstreams[..n], known);
      if upstreams[n].uri !in known {
        AppendLarger(ks, n);
        ks := ks + [n];
      } else {
        assert forall p :: 0 <= p < |ks| ==> ks[p] != n;
      }
    }
  }

  /** These are the indices, in order, of the servers that are kept, which are as they were. */
  ghost predicate Selects(ks: seq<nat>, servers: seq<Server>, uris: set<string>, kept: seq<Server>) {
    && Increasing(ks) && |ks| == |kept|
    && (forall k :: 0 <= k < |servers| ==> (k in ks <==> servers[k].uri !in uris))
    && (forall p :: 0 <= p < |ks| ==> ks[p] < |servers| && kept[p] == servers[ks[p]])
  }

  lemma SelectsSnoc(ks: seq<nat>, front: seq<Server>, last: Server, uris: set<string>, kept: seq<Server>)
    requires Selects(ks, front, uris, kept)
    ensures last.uri in uris ==> Selects(ks, front + [last], uris, kept)
    ensures last.uri !in uris ==> Selects(ks + [|front|], front + [last], uris, kept + [last])
  {
    AppendLarger(ks, |front|);
    assert forall p :: 0 <= p < |ks| ==> ks[p] != |front|;
    assert forall k :: 0 <= k < |front| ==> (front + [last])[k] == front[k];
  }

  /** Removing keeps exactly the servers of other URIs, as they were and in order. */
  lemma {:induction false} RetainedServers(servers: seq<Server>, uris: set<string>) returns (ks: seq<nat>)
    ensures Selects(ks, servers, uris, RetainStep(servers, uris))
    decreases |servers|
  {
    ks := [];
    assert servers == [] ==> Selects([], servers, uris, RetainStep(servers, uris));
    if servers != [] {
      var n := |servers| - 1;
      ks := RetainedServers(servers[..n], uris);
      SelectsSnoc(ks, servers[..n], servers[n], uris, RetainStep(servers[..n], uris));
      assert servers[..n] + [servers[n]] == servers;
      if servers[n].uri !in uris { ks := ks + [n]; }
    }
    hide Selects;
  }

  /** The same for the calls: what the pool knows are the URIs of its servers. */
  lemma AddAnswers(pool: Pool, upstreams: seq<Config>) returns (ks: seq<nat>)
    ensures Increasing(ks) && forall p :: 0 <= p < |ks| ==> ks[p] < |upstreams|
    ensures forall k :: 0 <= k < |upstreams| ==>
              (k in ks <==> forall i :: 0 <= i < |pool.servers| ==> pool.servers[i].uri != upstreams[k].uri)
    ensures
      var after := Step(pool, AddUpstreams(upstreams)).0;
      && after.nextId == pool.nextId + |ks| && |after.servers| == |pool.servers| + |ks|
      && after.servers[..|pool.servers|] == pool.servers
      && forall p :: 0 <= p < |ks| ==>
           var c := upstreams[ks[p]];
           after.servers[|pool.servers| + p]
           == Server(pool.nextId + p, c.uri, c.connections, c.connections, c.stickySessions, map[])
  {
    ks := AddedServers(pool, upstreams, Uris(pool.servers));
    hide AddStep;
    forall k | 0 <= k < |upstreams|
      ensures k in ks <==> forall i :: 0 <= i < |pool.servers| ==> pool.servers[i].uri != upstreams[k].uri
    {
      UrisMember(pool.servers, upstreams[k].uri);
    }
  }

  lemma RemoveAnswers(pool: Pool, uris: set<string>) returns (ks: seq<nat>)
    ensures Increasing(ks) && forall p :: 0 <= p < |ks| ==> ks[p] < |pool.servers|
    ensures forall k :: 0 <= k < |pool.servers| ==> (k in ks <==> pool.servers[k].uri !in uris)
    ensures
      var after := Step(pool, RemoveUris(uris)).0;
      && after.nextId == pool.nextId && |after.servers| == |ks|
      && forall p :: 0 <= p < |ks| ==> after.servers[p] == pool.servers[ks[p]]
  {
    ks := RetainedServers(pool.servers, uris);
  }
}
