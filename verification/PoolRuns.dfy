/**
 The operations of the upstream pool, called one after the other, and what holds over every
 sequence of calls: an id is stuck to one server, and stays with it.
 */
module PoolRuns {
  import opened Wrappers
  import opened Upstream

  datatype Op =
    | AcquireConnection
    | AcquireSticky(id: Uuid, now: int)
    | Release(serverId: nat)
    | RemoveSession(id: Uuid)
    | ExpireSessions(now: int, expiry: nat)
    | AddUpstreams(upstreams: seq<Config>)
    | RemoveUris(uris: set<string>)

  /** What a call answers: the URI whose permit it hands out, none, or the sessions it ended. */
  datatype Reply = Granted(uri: string) | Denied | Ended(ids: set<Uuid>) | Done

  // ---------------------------------------------------------------- the steps

  function Take(s: Server): Server
    requires s.available > 0
  {
    s.(available := s.available - 1)
  }

  function Stick(s: Server, id: Uuid, now: int): Server {
    s.(sticky := s.sticky[id := now])
  }

  function Unstick(s: Server, id: Uuid): Server {
    s.(sticky := s.sticky - {id})
  }

  function HolderFrom(servers: seq<Server>, id: Uuid, k: nat): (i: nat)
    requires k <= |servers|
    ensures k <= i <= |servers|
    ensures i < |servers| ==> id in servers[i].sticky
    ensures forall j :: k <= j < i ==> id !in servers[j].sticky
    decreases |servers| - k
  {
    if k == |servers| || id in servers[k].sticky then k else HolderFrom(servers, id, k + 1)
  }

  /** The first server the id is stuck to, or the number of servers if there is none. */
  function Holder(servers: seq<Server>, id: Uuid): (i: nat)
    ensures i <= |servers|
    ensures i < |servers| ==> id in servers[i].sticky
    ensures forall j :: 0 <= j < i ==> id !in servers[j].sticky
  {
    HolderFrom(servers, id, 0)
  }

  function AcquireConnectionStep(servers: seq<Server>): (seq<Server>, Reply) {
    match Choice(servers, false)
    case None => (servers, Denied)
    case Some(i) => (servers[i := Take(servers[i])], Granted(servers[i].uri))
  }

  /** One attempt to stick a new id: take a permit of the chosen server, and give it back if that
      server has no session left. */
  function NewStickyStep(servers: seq<Server>, id: Uuid, now: int): (seq<Server>, Reply) {
    match Choice(servers, true)
    case None => (servers, Denied)
    case Some(i) =>
      if FullSticky(servers[i]) then (servers, Denied)
      else (servers[i := Stick(Take(servers[i]), id, now)], Granted(servers[i].uri))
  }

  function AcquireStickyStep(servers: seq<Server>, id: Uuid, now: int): (seq<Server>, Reply) {
    var i := Holder(servers, id);
    if i < |servers| then
      var touched := Stick(servers[i], id, now);
      if touched.available == 0 then (servers[i := touched], Denied)
      else (servers[i := Take(touched)], Granted(servers[i].uri))
    else
      NewStickyStep(servers, id, now)
  }

  /** A guard is dropped.  The semaphore of a server no longer in the pool is nobody's concern. */
  function ReleaseStep(servers: seq<Server>, serverId: nat): (r: seq<Server>)
    ensures |r| == |servers|
    ensures forall i :: 0 <= i < |servers| ==> r[i] == Released(servers[i], serverId)
  {
    seq(|servers|, i requires 0 <= i < |servers| => Released(servers[i], serverId))
  }

  function Released(s: Server, serverId: nat): Server {
    if s.id == serverId && s.available < s.maxConnections then s.(available := s.available + 1) else s
  }

  function RemoveSessionStep(servers: seq<Server>, id: Uuid): seq<Server> {
    var i := Holder(servers, id);
    if i < |servers| then servers[i := Unstick(servers[i], id)] else servers
  }

  /** Instants never give a negative duration. */
  function Age(now: int, instant: int): nat {
    if now < instant then 0 else now - instant
  }

  function Stale(s: Server, now: int, expiry: nat): set<Uuid> {
    set id | id in s.sticky && Age(now, s.sticky[id]) > expiry
  }

  function ExpireStep(servers: seq<Server>, now: int, expiry: nat): (r: seq<Server>)
    ensures |r| == |servers|
    ensures forall i :: 0 <= i < |servers| ==>
                          r[i] == servers[i].(sticky := servers[i].sticky - Stale(servers[i], now, expiry))
  {
    seq(|servers|, i requires 0 <= i < |servers| =>
      servers[i].(sticky := servers[i].sticky - Stale(servers[i], now, expiry)))
  }

  function AllStale(servers: seq<Server>, now: int, expiry: nat): set<Uuid> {
    if servers == [] then {}
    else AllStale(servers[..|servers| - 1], now, expiry) + Stale(servers[|servers| - 1], now, expiry)
  }

  function Uris(servers: seq<Server>): set<string> {
    if servers == [] then {} else Uris(servers[..|servers| - 1]) + {servers[|servers| - 1].uri}
  }

  function NewServer(id: nat, c: Config): Server {
    Server(id, c.uri, c.connections, c.connections, c.stickySessions, map[])
  }

  /** Add the configurations whose URI is not in `known`, with ids from next on. */
  function AddStep(pool: Pool, upstreams: seq<Config>, known: set<string>): Pool {
    if upstreams == [] then pool
    else
      var before := AddStep(pool, upstreams[..|upstreams| - 1], known);
      var c := upstreams[|upstreams| - 1];
      if c.uri in known then before
      else Pool(before.servers + [NewServer(before.nextId, c)], before.nextId + 1)
  }

  function RetainStep(servers: seq<Server>, uris: set<string>): (r: seq<Server>)
    ensures |r| <= |servers|
  {
    if servers == [] then []
    else
      var last := servers[|servers| - 1];
      RetainStep(servers[..|servers| - 1], uris) + (if last.uri in uris then [] else [last])
  }

  function Step(pool: Pool, op: Op): (Pool, Reply) {
    match op
    case AcquireConnection => var (s, r) := AcquireConnectionStep(pool.servers); (pool.(servers := s), r)
    case AcquireSticky(id, now) => var (s, r) := AcquireStickyStep(pool.servers, id, now); (pool.(servers := s), r)
    case Release(k) => (pool.(servers := ReleaseStep(pool.servers, k)), Done)
    case RemoveSession(id) => (pool.(servers := RemoveSessionStep(pool.servers, id)), Done)
    case ExpireSessions(now, e) =>
      (pool.(servers := ExpireStep(pool.servers, now, e)), Ended(AllStale(pool.servers, now, e)))
    case AddUpstreams(us) => (AddStep(pool, us, Uris(pool.servers)), Done)
    case RemoveUris(us) => (pool.(servers := RetainStep(pool.servers, us)), Done)
  }

  function Run(pool: Pool, ops: seq<Op>): Pool {
    if ops == [] then pool else Step(Run(pool, ops[..|ops| - 1]), ops[|ops| - 1]).0
  }

  // ---------------------------------------------------------------- what every call keeps

  /** No id twice, all below nextId, nobody over a limit, and every session on one server only. */
  ghost predicate Sound(pool: Pool) {
    && (forall i :: 0 <= i < |pool.servers| ==> Within(pool.servers[i], pool.nextId))
    && (forall i, j :: 0 <= i < j < |pool.servers| ==> Apart(pool.servers[i], pool.servers[j]))
  }

  ghost predicate Within(s: Server, nextId: nat) {
    s.id < nextId && s.available <= s.maxConnections && |s.sticky| <= s.maxSticky
  }

  ghost predicate Apart(s: Server, t: Server) {
    s.id != t.id && s.sticky.Keys !! t.sticky.Keys
  }

  lemma FewerSessions(m: map<Uuid, int>, gone: set<Uuid>)
    ensures |m - gone| <= |m|
  {
    assert (m - gone).Keys + (m.Keys * gone) == m.Keys;
  }

  lemma AddKeepsSound(pool: Pool, upstreams: seq<Config>, known: set<string>)
    requires Sound(pool)
    ensures Sound(AddStep(pool, upstreams, known))
    ensures pool.nextId <= AddStep(pool, upstreams, known).nextId
    ensures pool.servers <= AddStep(pool, upstreams, known).servers
    ensures
      var now := AddStep(pool, upstreams, known).servers;
      forall i :: |pool.servers| <= i < |now| ==> now[i].sticky == map[]
    decreases |upstreams|
  {
    if upstreams != [] {
      AddKeepsSound(pool, upstreams[..|upstreams| - 1], known);
    }
  }

  /** Servers that are kept come from the pool, in order. */
  lemma {:induction false} RetainFrom(servers: seq<Server>, uris: set<string>, k: nat) returns (i: nat)
    requires k < |RetainStep(servers, uris)|
    ensures k <= i < |servers| && servers[i] == RetainStep(servers, uris)[k] && servers[i].uri !in uris
    ensures k == |RetainStep(servers[..i], uris)|
    decreases |servers|
  {
    var front := servers[..|servers| - 1];
    if k < |RetainStep(front, uris)| {
      i := RetainFrom(front, uris, k);
      assert front[..i] == servers[..i];
    } else {
      i := |servers| - 1;
    }
  }

  lemma {:induction false} RetainMonotone(servers: seq<Server>, uris: set<string>, i: nat, j: nat)
    requires i <= j <= |servers|
    ensures |RetainStep(servers[..i], uris)| <= |RetainStep(servers[..j], uris)|
    decreases j
  {
    if i < j {
      assert servers[..j][..j - 1] == servers[..j - 1];
      RetainMonotone(servers, uris, i, j - 1);
    }
  }

  lemma RetainKeepsSound(pool: Pool, uris: set<string>)
    requires Sound(pool)
    ensures Sound(pool.(servers := RetainStep(pool.servers, uris)))
  {
    var kept := RetainStep(pool.servers, uris);
    forall k | 0 <= k < |kept| ensures Within(kept[k], pool.nextId) {
      var i := RetainFrom(pool.servers, uris, k);
    }
    forall k, l | 0 <= k < l < |kept| ensures Apart(kept[k], kept[l]) {
      var i := RetainFrom(pool.servers, uris, k);
      var j := RetainFrom(pool.servers, uris, l);
      if j <= i { RetainMonotone(pool.servers, uris, j, i); }
    }
  }

  lemma OneServerKeepsSound(pool: Pool, i: nat, s: Server)
    requires Sound(pool) && i < |pool.servers| && Within(s, pool.nextId) && s.id == pool.servers[i].id
    requires forall id :: id in s.sticky ==>
               forall j :: 0 <= j < |pool.servers| && j != i ==> id !in pool.servers[j].sticky
    ensures Sound(pool.(servers := pool.servers[i := s]))
  {
    var now := pool.servers[i := s];
    forall j, k | 0 <= j < k < |now| ensures Apart(now[j], now[k]) {
      assert Apart(pool.servers[j], pool.servers[k]);
    }
  }

  lemma StickyKeepsSound(pool: Pool, id: Uuid, now: int)
    requires Sound(pool)
    ensures Sound(pool.(servers := AcquireStickyStep(pool.servers, id, now).0))
  {
    var servers := pool.servers;
    var i := Holder(servers, id);
    if i < |servers| {
      var touched := Stick(servers[i], id, now);
      assert touched.sticky.Keys == servers[i].sticky.Keys && |touched.sticky.Keys| == |servers[i].sticky.Keys|;
      forall x, j | x in touched.sticky && 0 <= j < |servers| && j != i ensures x !in servers[j].sticky {
        assert if j < i then Apart(servers[j], servers[i]) else Apart(servers[i], servers[j]);
      }
      OneServerKeepsSound(pool, i, touched);
      if touched.available > 0 { OneServerKeepsSound(pool, i, Take(touched)); }
    } else {
      var c := Choice(servers, true);
      if c.Some? && !FullSticky(servers[c.value]) {
        var s := Stick(Take(servers[c.value]), id, now);
        assert s.sticky.Keys == servers[c.value].sticky.Keys + {id};
        forall x, j | x in s.sticky && 0 <= j < |servers| && j != c.value ensures x !in servers[j].sticky {
          assert if j < c.value then Apart(servers[j], servers[c.value]) else Apart(servers[c.value], servers[j]);
        }
        OneServerKeepsSound(pool, c.value, s);
      }
    }
  }

  /** Every call keeps the pool sound. */
  lemma StepKeepsSound(pool: Pool, op: Op)
    requires Sound(pool)
    ensures Sound(Step(pool, op).0)
  {
    match op
    case AcquireConnection =>
      var c := Choice(pool.servers, false);
      if c.Some? {
        var i := c.value;
        forall x, j | x in pool.servers[i].sticky && 0 <= j < |pool.servers| && j != i
          ensures x !in pool.servers[j].sticky
        {
          assert if j < i then Apart(pool.servers[j], pool.servers[i]) else Apart(pool.servers[i], pool.servers[j]);
        }
        OneServerKeepsSound(pool, i, Take(pool.servers[i]));
      }
    case AcquireSticky(id, now) => StickyKeepsSound(pool, id, now);
    case RemoveSession(id) => RemovalKeepsSound(pool, id);
    case ExpireSessions(now, e) => ExpiryKeepsSound(pool, now, e);
    case AddUpstreams(us) => AddKeepsSound(pool, us, Uris(pool.servers));
    case RemoveUris(us) => RetainKeepsSound(pool, us);
    case Release(k) => ReleaseKeepsSound(pool, k);
  }

  lemma ReleaseKeepsSound(pool: Pool, k: nat)
    requires Sound(pool)
    ensures Sound(pool.(servers := ReleaseStep(pool.servers, k)))
  {
    var now := ReleaseStep(pool.servers, k);
    forall i, j | 0 <= i < j < |now| ensures Apart(now[i], now[j]) {
      assert Apart(pool.servers[i], pool.servers[j]);
    }
  }

  lemma ExpiryKeepsSound(pool: Pool, now: int, expiry: nat)
    requires Sound(pool)
    ensures Sound(pool.(servers := ExpireStep(pool.servers, now, expiry)))
  {
    var after := ExpireStep(pool.servers, now, expiry);
    forall i | 0 <= i < |after| ensures Within(after[i], pool.nextId) {
      FewerSessions(pool.servers[i].sticky, Stale(pool.servers[i], now, expiry));
    }
    forall i, j | 0 <= i < j < |after| ensures Apart(after[i], after[j]) {
      assert Apart(pool.servers[i], pool.servers[j]);
    }
  }

  lemma RemovalKeepsSound(pool: Pool, id: Uuid)
    requires Sound(pool)
    ensures Sound(pool.(servers := RemoveSessionStep(pool.servers, id)))
  {
    var i := Holder(pool.servers, id);
    if i < |pool.servers| {
      FewerSessions(pool.servers[i].sticky, {id});
      forall x, j | x in pool.servers[i].sticky && 0 <= j < |pool.servers| && j != i
        ensures x !in pool.servers[j].sticky
      {
        assert if j < i then Apart(pool.servers[j], pool.servers[i]) else Apart(pool.servers[i], pool.servers[j]);
      }
      OneServerKeepsSound(pool, i, Unstick(pool.servers[i], id));
    }
  }

  lemma {:induction false} RunKeepsSound(pool: Pool, ops: seq<Op>)
    requires Sound(pool)
    ensures Sound(Run(pool, ops))
    decreases |ops|
  {
    if ops != [] {
      RunKeepsSound(pool, ops[..|ops| - 1]);
      StepKeepsSound(Run(pool, ops[..|ops| - 1]), ops[|ops| - 1]);
    }
  }

  // ---------------------------------------------------------------- affinity

  predicate Stuck(pool: Pool, id: Uuid) {
    Holder(pool.servers, id) < |pool.servers|
  }

  /** The server an id is stuck to. */
  function Home(pool: Pool, id: Uuid): Server
    requires Stuck(pool, id)
  {
    pool.servers[Holder(pool.servers, id)]
  }

  lemma HolderAt(pool: Pool, id: Uuid, i: nat)
    requires Sound(pool) && i < |pool.servers| && id in pool.servers[i].sticky
    ensures Holder(pool.servers, id) == i
  {
    forall h | 0 <= h < i ensures id !in pool.servers[h].sticky {
      assert Apart(pool.servers[h], pool.servers[i]);
    }
  }

  /** A call that leaves an id stuck leaves it stuck to the same server. */
  lemma StepKeepsHome(pool: Pool, op: Op, id: Uuid)
    requires Sound(pool) && Stuck(pool, id) && Stuck(Step(pool, op).0, id)
    ensures Home(Step(pool, op).0, id).id == Home(pool, id).id && Home(Step(pool, op).0, id).uri == Home(pool, id).uri
  {
    var now := Step(pool, op).0;
    StepKeepsSound(pool, op);
    var k := Holder(now.servers, id);
    if op.RemoveUris? {
      var i := RetainFrom(pool.servers, op.uris, k);
      HolderAt(pool, id, i);
    } else if op.AddUpstreams? {
      AddKeepsSound(pool, op.upstreams, Uris(pool.servers));
      assert k < |pool.servers|;
      assert now.servers[k] == pool.servers[k];
      HolderAt(pool, id, k);
    } else {
      SameServers(pool, op);
      if id in pool.servers[k].sticky {
        HolderAt(pool, id, k);
      } else {
        NewSessionsAreAcquired(pool, op, id, k);
      }
    }
  }

  /** Calls that do not change the set of servers keep every server's identity. */
  lemma SameServers(pool: Pool, op: Op)
    requires !op.RemoveUris? && !op.AddUpstreams?
    ensures
      var now := Step(pool, op).0.servers;
      && |now| == |pool.servers|
      && forall i :: 0 <= i < |now| ==> now[i].id == pool.servers[i].id && now[i].uri == pool.servers[i].uri
  {
  }

  lemma NewSessionsAreAcquired(pool: Pool, op: Op, id: Uuid, k: nat)
    requires Sound(pool) && !op.RemoveUris? && !op.AddUpstreams? && k < |pool.servers|
    requires |Step(pool, op).0.servers| == |pool.servers|
    requires id in Step(pool, op).0.servers[k].sticky
    ensures id in pool.servers[k].sticky || !Stuck(pool, id)
  {
  }

  /** The pool after the first k calls. */
  function After(pool: Pool, ops: seq<Op>, k: nat): Pool
    requires k <= |ops|
  {
    Run(pool, ops[..k])
  }

  /** Affinity.  However many calls are made, an id that never stops being stuck stays with its
      server, and a call for it then answers with that server's URI or not at all. */
  lemma {:induction false} Affinity(pool: Pool, ops: seq<Op>, id: Uuid, now: int)
    requires Sound(pool) && forall k :: 0 <= k <= |ops| ==> Stuck(After(pool, ops, k), id)
    ensures Stuck(pool, id) && Stuck(Run(pool, ops), id)
    ensures Home(Run(pool, ops), id).id == Home(pool, id).id && Home(Run(pool, ops), id).uri == Home(pool, id).uri
    ensures Step(Run(pool, ops), AcquireSticky(id, now)).1 in {Denied, Granted(Home(pool, id).uri)}
    decreases |ops|
  {
    assert ops[..|ops|] == ops && ops[..0] == [];
    assert Stuck(After(pool, ops, |ops|), id) && Stuck(After(pool, ops, 0), id);
    if ops != [] {
      var before := ops[..|ops| - 1];
      forall k | 0 <= k <= |before| ensures Stuck(After(pool, before, k), id) {
        assert before[..k] == ops[..k];
        assert Stuck(After(pool, ops, k), id);
      }
      Affinity(pool, before, id, now);
      RunKeepsSound(pool, before);
      StepKeepsHome(Run(pool, before), ops[|ops| - 1], id);
    }
  }

  /** How a session ends: only by its removal, its expiry, or the removal of its server. */
  lemma SessionEnds(pool: Pool, op: Op, id: Uuid)
    requires Sound(pool) && Stuck(pool, id)
    ensures
      !Stuck(Step(pool, op).0, id) <==>
      || (op.RemoveSession? && op.id == id)
      || (op.ExpireSessions? && id in Stale(Home(pool, id), op.now, op.expiry))
      || (op.RemoveUris? && Home(pool, id).uri in op.uris)
  {
    var i, now := Holder(pool.servers, id), Step(pool, op).0;
    StepKeepsSound(pool, op);
    if op.RemoveUris? {
      if pool.servers[i].uri in op.uris {
        if Stuck(now, id) {
          var j := RetainFrom(pool.servers, op.uris, Holder(now.servers, id));
          HolderAt(pool, id, j);
        }
      } else {
        RetainKeeps(pool.servers, op.uris, i);
      }
    } else if op.AddUpstreams? {
      AddKeepsSound(pool, op.upstreams, Uris(pool.servers));
      assert id in now.servers[i].sticky;
    } else {
      SessionEndsInPlace(pool, op, id);
    }
  }

  lemma SessionEndsInPlace(pool: Pool, op: Op, id: Uuid)
    requires Sound(pool) && Stuck(pool, id) && !op.RemoveUris? && !op.AddUpstreams?
    ensures !Stuck(Step(pool, op).0, id) <==>
            || (op.RemoveSession? && op.id == id)
            || (op.ExpireSessions? && id in Stale(Home(pool, id), op.now, op.expiry))
  {
    var i, now := Holder(pool.servers, id), Step(pool, op).0;
    SameServers(pool, op);
    forall j | 0 <= j < |pool.servers| && j != i ensures id !in pool.servers[j].sticky {
      if id in pool.servers[j].sticky { HolderAt(pool, id, j); }
    }
    if id in now.servers[i].sticky {
      assert Holder(now.servers, id) <= i;
    }
  }

  lemma {:induction false} RetainKeeps(servers: seq<Server>, uris: set<string>, i: nat)
    requires i < |servers| && servers[i].uri !in uris
    ensures servers[i] in RetainStep(servers, uris)
    decreases |servers|
  {
    if i < |servers| - 1 { RetainKeeps(servers[..|servers| - 1], uris, i); }
  }

  // ---------------------------------------------------------------- new sessions

  /** One attempt for a new id succeeds exactly if the chosen server, the one with fewest sessions
      among those with a permit, has a session left. */
  lemma NewSessionIff(servers: seq<Server>, id: Uuid, now: int)
    ensures NewStickyStep(servers, id, now).1.Granted? <==>
            exists i :: 0 <= i < |servers| && IsChoice(servers, true, i) && |servers[i].sticky| < servers[i].maxSticky
    ensures !NewStickyStep(servers, id, now).1.Granted? ==> NewStickyStep(servers, id, now).0 == servers
  {
    if i :| 0 <= i < |servers| && IsChoice(servers, true, i) && |servers[i].sticky| < servers[i].maxSticky {
      ChoiceUnique(servers, true, i);
    }
  }

  /** If all servers have the same limit, that is: exactly if any server has both a permit and a
      session left. */
  lemma NewSessionIffAnyRoom(servers: seq<Server>, id: Uuid, now: int, limit: nat)
    requires forall i :: 0 <= i < |servers| ==> servers[i].maxSticky == limit
    ensures NewStickyStep(servers, id, now).1.Granted? <==>
            exists i :: 0 <= i < |servers| && servers[i].available > 0 && |servers[i].sticky| < servers[i].maxSticky
  {
    var c := Choice(servers, true);
    if i :| 0 <= i < |servers| && servers[i].available > 0 && |servers[i].sticky| < servers[i].maxSticky {
      assert c.Some?;
      assert |servers[c.value].sticky| <= |servers[i].sticky|;
    }
  }

  /** With different limits a free session can be missed. */
  lemma FreeSessionMissed(id: Uuid, now: int)
    ensures
      var servers := [Server(1, "a", 1, 1, 0, map[]), Server(2, "b", 1, 1, 2, map["x" := 0])];
      NewStickyStep(servers, id, now).1 == Denied && servers[1].available > 0 && |servers[1].sticky| < servers[1].maxSticky
  {
    var servers := [Server(1, "a", 1, 1, 0, map[]), Server(2, "b", 1, 1, 2, map["x" := 0])];
    assert IsChoice(servers, true, 0);
    ChoiceUnique(servers, true, 0);
  }

  // ---------------------------------------------------------------- URIs

  ghost predicate DistinctUris(servers: seq<Server>) {
    forall i, j :: 0 <= i < j < |servers| ==> servers[i].uri != servers[j].uri
  }

  /** Whether a list of configurations names no new URI twice. */
  ghost predicate NewOnce(upstreams: seq<Config>, known: set<string>) {
    forall i, j :: 0 <= i < j < |upstreams| && upstreams[i].uri !in known ==> upstreams[i].uri != upstreams[j].uri
  }

  lemma {:induction false} UrisMember(servers: seq<Server>, uri: string)
    ensures uri in Uris(servers) <==> exists i :: 0 <= i < |servers| && servers[i].uri == uri
    decreases |servers|
  {
    if servers != [] {
      var front := servers[..|servers| - 1];
      UrisMember(front, uri);
      if i :| 0 <= i < |front| && front[i].uri == uri { assert servers[i].uri == uri; }
      if i :| 0 <= i < |servers| && servers[i].uri == uri && servers[|servers| - 1].uri != uri {
        assert front[i].uri == uri;
      }
    }
  }

  /** Whether a list of configurations names a URI. */
  ghost predicate Names(upstreams: seq<Config>, uri: string) {
    exists j :: 0 <= j < |upstreams| && upstreams[j].uri == uri
  }

  lemma NamesSnoc(front: seq<Config>, last: Config, uri: string)
    ensures Names(front + [last], uri) <==> Names(front, uri) || last.uri == uri
  {
    var all := front + [last];
    assert all[|front|] == last && forall j :: 0 <= j < |front| ==> all[j] == front[j];
  }

  lemma UrisSnoc(front: seq<Server>, last: Server)
    ensures Uris(front + [last]) == Uris(front) + {last.uri}
  {
    assert (front + [last])[..|front|] == front;
  }

  lemma {:induction false} AddedUris(pool: Pool, upstreams: seq<Config>, known: set<string>, uri: string)
    ensures uri in Uris(AddStep(pool, upstreams, known).servers) <==>
            uri in Uris(pool.servers) || (uri !in known && Names(upstreams, uri))
    decreases |upstreams|
  {
    if upstreams != [] {
      var front, last := upstreams[..|upstreams| - 1], upstreams[|upstreams| - 1];
      var before := AddStep(pool, front, known);
      AddedUris(pool, front, known, uri);
      NamesSnoc(front, last, uri);
      assert front + [last] == upstreams;
      UrisSnoc(before.servers, NewServer(before.nextId, last));
    }
  }

  lemma NewOnceSnoc(front: seq<Config>, last: Config, known: set<string>)
    ensures NewOnce(front + [last], known) <==>
            && NewOnce(front, known)
            && (last.uri in known || !Names(front, last.uri))
  {
    var all := front + [last];
    assert all[|front|] == last && forall i :: 0 <= i < |front| ==> all[i] == front[i];
  }

  lemma DistinctUrisSnoc(front: seq<Server>, last: Server)
    ensures DistinctUris(front + [last]) <==> DistinctUris(front) && last.uri !in Uris(front)
  {
    var all := front + [last];
    UrisMember(front, last.uri);
    assert all[|front|] == last && forall i :: 0 <= i < |front| ==> all[i] == front[i];
  }

  /** Adding keeps the URIs of the pool distinct exactly if the call names no new URI twice. */
  lemma {:induction false} AddKeepsUrisDistinctIff(pool: Pool, upstreams: seq<Config>, known: set<string>)
    requires DistinctUris(pool.servers) && known == Uris(pool.servers)
    ensures DistinctUris(AddStep(pool, upstreams, known).servers) <==> NewOnce(upstreams, known)
    decreases |upstreams|
  {
    if upstreams != [] {
      var front, last := upstreams[..|upstreams| - 1], upstreams[|upstreams| - 1];
      var before, after := AddStep(pool, front, known), AddStep(pool, upstreams, known);
      AddKeepsUrisDistinctIff(pool, front, known);
      assert after.servers
             == if last.uri in known then before.servers else before.servers + [NewServer(before.nextId, last)];
      NewOnceSnoc(front, last, known);
      assert front + [last] == upstreams;
      AddedUris(pool, front, known, last.uri);
      DistinctUrisSnoc(before.servers, NewServer(before.nextId, last));
      hide AddStep, DistinctUris, NewOnce, Uris;
    }
  }

  /** One call that repeats a URI puts it into the pool twice. */
  lemma RepeatedUriIsAddedTwice()
    ensures
      var c := Config("a", 1, 1);
      !DistinctUris(AddStep(Pool([], 1), [c, c], {}).servers)
  {
    var c := Config("a", 1, 1);
    AddKeepsUrisDistinctIff(Pool([], 1), [c, c], {});
    assert [c, c][0].uri == [c, c][1].uri;
  }
}
