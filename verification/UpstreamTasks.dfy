/**
 The upstream pool under concurrency: tasks interleave between any two lock or semaphore
 operations.

 A task holds the pool's read lock from its start until it has its guard or gives up, so servers
 come and go only while no such task is under way.  A server that has left the pool lives on
 as long as somebody holds one of its permits; `instances` therefore keeps every server ever
 added, and the pool is a list of their indices.  The ranking of candidates is read server by
 server while others run, so here a scan may try its candidates in any order; choosing well
 is the subject of Upstream and PoolRuns.
 */
module UpstreamTasks {
  import opened Wrappers
  import opened Upstream
  import opened PoolRuns

  datatype Task =
    // acquire_connection_permit: candidates still to try; then the wait on spawned tasks
    | Scanning(rest: seq<nat>)
    | Joining
    // a spawned task waiting for a permit of a server, and one that has it as its result
    | Waiting(parent: nat, server: nat)
    | Holding(parent: nat, server: nat)
    // acquire_sticky_permit: look at server k of the pool; then mark the session; then a permit
    | LookingUp(id: Uuid, k: nat)
    | Touching(id: Uuid, server: nat)
    | Acquiring(server: nat)
    // new_sticky_uri: candidates still to try; a permit in hand; a session seen free; try again
    | Sticking(id: Uuid, rest: seq<nat>)
    | Permitted(id: Uuid, server: nat)
    | Adding(id: Uuid, server: nat, target: nat)
    | Retrying(id: Uuid, tried: bool)
    // remove_sticky_session: look at server k of the pool; then remove
    | Seeking(id: Uuid, k: nat)
    | Removing(id: Uuid, server: nat)
    // a guard held by a request; a task that is over
    | Guarded(server: nat, uri: string)
    | Finished

  datatype System = System(instances: seq<Server>, pool: seq<nat>, nextId: nat, tasks: seq<Task>)

  datatype Label =
    | StartConnection(order: seq<nat>)
    | StartSticky(id: Uuid)
    | StartRemoval(id: Uuid)
    | Expire(server: nat, now: int, expiry: nat)
    | AddServers(upstreams: seq<Config>)
    | RemoveServers(uris: set<string>)
    | Go(task: nat)                      // the next operation of a task, where it has no choice
    | Touch(task: nat, now: int)         // ... with the instant it reads
    | Add(task: nat, now: int)
    | Rescan(task: nat, order: seq<nat>) // ... with the order its scan finds
    | Join(task: nat, child: nat)        // the join set yields a spawned task's permit
    | GiveUp(task: nat)                  // the timeout, of the join set or of the retry loop
    | Abort(child: nat)                  // a spawned task is dropped once its parent is done
    | DropGuard(task: nat)
    | Cancel(task: nat)                  // the call is dropped where it waits, and with it what it holds

  // ---------------------------------------------------------------- the machine

  /** The server whose permit the task holds. */
  function HeldBy(t: Task): Option<nat> {
    match t
    case Holding(_, r) => Some(r)
    case Permitted(_, r) => Some(r)
    case Adding(_, r, _) => Some(r)
    case Guarded(r, _) => Some(r)
    case _ => None
  }

  /** Whether the task holds the read lock of the pool. */
  predicate Reading(t: Task) {
    !t.Waiting? && !t.Holding? && !t.Guarded? && !t.Finished?
  }

  /** Whether the task waits for a lock, a permit or a moment: there its call can be dropped. */
  predicate Awaiting(t: Task) {
    || t.Joining? || t.LookingUp? || t.Touching? || t.Permitted? || t.Adding? || t.Retrying?
    || t.Seeking? || t.Removing?
  }

  function Set(s: System, i: nat, t: Task): System
    requires i < |s.tasks|
  {
    s.(tasks := s.tasks[i := t])
  }

  /** Task i takes a permit of server r and becomes t; or nothing, if there is none. */
  function TakeFor(s: System, i: nat, r: nat, t: Task, otherwise: Task): System
    requires i < |s.tasks| && r < |s.instances|
  {
    if s.instances[r].available > 0 then
      s.(instances := s.instances[r := Take(s.instances[r])], tasks := s.tasks[i := t])
    else
      Set(s, i, otherwise)
  }

  /** Task i drops its permit of server r and becomes t. */
  function DropFor(s: System, i: nat, r: nat, t: Task): System
    requires i < |s.tasks| && r < |s.instances|
  {
    s.(instances := s.instances[r := s.instances[r].(available := s.instances[r].available + 1)],
       tasks := s.tasks[i := t])
  }

  function SetSticky(s: System, r: nat, sticky: map<Uuid, int>): System
    requires r < |s.instances|
  {
    s.(instances := s.instances[r := s.instances[r].(sticky := sticky)])
  }

  /** The first server of the pool with this id. */
  function FindId(s: System, id: nat, k: nat): (f: Option<nat>)
    requires k <= |s.pool| && InRange(s, s.pool)
    ensures f.Some? ==> f.value in s.pool && s.instances[f.value].id == id
    ensures f.None? ==> forall j :: k <= j < |s.pool| ==> s.instances[s.pool[j]].id != id
    decreases |s.pool| - k
  {
    if k == |s.pool| then None
    else if s.instances[s.pool[k]].id == id then Some(s.pool[k])
    else FindId(s, id, k + 1)
  }

  predicate InRange(s: System, refs: seq<nat>) {
    forall k :: 0 <= k < |refs| ==> refs[k] < |s.instances|
  }

  predicate FromPool(s: System, order: seq<nat>) {
    forall k :: 0 <= k < |order| ==> order[k] in s.pool
  }

  /** What a task does next when that is settled. */
  function GoStep(s: System, i: nat): System
    requires i < |s.tasks| && Inv(s)
  {
    assert TaskOk(s, s.tasks[i]);
    match s.tasks[i]
    case Scanning(rest) =>
      if rest != [] then TakeFor(s, i, rest[0], Guarded(rest[0], s.instances[rest[0]].uri), Scanning(rest[1..]))
      else s.(tasks := s.tasks[i := Joining] + seq(|s.pool|, k requires 0 <= k < |s.pool| => Waiting(i, s.pool[k])))
    case Waiting(parent, r) => TakeFor(s, i, r, Holding(parent, r), Waiting(parent, r))
    case LookingUp(id, k) =>
      if k == |s.pool| then Set(s, i, Retrying(id, false))
      else if id in s.instances[s.pool[k]].sticky then Set(s, i, Touching(id, s.pool[k]))
      else Set(s, i, LookingUp(id, k + 1))
    case Acquiring(r) => TakeFor(s, i, r, Guarded(r, s.instances[r].uri), Finished)
    case Sticking(id, rest) =>
      if rest == [] then Set(s, i, Retrying(id, true))
      else TakeFor(s, i, rest[0], Permitted(id, rest[0]), Sticking(id, rest[1..]))
    case Permitted(id, r) =>
      (match FindId(s, s.instances[r].id, 0)
       case None => DropFor(s, i, r, Retrying(id, true))
       case Some(target) =>
         if FullSticky(s.instances[target]) then DropFor(s, i, r, Retrying(id, true))
         else Set(s, i, Adding(id, r, target)))
    case Seeking(id, k) =>
      if k == |s.pool| then Set(s, i, Finished)
      else if id in s.instances[s.pool[k]].sticky then Set(s, i, Removing(id, s.pool[k]))
      else Set(s, i, Seeking(id, k + 1))
    case Removing(id, r) => Set(SetSticky(s, r, s.instances[r].sticky - {id}), i, Finished)
    case _ => s
  }

  /** update_id, under the write lock: only a session that is still there is marked. */
  function TouchStep(s: System, i: nat, now: int): System
    requires i < |s.tasks| && s.tasks[i].Touching? && s.tasks[i].server < |s.instances|
  {
    var t := s.tasks[i];
    var sticky := s.instances[t.server].sticky;
    Set(if t.id in sticky then SetSticky(s, t.server, sticky[t.id := now]) else s, i, Acquiring(t.server))
  }

  /** try_add_sticky, under the write lock: fullness is looked at again. */
  function AddStickyStep(s: System, i: nat, now: int): System
    requires i < |s.tasks| && s.tasks[i].Adding? && s.tasks[i].server < |s.instances|
    requires s.tasks[i].target < |s.instances|
  {
    var t := s.tasks[i];
    var target := s.instances[t.target];
    if FullSticky(target) then DropFor(s, i, t.server, Retrying(t.id, true))
    else Set(SetSticky(s, t.target, target.sticky[t.id := now]), i, Guarded(t.server, target.uri))
  }

  function AddOne(s: System, c: Config): System {
    System(s.instances + [NewServer(s.nextId, c)], s.pool + [|s.instances|], s.nextId + 1, s.tasks)
  }

  function AddServersStep(s: System, upstreams: seq<Config>, known: set<string>): System {
    if upstreams == [] then s
    else
      var before := AddServersStep(s, upstreams[..|upstreams| - 1], known);
      if upstreams[|upstreams| - 1].uri in known then before else AddOne(before, upstreams[|upstreams| - 1])
  }

  function PoolUris(s: System): set<string>
    requires InRange(s, s.pool)
  {
    set k | 0 <= k < |s.pool| :: s.instances[s.pool[k]].uri
  }

  function Keep(s: System, pool: seq<nat>, uris: set<string>): seq<nat>
    requires InRange(s, pool)
  {
    if pool == [] then []
    else if s.instances[pool[0]].uri in uris then Keep(s, pool[1..], uris)
    else [pool[0]] + Keep(s, pool[1..], uris)
  }

  ghost predicate Quiet(s: System) {
    forall i :: 0 <= i < |s.tasks| ==> !Reading(s.tasks[i])
  }

  /** One atomic step; a label that does not apply changes nothing. */
  ghost function Apply(s: System, l: Label): System
    requires Inv(s)
  {
    match l
    case StartConnection(order) => if FromPool(s, order) then s.(tasks := s.tasks + [Scanning(order)]) else s
    case StartSticky(id) => s.(tasks := s.tasks + [LookingUp(id, 0)])
    case StartRemoval(id) => s.(tasks := s.tasks + [Seeking(id, 0)])
    case Expire(r, now, expiry) =>
      if r in s.pool then SetSticky(s, r, s.instances[r].sticky - Stale(s.instances[r], now, expiry)) else s
    case AddServers(us) =>
      if Quiet(s) then AddServersStep(s, us, PoolUris(s)) else s
    case RemoveServers(uris) => if Quiet(s) then s.(pool := Keep(s, s.pool, uris)) else s
    case Go(i) => if i < |s.tasks| then GoStep(s, i) else s
    case Touch(i, now) =>
      if i < |s.tasks| && s.tasks[i].Touching? then (assert TaskOk(s, s.tasks[i]); TouchStep(s, i, now)) else s
    case Add(i, now) =>
      if i < |s.tasks| && s.tasks[i].Adding? then (assert TaskOk(s, s.tasks[i]); AddStickyStep(s, i, now)) else s
    case Rescan(i, order) =>
      if i < |s.tasks| && s.tasks[i].Retrying? && FromPool(s, order) then Set(s, i, Sticking(s.tasks[i].id, order)) else s
    case Join(i, c) =>
      if i < |s.tasks| && c < |s.tasks| && s.tasks[i].Joining? && s.tasks[c].Holding? && s.tasks[c].parent == i then
        (assert TaskOk(s, s.tasks[c]);
         Set(Set(s, c, Finished), i, Guarded(s.tasks[c].server, s.instances[s.tasks[c].server].uri)))
      else s
    case GiveUp(i) =>
      if i < |s.tasks| && (s.tasks[i].Joining? || (s.tasks[i].Retrying? && s.tasks[i].tried)) then Set(s, i, Finished) else s
    case Abort(c) =>
      if c < |s.tasks| && s.tasks[c].Waiting? && Orphan(s, s.tasks[c].parent) then Set(s, c, Finished)
      else if c < |s.tasks| && s.tasks[c].Holding? && Orphan(s, s.tasks[c].parent) then
        (assert TaskOk(s, s.tasks[c]); DropFor(s, c, s.tasks[c].server, Finished))
      else s
    case DropGuard(i) =>
      if i < |s.tasks| && s.tasks[i].Guarded? then
        (assert TaskOk(s, s.tasks[i]); DropFor(s, i, s.tasks[i].server, Finished))
      else s
    case Cancel(i) =>
      if i < |s.tasks| && Awaiting(s.tasks[i]) then
        (assert TaskOk(s, s.tasks[i]);
         match HeldBy(s.tasks[i])
         case None => Set(s, i, Finished)
         case Some(r) => DropFor(s, i, r, Finished))
      else s
  }

  predicate Orphan(s: System, parent: nat) {
    parent < |s.tasks| && !s.tasks[parent].Joining?
  }

  // ---------------------------------------------------------------- the invariant

  function Holds(t: Task, r: nat): nat {
    if HeldBy(t) == Some(r) then 1 else 0
  }

  /** How many tasks hold a permit of server r. */
  function Held(tasks: seq<Task>, r: nat): nat {
    if tasks == [] then 0 else Held(tasks[..|tasks| - 1], r) + Holds(tasks[|tasks| - 1], r)
  }

  /** Free permits and permits held make up what the server started with. */
  ghost predicate Conserved(s: System, r: nat)
    requires r < |s.instances|
  {
    s.instances[r].available + Held(s.tasks, r) == s.instances[r].maxConnections
  }

  /** What a task knows stays true while it runs. */
  ghost predicate TaskOk(s: System, t: Task) {
    match t
    case Scanning(rest) => FromPool(s, rest)
    case Joining => true
    case Waiting(parent, r) => parent < |s.tasks| && r < |s.instances|
    case Holding(parent, r) => parent < |s.tasks| && r < |s.instances|
    case LookingUp(_, k) => k <= |s.pool|
    case Touching(_, r) => r < |s.instances|
    case Acquiring(r) => r < |s.instances|
    case Sticking(_, rest) => FromPool(s, rest)
    case Permitted(_, r) => r in s.pool
    case Adding(_, r, target) => r in s.pool && target == r
    case Retrying(_, _) => true
    case Seeking(_, k) => k <= |s.pool|
    case Removing(_, r) => r < |s.instances|
    case Guarded(r, uri) => r < |s.instances| && uri == s.instances[r].uri
    case Finished => true
  }

  ghost predicate Once(pool: seq<nat>) {
    forall j, k :: 0 <= j < k < |pool| ==> pool[j] != pool[k]
  }

  ghost predicate Inv(s: System) {
    && InRange(s, s.pool) && Once(s.pool)
    && (forall r :: 0 <= r < |s.instances| ==> s.instances[r].id < s.nextId)
    && (forall q, r :: 0 <= q < r < |s.instances| ==> s.instances[q].id != s.instances[r].id)
    && (forall r :: 0 <= r < |s.instances| ==> |s.instances[r].sticky| <= s.instances[r].maxSticky)
    && (forall r :: 0 <= r < |s.instances| ==> Conserved(s, r))
    && (forall i :: 0 <= i < |s.tasks| ==> TaskOk(s, s.tasks[i]))
  }

  // ---------------------------------------------------------------- preservation

  lemma {:induction false} HeldAfterSet(tasks: seq<Task>, i: nat, t: Task, r: nat)
    requires i < |tasks|
    ensures Held(tasks[i := t], r) == Held(tasks, r) - Holds(tasks[i], r) + Holds(t, r)
    decreases |tasks|
  {
    var n := |tasks| - 1;
    if i < n {
      HeldAfterSet(tasks[..n], i, t, r);
      assert tasks[i := t][..n] == tasks[..n][i := t];
    } else {
      assert tasks[i := t][..n] == tasks[..n];
    }
  }

  lemma {:induction false} HeldAfterSpawn(tasks: seq<Task>, more: seq<Task>, r: nat)
    requires forall k :: 0 <= k < |more| ==> HeldBy(more[k]) == None
    ensures Held(tasks + more, r) == Held(tasks, r)
    decreases |more|
  {
    if more == [] {
      assert tasks + more == tasks;
    } else {
      var n := |more| - 1;
      HeldAfterSpawn(tasks, more[..n], r);
      assert (tasks + more)[..|tasks + more| - 1] == tasks + more[..n];
    }
  }

  /** Two systems with the same servers in the same pool, up to free permits and sessions. */
  ghost predicate SameServers(s: System, t: System) {
    && s.pool == t.pool && s.nextId == t.nextId && |s.instances| == |t.instances|
    && forall r :: 0 <= r < |s.instances| ==>
         && s.instances[r].id == t.instances[r].id && s.instances[r].uri == t.instances[r].uri
         && s.instances[r].maxConnections == t.instances[r].maxConnections
         && s.instances[r].maxSticky == t.instances[r].maxSticky
  }

  lemma TaskOkFrame(s: System, t: System, task: Task)
    requires SameServers(s, t) && |s.tasks| <= |t.tasks| && TaskOk(s, task)
    ensures TaskOk(t, task)
  {
  }

  lemma SetKeepsInv(s: System, i: nat, t: Task)
    requires Inv(s) && i < |s.tasks| && TaskOk(s, t) && HeldBy(t) == HeldBy(s.tasks[i])
    ensures Inv(Set(s, i, t))
  {
    var after := Set(s, i, t);
    forall r | 0 <= r < |s.instances| ensures Conserved(after, r) {
      assert Conserved(s, r);
      HeldAfterSet(s.tasks, i, t, r);
    }
    forall k | 0 <= k < |s.tasks| ensures TaskOk(after, after.tasks[k]) {
      TaskOkFrame(s, after, after.tasks[k]);
    }
  }

  /** One server's free permits and one task change together. */
  lemma ExchangeKeepsInv(s: System, i: nat, r: nat, t: Task, server: Server)
    requires Inv(s) && i < |s.tasks| && r < |s.instances| && TaskOk(s, t)
    requires server == s.instances[r].(available := server.available)
    requires forall q :: 0 <= q < |s.instances| ==>
               Holds(t, q) - Holds(s.tasks[i], q)
               == if q == r then s.instances[r].available - server.available else 0
    ensures Inv(s.(instances := s.instances[r := server], tasks := s.tasks[i := t]))
  {
    var after := s.(instances := s.instances[r := server], tasks := s.tasks[i := t]);
    forall q | 0 <= q < |s.instances| ensures Conserved(after, q) {
      assert Conserved(s, q);
      HeldAfterSet(s.tasks, i, t, q);
    }
    forall k | 0 <= k < |s.tasks| ensures TaskOk(after, after.tasks[k]) {
      TaskOkFrame(s, after, after.tasks[k]);
    }
  }

  lemma TakeKeepsInv(s: System, i: nat, r: nat, t: Task, otherwise: Task)
    requires Inv(s) && i < |s.tasks| && r < |s.instances| && TaskOk(s, t) && TaskOk(s, otherwise)
    requires HeldBy(s.tasks[i]) == HeldBy(otherwise) == None && HeldBy(t) == Some(r)
    ensures Inv(TakeFor(s, i, r, t, otherwise))
  {
    if s.instances[r].available > 0 {
      ExchangeKeepsInv(s, i, r, t, Take(s.instances[r]));
    } else {
      SetKeepsInv(s, i, otherwise);
    }
  }

  lemma DropKeepsInv(s: System, i: nat, r: nat, t: Task)
    requires Inv(s) && i < |s.tasks| && r < |s.instances| && TaskOk(s, t)
    requires HeldBy(s.tasks[i]) == Some(r) && HeldBy(t) == None
    ensures Inv(DropFor(s, i, r, t))
  {
    ExchangeKeepsInv(s, i, r, t, s.instances[r].(available := s.instances[r].available + 1));
  }

  lemma SetStickyKeepsInv(s: System, r: nat, sticky: map<Uuid, int>)
    requires Inv(s) && r < |s.instances| && |sticky| <= s.instances[r].maxSticky
    ensures Inv(SetSticky(s, r, sticky)) && SameServers(s, SetSticky(s, r, sticky))
  {
    var after := SetSticky(s, r, sticky);
    forall q | 0 <= q < |s.instances| ensures Conserved(after, q) { assert Conserved(s, q); }
    forall k | 0 <= k < |s.tasks| ensures TaskOk(after, after.tasks[k]) { TaskOkFrame(s, after, s.tasks[k]); }
  }

  /** New tasks that hold no permit. */
  lemma SpawnKeepsInv(s: System, more: seq<Task>)
    requires Inv(s) && forall k :: 0 <= k < |more| ==> TaskOk(s, more[k]) && HeldBy(more[k]) == None
    ensures Inv(s.(tasks := s.tasks + more))
  {
    var after := s.(tasks := s.tasks + more);
    forall r | 0 <= r < |s.instances| ensures Conserved(after, r) {
      assert Conserved(s, r);
      HeldAfterSpawn(s.tasks, more, r);
    }
    forall k | 0 <= k < |after.tasks| ensures TaskOk(after, after.tasks[k]) {
      TaskOkFrame(s, after, after.tasks[k]);
    }
  }

  /** Ids are unique, so the server found by id is the one whose permit is held. */
  lemma FoundIsPermitted(s: System, r: nat)
    requires Inv(s) && r in s.pool
    ensures FindId(s, s.instances[r].id, 0) == Some(r)
  {
    var k :| 0 <= k < |s.pool| && s.pool[k] == r;
    assert s.instances[s.pool[k]].id == s.instances[r].id;
  }

  lemma JoinSetKeepsInv(s: System, i: nat)
    requires Inv(s) && i < |s.tasks| && s.tasks[i] == Scanning([])
    ensures Inv(GoStep(s, i))
  {
    SetKeepsInv(s, i, Joining);
    SpawnKeepsInv(Set(s, i, Joining), seq(|s.pool|, k requires 0 <= k < |s.pool| => Waiting(i, s.pool[k])));
  }

  lemma ConnectionGoKeepsInv(s: System, i: nat)
    requires Inv(s) && i < |s.tasks|
    requires s.tasks[i].Scanning? || s.tasks[i].Waiting? || s.tasks[i].Acquiring?
    ensures Inv(GoStep(s, i))
  {
    assert TaskOk(s, s.tasks[i]);
    match s.tasks[i]
    case Scanning(rest) =>
      if rest == [] { JoinSetKeepsInv(s, i); }
      else { TakeKeepsInv(s, i, rest[0], Guarded(rest[0], s.instances[rest[0]].uri), Scanning(rest[1..])); }
    case Waiting(parent, r) => TakeKeepsInv(s, i, r, Holding(parent, r), s.tasks[i]);
    case Acquiring(r) => TakeKeepsInv(s, i, r, Guarded(r, s.instances[r].uri), Finished);
  }

  lemma StickyGoKeepsInv(s: System, i: nat)
    requires Inv(s) && i < |s.tasks| && (s.tasks[i].Sticking? || s.tasks[i].Permitted?)
    ensures Inv(GoStep(s, i))
  {
    assert TaskOk(s, s.tasks[i]);
    match s.tasks[i]
    case Sticking(id, rest) =>
      if rest == [] { SetKeepsInv(s, i, Retrying(id, true)); }
      else { TakeKeepsInv(s, i, rest[0], Permitted(id, rest[0]), Sticking(id, rest[1..])); }
    case Permitted(id, r) =>
      FoundIsPermitted(s, r);
      if FullSticky(s.instances[r]) { DropKeepsInv(s, i, r, Retrying(id, true)); }
      else { SetKeepsInv(s, i, Adding(id, r, r)); }
  }

  lemma LookupGoKeepsInv(s: System, i: nat)
    requires Inv(s) && i < |s.tasks| && s.tasks[i].LookingUp?
    ensures Inv(GoStep(s, i))
  {
    assert TaskOk(s, s.tasks[i]);
    var id, k := s.tasks[i].id, s.tasks[i].k;
    if k == |s.pool| { SetKeepsInv(s, i, Retrying(id, false)); }
    else if id in s.instances[s.pool[k]].sticky { SetKeepsInv(s, i, Touching(id, s.pool[k])); }
    else { SetKeepsInv(s, i, LookingUp(id, k + 1)); }
  }

  lemma SeekGoKeepsInv(s: System, i: nat)
    requires Inv(s) && i < |s.tasks| && s.tasks[i].Seeking?
    ensures Inv(GoStep(s, i))
  {
    assert TaskOk(s, s.tasks[i]);
    var id, k := s.tasks[i].id, s.tasks[i].k;
    if k == |s.pool| { SetKeepsInv(s, i, Finished); }
    else if id in s.instances[s.pool[k]].sticky { SetKeepsInv(s, i, Removing(id, s.pool[k])); }
    else { SetKeepsInv(s, i, Seeking(id, k + 1)); }
  }

  lemma RemovalGoKeepsInv(s: System, i: nat)
    requires Inv(s) && i < |s.tasks| && s.tasks[i].Removing?
    ensures Inv(GoStep(s, i))
  {
    assert TaskOk(s, s.tasks[i]);
    var id, r := s.tasks[i].id, s.tasks[i].server;
    FewerSessions(s.instances[r].sticky, {id});
    SetStickyKeepsInv(s, r, s.instances[r].sticky - {id});
    SetKeepsInv(SetSticky(s, r, s.instances[r].sticky - {id}), i, Finished);
  }

  lemma GoKeepsInv(s: System, i: nat)
    requires Inv(s) && i < |s.tasks|
    ensures Inv(GoStep(s, i))
  {
    match s.tasks[i]
    case Scanning(_) => ConnectionGoKeepsInv(s, i);
    case Waiting(_, _) => ConnectionGoKeepsInv(s, i);
    case Acquiring(_) => ConnectionGoKeepsInv(s, i);
    case Sticking(_, _) => StickyGoKeepsInv(s, i);
    case Permitted(_, _) => StickyGoKeepsInv(s, i);
    case LookingUp(_, _) => LookupGoKeepsInv(s, i);
    case Seeking(_, _) => SeekGoKeepsInv(s, i);
    case Removing(_, _) => RemovalGoKeepsInv(s, i);
    case _ =>
  }

  lemma TouchKeepsInv(s: System, i: nat, now: int)
    requires Inv(s) && i < |s.tasks| && s.tasks[i].Touching? && s.tasks[i].server < |s.instances|
    ensures Inv(TouchStep(s, i, now))
  {
    var t := s.tasks[i];
    var sticky := s.instances[t.server].sticky;
    if t.id in sticky {
      assert sticky[t.id := now].Keys == sticky.Keys && |sticky.Keys| == |sticky|;
      SetStickyKeepsInv(s, t.server, sticky[t.id := now]);
      SetKeepsInv(SetSticky(s, t.server, sticky[t.id := now]), i, Acquiring(t.server));
    } else {
      SetKeepsInv(s, i, Acquiring(t.server));
    }
  }

  lemma AddKeepsInv(s: System, i: nat, now: int)
    requires Inv(s) && i < |s.tasks| && s.tasks[i].Adding?
    requires s.tasks[i].server < |s.instances| && s.tasks[i].target == s.tasks[i].server
    ensures Inv(AddStickyStep(s, i, now))
  {
    var t := s.tasks[i];
    var target := s.instances[t.target];
    if FullSticky(target) {
      DropKeepsInv(s, i, t.server, Retrying(t.id, true));
    } else {
      assert target.sticky[t.id := now].Keys == target.sticky.Keys + {t.id};
      SetStickyKeepsInv(s, t.target, target.sticky[t.id := now]);
      SetKeepsInv(SetSticky(s, t.target, target.sticky[t.id := now]), i, Guarded(t.server, target.uri));
    }
  }

  /** Without readers, no task depends on the pool. */
  lemma QuietTasks(s: System, t: System)
    requires Inv(s) && Quiet(s) && t.tasks == s.tasks && s.instances <= t.instances
    ensures forall i :: 0 <= i < |s.tasks| ==> TaskOk(t, t.tasks[i])
  {
    forall i | 0 <= i < |s.tasks| ensures TaskOk(t, t.tasks[i]) {
      assert TaskOk(s, s.tasks[i]) && !Reading(s.tasks[i]);
    }
  }

  lemma {:induction false} NobodyHoldsNew(s: System, tasks: seq<Task>, r: nat)
    requires |s.instances| <= r && forall i :: 0 <= i < |tasks| ==> TaskOk(s, tasks[i]) && !Reading(tasks[i])
    ensures Held(tasks, r) == 0
    decreases |tasks|
  {
    if tasks != [] { NobodyHoldsNew(s, tasks[..|tasks| - 1], r); }
  }

  lemma AddOneKeepsInv(s: System, c: Config)
    requires Inv(s) && Quiet(s)
    ensures Inv(AddOne(s, c)) && Quiet(AddOne(s, c))
  {
    var after := AddOne(s, c);
    QuietTasks(s, after);
    NobodyHoldsNew(s, s.tasks, |s.instances|);
    forall r | 0 <= r < |after.instances| ensures Conserved(after, r) {
      if r < |s.instances| { assert Conserved(s, r); }
    }
  }

  lemma {:induction false} AddServersKeepsInv(s: System, upstreams: seq<Config>, known: set<string>)
    requires Inv(s) && Quiet(s)
    ensures Inv(AddServersStep(s, upstreams, known)) && Quiet(AddServersStep(s, upstreams, known))
    decreases |upstreams|
  {
    if upstreams != [] {
      AddServersKeepsInv(s, upstreams[..|upstreams| - 1], known);
      AddOneKeepsInv(AddServersStep(s, upstreams[..|upstreams| - 1], known), upstreams[|upstreams| - 1]);
    }
  }

  /** The servers that are kept are some of the pool's, each once. */
  lemma {:induction false} KeepFrom(s: System, pool: seq<nat>, uris: set<string>)
    requires InRange(s, pool)
    ensures forall k :: 0 <= k < |Keep(s, pool, uris)| ==> Keep(s, pool, uris)[k] in pool
    ensures Once(pool) ==> Once(Keep(s, pool, uris))
    decreases |pool|
  {
    if pool != [] {
      KeepFrom(s, pool[1..], uris);
      assert forall r :: r in pool[1..] ==> r in pool;
    }
  }

  lemma RemoveServersKeepsInv(s: System, uris: set<string>)
    requires Inv(s) && Quiet(s)
    ensures Inv(s.(pool := Keep(s, s.pool, uris)))
  {
    KeepFrom(s, s.pool, uris);
    var after := s.(pool := Keep(s, s.pool, uris));
    QuietTasks(s, after);
    forall r | 0 <= r < |s.instances| ensures Conserved(after, r) { assert Conserved(s, r); }
  }

  lemma JoinKeepsInv(s: System, i: nat, c: nat)
    requires Inv(s) && i < |s.tasks| && c < |s.tasks| && s.tasks[i].Joining? && s.tasks[c].Holding?
    requires s.tasks[c].server < |s.instances|
    ensures
      var r := s.tasks[c].server;
      Inv(Set(Set(s, c, Finished), i, Guarded(r, s.instances[r].uri)))
  {
    hide Held, FromPool;
    var r := s.tasks[c].server;
    var guard := Guarded(r, s.instances[r].uri);
    var after := Set(Set(s, c, Finished), i, guard);
    forall q | 0 <= q < |s.instances| ensures Conserved(after, q) {
      assert Conserved(s, q);
      HeldAfterSet(s.tasks, c, Finished, q);
      HeldAfterSet(s.tasks[c := Finished], i, guard, q);
    }
    forall k | 0 <= k < |s.tasks| ensures TaskOk(after, after.tasks[k]) {
      TaskOkFrame(s, after, after.tasks[k]);
    }
  }

  /** Every step of every task keeps the invariant. */
  lemma ApplyKeepsInv(s: System, l: Label)
    requires Inv(s)
    ensures Inv(Apply(s, l))
  {
    hide Conserved;
    match l
    case StartConnection(order) => if FromPool(s, order) { SpawnKeepsInv(s, [Scanning(order)]); }
    case StartSticky(id) => SpawnKeepsInv(s, [LookingUp(id, 0)]);
    case StartRemoval(id) => SpawnKeepsInv(s, [Seeking(id, 0)]);
    case Expire(r, now, expiry) =>
      if r in s.pool {
        FewerSessions(s.instances[r].sticky, Stale(s.instances[r], now, expiry));
        SetStickyKeepsInv(s, r, s.instances[r].sticky - Stale(s.instances[r], now, expiry));
      }
    case AddServers(us) =>
      if Quiet(s) { AddServersKeepsInv(s, us, PoolUris(s)); }
    case RemoveServers(uris) => if Quiet(s) { RemoveServersKeepsInv(s, uris); }
    case Go(i) => if i < |s.tasks| { GoKeepsInv(s, i); }
    case _ => if l.Touch? || l.Add? || l.Rescan? || l.Join? { CallLabelKeepsInv(s, l); } else { EndLabelKeepsInv(s, l); }
  }

  lemma CallLabelKeepsInv(s: System, l: Label)
    requires Inv(s) && (l.Touch? || l.Add? || l.Rescan? || l.Join?)
    ensures Inv(Apply(s, l))
  {
    hide Conserved;
    match l
    case Touch(i, now) =>
      if i < |s.tasks| && s.tasks[i].Touching? { assert TaskOk(s, s.tasks[i]); TouchKeepsInv(s, i, now); }
    case Add(i, now) =>
      if i < |s.tasks| && s.tasks[i].Adding? { assert TaskOk(s, s.tasks[i]); AddKeepsInv(s, i, now); }
    case Rescan(i, order) =>
      if i < |s.tasks| && s.tasks[i].Retrying? && FromPool(s, order) {
        SetKeepsInv(s, i, Sticking(s.tasks[i].id, order));
      }
    case Join(i, c) =>
      if i < |s.tasks| && c < |s.tasks| && s.tasks[i].Joining? && s.tasks[c].Holding? {
        assert TaskOk(s, s.tasks[c]);
        JoinKeepsInv(s, i, c);
      }
  }

  lemma EndLabelKeepsInv(s: System, l: Label)
    requires Inv(s) && (l.GiveUp? || l.Abort? || l.DropGuard? || l.Cancel?)
    ensures Inv(Apply(s, l))
  {
    hide Inv, Conserved, TaskOk;
    match l
    case GiveUp(i) =>
      if i < |s.tasks| && (s.tasks[i].Joining? || s.tasks[i].Retrying?) { SetKeepsInv(s, i, Finished); }
    case Abort(c) =>
      if c < |s.tasks| && s.tasks[c].Waiting? { SetKeepsInv(s, c, Finished); }
      if c < |s.tasks| && s.tasks[c].Holding? { EndKeepsInv(s, c); }
    case DropGuard(i) => if i < |s.tasks| && s.tasks[i].Guarded? { EndKeepsInv(s, i); }
    case Cancel(i) => if i < |s.tasks| && Awaiting(s.tasks[i]) { EndKeepsInv(s, i); }
  }

  /** A task ends and drops the permit it holds, if any. */
  lemma EndKeepsInv(s: System, i: nat)
    requires Inv(s) && i < |s.tasks|
    ensures TaskOk(s, s.tasks[i])
    ensures HeldBy(s.tasks[i]).None? ==> Inv(Set(s, i, Finished))
    ensures HeldBy(s.tasks[i]).Some? ==>
              var r := HeldBy(s.tasks[i]).value;
              r < |s.instances| && Inv(DropFor(s, i, r, Finished))
  {
    assert TaskOk(s, s.tasks[i]);
    match HeldBy(s.tasks[i])
    case None => SetKeepsInv(s, i, Finished);
    case Some(r) => DropKeepsInv(s, i, r, Finished);
  }

  // ---------------------------------------------------------------- every interleaving

  ghost function Next(s: System, l: Label): (t: System)
    requires Inv(s)
    ensures Inv(t)
  {
    ApplyKeepsInv(s, l);
    Apply(s, l)
  }

  /** The system after any interleaving of steps. */
  ghost function Run(s: System, labels: seq<Label>): (t: System)
    requires Inv(s)
    ensures Inv(t)
  {
    if labels == [] then s else Next(Run(s, labels[..|labels| - 1]), labels[|labels| - 1])
  }

  lemma {:induction false} RunsOn(s: System, labels: seq<Label>, more: seq<Label>)
    requires Inv(s)
    ensures Run(s, labels + more) == Run(Run(s, labels), more)
    decreases |more|
  {
    hide Inv, Apply;
    if more == [] {
      assert labels + more == labels;
    } else {
      var n := |more| - 1;
      RunsOn(s, labels, more[..n]);
      assert (labels + more)[..|labels + more| - 1] == labels + more[..n];
    }
  }

  lemma RunsOne(s: System, l: Label)
    requires Inv(s)
    ensures Run(s, [l]) == Apply(s, l)
  {
    assert [l][..0] == [];
  }

  lemma RunsLast(s: System, labels: seq<Label>, n: nat)
    requires Inv(s) && |labels| == n + 1
    ensures Run(s, labels) == Apply(Run(s, labels[..n]), labels[n])
  {
  }

  const NOBODY := System([], [], 1, [])

  /** In every state that any interleaving reaches from the empty pool: no server has more sessions
      than it allows; its free permits and the permits held by guards, tasks and results not yet
      dropped add up to its connections, so the count of current connections never goes below
      zero; and a guard names the server whose permit it holds. */
  lemma EveryInterleaving(labels: seq<Label>)
    ensures Inv(NOBODY)
    ensures
      var s := Run(NOBODY, labels);
      && (forall r :: 0 <= r < |s.instances| ==>
            && |s.instances[r].sticky| <= s.instances[r].maxSticky
            && s.instances[r].available + Held(s.tasks, r) == s.instances[r].maxConnections)
      && (forall i :: 0 <= i < |s.tasks| && s.tasks[i].Guarded? ==>
            s.tasks[i].server < |s.instances| && s.tasks[i].uri == s.instances[s.tasks[i].server].uri)
  {
    var s := Run(NOBODY, labels);
    forall r | 0 <= r < |s.instances|
      ensures s.instances[r].available + Held(s.tasks, r) == s.instances[r].maxConnections
    {
      assert Conserved(s, r);
    }
    forall i | 0 <= i < |s.tasks| && s.tasks[i].Guarded?
      ensures s.tasks[i].server < |s.instances| && s.tasks[i].uri == s.instances[s.tasks[i].server].uri
    {
      assert TaskOk(s, s.tasks[i]);
    }
  }

  function Guards(tasks: seq<Task>, r: nat): nat {
    if tasks == [] then 0
    else
      Guards(tasks[..|tasks| - 1], r)
      + (if tasks[|tasks| - 1].Guarded? && tasks[|tasks| - 1].server == r then 1 else 0)
  }

  lemma {:induction false} OnlyGuardsHold(tasks: seq<Task>, r: nat)
    requires forall i :: 0 <= i < |tasks| ==> tasks[i].Guarded? || tasks[i].Finished?
    ensures Held(tasks, r) == Guards(tasks, r)
    decreases |tasks|
  {
    if tasks != [] { OnlyGuardsHold(tasks[..|tasks| - 1], r); }
  }

  /** Net effect.  Whenever every call is over, the permits that are not free are exactly those of
      the guards handed out: a call that succeeded took one, on the server it names, and a call
      that failed none, even if it had one in between. */
  lemma FailedCallsTakeNothing(labels: seq<Label>, r: nat)
    requires r < |Run(NOBODY, labels).instances|
    requires forall i :: 0 <= i < |Run(NOBODY, labels).tasks| ==>
               Run(NOBODY, labels).tasks[i].Guarded? || Run(NOBODY, labels).tasks[i].Finished?
    ensures
      var s := Run(NOBODY, labels);
      s.instances[r].maxConnections - s.instances[r].available == Guards(s.tasks, r)
  {
    var s := Run(NOBODY, labels);
    OnlyGuardsHold(s.tasks, r);
    assert Conserved(s, r);
  }

  /** A session appears in one way only: a task that found the server not full under the write lock
      adds it.  In particular update_id brings none back that was removed between its locks. */
  lemma SessionsOnlyFromAdding(s: System, l: Label, r: nat, id: Uuid)
    requires Inv(s) && r < |s.instances| && r < |Apply(s, l).instances|
    requires id !in s.instances[r].sticky && id in Apply(s, l).instances[r].sticky
    ensures l.Add? && l.task < |s.tasks| && !FullSticky(s.instances[r])
    ensures s.tasks[l.task] == Adding(id, r, r)
  {
    match l
    case AddServers(us) =>
      if Quiet(s) { AddServersKeepsOld(s, us, PoolUris(s)); }
    case Add(i, now) =>
      if i < |s.tasks| { assert TaskOk(s, s.tasks[i]); }
      hide Inv;
    case Go(i) =>
      if i < |s.tasks| { GoAddsNoSession(s, i, r, id); }
      hide Inv, GoStep;
    case _ => hide Inv, GoStep;
  }

  lemma GoAddsNoSession(s: System, i: nat, r: nat, id: Uuid)
    requires Inv(s) && i < |s.tasks| && r < |s.instances| && id !in s.instances[r].sticky
    ensures |GoStep(s, i).instances| == |s.instances| && id !in GoStep(s, i).instances[r].sticky
  {
    assert TaskOk(s, s.tasks[i]);
  }

  lemma {:induction false} AddServersKeepsOld(s: System, upstreams: seq<Config>, known: set<string>)
    ensures s.instances <= AddServersStep(s, upstreams, known).instances
    decreases |upstreams|
  {
    if upstreams != [] { AddServersKeepsOld(s, upstreams[..|upstreams| - 1], known); }
  }
}
