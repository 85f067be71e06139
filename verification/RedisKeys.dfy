/**
 The six Redis structures of the waiting room as values: how they belong together, the room they
 stand for, and what each script's writes mean for that room.
 */
module RedisKeys {
  import opened Wrappers
  import opened Numerals
  import opened QueueModels
  import opened WaitingRoom
  import opened RoomInvariants

  /** A snapshot of the six structures.  Redis keeps an expiry as the numeral of the number
      given here, which the numeral determines (Numerals.ValueOfDecimal); the scripts that
      compare expiry times compare the numerals. */
  datatype Redis = Redis(
    queueIds: seq<Id>,
    positionCache: map<Id, nat>,
    queueExpiry: map<Id, int>,
    storeIds: set<Id>,
    storeExpiry: map<Id, int>,
    capacity: Option<int>)

  /** The structures belong together: the queue has no duplicates, both queue hashes have the
      queued ids as keys and the store hash the stored ids, and nobody is in both. */
  ghost predicate Linked(db: Redis) {
    && NoRepeats(db.queueIds)
    && (forall i :: 0 <= i < |db.queueIds| ==> Tracked(db, db.queueIds[i]))
    && KeysMatch(db)
  }

  ghost predicate NoRepeats(ids: seq<Id>) {
    forall i, j :: 0 <= i < j < |ids| ==> ids[i] != ids[j]
  }

  ghost predicate Tracked(db: Redis, id: Id) {
    id in db.positionCache && id in db.queueExpiry && id !in db.storeIds
  }

  ghost predicate KeysMatch(db: Redis) {
    && db.positionCache.Keys == IdSet(db.queueIds) == db.queueExpiry.Keys
    && db.storeExpiry.Keys == db.storeIds
  }

  function IdSet(ids: seq<Id>): set<Id> {
    if ids == [] then {} else IdSet(ids[..|ids| - 1]) + {ids[|ids| - 1]}
  }

  lemma {:induction false} IdSetMembers(ids: seq<Id>)
    ensures forall id :: id in IdSet(ids) <==> id in ids
    decreases |ids|
  {
    if ids != [] {
      IdSetMembers(ids[..|ids| - 1]);
      assert ids == ids[..|ids| - 1] + [ids[|ids| - 1]];
    }
  }

  function Tickets(ids: seq<Id>, cache: map<Id, nat>, expiry: map<Id, int>): (q: seq<Ticket>)
    requires forall i :: 0 <= i < |ids| ==> ids[i] in cache && ids[i] in expiry
    ensures |q| == |ids|
    ensures forall i :: 0 <= i < |ids| ==> q[i] == Ticket(ids[i], expiry[ids[i]], cache[ids[i]])
  {
    seq(|ids|, i requires 0 <= i < |ids| => Ticket(ids[i], expiry[ids[i]], cache[ids[i]]))
  }

  /** A missing capacity counts as unlimited. */
  function Limit(capacity: Option<int>): int {
    match capacity
    case None => -1
    case Some(c) => c
  }

  /** The waiting room that linked structures stand for. */
  ghost function Abstract(db: Redis): Room
    requires Linked(db)
  {
    Room(Tickets(db.queueIds, db.positionCache, db.queueExpiry), db.storeExpiry, Limit(db.capacity))
  }

  lemma SameQueue(db: Redis, other: Redis)
    requires Linked(db) && Linked(other) && Abstract(db).queue == Abstract(other).queue
    ensures db.queueIds == other.queueIds
    ensures db.positionCache == other.positionCache && db.queueExpiry == other.queueExpiry
  {
    var q := Abstract(db).queue;
    assert forall i :: 0 <= i < |q| ==> db.queueIds[i] == q[i].id && other.queueIds[i] == q[i].id;
    assert db.queueIds == other.queueIds;
    IdSetMembers(db.queueIds);
    forall id | id in IdSet(db.queueIds)
      ensures db.positionCache[id] == other.positionCache[id] && db.queueExpiry[id] == other.queueExpiry[id]
    {
      var i :| 0 <= i < |db.queueIds| && db.queueIds[i] == id;
      assert q[i] == Abstract(other).queue[i];
    }
  }

  /** Nothing is lost in the abstraction but whether the limit of an unlimited store is written down:
      two sets of linked structures stand for the same room exactly if they are the same up to
      that. */
  lemma AbstractInjective(db: Redis, other: Redis)
    requires Linked(db) && Linked(other)
    ensures Abstract(db) == Abstract(other)
            <==> db == other.(capacity := db.capacity) && Limit(db.capacity) == Limit(other.capacity)
  {
    if Abstract(db) == Abstract(other) {
      SameQueue(db, other);
      assert db.storeIds == db.storeExpiry.Keys == other.storeIds;
    }
  }

  // ---------------------------------------------------------------- Redis commands

  /** LREM key 1 x: without the first occurrence. */
  function RemoveFirst(s: seq<Id>, x: Id): (r: seq<Id>)
    ensures |r| == |s| - (if x in s then 1 else 0)
  {
    if s == [] then [] else if s[0] == x then s[1..] else [s[0]] + RemoveFirst(s[1..], x)
  }

  /** LREM key 0 x: without any occurrence. */
  function RemoveAll(s: seq<Id>, x: Id): seq<Id> {
    if s == [] then [] else RemoveAll(s[..|s| - 1], x) + (if s[|s| - 1] == x then [] else [s[|s| - 1]])
  }

  lemma {:induction false} RemoveFirstAt(s: seq<Id>, k: nat)
    requires k < |s| && forall i :: 0 <= i < k ==> s[i] != s[k]
    ensures WithoutAt(s, k, RemoveFirst(s, s[k]))
    decreases |s|
  {
    if k > 0 { RemoveFirstAt(s[1..], k - 1); }
  }

  lemma {:induction false} RemoveAllIds(s: seq<Id>, x: Id)
    ensures IdSet(RemoveAll(s, x)) == IdSet(s) - {x}
    ensures forall i :: 0 <= i < |RemoveAll(s, x)| ==> RemoveAll(s, x)[i] in IdSet(s) && RemoveAll(s, x)[i] != x
    decreases |s|
  {
    if s != [] {
      var front, last := RemoveAll(s[..|s| - 1], x), s[|s| - 1];
      RemoveAllIds(s[..|s| - 1], x);
      if last == x {
        assert RemoveAll(s, x) == front;
      } else {
        assert RemoveAll(s, x) == front + [last];
        assert (front + [last])[..|front|] == front;
      }
    }
  }

  lemma {:induction false} RemoveAllIsFilter(s: seq<Id>, x: Id, cache: map<Id, nat>, expiry: map<Id, int>)
    requires forall i :: 0 <= i < |s| ==> s[i] in cache && s[i] in expiry
    ensures forall i :: 0 <= i < |RemoveAll(s, x)| ==> RemoveAll(s, x)[i] in cache && RemoveAll(s, x)[i] in expiry
    ensures Tickets(RemoveAll(s, x), cache, expiry) == Filter(Tickets(s, cache, expiry), Other(x))
    decreases |s|
  {
    if s != [] {
      var front, q := s[..|s| - 1], Tickets(s, cache, expiry);
      RemoveAllIsFilter(front, x, cache, expiry);
      assert q[..|s| - 1] == Tickets(front, cache, expiry);
      assert q[|s| - 1].id == s[|s| - 1];
    }
  }

  // ---------------------------------------------------------------- one step on the structures

  /** Between these two snapshots the structures did this step and gave this answer. */
  ghost predicate Does(was: Redis, op: Op, now: Redis, reply: Reply) {
    Linked(was) ==> Linked(now) && Step(TEXT, Abstract(was), op) == (Abstract(now), reply)
  }

  lemma IndexOfId(db: Redis, id: Id)
    requires Linked(db)
    ensures Queued(Abstract(db).queue, id) <==> id in IdSet(db.queueIds)
    ensures id in Abstract(db).store <==> id in db.storeIds
    ensures |Abstract(db).store| == |db.storeIds|
  {
    var q := Abstract(db).queue;
    QueuedAt(q, id);
    IdSetMembers(db.queueIds);
    if id in db.queueIds {
      var i :| 0 <= i < |db.queueIds| && db.queueIds[i] == id;
      assert q[i].id == id;
    }
    assert Abstract(db).store.Keys == db.storeIds;
  }

  /** Whether a queue's tickets are what these ids and hashes say. */
  ghost predicate Spells(ids: seq<Id>, cache: map<Id, nat>, expiry: map<Id, int>, q: seq<Ticket>) {
    && |ids| == |q|
    && forall i :: 0 <= i < |ids| ==>
         && ids[i] == q[i].id
         && ids[i] in cache && cache[ids[i]] == q[i].cached
         && ids[i] in expiry && expiry[ids[i]] == q[i].expiry
  }

  lemma SpelledQueue(db: Redis, q: seq<Ticket>)
    requires Spells(db.queueIds, db.positionCache, db.queueExpiry, q) && Distinct(q)
    requires forall i :: 0 <= i < |q| ==> q[i].id !in db.storeIds
    requires db.positionCache.Keys == IdSet(db.queueIds) == db.queueExpiry.Keys
    requires db.storeExpiry.Keys == db.storeIds
    ensures Linked(db) && Abstract(db).queue == q
  {
    assert Linked(db);
    assert Abstract(db).queue == q;
  }

  lemma SetExpiryAt(db: Redis, k: nat, e: int)
    requires Linked(db) && k < |db.queueIds|
    ensures
      var q := Abstract(db).queue;
      var now := db.(queueExpiry := db.queueExpiry[db.queueIds[k] := e]);
      Linked(now) && Abstract(now) == Abstract(db).(queue := q[k := q[k].(expiry := e)])
  {
    var q := Abstract(db).queue;
    var now := db.(queueExpiry := db.queueExpiry[db.queueIds[k] := e]);
    assert now.queueExpiry.Keys == db.queueExpiry.Keys;
    assert Abstract(now).queue == q[k := q[k].(expiry := e)];
  }

  /** HSET of the expiry of a queued id. */
  lemma SetQueued(db: Redis, id: Id, e: int)
    requires Linked(db) && id in IdSet(db.queueIds)
    ensures
      var now := db.(queueExpiry := db.queueExpiry[id := e]);
      var q := Abstract(db).queue;
      var i := IndexOf(q, id);
      && i < |q| && q[i].cached == db.positionCache[id]
      && Linked(now) && Abstract(now) == Abstract(db).(queue := q[i := q[i].(expiry := e)])
  {
    IndexOfId(db, id);
    var i := IndexOf(Abstract(db).queue, id);
    assert db.queueIds[i] == id;
    SetExpiryAt(db, i, e);
  }

  /** An id with a cached position, or with an expiry in the queue, is queued. */
  lemma KnownId(db: Redis, id: Id)
    requires Linked(db) && (id in db.positionCache || id in db.queueExpiry)
    ensures id in db.positionCache && id in db.queueExpiry && id in IdSet(db.queueIds)
    ensures Queued(Abstract(db).queue, id) && id !in Abstract(db).store
  {
    assert id in db.positionCache.Keys || id in db.queueExpiry.Keys;
    IndexOfId(db, id);
    IdSetMembers(db.queueIds);
  }

  /** RPUSH of a new id, told its place. */
  lemma PushQueued(db: Redis, id: Id, e: int)
    requires Linked(db) && id !in IdSet(db.queueIds) && id !in db.storeIds
    ensures
      var n := |db.queueIds| + 1;
      var now := db.(queueIds := db.queueIds + [id], positionCache := db.positionCache[id := n],
                     queueExpiry := db.queueExpiry[id := e]);
      && Linked(now)
      && Abstract(now) == Abstract(db).(queue := Abstract(db).queue + [Ticket(id, e, n)])
  {
    var n := |db.queueIds| + 1;
    var ids, cache, expiry := db.queueIds + [id], db.positionCache[id := n], db.queueExpiry[id := e];
    var q := Abstract(db).queue + [Ticket(id, e, n)];
    PushSpelled(db, id, e);
    assert ids[..n - 1] == db.queueIds;
    assert IdSet(ids) == IdSet(db.queueIds) + {id};
    hide Spells, Distinct, Tickets, IdSet;
    SpelledQueue(db.(queueIds := ids, positionCache := cache, queueExpiry := expiry), q);
  }

  lemma PushSpelled(db: Redis, id: Id, e: int)
    requires Linked(db) && id !in IdSet(db.queueIds) && id !in db.storeIds
    ensures
      var n := |db.queueIds| + 1;
      var q := Abstract(db).queue + [Ticket(id, e, n)];
      && Spells(db.queueIds + [id], db.positionCache[id := n], db.queueExpiry[id := e], q)
      && Distinct(q) && forall i :: 0 <= i < |q| ==> q[i].id !in db.storeIds
  {
    IdSetMembers(db.queueIds);
    hide IdSet;
    var q := Abstract(db).queue;
    forall i | 0 <= i < |q| ensures q[i].id != id && Tracked(db, q[i].id) {
      assert q[i].id == db.queueIds[i] && db.queueIds[i] in IdSet(db.queueIds);
    }
  }

  lemma RefreshStored(was: Redis, op: Op)
    requires op.Position? && op.id in was.storeIds
    ensures Does(was, op, was.(storeExpiry := was.storeExpiry[op.id := op.time + op.validated]), Answer(1, 0))
  {
    if Linked(was) { IndexOfId(was, op.id); }
  }

  lemma RefreshQueued(was: Redis, op: Op)
    requires op.Position? && op.id !in was.storeIds && op.id in was.positionCache
    ensures Does(was, op, was.(queueExpiry := was.queueExpiry[op.id := op.time + op.validated]),
                 Answer(1, was.positionCache[op.id]))
  {
    hide Linked, Abstract, IdSet;
    if Linked(was) {
      KnownId(was, op.id);
      SetQueued(was, op.id, op.time + op.validated);
    }
  }

  lemma Absent(was: Redis, op: Op)
    requires op.Position? && op.id !in was.storeIds && op.id !in was.positionCache && !op.create
    ensures Does(was, op, was, Answer(0, 0))
  {
    if Linked(was) { IndexOfId(was, op.id); }
  }

  lemma EnterStore(was: Redis, op: Op, now: Redis)
    requires op.Position? && op.id !in was.storeIds && op.id !in was.positionCache && op.create
    requires Limit(was.capacity) < 0 || (was.queueIds == [] && |was.storeIds| < Limit(was.capacity))
    requires now == was.(storeIds := was.storeIds + {op.id},
                         storeExpiry := was.storeExpiry[op.id := op.time + op.validated])
    ensures Does(was, op, now, Answer(2, 0))
  {
    hide Linked, Step, IdSet;
    if Linked(was) {
      NewlySeen(was, op.id);
      EntersWhenRoom(Abstract(was), op);
      AddStored(was, op.id, op.time + op.validated);
    }
  }

  /** An id that has no place. */
  lemma NewlySeen(db: Redis, id: Id)
    requires Linked(db) && id !in db.storeIds && id !in db.positionCache
    ensures id !in IdSet(db.queueIds) && !Queued(Abstract(db).queue, id) && id !in Abstract(db).store
    ensures |Abstract(db).store| == |db.storeIds| && Abstract(db).capacity == Limit(db.capacity)
    ensures Abstract(db).queue == [] <==> db.queueIds == []
  {
    IndexOfId(db, id);
    assert id !in db.positionCache.Keys;
  }

  lemma EntersWhenRoom(r: Room, op: Op)
    requires op.Position? && op.create && op.id !in r.store && !Queued(r.queue, op.id)
    requires r.capacity < 0 || (r.queue == [] && |r.store| < r.capacity)
    ensures Step(TEXT, r, op) == (r.(store := r.store[op.id := op.time + op.validated]), Answer(2, 0))
  {
  }

  lemma JoinsWhenNoRoom(r: Room, op: Op, e: int)
    requires op.Position? && op.create && op.id !in r.store && !Queued(r.queue, op.id)
    requires r.capacity >= 0 && (r.queue != [] || |r.store| >= r.capacity)
    requires e == op.time + op.quarantine
    ensures Step(TEXT, r, op) == (r.(queue := r.queue + [Ticket(op.id, e, |r.queue| + 1)]), Answer(2, |r.queue| + 1))
  {
  }

  lemma JoinsAbstractly(was: Redis, op: Op, now: Redis, n: nat, e: int)
    requires op.Position? && op.id !in was.storeIds && op.id !in was.positionCache && op.create
    requires Limit(was.capacity) >= 0 && (was.queueIds != [] || |was.storeIds| >= Limit(was.capacity))
    requires Linked(was) && Linked(now) && n == |was.queueIds| + 1 && e == op.time + op.quarantine
    requires Abstract(now) == Abstract(was).(queue := Abstract(was).queue + [Ticket(op.id, e, n)])
    ensures Step(TEXT, Abstract(was), op) == (Abstract(now), Answer(2, n))
  {
    NewlySeen(was, op.id);
    JoinsWhenNoRoom(Abstract(was), op, e);
    hide Linked, Abstract, Step, Queued;
  }

  lemma JoinQueue(was: Redis, op: Op, now: Redis)
    requires op.Position? && op.id !in was.storeIds && op.id !in was.positionCache && op.create
    requires Limit(was.capacity) >= 0 && (was.queueIds != [] || |was.storeIds| >= Limit(was.capacity))
    requires
      var n := |was.queueIds| + 1;
      now == was.(queueIds := was.queueIds + [op.id], positionCache := was.positionCache[op.id := n],
                  queueExpiry := was.queueExpiry[op.id := op.time + op.quarantine])
    ensures Does(was, op, now, Answer(2, |was.queueIds| + 1))
  {
    hide Linked, Abstract, Step;
    if Linked(was) {
      var n, e := |was.queueIds| + 1, op.time + op.quarantine;
      NewlySeen(was, op.id);
      PushQueued(was, op.id, e);
      JoinsAbstractly(was, op, now, n, e);
    }
  }

  lemma TrackedId(db: Redis, id: Id)
    requires Linked(db) && id in IdSet(db.queueIds)
    ensures Tracked(db, id)
  {
    IdSetMembers(db.queueIds);
  }

  lemma RemainingTracked(db: Redis, id: Id, i: nat)
    requires Linked(db) && i < |RemoveAll(db.queueIds, id)|
    ensures RemoveAll(db.queueIds, id)[i] != id && Tracked(db, RemoveAll(db.queueIds, id)[i])
  {
    RemoveAllIds(db.queueIds, id);
    TrackedId(db, RemoveAll(db.queueIds, id)[i]);
  }

  lemma RemainingSpelled(db: Redis, id: Id)
    requires Linked(db)
    ensures
      var q := Filter(Abstract(db).queue, Other(id));
      && Spells(RemoveAll(db.queueIds, id), db.positionCache - {id}, db.queueExpiry - {id}, q)
      && Distinct(q) && forall i :: 0 <= i < |q| ==> q[i].id !in db.storeIds
  {
    var ids, q := RemoveAll(db.queueIds, id), Filter(Abstract(db).queue, Other(id));
    RemoveAllIsFilter(db.queueIds, id, db.positionCache, db.queueExpiry);
    assert q == Tickets(ids, db.positionCache, db.queueExpiry);
    assert Distinct(Abstract(db).queue);
    FilterDistinct(Abstract(db).queue, Other(id));
    hide Filter, RemoveAll, NoRepeats;
    forall i | 0 <= i < |ids| ensures Tracked(db, ids[i]) && ids[i] != id { RemainingTracked(db, id, i); }
  }

  /** Taking every trace of an id out of the queue. */
  lemma DropQueued(db: Redis, id: Id)
    requires Linked(db)
    ensures
      var now := db.(queueIds := RemoveAll(db.queueIds, id), positionCache := db.positionCache - {id},
                     queueExpiry := db.queueExpiry - {id});
      && Linked(now) && id !in IdSet(now.queueIds)
      && Abstract(now) == Abstract(db).(queue := Filter(Abstract(db).queue, Other(id)))
  {
    var ids, cache, expiry := RemoveAll(db.queueIds, id), db.positionCache - {id}, db.queueExpiry - {id};
    RemoveAllIds(db.queueIds, id);
    RemainingSpelled(db, id);
    hide Filter, RemoveAll, NoRepeats, Spells, Distinct, Tickets, IdSet;
    SpelledQueue(db.(queueIds := ids, positionCache := cache, queueExpiry := expiry), Filter(Abstract(db).queue, Other(id)));
  }

  /** SADD of an id that is not queued. */
  lemma AddStored(db: Redis, id: Id, e: int)
    requires Linked(db) && id !in IdSet(db.queueIds)
    ensures
      var now := db.(storeIds := db.storeIds + {id}, storeExpiry := db.storeExpiry[id := e]);
      Linked(now) && Abstract(now) == Abstract(db).(store := Abstract(db).store[id := e])
  {
  }

  lemma ForcePromotion(was: Redis, op: Op)
    requires op.Promote?
    ensures Does(was, op,
                 was.(queueIds := RemoveAll(was.queueIds, op.id), positionCache := was.positionCache - {op.id},
                      queueExpiry := was.queueExpiry - {op.id}, storeIds := was.storeIds + {op.id},
                      storeExpiry := was.storeExpiry[op.id := op.time + op.validated]), Done)
  {
    hide Linked, IdSet, RemoveAll, Tickets;
    if Linked(was) {
      DropQueued(was, op.id);
      var dropped := was.(queueIds := RemoveAll(was.queueIds, op.id), positionCache := was.positionCache - {op.id},
                          queueExpiry := was.queueExpiry - {op.id});
      AddStored(dropped, op.id, op.time + op.validated);
    }
  }

  lemma MarkRemoved(was: Redis, op: Op)
    requires op.Remove? && op.id in was.queueExpiry
    ensures Does(was, op, was.(queueExpiry := was.queueExpiry[op.id := op.time - 1]), Done)
  {
    hide Linked, Abstract, IdSet;
    if Linked(was) {
      KnownId(was, op.id);
      SetQueued(was, op.id, op.time - 1);
    }
  }

  lemma NotQueued(db: Redis, id: Id)
    requires Linked(db) && id !in db.queueExpiry
    ensures !Queued(Abstract(db).queue, id)
  {
    IndexOfId(db, id);
    assert id !in db.queueExpiry.Keys;
  }

  /** SREM of an id that is not queued. */
  lemma RemoveStored(db: Redis, id: Id)
    requires Linked(db)
    ensures
      var now := db.(storeExpiry := db.storeExpiry - {id}, storeIds := db.storeIds - {id});
      Linked(now) && Abstract(now) == Abstract(db).(store := Abstract(db).store - {id})
  {
    hide IdSet;
    var now := db.(storeExpiry := db.storeExpiry - {id}, storeIds := db.storeIds - {id});
    assert forall i :: 0 <= i < |db.queueIds| ==> Tracked(db, db.queueIds[i]) && Tracked(now, db.queueIds[i]);
    assert now.storeExpiry.Keys == now.storeIds;
  }

  lemma LeaveStore(was: Redis, op: Op)
    requires op.Remove? && op.id !in was.queueExpiry
    ensures Does(was, op, was.(storeExpiry := was.storeExpiry - {op.id}, storeIds := was.storeIds - {op.id}), Done)
  {
    hide Linked, Abstract, IdSet;
    if Linked(was) {
      NotQueued(was, op.id);
      RemoveStored(was, op.id);
    }
  }

  // ---------------------------------------------------------------- one turn of the sweep

  /** r is s without its element at index k. */
  ghost predicate WithoutAt<T>(s: seq<T>, k: nat, r: seq<T>) {
    k < |s| && |r| == |s| - 1 && forall i {:trigger r[i]} :: 0 <= i < |r| ==> r[i] == if i < k then s[i] else s[i + 1]
  }

  lemma OthersRemain(s: seq<Id>, k: nat, r: seq<Id>)
    requires WithoutAt(s, k, r) && s[k] !in r
    ensures IdSet(r) == IdSet(s) - {s[k]}
  {
    IdSetMembers(s);
    IdSetMembers(r);
    forall x | x in s && x != s[k] ensures x in r {
      var i :| 0 <= i < |s| && s[i] == x;
      assert x == if i < k then r[i] else r[i - 1];
    }
  }

  lemma SpellsWithoutAt(db: Redis, k: nat, ids: seq<Id>, rest: seq<Ticket>)
    requires Linked(db) && WithoutAt(db.queueIds, k, ids) && WithoutAt(Abstract(db).queue, k, rest)
    ensures Spells(ids, db.positionCache - {db.queueIds[k]}, db.queueExpiry - {db.queueIds[k]}, rest)
    ensures Distinct(rest) && db.queueIds[k] !in ids
    ensures forall i :: 0 <= i < |rest| ==> rest[i].id !in db.storeIds
  {
    var q := Abstract(db).queue;
    forall i | 0 <= i < |rest|
      ensures ids[i] == rest[i].id && ids[i] != db.queueIds[k] && ids[i] !in db.storeIds
    {
      assert q[if i < k then i else i + 1].id == db.queueIds[if i < k then i else i + 1];
    }
    forall i, j | 0 <= i < j < |rest| ensures rest[i].id != rest[j].id {
      assert ids[i] != ids[j];
    }
  }

  /** Taking out the id at index k, as the sweep does. */
  lemma DropAt(db: Redis, k: nat, ids: seq<Id>, rest: seq<Ticket>)
    requires Linked(db) && WithoutAt(db.queueIds, k, ids) && WithoutAt(Abstract(db).queue, k, rest)
    ensures
      var id := db.queueIds[k];
      var now := db.(queueIds := ids, positionCache := db.positionCache - {id}, queueExpiry := db.queueExpiry - {id});
      Linked(now) && Abstract(now) == Abstract(db).(queue := rest)
  {
    var id := db.queueIds[k];
    SpellsWithoutAt(db, k, ids, rest);
    OthersRemain(db.queueIds, k, ids);
    var now := db.(queueIds := ids, positionCache := db.positionCache - {id}, queueExpiry := db.queueExpiry - {id});
    SpelledQueue(now, rest);
  }

  /** Telling the id at index k a new position. */
  lemma Retell(db: Redis, k: nat, n: nat)
    requires Linked(db) && k < |db.queueIds|
    ensures
      var q := Abstract(db).queue;
      var now := db.(positionCache := db.positionCache[db.queueIds[k] := n]);
      Linked(now) && Abstract(now) == Abstract(db).(queue := q[k := q[k].(cached := n)])
  {
    var q := Abstract(db).queue;
    var now := db.(positionCache := db.positionCache[db.queueIds[k] := n]);
    assert now.positionCache.Keys == db.positionCache.Keys;
    assert Abstract(now).queue == q[k := q[k].(cached := n)];
  }

  /** Replacing or taking out the element between two sequences. */
  lemma Between<T>(a: seq<T>, y: T, b: seq<T>, x: T)
    ensures (a + ([y] + b))[|a| := x] == a + [x] + b
    ensures WithoutAt(a + ([y] + b), |a|, a + b)
  {
  }

  lemma SweepSnoc(o: Order, q: seq<Ticket>, t: int, i: nat)
    requires i < |q|
    ensures
      var done := SweepQueue(o, q[..i], t);
      SweepQueue(o, q[..i + 1], t)
      == done + (if Before(o, q[i].expiry, t) then [] else [q[i].(cached := |done| + 1)])
  {
    assert q[..i + 1][..i] == q[..i];
  }

  /** The state of the sweep at time t before turn i: the tickets before i are swept, of which
      `removed` are gone; those from i on are as they were. */
  ghost predicate Swept(was: Redis, t: int, i: nat, removed: nat, db: Redis) {
    Linked(was) && i <= |was.queueIds| ==>
      var q := Abstract(was).queue;
      && Linked(db)
      && |SweepQueue(TEXT, q[..i], t)| == i - removed
      && Abstract(db) == Abstract(was).(queue := SweepQueue(TEXT, q[..i], t) + q[i..])
  }

  /** What turn i of the sweep makes of the tickets, k of them being kept so far. */
  lemma TurnDrops(q: seq<Ticket>, t: int, i: nat, k: nat)
    requires i < |q| && |SweepQueue(TEXT, q[..i], t)| == k && Before(TEXT, q[i].expiry, t)
    ensures |SweepQueue(TEXT, q[..i + 1], t)| == k
    ensures WithoutAt(SweepQueue(TEXT, q[..i], t) + q[i..], k, SweepQueue(TEXT, q[..i + 1], t) + q[i + 1..])
  {
    SweepSnoc(TEXT, q, t, i);
    assert SweepQueue(TEXT, q[..i + 1], t) == SweepQueue(TEXT, q[..i], t);
    hide *;
    assert q[i..] == [q[i]] + q[i + 1..];
    Between(SweepQueue(TEXT, q[..i], t), q[i], q[i + 1..], q[i]);
  }

  lemma TurnKeeps(q: seq<Ticket>, t: int, i: nat, k: nat)
    requires i < |q| && |SweepQueue(TEXT, q[..i], t)| == k && !Before(TEXT, q[i].expiry, t)
    ensures |SweepQueue(TEXT, q[..i + 1], t)| == k + 1
    ensures SweepQueue(TEXT, q[..i + 1], t) + q[i + 1..]
            == (SweepQueue(TEXT, q[..i], t) + q[i..])[k := q[i].(cached := k + 1)]
  {
    SweepSnoc(TEXT, q, t, i);
    hide *;
    assert q[i..] == [q[i]] + q[i + 1..];
    Between(SweepQueue(TEXT, q[..i], t), q[i], q[i + 1..], q[i].(cached := k + 1));
  }

  lemma SweepDrops(was: Redis, t: int, i: nat, removed: nat, db: Redis)
    requires Swept(was, t, i, removed, db) && i < |was.queueIds|
    requires removed <= i && |db.queueIds| == |was.queueIds| - removed
    requires
      var id := db.queueIds[i - removed];
      id in db.queueExpiry && LuaLess(Decimal(db.queueExpiry[id]), Decimal(t))
    ensures
      var id := db.queueIds[i - removed];
      Swept(was, t, i + 1, removed + 1,
            db.(queueIds := RemoveFirst(db.queueIds, id), positionCache := db.positionCache - {id},
                queueExpiry := db.queueExpiry - {id}))
  {
    if Linked(was) {
      var q, k := Abstract(was).queue, i - removed;
      assert Abstract(db).queue[k] == q[i];
      TurnDrops(q, t, i, k);
      RemoveFirstAt(db.queueIds, k);
      DropAt(db, k, RemoveFirst(db.queueIds, db.queueIds[k]), SweepQueue(TEXT, q[..i + 1], t) + q[i + 1..]);
    }
  }

  lemma SweepKeeps(was: Redis, t: int, i: nat, removed: nat, db: Redis)
    requires Swept(was, t, i, removed, db) && i < |was.queueIds|
    requires removed <= i && |db.queueIds| == |was.queueIds| - removed
    requires
      var id := db.queueIds[i - removed];
      id in db.queueExpiry && !LuaLess(Decimal(db.queueExpiry[id]), Decimal(t))
    ensures
      var id := db.queueIds[i - removed];
      Swept(was, t, i + 1, removed, db.(positionCache := db.positionCache[id := i - removed + 1]))
  {
    if Linked(was) {
      var q, k := Abstract(was).queue, i - removed;
      assert Abstract(db).queue[k] == q[i];
      TurnKeeps(q, t, i, k);
      Retell(db, k, k + 1);
    }
  }

  lemma SweepStarts(was: Redis, t: int)
    ensures Swept(was, t, 0, 0, was)
  {
    if Linked(was) {
      var q := Abstract(was).queue;
      assert q[..0] == [] && q[0..] == q;
      assert SweepQueue(TEXT, q[..0], t) + q[0..] == q;
    }
  }

  /** Between these snapshots queue_timeout ran at time t: on linked structures it does not fail,
      leaves the order-preserving filter of the queue, renumbered, and counts what is gone. */
  ghost predicate SweepsQueue(was: Redis, t: int, db: Redis, failed: bool, removed: nat) {
    Linked(was) ==>
      var room := Abstract(was);
      && !failed && Linked(db)
      && Abstract(db) == room.(queue := SweepQueue(TEXT, room.queue, t))
      && removed == |was.queueIds| - |db.queueIds|
  }

  lemma SweepEnds(was: Redis, t: int, removed: nat, db: Redis)
    requires Swept(was, t, |was.queueIds|, removed, db)
    requires |db.queueIds| == |was.queueIds| - removed
    ensures SweepsQueue(was, t, db, false, removed)
  {
    if Linked(was) {
      var q := Abstract(was).queue;
      assert q[..|q|] == q && q[|q|..] == [];
    }
  }

  /** Only structures that were not linked make the sweep meet an id without an expiry. */
  lemma SweepFails(was: Redis, t: int, i: nat, removed: nat, db: Redis)
    requires Swept(was, t, i, removed, db) && i < |was.queueIds|
    requires removed <= i && |db.queueIds| == |was.queueIds| - removed
    requires db.queueIds[i - removed] !in db.queueExpiry
    ensures SweepsQueue(was, t, db, true, removed)
  {
  }

  // ---------------------------------------------------------------- the sweep of the store

  /** Between these snapshots store_timeout ran at time t. */
  ghost predicate SweepsStore(was: Redis, t: int, db: Redis, failed: bool, removed: nat) {
    Linked(was) ==>
      var room := Abstract(was);
      && !failed && Linked(db)
      && Abstract(db) == room.(store := SweepStore(TEXT, room.store, t))
      && removed == |was.storeIds| - |db.storeIds|
  }

  /** The ids of the store that the sweep at time t leaves when those in `rest` are still to be
      looked at. */
  ghost function Remaining(was: Redis, t: int, rest: set<Id>): set<Id> {
    set id | id in was.storeExpiry && (id in rest || !Before(TEXT, was.storeExpiry[id], t))
  }

  ghost predicate StoreSwept(was: Redis, t: int, rest: set<Id>, removed: nat, db: Redis) {
    Linked(was) ==>
      && rest <= was.storeIds
      && db.storeIds == Remaining(was, t, rest)
      && db.storeExpiry == (map id | id in Remaining(was, t, rest) :: was.storeExpiry[id])
      && db == was.(storeIds := db.storeIds, storeExpiry := db.storeExpiry)
      && removed + |db.storeIds| == |was.storeIds|
  }

  lemma StoreSweepStarts(was: Redis, t: int)
    ensures StoreSwept(was, t, was.storeIds, 0, was)
  {
    if Linked(was) { assert Remaining(was, t, was.storeIds) == was.storeIds; }
  }

  lemma StoreSweepEnds(was: Redis, t: int, removed: nat, db: Redis)
    requires StoreSwept(was, t, {}, removed, db)
    ensures SweepsStore(was, t, db, false, removed)
  {
    if Linked(was) {
      assert Linked(db);
      assert db.storeExpiry == SweepStore(TEXT, was.storeExpiry, t);
    }
  }

  lemma StoreSweepTurn(was: Redis, t: int, rest: set<Id>, id: Id, removed: nat, db: Redis, now: Redis)
    requires StoreSwept(was, t, rest, removed, db) && id in rest && id in db.storeExpiry
    requires now == if LuaLess(Decimal(db.storeExpiry[id]), Decimal(t))
                    then db.(storeExpiry := db.storeExpiry - {id}, storeIds := db.storeIds - {id}) else db
    ensures StoreSwept(was, t, rest - {id}, if now == db then removed else removed + 1, now)
  {
    if Linked(was) {
      assert id in Remaining(was, t, rest) && db.storeExpiry[id] == was.storeExpiry[id];
      if Before(TEXT, was.storeExpiry[id], t) {
        assert id in db.storeIds && now != db;
        assert Remaining(was, t, rest - {id}) == Remaining(was, t, rest) - {id};
      } else {
        assert Remaining(was, t, rest - {id}) == Remaining(was, t, rest);
      }
    }
  }

  lemma StoreSweepFails(was: Redis, t: int, rest: set<Id>, id: Id, removed: nat, db: Redis)
    requires StoreSwept(was, t, rest, removed, db) && id in rest && id !in db.storeExpiry
    ensures SweepsStore(was, t, db, true, removed)
  {
    assert id in was.storeExpiry ==> id in Remaining(was, t, rest);
  }

  // ---------------------------------------------------------------- promotion

  /** Between these snapshots store_promote ran: the first of the queue went to the store, as
      many as it had room for, with their expiry. */
  ghost predicate PromotesFront(was: Redis, db: Redis, failed: bool, moved: nat) {
    Linked(was) ==>
      var room := Abstract(was);
      var n := Min(|room.queue|, Vacancies(room.capacity, |room.store|));
      && !failed && Linked(db) && moved == n
      && Abstract(db) == Room(room.queue[n..], Admit(room.store, room.queue[..n]), room.capacity)
  }

  /** The hand-over of expiry times, `done` being the ids already dealt with. */
  ghost predicate HandedOver(was: Redis, done: set<Id>, queueExpiry: map<Id, int>, storeExpiry: map<Id, int>) {
    && done <= was.queueExpiry.Keys
    && queueExpiry == was.queueExpiry - done
    && storeExpiry == was.storeExpiry + (map id | id in done :: was.queueExpiry[id])
  }

  lemma HandedOverKeys(was: Redis, done: set<Id>, queueExpiry: map<Id, int>, storeExpiry: map<Id, int>)
    requires HandedOver(was, done, queueExpiry, storeExpiry)
    ensures storeExpiry.Keys == was.storeExpiry.Keys + done
  {
  }

  /** The indices of n popped ids. */
  function Indices(n: nat): (s: set<int>)
    ensures |s| == n && forall i :: i in s <==> 0 <= i < n
  {
    if n == 0 then {} else Indices(n - 1) + {n - 1}
  }

  lemma HandOverTurn(was: Redis, done: set<Id>, id: Id, queueExpiry: map<Id, int>, storeExpiry: map<Id, int>)
    requires HandedOver(was, done, queueExpiry, storeExpiry) && id in queueExpiry
    ensures HandedOver(was, done + {id}, queueExpiry - {id}, storeExpiry[id := queueExpiry[id]])
  {
  }

  /** The indices not yet walked are those of the ids not yet dealt with. */
  ghost predicate StillToDo(ids: seq<Id>, pending: set<int>, done: set<Id>) {
    && done <= IdSet(ids)
    && forall i :: 0 <= i < |ids| ==> (i in pending <==> ids[i] !in done)
  }

  lemma StillToDoTurn(ids: seq<Id>, pending: set<int>, done: set<Id>, i: int)
    requires NoRepeats(ids)
    requires StillToDo(ids, pending, done) && 0 <= i < |ids|
    ensures StillToDo(ids, pending - {i}, done + {ids[i]})
  {
    IdSetMembers(ids);
  }

  lemma NothingToDo(ids: seq<Id>, done: set<Id>)
    requires StillToDo(ids, {}, done)
    ensures done == IdSet(ids)
  {
    IdSetMembers(ids);
  }

  /** On linked structures the hand-over finds an expiry for every id it has still to walk. */
  ghost predicate HandingOver(was: Redis, ids: seq<Id>, pending: set<int>, done: set<Id>,
                              queueExpiry: map<Id, int>, storeExpiry: map<Id, int>) {
    Linked(was) ==>
      && HandedOver(was, done, queueExpiry, storeExpiry)
      && StillToDo(ids, pending, done)
  }

  lemma HandOverStarts(was: Redis, ids: seq<Id>, pending: set<int>)
    requires |ids| <= |was.queueIds| && ids == was.queueIds[..|ids|]
    requires pending == Indices(|ids|)
    ensures HandingOver(was, ids, pending, {}, was.queueExpiry, was.storeExpiry)
  {
    if Linked(was) {
      assert was.queueExpiry - {} == was.queueExpiry;
      assert was.storeExpiry + map[] == was.storeExpiry;
    }
  }

  lemma HandOverGoesOn(was: Redis, ids: seq<Id>, pending: set<int>, done: set<Id>, i: int,
                       queueExpiry: map<Id, int>, storeExpiry: map<Id, int>)
    requires |ids| <= |was.queueIds| && ids == was.queueIds[..|ids|]
    requires HandingOver(was, ids, pending, done, queueExpiry, storeExpiry)
    requires 0 <= i < |ids| && ids[i] in queueExpiry
    ensures HandingOver(was, ids, pending - {i}, done + {ids[i]}, queueExpiry - {ids[i]},
                        storeExpiry[ids[i] := queueExpiry[ids[i]]])
  {
    if Linked(was) {
      HandOverTurn(was, done, ids[i], queueExpiry, storeExpiry);
      StillToDoTurn(ids, pending, done, i);
    }
  }

  lemma HandOverFindsExpiry(was: Redis, ids: seq<Id>, pending: set<int>, done: set<Id>, i: int,
                            queueExpiry: map<Id, int>, storeExpiry: map<Id, int>)
    requires |ids| <= |was.queueIds| && ids == was.queueIds[..|ids|]
    requires HandingOver(was, ids, pending, done, queueExpiry, storeExpiry)
    requires 0 <= i < |ids| && i in pending
    ensures Linked(was) ==> ids[i] in queueExpiry
  {
    if Linked(was) { assert ids[i] == was.queueIds[i]; }
  }

  lemma HandOverEnds(was: Redis, ids: seq<Id>, done: set<Id>, queueExpiry: map<Id, int>, storeExpiry: map<Id, int>)
    requires HandingOver(was, ids, {}, done, queueExpiry, storeExpiry)
    ensures Linked(was) ==> HandedOver(was, IdSet(ids), queueExpiry, storeExpiry)
  {
    if Linked(was) { NothingToDo(ids, done); }
  }

  lemma SplitIds(ids: seq<Id>, n: nat)
    requires n <= |ids| && NoRepeats(ids)
    ensures IdSet(ids[n..]) == IdSet(ids) - IdSet(ids[..n])
  {
    IdSetMembers(ids);
    IdSetMembers(ids[..n]);
    IdSetMembers(ids[n..]);
    hide IdSet;
    forall id ensures id in IdSet(ids[n..]) <==> id in IdSet(ids) && id !in IdSet(ids[..n]) {
      if i :| 0 <= i < |ids| - n && ids[n..][i] == id { assert ids[n + i] == id; }
      if i :| 0 <= i < |ids| && ids[i] == id { assert if i < n then ids[..n][i] == id else ids[n..][i - n] == id; }
    }
  }

  lemma LaterIdsDiffer(ids: seq<Id>, n: nat, i: nat)
    requires n <= i < |ids| && NoRepeats(ids)
    ensures ids[i] !in IdSet(ids[..n])
  {
    IdSetMembers(ids[..n]);
    forall j | 0 <= j < n ensures ids[..n][j] != ids[i] {}
  }

  /** What is left of the queue once its first n ids are popped. */
  lemma RestOfQueue(was: Redis, n: nat, db: Redis, gone: set<Id>)
    requires Linked(was) && n <= |was.queueIds| && gone == IdSet(was.queueIds[..n])
    requires db.queueIds == was.queueIds[n..]
    requires db.positionCache == was.positionCache - gone && db.queueExpiry == was.queueExpiry - gone
    requires db.storeIds == was.storeIds + gone && db.storeExpiry.Keys == db.storeIds
    ensures Linked(db) && Abstract(db).queue == Abstract(was).queue[n..]
  {
    var ids, rest := was.queueIds, Abstract(was).queue[n..];
    SplitIds(ids, n);
    forall i | 0 <= i < |rest|
      ensures db.queueIds[i] == ids[n + i] == rest[i].id && rest[i] == Abstract(was).queue[n + i]
      ensures ids[n + i] !in gone
    {
      LaterIdsDiffer(ids, n, n + i);
    }
    assert Spells(db.queueIds, db.positionCache, db.queueExpiry, rest);
    SpelledQueue(db, rest);
  }

  lemma TakenIds(was: Redis, n: nat, id: Id)
    requires Linked(was) && n <= |was.queueIds|
    ensures id in IdSet(was.queueIds[..n]) <==> Queued(Abstract(was).queue[..n], id)
  {
    var ids, taken := was.queueIds[..n], Abstract(was).queue[..n];
    IdSetMembers(ids);
    QueuedAt(taken, id);
    assert forall i :: 0 <= i < n ==> taken[i].id == ids[i];
    if id in ids {
      var i :| 0 <= i < n && ids[i] == id;
      assert taken[i].id == id;
    }
  }

  lemma TakenEntry(was: Redis, n: nat, id: Id)
    requires Linked(was) && n <= |was.queueIds| && Queued(Abstract(was).queue[..n], id)
    requires id in was.queueExpiry
    ensures
      var store := Admit(was.storeExpiry, Abstract(was).queue[..n]);
      id in store && store[id] == was.queueExpiry[id]
  {
    var taken := Abstract(was).queue[..n];
    AdmitEntries(was.storeExpiry, taken);
    var i := IndexOf(taken, id);
    assert taken[i] == Abstract(was).queue[i] && taken[i].id == id;
  }

  lemma OldEntry(was: Redis, n: nat, id: Id)
    requires Linked(was) && n <= |was.queueIds| && id in was.storeExpiry
    ensures
      var store := Admit(was.storeExpiry, Abstract(was).queue[..n]);
      id in store && store[id] == was.storeExpiry[id]
  {
    AdmitEntries(was.storeExpiry, Abstract(was).queue[..n]);
  }

  lemma AdmittedIds(was: Redis, n: nat, id: Id)
    requires Linked(was) && n <= |was.queueIds|
    ensures id in Admit(was.storeExpiry, Abstract(was).queue[..n]) <==>
            id in was.storeExpiry || id in IdSet(was.queueIds[..n])
  {
    AdmitKeys(was.storeExpiry, Abstract(was).queue[..n]);
    TakenIds(was, n, id);
  }

  lemma AdmittedEntry(was: Redis, n: nat, storeExpiry: map<Id, int>, id: Id)
    requires Linked(was) && n <= |was.queueIds| && id in storeExpiry
    requires HandedOver(was, IdSet(was.queueIds[..n]), was.queueExpiry - IdSet(was.queueIds[..n]), storeExpiry)
    ensures
      var store := Admit(was.storeExpiry, Abstract(was).queue[..n]);
      id in store && store[id] == storeExpiry[id]
  {
    assert n <= |Abstract(was).queue|;
    hide Linked, Abstract, Admit, Queued, IdSet;
    TakenIds(was, n, id);
    if Queued(Abstract(was).queue[..n], id) { TakenEntry(was, n, id); } else { OldEntry(was, n, id); }
  }

  /** The store that gets the first n ids of the queue, expiry times included. */
  lemma AdmittedStore(was: Redis, n: nat, storeExpiry: map<Id, int>)
    requires Linked(was) && n <= |was.queueIds|
    requires HandedOver(was, IdSet(was.queueIds[..n]), was.queueExpiry - IdSet(was.queueIds[..n]), storeExpiry)
    ensures storeExpiry == Admit(was.storeExpiry, Abstract(was).queue[..n])
  {
    assert n <= |Abstract(was).queue|;
    hide Linked, Abstract, Admit, Queued, IdSet;
    var done := IdSet(was.queueIds[..n]);
    HandedOverKeys(was, done, was.queueExpiry - done, storeExpiry);
    forall id ensures id in Admit(was.storeExpiry, Abstract(was).queue[..n]) <==> id in storeExpiry.Keys {
      AdmittedIds(was, n, id);
    }
    hide HandedOver;
    forall id | id in storeExpiry ensures storeExpiry[id] == Admit(was.storeExpiry, Abstract(was).queue[..n])[id] {
      AdmittedEntry(was, n, storeExpiry, id);
    }
  }

  lemma PromotedRoom(was: Redis, n: nat, db: Redis, failed: bool)
    requires n == Min(|was.queueIds|, Vacancies(Limit(was.capacity), |was.storeIds|)) && !failed
    requires Linked(was) && Linked(db) && db.capacity == was.capacity
    requires Abstract(db).queue == Abstract(was).queue[n..]
    requires db.storeExpiry == Admit(was.storeExpiry, Abstract(was).queue[..n])
    ensures PromotesFront(was, db, failed, n)
  {
    assert |was.storeExpiry.Keys| == |was.storeIds|;
  }

  lemma PromotionEnds(was: Redis, n: nat, db: Redis, failed: bool, moved: nat)
    requires n == Min(|was.queueIds|, Vacancies(Limit(was.capacity), |was.storeIds|))
    requires db.queueIds == was.queueIds[n..] && db.capacity == was.capacity
    requires db.positionCache == was.positionCache - IdSet(was.queueIds[..n])
    requires db.storeIds == was.storeIds + IdSet(was.queueIds[..n])
    requires Linked(was) ==> !failed && HandedOver(was, IdSet(was.queueIds[..n]), db.queueExpiry, db.storeExpiry)
    requires !failed ==> moved == n
    ensures PromotesFront(was, db, failed, moved)
  {
    if Linked(was) {
      HandedOverKeys(was, IdSet(was.queueIds[..n]), db.queueExpiry, db.storeExpiry);
      hide IdSet, NoRepeats, Tracked, Abstract;
      RestOfQueue(was, n, db, IdSet(was.queueIds[..n]));
      AdmittedStore(was, n, db.storeExpiry);
      PromotedRoom(was, n, db, failed);
    }
  }

  lemma NothingHandedOver(was: Redis, db: Redis)
    requires db.queueExpiry == was.queueExpiry && db.storeExpiry == was.storeExpiry
    ensures HandedOver(was, IdSet([]), db.queueExpiry, db.storeExpiry)
  {
    assert was.queueExpiry - {} == was.queueExpiry;
  }

  // ---------------------------------------------------------------- the rotation

  /** The three scripts of the transaction, one after the other, do the rotation. */
  lemma RotationComposes(was: Redis, t: int, swept: Redis, renumbered: Redis, now: Redis,
                         failed: (bool, bool, bool), counts: QueueRotate)
    requires SweepsStore(was, t, swept, failed.0, counts.storeExpired)
    requires SweepsQueue(swept, t, renumbered, failed.1, counts.queueExpired)
    requires PromotesFront(renumbered, now, failed.2, counts.promoted)
    ensures Does(was, Rotate(t), now, Rotated(counts))
    ensures Linked(was) ==> failed == (false, false, false)
  {
    if Linked(was) {
      assert Abstract(was).store.Keys == was.storeIds;
      assert Abstract(swept).store.Keys == swept.storeIds;
      RotateParts(TEXT, Abstract(was), t, Abstract(now), counts);
    }
  }

  lemma RotateParts(o: Order, r: Room, t: int, now: Room, counts: QueueRotate)
    requires
      var queue, store := SweepQueue(o, r.queue, t), SweepStore(o, r.store, t);
      var n := Min(|queue|, Vacancies(r.capacity, |store|));
      && now == Room(queue[n..], Admit(store, queue[..n]), r.capacity)
      && counts.promoted == n && counts.queueExpired == |r.queue| - |queue|
      && counts.storeExpired == |r.store| - |store|
    ensures Step(o, r, Rotate(t)) == (now, Rotated(counts))
  {
    assert Promoted(o, r, t) == counts.promoted;
  }

  lemma CapacityWrite(was: Redis, op: Op)
    requires op.SetCapacity?
    ensures Does(was, op, was.(capacity := Some(ToIsize(op.capacity))), Done)
  {
  }

  // ---------------------------------------------------------------- runs

  /** The structures have followed the waiting room through these requests. */
  ghost predicate Follows(was: Redis, ops: seq<Op>, db: Redis, failed: bool, replies: seq<Reply>) {
    Linked(was) ==>
      && !failed && Linked(db)
      && Abstract(db) == Run(TEXT, Abstract(was), ops)
      && replies == Replies(TEXT, Abstract(was), ops)
  }

  lemma FollowsOn(was: Redis, ops: seq<Op>, k: nat, db: Redis, failed: bool, replies: seq<Reply>,
                  now: Redis, broken: bool, reply: Reply)
    requires k < |ops| && Follows(was, ops[..k], db, failed, replies)
    requires Does(db, ops[k], now, reply) && (Linked(db) ==> !broken)
    ensures Follows(was, ops[..k + 1], now, failed || broken, replies + [reply])
  {
    hide Linked, Abstract, Step;
    assert ops[..k + 1][..k] == ops[..k];
  }
}
