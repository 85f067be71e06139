/**
 Guarantees of the waiting room over whole runs: first come first served, bounded waiting,
 store size, and what ids are told about their place.
 */
module RoomRuns {
  import opened QueueModels
  import opened WaitingRoom
  import opened RoomInvariants

  /** The room after the first k steps. */
  function After(o: Order, r: Room, ops: seq<Op>, k: nat): Room
    requires k <= |ops|
  {
    Run(o, r, ops[..k])
  }

  lemma AfterPrefix(o: Order, r: Room, ops: seq<Op>, k: nat)
    requires ops != [] && k < |ops|
    ensures After(o, r, ops[..|ops| - 1], k) == After(o, r, ops, k)
  {
    assert ops[..|ops| - 1][..k] == ops[..k];
  }

  lemma AfterAll(o: Order, r: Room, ops: seq<Op>)
    ensures After(o, r, ops, |ops|) == Run(o, r, ops)
  {
    assert ops[..|ops|] == ops;
  }

  /** A run of no request changes nothing, a run of one is its step, and runs put end to end are one
      run. */
  lemma {:induction false} RunsCompose(o: Order, r: Room, ops: seq<Op>, more: seq<Op>)
    ensures Run(o, r, []) == r
    ensures |more| == 1 ==> Run(o, r, more) == Step(o, r, more[0]).0
    ensures Run(o, r, ops + more) == Run(o, Run(o, r, ops), more)
    decreases |more|
  {
    hide Step;
    if more == [] {
      assert ops + more == ops;
    } else {
      var n := |more| - 1;
      RunsCompose(o, r, ops, more[..n]);
      assert (ops + more)[..|ops| + n] == ops + more[..n];
    }
  }

  /** The capacity of a run is the one last written, or the one it began with. */
  lemma {:induction false} RunCapacity(o: Order, r: Room, ops: seq<Op>, k: int)
    requires -1 <= k < |ops| && (k >= 0 ==> ops[k].SetCapacity?)
    requires forall i :: k < i < |ops| ==> !ops[i].SetCapacity?
    ensures Run(o, r, ops).capacity == if k >= 0 then ToIsize(ops[k].capacity) else r.capacity
    decreases |ops|
  {
    hide Step;
    if ops != [] {
      var n := |ops| - 1;
      StepCapacity(o, Run(o, r, ops[..n]), ops[n]);
      if k < n { RunCapacity(o, r, ops[..n], k); }
    }
  }

  // ---------------------------------------------------------------- the place of one id

  /** An id that stays keeps or improves its place, and so does the position it is told. */
  lemma StayerLands(o: Order, r: Room, op: Op, id: Id)
    requires WellFormed(r) && Queued(r.queue, id) && Queued(Step(o, r, op).0.queue, id)
    ensures
      var i, k := IndexOf(r.queue, id), IndexOf(Step(o, r, op).0.queue, id);
      && k == Landing(o, r, op, i) && k <= i
      && Step(o, r, op).0.queue[k].cached <= r.queue[i].cached
      && (Step(o, r, op).0.queue[k].expiry == r.queue[i].expiry || ((op.Position? || op.Remove?) && op.id == id))
  {
    var k := IndexOf(Step(o, r, op).0.queue, id);
    var i := StepSource(o, r, op, k);
    if i < |r.queue| { IndexOfAt(r.queue, i); }
  }

  lemma UnexpiredAfterRotation(o: Order, r: Room, t: int, id: Id)
    requires WellFormed(r) && Queued(r.queue, id)
    requires !Before(o, r.queue[IndexOf(r.queue, id)].expiry, t)
    ensures Queued(RotateStep(o, r, t).0.queue, id) || id in RotateStep(o, r, t).0.store
  {
    var i, n := IndexOf(r.queue, id), Promoted(o, r, t);
    var k := |Filter(r.queue[..i], Unexpired(o, t))|;
    FilterKeeps(r.queue, Unexpired(o, t), i);
    assert Waiting(o, r, t)[k].id == id;
    if k < n {
      RotatedStore(o, r, t);
    } else {
      var queue := RotateStep(o, r, t).0.queue;
      assert queue[k - n].id == id;
    }
  }

  /** An id that leaves the queue is in the store, unless a rotation found it expired. */
  lemma LeaverGoesToStore(o: Order, r: Room, op: Op, id: Id)
    requires WellFormed(r) && Queued(r.queue, id)
    ensures
      || Queued(Step(o, r, op).0.queue, id)
      || id in Step(o, r, op).0.store
      || (op.Rotate? && Before(o, r.queue[IndexOf(r.queue, id)].expiry, op.time))
  {
    var i := IndexOf(r.queue, id);
    if op.Rotate? {
      if !Before(o, r.queue[i].expiry, op.time) { UnexpiredAfterRotation(o, r, op.time, id); }
    } else if op.Promote? {
      if op.id != id { FilterKeeps(r.queue, Other(op.id), i); }
    } else {
      assert Step(o, r, op).0.queue[i].id == id;
    }
  }

  ghost predicate AheadOf(r: Room, a: Id, b: Id) {
    Queued(r.queue, a) && Queued(r.queue, b) && IndexOf(r.queue, a) < IndexOf(r.queue, b)
  }

  lemma AheadDiffer(r: Room, a: Id, b: Id)
    requires AheadOf(r, a, b)
    ensures a != b
  {
  }

  lemma AheadFrom(r: Room, a: Id, b: Id)
    requires Queued(r.queue, a) && Queued(r.queue, b) && a != b && IndexOf(r.queue, a) <= IndexOf(r.queue, b)
    ensures AheadOf(r, a, b)
  {
    assert r.queue[IndexOf(r.queue, a)].id == a && r.queue[IndexOf(r.queue, b)].id == b;
  }

  /** Ids that stay keep their relative order. */
  lemma StayersKeepOrder(o: Order, r: Room, op: Op, a: Id, b: Id)
    requires WellFormed(r) && AheadOf(r, a, b)
    requires Queued(Step(o, r, op).0.queue, a) && Queued(Step(o, r, op).0.queue, b)
    ensures AheadOf(Step(o, r, op).0, a, b)
  {
    StayerLands(o, r, op, a);
    StayerLands(o, r, op, b);
    LandingMonotone(o, r, op, IndexOf(r.queue, a), IndexOf(r.queue, b));
    AheadDiffer(r, a, b);
    AheadFrom(Step(o, r, op).0, a, b);
  }

  lemma RotationTakesFromTheFront(o: Order, r: Room, t: int, a: Id, b: Id)
    requires WellFormed(r) && AheadOf(r, a, b)
    requires b in RotateStep(o, r, t).0.store
    ensures !Queued(RotateStep(o, r, t).0.queue, a)
  {
    var taken := SweepQueue(o, r.queue, t)[..Promoted(o, r, t)];
    assert b !in r.store by { assert r.queue[IndexOf(r.queue, b)].id == b; }
    AdmitKeys(SweepStore(o, r.store, t), taken);
    var j := PromotedSource(o, r, t, IndexOf(taken, b));
    IndexOfAt(r.queue, j);
    if Queued(RotateStep(o, r, t).0.queue, a) {
      StayerLands(o, r, Rotate(t), a);
      FilterMonotone(r.queue, Unexpired(o, t), IndexOf(r.queue, a), j);
    }
  }

  /** Nobody is overtaken: unless b itself is promoted by hand, a step that takes b from the
      queue into the store takes everyone ahead of b out of the queue too. */
  lemma NoOvertaking(o: Order, r: Room, op: Op, a: Id, b: Id)
    requires WellFormed(r) && AheadOf(r, a, b)
    requires !(op.Promote? && op.id == b)
    requires b in Step(o, r, op).0.store
    ensures !Queued(Step(o, r, op).0.queue, a)
  {
    assert b !in r.store by { assert r.queue[IndexOf(r.queue, b)].id == b; }
    if op.Rotate? { RotationTakesFromTheFront(o, r, op.time, a, b); }
  }

  // ---------------------------------------------------------------- first come, first served

  /** Whether every capacity set during the run is a limit (and fits the stored word). */
  ghost predicate Limited(ops: seq<Op>) {
    forall k :: 0 <= k < |ops| && ops[k].SetCapacity? ==> ToIsize(ops[k].capacity) >= 0
  }

  ghost predicate NotPromotedByHand(ops: seq<Op>, id: Id) {
    forall k :: 0 <= k < |ops| && ops[k].Promote? ==> ops[k].id != id
  }

  /** b has not got ahead of a, who waits. */
  ghost predicate Behind(r: Room, a: Id, b: Id) {
    Queued(r.queue, a) && b !in r.store && (Queued(r.queue, b) ==> AheadOf(r, a, b))
  }

  lemma StepKeepsBehind(o: Order, r: Room, op: Op, a: Id, b: Id)
    requires WellFormed(r) && Behind(r, a, b) && r.capacity >= 0
    requires !(op.Promote? && op.id == b)
    requires Queued(Step(o, r, op).0.queue, a)
    ensures Behind(Step(o, r, op).0, a, b)
  {
    var room := Step(o, r, op).0;
    StayerLands(o, r, op, a);
    if Queued(r.queue, b) {
      if b in room.store { NoOvertaking(o, r, op, a, b); }
      if Queued(room.queue, b) { StayersKeepOrder(o, r, op, a, b); }
    } else {
      NewcomerKeepsBehind(o, r, op, a, b);
    }
  }

  lemma NewcomerKeepsBehind(o: Order, r: Room, op: Op, a: Id, b: Id)
    requires WellFormed(r) && Behind(r, a, b) && r.capacity >= 0 && !Queued(r.queue, b)
    requires !(op.Promote? && op.id == b)
    requires Queued(Step(o, r, op).0.queue, a)
    ensures Behind(Step(o, r, op).0, a, b)
  {
    var room := Step(o, r, op).0;
    if b in room.store && op.Rotate? {
      var taken := SweepQueue(o, r.queue, op.time)[..Promoted(o, r, op.time)];
      AdmitKeys(SweepStore(o, r.store, op.time), taken);
      var j := PromotedSource(o, r, op.time, IndexOf(taken, b));
    }
    if Queued(room.queue, b) {
      StayerLands(o, r, op, a);
      var i := StepSource(o, r, op, IndexOf(room.queue, b));
      assert i == |r.queue|;
    }
  }

  /** First come, first served.  As long as a waits, nobody behind a, and nobody who comes
      later, is let into the store, unless by id_promote; times may be in any order. */
  lemma {:induction false} FirstComeFirstServed(o: Order, r: Room, ops: seq<Op>, a: Id, b: Id)
    requires WellFormed(r) && Behind(r, a, b)
    requires r.capacity >= 0 && Limited(ops) && NotPromotedByHand(ops, b)
    requires forall k :: 0 <= k <= |ops| ==> Queued(After(o, r, ops, k).queue, a)
    ensures Behind(Run(o, r, ops), a, b) && Run(o, r, ops).capacity >= 0
    decreases |ops|
  {
    hide Step, WellFormed, Behind, Queued;
    if ops != [] {
      var before := ops[..|ops| - 1];
      forall k | 0 <= k <= |before| ensures Queued(After(o, r, before, k).queue, a) {
        AfterPrefix(o, r, ops, k);
      }
      FirstComeFirstServed(o, r, before, a, b);
      RunKeepsWellFormed(o, r, before);
      AfterAll(o, r, ops);
      assert Queued(After(o, r, ops, |ops|).queue, a);
      StepKeepsBehind(o, Run(o, r, before), ops[|ops| - 1], a, b);
      StepCapacity(o, Run(o, r, before), ops[|ops| - 1]);
    }
  }

  lemma StepCapacity(o: Order, r: Room, op: Op)
    ensures Step(o, r, op).0.capacity == if op.SetCapacity? then ToIsize(op.capacity) else r.capacity
  {
  }

  /** Without a limit the guarantee fails: while a waits, a newcomer is let into the store exactly
      if the capacity is negative. */
  lemma NewcomerOvertakesIff(o: Order, r: Room, op: Op, a: Id)
    requires WellFormed(r) && Queued(r.queue, a)
    requires op.Position? && op.create && op.id !in r.store && !Queued(r.queue, op.id)
    ensures !Behind(Step(o, r, op).0, a, op.id) <==> r.capacity < 0
  {
    var room := Step(o, r, op).0;
    if r.capacity >= 0 {
      assert room.queue[IndexOf(r.queue, a)].id == a;
      QueuedAt(room.queue, a);
      StepKeepsBehind(o, r, op, a, op.id);
    }
  }

  lemma UnlimitedNewcomerOvertakes(o: Order)
    ensures
      var r := Room([Ticket("a", 10, 1)], map[], -1);
      var op := Position("b", 0, 5, 5, true);
      WellFormed(r) && Behind(r, "a", "b") && !Behind(Step(o, r, op).0, "a", "b")
  {
    var r := Room([Ticket("a", 10, 1)], map[], -1);
    assert IndexOf(r.queue, "b") == IndexFrom(r.queue, "b", 1) == 1;
    NewcomerOvertakesIff(o, r, Position("b", 0, 5, 5, true), "a");
  }

  // ---------------------------------------------------------------- bounded waiting

  function Expired(o: Order, t: int): Ticket -> bool {
    (x: Ticket) => Before(o, x.expiry, t)
  }

  lemma {:induction false} FilterPartition(o: Order, q: seq<Ticket>, t: int)
    ensures |Filter(q, Expired(o, t))| + |Filter(q, Unexpired(o, t))| == |q|
    decreases |q|
  {
    if q != [] { FilterPartition(o, q[..|q| - 1], t); }
  }

  /** A rotation moves an id up by the number expired ahead of it plus the number promoted. */
  lemma RotationMovesUp(o: Order, r: Room, t: int, id: Id)
    requires WellFormed(r) && Queued(r.queue, id) && Queued(RotateStep(o, r, t).0.queue, id)
    ensures
      var i := IndexOf(r.queue, id);
      IndexOf(RotateStep(o, r, t).0.queue, id)
      == i - |Filter(r.queue[..i], Expired(o, t))| - RotateStep(o, r, t).1.promoted
  {
    StayerLands(o, r, Rotate(t), id);
    FilterPartition(o, r.queue[..IndexOf(r.queue, id)], t);
  }

  /** Whether a step is a rotation that finds room in the store. */
  predicate Roomy(o: Order, r: Room, op: Op) {
    op.Rotate? && |SweepStore(o, r.store, op.time)| < r.capacity
  }

  function RoomyRotations(o: Order, r: Room, ops: seq<Op>): nat {
    if ops == [] then 0
    else
      RoomyRotations(o, r, ops[..|ops| - 1])
      + (if Roomy(o, Run(o, r, ops[..|ops| - 1]), ops[|ops| - 1]) then 1 else 0)
  }

  /** No rotation of the run finds the id expired in the queue. */
  ghost predicate KeptAlive(o: Order, r: Room, ops: seq<Op>, id: Id) {
    forall k :: 0 <= k < |ops| ==> Alive(o, After(o, r, ops, k), ops[k], id)
  }

  ghost predicate Alive(o: Order, r: Room, op: Op, id: Id) {
    op.Rotate? && Queued(r.queue, id) ==> !Before(o, r.queue[IndexOf(r.queue, id)].expiry, op.time)
  }

  lemma StepProgress(o: Order, r: Room, op: Op, id: Id)
    requires WellFormed(r) && Queued(r.queue, id) && Queued(Step(o, r, op).0.queue, id)
    ensures IndexOf(Step(o, r, op).0.queue, id) + (if Roomy(o, r, op) then 1 else 0) <= IndexOf(r.queue, id)
  {
    StayerLands(o, r, op, id);
    if Roomy(o, r, op) { FilterPartition(o, r.queue[..IndexOf(r.queue, id)], op.time); }
  }

  lemma {:induction false} WaitProgress(o: Order, r: Room, ops: seq<Op>, id: Id) returns (k: nat)
    requires WellFormed(r) && Queued(r.queue, id) && KeptAlive(o, r, ops, id)
    ensures k <= |ops|
    ensures
      || id in After(o, r, ops, k).store
      || (&& Queued(Run(o, r, ops).queue, id)
          && IndexOf(Run(o, r, ops).queue, id) + RoomyRotations(o, r, ops) <= IndexOf(r.queue, id))
    decreases |ops|
  {
    hide Step, WellFormed, IndexOf, Roomy;
    k := 0;
    if ops != [] {
      var before, op := ops[..|ops| - 1], ops[|ops| - 1];
      forall k | 0 <= k < |before| ensures Alive(o, After(o, r, before, k), before[k], id) {
        AfterPrefix(o, r, ops, k);
        assert Alive(o, After(o, r, ops, k), ops[k], id);
      }
      k := WaitProgress(o, r, before, id);
      assert before[..k] == ops[..k];
      if id !in After(o, r, ops, k).store {
        var room := Run(o, r, before);
        RunKeepsWellFormed(o, r, before);
        assert Alive(o, After(o, r, ops, |before|), op, id);
        if Queued(Step(o, room, op).0.queue, id) {
          StepProgress(o, room, op, id);
        } else {
          LeaverGoesToStore(o, room, op, id);
          k := |ops|;
          AfterAll(o, r, ops);
        }
      }
    }
  }

  /** Bounded waiting.  An id at 1-based position p that no rotation finds expired is in the
      store at some point of every run with at least p rotations that find room. */
  lemma BoundedWait(o: Order, r: Room, ops: seq<Op>, id: Id) returns (k: nat)
    requires WellFormed(r) && Queued(r.queue, id) && KeptAlive(o, r, ops, id)
    requires RoomyRotations(o, r, ops) >= IndexOf(r.queue, id) + 1
    ensures k <= |ops| && id in After(o, r, ops, k).store
  {
    k := WaitProgress(o, r, ops, id);
  }

  // ---------------------------------------------------------------- store size

  function Max(a: int, b: int): int {
    if a >= b then a else b
  }

  /** A step that neither promotes by hand nor sets the capacity leaves a limited store no
      larger than it was or than the limit. */
  lemma StepStoreBound(o: Order, r: Room, op: Op)
    requires WellFormed(r) && r.capacity >= 0
    requires !op.Promote? && !op.SetCapacity?
    ensures |Step(o, r, op).0.store| <= Max(|r.store|, r.capacity)
  {
    match op
    case Rotate(t) => RotationStoreBound(o, r, t);
    case Remove(id, _) => SubsetSize((r.store - {id}).Keys, r.store.Keys);
    case Position(id, _, _, _, _) => PositionStoreBound(r, op);
  }

  lemma RotationStoreBound(o: Order, r: Room, t: int)
    requires WellFormed(r)
    ensures |RotateStep(o, r, t).0.store| <= Max(|r.store|, r.capacity)
  {
    RotatedStore(o, r, t);
    SweepStoreSize(o, r.store, t);
  }

  lemma PositionStoreBound(r: Room, op: Op)
    requires op.Position? && r.capacity >= 0
    ensures |PositionStep(r, op).0.store| <= Max(|r.store|, r.capacity)
  {
    var store := r.store[op.id := op.time + op.validated];
    assert store.Keys == r.store.Keys + {op.id};
    if op.id in r.store { assert store.Keys == r.store.Keys; }
  }

  lemma PromoteStoreBound(o: Order, r: Room, op: Op)
    requires op.Promote? || op.SetCapacity?
    ensures |Step(o, r, op).0.store| <= |r.store| + (if op.Promote? then 1 else 0)
  {
    if op.Promote? {
      var store := r.store[op.id := op.time + op.validated];
      assert store.Keys == r.store.Keys + {op.id};
    }
  }

  function LargestCapacity(start: int, ops: seq<Op>): int {
    if ops == [] then start
    else
      var c := LargestCapacity(start, ops[..|ops| - 1]);
      if ops[|ops| - 1].SetCapacity? then Max(c, ToIsize(ops[|ops| - 1].capacity)) else c
  }

  function HandPromotions(ops: seq<Op>): nat {
    if ops == [] then 0
    else HandPromotions(ops[..|ops| - 1]) + (if ops[|ops| - 1].Promote? then 1 else 0)
  }

  /** Store size over runs: never above the largest capacity in force so far (or the size at the
      start) by more than the number of promotions by hand. */
  lemma {:induction false} StoreBound(o: Order, r: Room, ops: seq<Op>)
    requires WellFormed(r) && r.capacity >= 0 && Limited(ops)
    ensures 0 <= Run(o, r, ops).capacity <= LargestCapacity(r.capacity, ops)
    ensures |Run(o, r, ops).store| <= Max(|r.store|, LargestCapacity(r.capacity, ops)) + HandPromotions(ops)
    decreases |ops|
  {
    hide Step, WellFormed;
    if ops != [] {
      var before, op := ops[..|ops| - 1], ops[|ops| - 1];
      StoreBound(o, r, before);
      RunKeepsWellFormed(o, r, before);
      var room := Run(o, r, before);
      StepCapacity(o, room, op);
      if op.Promote? || op.SetCapacity? {
        PromoteStoreBound(o, room, op);
      } else {
        StepStoreBound(o, room, op);
      }
    }
  }

  /** Under a size that has been set, a newcomer who finds nobody waiting is let in exactly while the
      store is smaller than that size; without a limit always. */
  lemma NewcomerEntersIff(o: Order, r: Room, c: StoreCapacity, op: Op)
    requires op.Position? && op.create && !Present(r, op.id) && r.queue == []
    requires c.Sized? ==> c.size < ISIZE_LIMIT
    ensures op.id in Run(o, r, [SetCapacity(c), op]).store <==> c.Unlimited? || |r.store| < c.size
  {
    var limited := Step(o, r, SetCapacity(c)).0;
    RunsCompose(o, r, [SetCapacity(c)], [op]);
    RunsCompose(o, r, [], [SetCapacity(c)]);
    RunsCompose(o, limited, [], [op]);
    assert [SetCapacity(c)] + [op] == [SetCapacity(c), op];
  }

  // ---------------------------------------------------------------- what ids are told

  function CachedOf(r: Room, id: Id): nat
    requires Queued(r.queue, id)
  {
    r.queue[IndexOf(r.queue, id)].cached
  }

  /** While an id waits, the position it is told never rises. */
  lemma {:induction false} ToldPositionNeverRises(o: Order, r: Room, ops: seq<Op>, id: Id)
    requires WellFormed(r)
    requires forall k :: 0 <= k <= |ops| ==> Queued(After(o, r, ops, k).queue, id)
    ensures Queued(r.queue, id) && Queued(Run(o, r, ops).queue, id)
    ensures IndexOf(Run(o, r, ops).queue, id) + 1 <= CachedOf(Run(o, r, ops), id) <= CachedOf(r, id)
    ensures IndexOf(Run(o, r, ops).queue, id) <= IndexOf(r.queue, id)
    decreases |ops|
  {
    assert Queued(After(o, r, ops, 0).queue, id);
    assert Queued(After(o, r, ops, |ops|).queue, id);
    AfterAll(o, r, ops);
    RunKeepsWellFormed(o, r, ops);
    if ops != [] {
      var before := ops[..|ops| - 1];
      forall k | 0 <= k <= |before| ensures Queued(After(o, r, before, k).queue, id) {
        AfterPrefix(o, r, ops, k);
      }
      ToldPositionNeverRises(o, r, before, id);
      RunKeepsWellFormed(o, r, before);
      StayerLands(o, Run(o, r, before), ops[|ops| - 1], id);
    }
  }

  /** The decoded answer to id_position, against the rooms before and after the step: Store exactly
      for ids in the store; Queue(n) exactly for queued ids, with n no better than their place
      and just their place if they have only now been added; NotPresent only if the caller did
      not ask to create.  The status tells an id that was there from one just added. */
  ghost predicate AnswerAgrees(before: Room, after: Room, op: Op, answer: Reply)
    requires op.Position?
  {
    && answer.Answer?
    && (answer.status == 1 <==> Present(before, op.id))
    && (answer.status == 2 <==> !Present(before, op.id) && Present(after, op.id))
    && match FromRedis(answer.status, answer.position)
       case Store => op.id in after.store && !Queued(after.queue, op.id)
       case Queue(n) =>
         && op.id !in after.store && Queued(after.queue, op.id) && n == CachedOf(after, op.id)
         && n >= IndexOf(after.queue, op.id) + 1
         && (answer.status == 2 ==> n == IndexOf(after.queue, op.id) + 1)
       case NotPresent => !op.create && op.id !in after.store && !Queued(after.queue, op.id)
  }

  lemma PositionAgrees(o: Order, r: Room, op: Op)
    requires WellFormed(r) && op.Position?
    ensures AnswerAgrees(r, Step(o, r, op).0, op, Step(o, r, op).1)
  {
    StepKeepsWellFormed(o, r, op);
    var room := Step(o, r, op).0;
    QueuedAt(r.queue, op.id);
    QueuedAt(room.queue, op.id);
    var i := IndexOf(r.queue, op.id);
    if op.id !in room.store && (i < |r.queue| || op.create) {
      assert room.queue[i].id == op.id;
      IndexOfAt(room.queue, i);
    }
  }

  lemma {:induction false} ReplyAt(o: Order, r: Room, ops: seq<Op>, k: nat)
    requires k < |ops|
    ensures Replies(o, r, ops)[k] == Step(o, After(o, r, ops, k), ops[k]).1
    ensures After(o, r, ops, k + 1) == Step(o, After(o, r, ops, k), ops[k]).0
    decreases |ops|
  {
    assert ops[..k + 1][..k] == ops[..k];
    if k < |ops| - 1 {
      var before := ops[..|ops| - 1];
      ReplyAt(o, r, before, k);
      assert before[..k] == ops[..k];
    }
  }

  /** Every answer of every run agrees with the rooms around it. */
  lemma AnswersAgree(o: Order, r: Room, ops: seq<Op>, k: nat)
    requires WellFormed(r) && k < |ops| && ops[k].Position?
    ensures AnswerAgrees(After(o, r, ops, k), After(o, r, ops, k + 1), ops[k], Replies(o, r, ops)[k])
  {
    RunKeepsWellFormed(o, r, ops[..k]);
    ReplyAt(o, r, ops, k);
    PositionAgrees(o, After(o, r, ops, k), ops[k]);
  }
}
