/**
 What every step of the waiting room keeps, and what one rotation does.
 */
module RoomInvariants {
  import opened QueueModels
  import opened WaitingRoom

  // ---------------------------------------------------------------- where a ticket lands

  /** The index at which the ticket at index i stands after the step, if it stays. */
  function Landing(o: Order, r: Room, op: Op, i: nat): int
    requires i <= |r.queue|
  {
    match op
    case Promote(id, _, _) => |Filter(r.queue[..i], Other(id))|
    case Rotate(t) => |Filter(r.queue[..i], Unexpired(o, t))| - Promoted(o, r, t)
    case _ => i
  }

  lemma LandingMonotone(o: Order, r: Room, op: Op, i: nat, j: nat)
    requires i <= j <= |r.queue|
    ensures Landing(o, r, op, i) <= Landing(o, r, op, j)
  {
    match op
    case Promote(id, _, _) => FilterMonotone(r.queue, Other(id), i, j);
    case Rotate(t) => FilterMonotone(r.queue, Unexpired(o, t), i, j);
    case _ =>
  }

  /** The ticket at index k after the step is the one from index i before, no further back and
      told no worse a position; or it is the newcomer that id_position put at the back. */
  ghost predicate CameFrom(o: Order, r: Room, op: Op, k: nat, i: nat) {
    var room := Step(o, r, op).0;
    && k < |room.queue| && k <= i <= |r.queue| && k == Landing(o, r, op, i)
    && (i < |r.queue| ==>
          && room.queue[k].id == r.queue[i].id && room.queue[k].cached <= r.queue[i].cached
          && (room.queue[k].expiry == r.queue[i].expiry || ((op.Position? || op.Remove?) && op.id == r.queue[i].id)))
    && (i == |r.queue| ==>
          && op.Position? && !Queued(r.queue, op.id) && op.id !in r.store
          && room == r.(queue := r.queue + [Ticket(op.id, op.time + op.quarantine, i + 1)]))
  }

  lemma PromoteSource(o: Order, r: Room, op: Op, k: nat) returns (i: nat)
    requires op.Promote? && k < |Step(o, r, op).0.queue|
    ensures CameFrom(o, r, op, k, i)
  {
    i := FilterFrom(r.queue, Other(op.id), k);
  }

  /** A survivor of a rotation stands where those still waiting before it put it, less the
      promoted, and is told the place it had before they left. */
  lemma RotatedAt(o: Order, r: Room, t: int, k: nat) returns (i: nat)
    requires k < |RotateStep(o, r, t).0.queue|
    ensures
      var n := Promoted(o, r, t);
      && k + n <= i < |r.queue|
      && RotateStep(o, r, t).0.queue[k] == r.queue[i].(cached := k + n + 1)
      && k + n == |Filter(r.queue[..i], Unexpired(o, t))|
  {
    i := FilterFrom(r.queue, Unexpired(o, t), k + Promoted(o, r, t));
  }

  lemma RotateSource(o: Order, r: Room, op: Op, k: nat) returns (i: nat)
    requires WellFormed(r) && op.Rotate? && k < |Step(o, r, op).0.queue|
    ensures CameFrom(o, r, op, k, i)
  {
    assert Step(o, r, op).0 == RotateStep(o, r, op.time).0;
    i := RotatedAt(o, r, op.time, k);
    assert Step(o, r, op).0.queue[k] == r.queue[i].(cached := k + Promoted(o, r, op.time) + 1);
    assert r.queue[i].cached >= i + 1;
  }

  lemma SameSource(o: Order, r: Room, op: Op, k: nat)
    requires !op.Promote? && !op.Rotate? && k < |Step(o, r, op).0.queue|
    ensures CameFrom(o, r, op, k, k)
  {
  }

  /** Every ticket after a step has such a source. */
  lemma StepSource(o: Order, r: Room, op: Op, k: nat) returns (i: nat)
    requires WellFormed(r) && k < |Step(o, r, op).0.queue|
    ensures CameFrom(o, r, op, k, i)
  {
    if op.Promote? {
      i := PromoteSource(o, r, op, k);
    } else if op.Rotate? {
      i := RotateSource(o, r, op, k);
    } else {
      SameSource(o, r, op, k);
      i := k;
    }
  }

  /** The ids a rotation promotes are a prefix of the unexpired queue. */
  lemma PromotedSource(o: Order, r: Room, t: int, k: nat) returns (i: nat)
    requires k < Promoted(o, r, t)
    ensures k <= i < |r.queue| && !Before(o, r.queue[i].expiry, t)
    ensures k == |Filter(r.queue[..i], Unexpired(o, t))|
    ensures SweepQueue(o, r.queue, t)[k] == r.queue[i].(cached := k + 1)
  {
    i := FilterFrom(r.queue, Unexpired(o, t), k);
  }

  // ---------------------------------------------------------------- well-formedness

  lemma SweepKeepsWellFormed(o: Order, r: Room, t: int)
    requires WellFormed(r)
    ensures WellFormed(Room(SweepQueue(o, r.queue, t), SweepStore(o, r.store, t), r.capacity))
  {
    FilterDistinct(r.queue, Unexpired(o, t));
    var queue := SweepQueue(o, r.queue, t);
    forall k | 0 <= k < |queue| ensures queue[k].id !in SweepStore(o, r.store, t) {
      var i := FilterFrom(r.queue, Unexpired(o, t), k);
    }
  }

  lemma RotateKeepsWellFormed(o: Order, r: Room, t: int)
    requires WellFormed(r)
    ensures WellFormed(RotateStep(o, r, t).0)
  {
    SweepKeepsWellFormed(o, r, t);
    var n, queue, store := Promoted(o, r, t), SweepQueue(o, r.queue, t), SweepStore(o, r.store, t);
    AdmitKeys(store, queue[..n]);
    forall k | n <= k < |queue| ensures queue[k].id !in Admit(store, queue[..n]) {
      QueuedAt(queue[..n], queue[k].id);
    }
  }

  lemma PromoteKeepsWellFormed(o: Order, r: Room, op: Op)
    requires WellFormed(r) && op.Promote?
    ensures WellFormed(Step(o, r, op).0)
  {
    FilterDistinct(r.queue, Other(op.id));
    var queue := Filter(r.queue, Other(op.id));
    forall k | 0 <= k < |queue|
      ensures queue[k].id !in Step(o, r, op).0.store && queue[k].cached >= k + 1
    {
      var i := FilterFrom(r.queue, Other(op.id), k);
    }
  }

  /** Each step keeps the room well-formed, whatever time it carries. */
  lemma StepKeepsWellFormed(o: Order, r: Room, op: Op)
    requires WellFormed(r)
    ensures WellFormed(Step(o, r, op).0)
  {
    match op
    case Rotate(t) => RotateKeepsWellFormed(o, r, t);
    case Promote(_, _, _) => PromoteKeepsWellFormed(o, r, op);
    case _ =>
  }

  /** Every room reached from a well-formed one is well-formed. */
  lemma {:induction false} RunKeepsWellFormed(o: Order, r: Room, ops: seq<Op>)
    requires WellFormed(r)
    ensures WellFormed(Run(o, r, ops))
    decreases |ops|
  {
    if ops != [] {
      var before := ops[..|ops| - 1];
      RunKeepsWellFormed(o, r, before);
      StepKeepsWellFormed(o, Run(o, r, before), ops[|ops| - 1]);
    }
  }

  // ---------------------------------------------------------------- one rotation

  /** The tickets a rotation at time t finds still waiting. */
  function Waiting(o: Order, r: Room, t: int): seq<Ticket> {
    Filter(r.queue, Unexpired(o, t))
  }

  lemma WaitingUnexpired(o: Order, r: Room, t: int)
    ensures forall i :: 0 <= i < |Waiting(o, r, t)| ==> !Before(o, Waiting(o, r, t)[i].expiry, t)
  {
    forall i | 0 <= i < |Waiting(o, r, t)| ensures !Before(o, Waiting(o, r, t)[i].expiry, t) {
      var j := FilterFrom(r.queue, Unexpired(o, t), i);
    }
  }

  lemma SameIdsQueued(p: seq<Ticket>, q: seq<Ticket>, id: Id)
    requires |p| == |q| && forall k :: 0 <= k < |p| ==> p[k].id == q[k].id
    ensures Queued(p, id) <==> Queued(q, id)
  {
    QueuedAt(p, id);
    QueuedAt(q, id);
  }

  /** The queue after a rotation at time t: the first n still waiting are promoted, n being as
      many as there is room for; the rest stay in order, nobody among them has expired, and
      each is told a position too high by exactly n. */
  lemma RotatedQueue(o: Order, r: Room, t: int)
    ensures
      var (room, counts) := RotateStep(o, r, t);
      var waiting, n := Waiting(o, r, t), counts.promoted;
      && n == Min(|waiting|, Vacancies(r.capacity, |SweepStore(o, r.store, t)|))
      && |room.queue| == |waiting| - n == |r.queue| - counts.queueExpired - n
      && (forall k :: 0 <= k < |room.queue| ==>
            && room.queue[k] == waiting[n + k].(cached := k + 1 + n)
            && !Before(o, room.queue[k].expiry, t))
  {
    WaitingUnexpired(o, r, t);
  }

  /** The ids in the store after a rotation at time t: the unexpired ones and the first n still
      waiting, n being the number promoted. */
  lemma RotatedIds(o: Order, r: Room, t: int, id: Id)
    ensures id in RotateStep(o, r, t).0.store <==>
            || (id in r.store && !Before(o, r.store[id], t))
            || Queued(Waiting(o, r, t)[..Promoted(o, r, t)], id)
  {
    var taken := SweepQueue(o, r.queue, t)[..Promoted(o, r, t)];
    AdmitKeys(SweepStore(o, r.store, t), taken);
    SameIdsQueued(taken, Waiting(o, r, t)[..Promoted(o, r, t)], id);
  }

  /** Their expiry times: those already there keep theirs, those promoted bring theirs from the
      queue.  The counts account for the size, and a capacity that is not negative is used
      up if somebody still waits. */
  lemma RotatedStore(o: Order, r: Room, t: int)
    requires WellFormed(r)
    ensures
      var (room, counts) := RotateStep(o, r, t);
      var waiting, n := Waiting(o, r, t), counts.promoted;
      && (forall id :: id in r.store && !Before(o, r.store[id], t) ==>
                         id in room.store && room.store[id] == r.store[id])
      && (forall k :: 0 <= k < n ==> waiting[k].id in room.store && room.store[waiting[k].id] == waiting[k].expiry)
      && |room.store| == |r.store| - counts.storeExpired + n
      && (r.capacity >= 0 && room.queue != [] ==> |room.store| >= r.capacity)
  {
    var n, queue, store := Promoted(o, r, t), SweepQueue(o, r.queue, t), SweepStore(o, r.store, t);
    SweepKeepsWellFormed(o, r, t);
    AdmitEntries(store, queue[..n]);
    forall k | 0 <= k < n ensures queue[..n][k] == Waiting(o, r, t)[k].(cached := k + 1) {}
  }

  /** After a rotation at time t no stored id has expired. */
  lemma RotatedStoreUnexpired(o: Order, r: Room, t: int)
    requires WellFormed(r)
    ensures forall id :: id in RotateStep(o, r, t).0.store ==> !Before(o, RotateStep(o, r, t).0.store[id], t)
  {
    RotatedStore(o, r, t);
    WaitingUnexpired(o, r, t);
    var room, taken := RotateStep(o, r, t).0, Waiting(o, r, t)[..Promoted(o, r, t)];
    forall id | id in room.store ensures !Before(o, room.store[id], t) {
      RotatedIds(o, r, t, id);
      if Queued(taken, id) {
        assert taken[IndexOf(taken, id)] == Waiting(o, r, t)[IndexOf(taken, id)];
      }
    }
  }

  /** A rotation empties the queue exactly when those waiting fit the vacancies.  The
      documentation calls a negative capacity a store without limit, yet such a store takes
      nobody from the queue: it drains only when every ticket has expired. */
  lemma RotationDrainsIff(o: Order, r: Room, t: int)
    ensures RotateStep(o, r, t).0.queue == [] <==>
            |Waiting(o, r, t)| <= Vacancies(r.capacity, |SweepStore(o, r.store, t)|)
    ensures r.capacity < 0 ==>
              && RotateStep(o, r, t).1.promoted == 0
              && (RotateStep(o, r, t).0.queue == [] <==>
                  forall i :: 0 <= i < |r.queue| ==> Before(o, r.queue[i].expiry, t))
  {
    if Waiting(o, r, t) != [] {
      var i := FilterFrom(r.queue, Unexpired(o, t), 0);
    } else {
      forall i | 0 <= i < |r.queue| ensures Before(o, r.queue[i].expiry, t) {
        if !Before(o, r.queue[i].expiry, t) { FilterKeeps(r.queue, Unexpired(o, t), i); }
      }
    }
  }

  lemma UnlimitedRotates(o: Order, q: seq<Ticket>)
    requires |q| == 1 && q[0].cached == 1 && !Before(o, q[0].expiry, 1)
    ensures RotateStep(o, Room(q, map[], -1), 1).0 == Room(q, map[], -1)
  {
    assert Filter(q, Unexpired(o, 1)) == q by {
      assert q[..0] == [] && [] + [q[0]] == q;
    }
    hide Filter;
    assert Renumber(q) == q;
    assert SweepQueue(o, q, 1) == q && SweepStore(o, map[], 1) == map[];
    hide SweepQueue, SweepStore, Renumber;
    assert Promoted(o, Room(q, map[], -1), 1) == 0;
    hide Promoted;
    assert q[0..] == q && q[..0] == [];
  }

  /** The run that shows it: an id that had to queue at a full store still waits after the limit has
      been lifted and the room has rotated, though nothing has expired. */
  lemma UnlimitedKeepsWaiting(o: Order, id: Id)
    requires !Before(o, 10, 1)
    ensures
      var ops := [SetCapacity(Sized(0)), Position(id, 0, 10, 10, true), SetCapacity(Unlimited), Rotate(1)];
      Run(o, Room([], map[], 0), ops) == Room([Ticket(id, 10, 1)], map[], -1)
  {
    var ops := [SetCapacity(Sized(0)), Position(id, 0, 10, 10, true), SetCapacity(Unlimited), Rotate(1)];
    var q, empty := [Ticket(id, 10, 1)], Room([], map[], 0);
    assert Step(o, empty, ops[0]).0 == empty;
    assert Step(o, empty, ops[1]).0 == Room(q, map[], 0) by { assert [] + q == q; }
    assert Step(o, Room(q, map[], 0), ops[2]).0 == Room(q, map[], -1);
    assert Step(o, Room(q, map[], -1), ops[3]).0 == Room(q, map[], -1) by { UnlimitedRotates(o, q); }
    hide Step;
    assert ops[..4] == ops && ops[..4][..3] == ops[..3] && ops[..3][..2] == ops[..2];
    assert ops[..2][..1] == ops[..1] && ops[..1][..0] == [];
    assert Run(o, empty, ops[..1]) == empty;
    assert Run(o, empty, ops[..2]) == Room(q, map[], 0);
    assert Run(o, empty, ops[..3]) == Room(q, map[], -1);
  }
}
