/**
 What depends on time: removal from the queue is only a mark, and expiry times are compared as
 text.
 */
module RoomTime {
  import opened Numerals
  import opened QueueModels
  import opened WaitingRoom
  import opened RoomInvariants
  import opened RoomRuns

  // ---------------------------------------------------------------- how long an id is kept

  lemma WaitingIsQueued(o: Order, r: Room, t: int, id: Id)
    requires WellFormed(r)
    ensures Queued(Waiting(o, r, t), id) <==>
            Queued(r.queue, id) && !Before(o, r.queue[IndexOf(r.queue, id)].expiry, t)
  {
    var waiting, i := Waiting(o, r, t), IndexOf(r.queue, id);
    if Queued(waiting, id) {
      var j := FilterFrom(r.queue, Unexpired(o, t), IndexOf(waiting, id));
      IndexOfAt(r.queue, j);
    }
    if i < |r.queue| && !Before(o, r.queue[i].expiry, t) {
      FilterKeeps(r.queue, Unexpired(o, t), i);
      QueuedAt(waiting, id);
    }
  }

  lemma QueuedSplit(q: seq<Ticket>, n: nat, id: Id)
    requires n <= |q|
    ensures Queued(q, id) <==> Queued(q[..n], id) || Queued(q[n..], id)
  {
    QueuedAt(q, id);
    QueuedAt(q[..n], id);
    QueuedAt(q[n..], id);
    hide Queued;
    if i :| 0 <= i < |q| && q[i].id == id { assert if i < n then q[..n][i].id == id else q[n..][i - n].id == id; }
    if i :| 0 <= i < n && q[..n][i].id == id { assert q[i].id == id; }
    if i :| 0 <= i < |q| - n && q[n..][i].id == id { assert q[n + i].id == id; }
  }

  /** After a rotation an id is queued or stored exactly if it was waiting or stored unexpired. */
  lemma PresentAfterRotation(o: Order, r: Room, t: int, id: Id)
    requires WellFormed(r)
    ensures Present(RotateStep(o, r, t).0, id) <==>
            Queued(Waiting(o, r, t), id) || (id in r.store && !Before(o, r.store[id], t))
  {
    var waiting, n, room := Waiting(o, r, t), Promoted(o, r, t), RotateStep(o, r, t).0;
    RotatedIds(o, r, t, id);
    assert |room.queue| == |waiting[n..]| && forall k :: 0 <= k < |room.queue| ==> room.queue[k].id == waiting[n..][k].id by {
      RotatedQueue(o, r, t);
    }
    hide RotateStep, Promoted, Waiting, SweepStore, Queued, WellFormed;
    SameIdsQueued(room.queue, waiting[n..], id);
    QueuedSplit(waiting, n, id);
  }

  lemma AbsentStaysAbsent(o: Order, r: Room, id: Id, t: int)
    requires WellFormed(r) && !Present(r, id)
    ensures !Present(RotateStep(o, r, t).0, id)
  {
    PresentAfterRotation(o, r, t, id);
    WaitingIsQueued(o, r, t, id);
  }

  /** A rotation keeps an id, in queue or store, exactly until its expiry. */
  lemma KeptByRotationIff(o: Order, r: Room, id: Id, t: int)
    requires WellFormed(r) && Present(r, id)
    ensures Present(RotateStep(o, r, t).0, id) <==> !Before(o, ExpiryOf(r, id), t)
  {
    PresentAfterRotation(o, r, t, id);
    WaitingIsQueued(o, r, t, id);
    assert Queued(r.queue, id) ==> r.queue[IndexOf(r.queue, id)].id == id;
  }

  lemma QueuedIsNotStored(r: Room, id: Id)
    requires WellFormed(r)
    ensures Queued(r.queue, id) ==> id !in r.store
  {
    if Queued(r.queue, id) { assert r.queue[IndexOf(r.queue, id)].id == id; }
  }

  /** The time an id is kept once it has asked: as a newcomer that must queue, or otherwise. */
  function Grace(o: Order, r: Room, op: Op): nat
    requires op.Position?
  {
    if !Present(r, op.id) && Queued(Step(o, r, op).0.queue, op.id) then op.quarantine else op.validated
  }

  lemma ExpiryAfterAsking(o: Order, r: Room, op: Op)
    requires WellFormed(r) && op.Position? && Present(Step(o, r, op).0, op.id)
    ensures ExpiryOf(Step(o, r, op).0, op.id) == op.time + Grace(o, r, op)
  {
    var after, i := Step(o, r, op).0, IndexOf(r.queue, op.id);
    StepKeepsWellFormed(o, r, op);
    QueuedIsNotStored(after, op.id);
    if op.id !in after.store {
      assert after.queue[i].id == op.id;
      IndexOfAt(after.queue, i);
    }
  }

  /** Asking for its place keeps an id for the validated time, and a newcomer that must queue for
      the quarantine time; the first rotation later than that throws it out. */
  lemma AskingKeepsFor(o: Order, r: Room, op: Op, t: int)
    requires WellFormed(r) && op.Position? && Present(Step(o, r, op).0, op.id)
    ensures Present(RotateStep(o, Step(o, r, op).0, t).0, op.id) <==> !Before(o, op.time + Grace(o, r, op), t)
  {
    StepKeepsWellFormed(o, r, op);
    ExpiryAfterAsking(o, r, op);
    KeptByRotationIff(o, Step(o, r, op).0, op.id, t);
  }

  /** Promotion by hand puts an id in the store for the validated time, full store or not. */
  lemma PromotionKeepsFor(o: Order, r: Room, op: Op, t: int)
    requires WellFormed(r) && op.Promote?
    ensures
      var after := Step(o, r, op).0;
      && op.id in after.store && !Queued(after.queue, op.id)
      && (Present(RotateStep(o, after, t).0, op.id) <==> !Before(o, op.time + op.validated, t))
  {
    var after := Step(o, r, op).0;
    StepKeepsWellFormed(o, r, op);
    QueuedIsNotStored(after, op.id);
    KeptByRotationIff(o, after, op.id, t);
  }

  /** A step made for one id, or a new capacity, leaves every other id where it is: in the store or
      in the queue with the same expiry, told the same position, or in neither. */
  lemma OthersUntouched(o: Order, r: Room, op: Op, y: Id)
    requires WellFormed(r) && !op.Rotate? && (!op.SetCapacity? ==> op.id != y)
    ensures
      var room := Step(o, r, op).0;
      && (y in room.store <==> y in r.store)
      && (Queued(room.queue, y) <==> Queued(r.queue, y))
      && (Present(r, y) ==> ExpiryOf(room, y) == ExpiryOf(r, y))
      && (Queued(r.queue, y) ==>
            room.queue[IndexOf(room.queue, y)].cached == r.queue[IndexOf(r.queue, y)].cached)
  {
    var room, i := Step(o, r, op).0, IndexOf(r.queue, y);
    QueuedAt(r.queue, y);
    if Queued(room.queue, y) {
      var j := StepSource(o, r, op, IndexOf(room.queue, y));
      if op.Promote? { var m := FilterFrom(r.queue, Other(op.id), IndexOf(room.queue, y)); IndexOfAt(r.queue, m); }
    }
    if Queued(r.queue, y) {
      if op.Promote? { FilterKeeps(r.queue, Other(op.id), i); } else { assert room.queue[i].id == y; }
      QueuedAt(room.queue, y);
      StayerLands(o, r, op, y);
    }
  }

  /** A rotation that finds one ticket, and nobody expired, promotes it if there is room. */
  lemma RotateOnlyTicket(o: Order, r: Room, x: Ticket, t: int)
    requires r.queue == [x] && x.cached == 1 && !Before(o, x.expiry, t)
    requires forall id :: id in r.store ==> !Before(o, r.store[id], t)
    ensures
      RotateStep(o, r, t).0
      == if |r.store| < r.capacity then Room([], r.store[x.id := x.expiry], r.capacity) else r
  {
    assert Filter([x][..0], Unexpired(o, t)) == [] && [] + [x] == [x];
    assert SweepQueue(o, [x], t) == [x];
    assert SweepStore(o, r.store, t) == r.store;
    hide SweepQueue, SweepStore;
    assert Promoted(o, r, t) == if |r.store| < r.capacity then 1 else 0;
    hide Promoted;
    assert [x][..1] == [x] && [x][1..] == [] && [x][..0] == [] && [x][0..] == [x];
    assert Admit(r.store, [x][..0]) == r.store;
    assert Admit(r.store, [x]) == r.store[x.id := x.expiry];
  }

  /** What a newcomer finds with nobody waiting: the store, if it has room. */
  lemma EntersEmptyQueue(o: Order, r: Room, op: Op)
    requires op.Position? && op.create && !Present(r, op.id) && r.queue == []
    ensures
      Step(o, r, op).0
      == if r.capacity < 0 || |r.store| < r.capacity
         then r.(store := r.store[op.id := op.time + op.validated])
         else r.(queue := [Ticket(op.id, op.time + op.quarantine, 1)])
  {
    assert [] + [Ticket(op.id, op.time + op.quarantine, 1)] == [Ticket(op.id, op.time + op.quarantine, 1)];
  }

  /** With nobody waiting and nobody expired, going through the queue and being there when the room
      rotates comes to the same as asking for a place, exactly if there is a limit, and it is used
      up or the quarantine time is the validated time.  With room under a limit the two rooms
      differ in that id's expiry only: it is in the store for the quarantine time. */
  lemma EntryIsQueueingAndRotatingIff(o: Order, r: Room, op: Op, t: int)
    requires op.Position? && op.create && !Present(r, op.id) && r.queue == []
    requires forall id :: id in r.store ==> !Before(o, r.store[id], t)
    requires !Before(o, op.time + op.quarantine, t)
    ensures
      var x := Ticket(op.id, op.time + op.quarantine, 1);
      var asked, rotated := Step(o, r, op).0, RotateStep(o, r.(queue := [x]), t).0;
      && (asked == rotated <==> r.capacity >= 0 && (|r.store| >= r.capacity || op.quarantine == op.validated))
      && (r.capacity >= 0 && |r.store| < r.capacity ==>
            rotated == asked.(store := asked.store[op.id := op.time + op.quarantine]))
  {
    var x := Ticket(op.id, op.time + op.quarantine, 1);
    EntersEmptyQueue(o, r, op);
    RotateOnlyTicket(o, r.(queue := [x]), x, t);
    hide Step, RotateStep;
    var v, q := r.store[op.id := op.time + op.validated], r.store[op.id := op.time + op.quarantine];
    assert v[op.id] == op.time + op.validated && q[op.id] == op.time + op.quarantine;
    assert v[op.id := op.time + op.quarantine] == q;
  }

  // ---------------------------------------------------------------- lazy removal

  predicate Timed(op: Op) {
    !op.SetCapacity?
  }

  /** The steps carry times that never go back, and none before t. */
  ghost predicate InTimeOrder(t: int, ops: seq<Op>) {
    && (forall k :: 0 <= k < |ops| && Timed(ops[k]) ==> t <= ops[k].time)
    && (forall j, k :: 0 <= j < k < |ops| && Timed(ops[j]) && Timed(ops[k]) ==> ops[j].time <= ops[k].time)
  }

  /** No step of the run asks for the id's place or promotes it by hand. */
  ghost predicate LeftAlone(ops: seq<Op>, x: Id) {
    forall k :: 0 <= k < |ops| && (ops[k].Position? || ops[k].Promote?) ==> ops[k].id != x
  }

  ghost predicate HasRotation(ops: seq<Op>) {
    exists k :: 0 <= k < |ops| && ops[k].Rotate?
  }

  /** x is not in the store, and if it is queued its time has passed. */
  ghost predicate Doomed(r: Room, x: Id, now: int) {
    x !in r.store && (Queued(r.queue, x) ==> r.queue[IndexOf(r.queue, x)].expiry < now)
  }

  lemma RotationDropsDoomed(r: Room, x: Id, t: int)
    requires WellFormed(r) && Doomed(r, x, t)
    ensures !Present(RotateStep(NUMERIC, r, t).0, x)
  {
    if Present(r, x) { KeptByRotationIff(NUMERIC, r, x, t); } else { AbsentStaysAbsent(NUMERIC, r, x, t); }
  }

  lemma StepKeepsDoomed(r: Room, op: Op, x: Id, now: int)
    requires WellFormed(r) && Doomed(r, x, now)
    requires (op.Position? || op.Promote?) ==> op.id != x
    requires Timed(op) ==> now <= op.time
    ensures
      var room := Step(NUMERIC, r, op).0;
      Doomed(room, x, if Timed(op) then op.time else now)
      && (!Queued(r.queue, x) || op.Rotate? ==> !Queued(room.queue, x))
  {
    var room := Step(NUMERIC, r, op).0;
    if op.Rotate? {
      RotationDropsDoomed(r, x, op.time);
    } else if Queued(room.queue, x) {
      var i := StepSource(NUMERIC, r, op, IndexOf(room.queue, x));
      QueuedAt(r.queue, x);
      if i < |r.queue| { StayerLands(NUMERIC, r, op, x); }
    }
  }

  lemma {:induction false} RunKeepsDoomed(r: Room, ops: seq<Op>, x: Id, t: int, now: int)
    requires WellFormed(r) && Doomed(r, x, t)
    requires LeftAlone(ops, x) && InTimeOrder(t, ops)
    requires t <= now && forall k :: 0 <= k < |ops| && Timed(ops[k]) ==> ops[k].time <= now
    ensures Doomed(Run(NUMERIC, r, ops), x, now)
    ensures HasRotation(ops) || !Queued(r.queue, x) ==> !Queued(Run(NUMERIC, r, ops).queue, x)
    decreases |ops|
  {
    if ops != [] {
      var before, op := ops[..|ops| - 1], ops[|ops| - 1];
      var soon := if Timed(op) then op.time else now;
      RunKeepsDoomed(r, before, x, t, soon);
      RunKeepsWellFormed(NUMERIC, r, before);
      StepKeepsDoomed(Run(NUMERIC, r, before), op, x, soon);
      if HasRotation(ops) && !op.Rotate? {
        var k :| 0 <= k < |ops| && ops[k].Rotate?;
        assert before[k].Rotate?;
      }
    }
  }

  /** Lazy removal works.  Once a queued id has been removed at time t, and while nobody asks for
      it or promotes it by hand, in every run whose times do not go back it is never in the
      store, and after the first rotation it is gone from the queue too. */
  lemma RemovedIdIsEvicted(r: Room, x: Id, t: int, ops: seq<Op>)
    requires WellFormed(r) && Queued(r.queue, x)
    requires LeftAlone(ops, x) && InTimeOrder(t, ops)
    ensures
      var room := Run(NUMERIC, Step(NUMERIC, r, Remove(x, t)).0, ops);
      x !in room.store && (HasRotation(ops) ==> !Queued(room.queue, x))
  {
    var removed := Step(NUMERIC, r, Remove(x, t)).0;
    MarkedExpired(NUMERIC, r, x, t);
    var now := LatestTime(t, ops);
    RunKeepsDoomed(removed, ops, x, t, now);
  }

  function LatestTime(t: int, ops: seq<Op>): (now: int)
    ensures t <= now && forall k :: 0 <= k < |ops| && Timed(ops[k]) ==> ops[k].time <= now
  {
    if ops == [] then t
    else
      var now, op := LatestTime(t, ops[..|ops| - 1]), ops[|ops| - 1];
      if Timed(op) && op.time > now then op.time else now
  }

  /** Time order matters: a rotation right after the removal evicts the id exactly when it
      carries a time no earlier than the removal's; an older rotation keeps or promotes it. */
  lemma EvictedByRotationIff(r: Room, x: Id, t: int, s: int)
    requires WellFormed(r) && Queued(r.queue, x)
    ensures !Present(Step(NUMERIC, Step(NUMERIC, r, Remove(x, t)).0, Rotate(s)).0, x) <==> t <= s
  {
    MarkedExpired(NUMERIC, r, x, t);
    KeptByRotationIff(NUMERIC, Step(NUMERIC, r, Remove(x, t)).0, x, s);
  }

  /** Removing a queued id only sets its expiry to the second before. */
  lemma MarkedExpired(o: Order, r: Room, x: Id, t: int)
    requires WellFormed(r) && Queued(r.queue, x)
    ensures
      var removed := Step(o, r, Remove(x, t)).0;
      && WellFormed(removed) && Queued(removed.queue, x) && x !in removed.store
      && removed.queue[IndexOf(removed.queue, x)].expiry == ExpiryOf(removed, x) == t - 1
  {
    var removed, i := Step(o, r, Remove(x, t)).0, IndexOf(r.queue, x);
    StepKeepsWellFormed(o, r, Remove(x, t));
    assert removed.queue[i].id == x;
    IndexOfAt(removed.queue, i);
  }

  lemma StaysOut(o: Order, r: Room, op: Op, x: Id)
    requires WellFormed(r) && !Present(r, x) && ((op.Position? || op.Promote?) ==> op.id != x)
    ensures !Present(Step(o, r, op).0, x)
  {
    if op.Rotate? {
      AbsentStaysAbsent(o, r, x, op.time);
    } else if op.Remove? && op.id == x {
      assert Step(o, r, op).0 == r.(store := r.store - {x});
    } else {
      OthersUntouched(o, r, op, x);
    }
  }

  /** Removing a stored id takes it out at once, and while nobody asks for it or promotes it by hand
      it stays out, whatever times the steps carry. */
  lemma {:induction false} RemovedFromStoreStaysOut(o: Order, r: Room, x: Id, t: int, ops: seq<Op>)
    requires WellFormed(r) && !Queued(r.queue, x) && LeftAlone(ops, x)
    ensures !Present(Run(o, Step(o, r, Remove(x, t)).0, ops), x)
    decreases |ops|
  {
    var removed := Step(o, r, Remove(x, t)).0;
    StepKeepsWellFormed(o, r, Remove(x, t));
    if ops != [] {
      var before := ops[..|ops| - 1];
      RemovedFromStoreStaysOut(o, r, x, t, before);
      RunKeepsWellFormed(o, removed, before);
      StaysOut(o, Run(o, removed, before), ops[|ops| - 1], x);
    }
  }

  // ---------------------------------------------------------------- text and numbers

  /** Times whose numerals, and those of the expiry times made from them, have ten digits. */
  predicate InWindow(op: Op) {
    match op
    case Position(_, t, v, q, _) => BILLION < t && t + v < 10 * BILLION && t + q < 10 * BILLION
    case Promote(_, t, v) => BILLION < t && t + v < 10 * BILLION
    case Remove(_, t) => BILLION < t < 10 * BILLION
    case Rotate(t) => BILLION < t < 10 * BILLION
    case SetCapacity(_) => true
  }

  predicate TenDigitTime(e: int) {
    BILLION <= e < 10 * BILLION
  }

  ghost predicate TenDigitRoom(r: Room) {
    && (forall i :: 0 <= i < |r.queue| ==> TenDigitTime(r.queue[i].expiry))
    && (forall id :: id in r.store ==> TenDigitTime(r.store[id]))
  }

  /** Text and numbers agree on whether any ticket of the queue, or any entry of the store, has
      expired at time t. */
  ghost predicate Agreed(r: Room, t: int) {
    && (forall i :: 0 <= i < |r.queue| ==> OrdersAgree(r.queue[i].expiry, t))
    && (forall id :: id in r.store ==> OrdersAgree(r.store[id], t))
  }

  lemma OrdersAgreeAt(e: int, t: int)
    ensures (Before(TEXT, e, t) <==> Before(NUMERIC, e, t)) <==> OrdersAgree(e, t)
  {
    TextOrderExact(e, t);
  }

  lemma {:induction false} FiltersAgree(q: seq<Ticket>, t: int)
    requires forall i :: 0 <= i < |q| ==> OrdersAgree(q[i].expiry, t)
    ensures Filter(q, Unexpired(TEXT, t)) == Filter(q, Unexpired(NUMERIC, t))
    decreases |q|
  {
    hide OrdersAgree, Before;
    if q != [] {
      FiltersAgree(q[..|q| - 1], t);
      OrdersAgreeAt(q[|q| - 1].expiry, t);
    }
  }

  lemma StoresAgree(store: map<Id, int>, t: int)
    requires forall id :: id in store ==> OrdersAgree(store[id], t)
    ensures SweepStore(TEXT, store, t) == SweepStore(NUMERIC, store, t)
  {
    hide OrdersAgree, Before;
    forall id | id in store ensures Before(TEXT, store[id], t) <==> Before(NUMERIC, store[id], t) {
      OrdersAgreeAt(store[id], t);
    }
  }

  lemma SameSweepSameRotation(o: Order, p: Order, r: Room, t: int)
    requires Filter(r.queue, Unexpired(o, t)) == Filter(r.queue, Unexpired(p, t))
    requires SweepStore(o, r.store, t) == SweepStore(p, r.store, t)
    ensures RotateStep(o, r, t) == RotateStep(p, r, t)
  {
    assert SweepQueue(o, r.queue, t) == SweepQueue(p, r.queue, t);
    assert Promoted(o, r, t) == Promoted(p, r, t);
  }

  /** At a rotation that compares text an id stays or goes as it would by the numbers exactly if the
      two orders agree on its expiry. */
  lemma TextKeepsOnTimeIff(r: Room, id: Id, t: int)
    requires WellFormed(r) && Present(r, id)
    ensures (Present(RotateStep(TEXT, r, t).0, id) <==> Present(RotateStep(NUMERIC, r, t).0, id))
            <==> OrdersAgree(ExpiryOf(r, id), t)
  {
    KeptByRotationIff(TEXT, r, id, t);
    KeptByRotationIff(NUMERIC, r, id, t);
    OrdersAgreeAt(ExpiryOf(r, id), t);
  }

  /** The rotation on text is the rotation on numbers, promotions, positions and counts included,
      exactly if the orders agree on every expiry in the room. */
  lemma RotationsAgreeIff(r: Room, t: int)
    requires WellFormed(r)
    ensures RotateStep(TEXT, r, t) == RotateStep(NUMERIC, r, t) <==> Agreed(r, t)
    ensures RotateStep(TEXT, r, t).0 == RotateStep(NUMERIC, r, t).0 <==> Agreed(r, t)
  {
    if Agreed(r, t) {
      RotationsAgree(r, t);
    } else if i :| 0 <= i < |r.queue| && !OrdersAgree(r.queue[i].expiry, t) {
      IndexOfAt(r.queue, i);
      TextKeepsOnTimeIff(r, r.queue[i].id, t);
    } else {
      var id :| id in r.store && !OrdersAgree(r.store[id], t);
      TextKeepsOnTimeIff(r, id, t);
    }
  }

  lemma RotationsAgree(r: Room, t: int)
    requires Agreed(r, t)
    ensures RotateStep(TEXT, r, t) == RotateStep(NUMERIC, r, t)
  {
    FiltersAgree(r.queue, t);
    StoresAgree(r.store, t);
    SameSweepSameRotation(TEXT, NUMERIC, r, t);
  }

  /** At every rotation of the numeric run, the orders agree on every expiry in the room. */
  ghost predicate AgreedThroughout(r: Room, ops: seq<Op>) {
    forall k :: 0 <= k < |ops| && ops[k].Rotate? ==> Agreed(After(NUMERIC, r, ops, k), ops[k].time)
  }

  lemma StepsAgreeIff(r: Room, op: Op)
    requires WellFormed(r)
    ensures Step(TEXT, r, op).0 == Step(NUMERIC, r, op).0 <==> (op.Rotate? ==> Agreed(r, op.time))
    ensures (op.Rotate? ==> Agreed(r, op.time)) ==> Step(TEXT, r, op) == Step(NUMERIC, r, op)
  {
    if op.Rotate? {
      RotationsAgreeIff(r, op.time);
      hide Agreed, RotateStep;
    }
  }

  lemma {:induction false} AgreedRunsAreEqual(r: Room, ops: seq<Op>)
    requires WellFormed(r) && AgreedThroughout(r, ops)
    ensures Run(TEXT, r, ops) == Run(NUMERIC, r, ops) && Replies(TEXT, r, ops) == Replies(NUMERIC, r, ops)
    decreases |ops|
  {
    hide Agreed, Step, WellFormed;
    if ops != [] {
      var n := |ops| - 1;
      var before := ops[..n];
      forall k | 0 <= k < n && before[k].Rotate? ensures Agreed(After(NUMERIC, r, before, k), before[k].time) {
        AfterPrefix(NUMERIC, r, ops, k);
      }
      AgreedRunsAreEqual(r, before);
      RunKeepsWellFormed(NUMERIC, r, before);
      assert After(NUMERIC, r, ops, n) == Run(NUMERIC, r, before);
      StepsAgreeIff(Run(NUMERIC, r, before), ops[n]);
    }
  }

  /** A run that compares text goes through the same rooms as one that compares numbers exactly if
      the orders agree on every expiry in the room whenever it rotates. */
  lemma TextRunIsNumericRunIff(r: Room, ops: seq<Op>)
    requires WellFormed(r)
    ensures (forall k :: 0 <= k <= |ops| ==> After(TEXT, r, ops, k) == After(NUMERIC, r, ops, k))
            <==> AgreedThroughout(r, ops)
    ensures AgreedThroughout(r, ops) ==> Replies(TEXT, r, ops) == Replies(NUMERIC, r, ops)
  {
    hide Agreed, Step, WellFormed, Run, Replies;
    if AgreedThroughout(r, ops) {
      AgreedRunsAreEqual(r, ops);
      forall k | 0 <= k <= |ops| ensures After(TEXT, r, ops, k) == After(NUMERIC, r, ops, k) {
        AgreedBefore(r, ops, k);
        AgreedRunsAreEqual(r, ops[..k]);
      }
    } else {
      var k :| 0 <= k < |ops| && ops[k].Rotate? && !Agreed(After(NUMERIC, r, ops, k), ops[k].time);
      RunsDiffer(r, ops, k);
    }
  }

  lemma AgreedBefore(r: Room, ops: seq<Op>, k: nat)
    requires k <= |ops| && AgreedThroughout(r, ops)
    ensures AgreedThroughout(r, ops[..k])
  {
    hide Agreed, Run;
    forall i | 0 <= i < k && ops[i].Rotate? ensures Agreed(After(NUMERIC, r, ops[..k], i), ops[i].time) {
      assert ops[..k][..i] == ops[..i] && Agreed(After(NUMERIC, r, ops, i), ops[i].time);
    }
  }

  lemma RunsDiffer(r: Room, ops: seq<Op>, k: nat)
    requires WellFormed(r) && k < |ops| && ops[k].Rotate? && !Agreed(After(NUMERIC, r, ops, k), ops[k].time)
    ensures || After(TEXT, r, ops, k) != After(NUMERIC, r, ops, k)
            || After(TEXT, r, ops, k + 1) != After(NUMERIC, r, ops, k + 1)
  {
    hide Agreed, Step, WellFormed;
    RunKeepsWellFormed(NUMERIC, r, ops[..k]);
    StepsAgreeIff(After(NUMERIC, r, ops, k), ops[k]);
    assert ops[..k + 1][..k] == ops[..k];
  }

  lemma TenDigitsAgree(r: Room, t: int)
    requires TenDigitRoom(r) && TenDigitTime(t)
    ensures Agreed(r, t)
  {
    forall e: int | TenDigitTime(e) ensures OrdersAgree(e, t) {
      TextOrderInWindow(e, t);
      OrdersAgreeAt(e, t);
    }
  }

  lemma {:induction false} AdmitTenDigits(store: map<Id, int>, q: seq<Ticket>)
    requires forall id :: id in store ==> TenDigitTime(store[id])
    requires forall i :: 0 <= i < |q| ==> TenDigitTime(q[i].expiry)
    ensures forall id :: id in Admit(store, q) ==> TenDigitTime(Admit(store, q)[id])
    decreases |q|
  {
    if q != [] { AdmitTenDigits(store, q[..|q| - 1]); }
  }

  lemma RotateKeepsTenDigits(r: Room, t: int)
    requires TenDigitRoom(r)
    ensures TenDigitRoom(RotateStep(NUMERIC, r, t).0)
  {
    var queue, n := SweepQueue(NUMERIC, r.queue, t), Promoted(NUMERIC, r, t);
    forall k | 0 <= k < |queue| ensures TenDigitTime(queue[k].expiry) {
      var i := FilterFrom(r.queue, Unexpired(NUMERIC, t), k);
    }
    AdmitTenDigits(SweepStore(NUMERIC, r.store, t), queue[..n]);
  }

  lemma StepKeepsTenDigits(r: Room, op: Op)
    requires TenDigitRoom(r) && InWindow(op)
    ensures TenDigitRoom(Step(NUMERIC, r, op).0)
    ensures Step(TEXT, r, op) == Step(NUMERIC, r, op)
  {
    match op
    case Rotate(t) =>
      TenDigitsAgree(r, t);
      RotationsAgree(r, t);
      RotateKeepsTenDigits(r, t);
    case Promote(id, _, _) =>
      var queue := Filter(r.queue, Other(id));
      forall k | 0 <= k < |queue| ensures TenDigitTime(queue[k].expiry) {
        var i := FilterFrom(r.queue, Other(id), k);
      }
    case _ =>
  }

  /** Comparing the text of the times is sound: while every time and every expiry made from it has
      ten digits, a run that compares text and a run that compares numbers have the same rooms
      and the same answers. */
  lemma {:induction false} TextRunIsNumericRun(r: Room, ops: seq<Op>)
    requires TenDigitRoom(r) && forall k :: 0 <= k < |ops| ==> InWindow(ops[k])
    ensures TenDigitRoom(Run(NUMERIC, r, ops))
    ensures Run(TEXT, r, ops) == Run(NUMERIC, r, ops)
    ensures Replies(TEXT, r, ops) == Replies(NUMERIC, r, ops)
    decreases |ops|
  {
    if ops != [] {
      var before := ops[..|ops| - 1];
      TextRunIsNumericRun(r, before);
      StepKeepsTenDigits(Run(NUMERIC, r, before), ops[|ops| - 1]);
    }
  }

  /** Outside the window it is not: at time 9 an id that may stay until 10 is thrown out. */
  lemma TextOrderEvictsEarly()
    ensures
      var r := Room([], map["a" := 10], 1);
      && WellFormed(r)
      && "a" !in RotateStep(TEXT, r, 9).0.store
      && "a" in RotateStep(NUMERIC, r, 9).0.store
  {
    var r := Room([], map["a" := 10], 1);
    assert Digits(10) == Digits(1) + [Digit(0)];
    assert Before(TEXT, 10, 9);
    assert SweepStore(TEXT, r.store, 9) == map[];
    assert SweepStore(NUMERIC, r.store, 9) == r.store;
    assert Admit(map[], SweepQueue(TEXT, [], 9)[..0]) == map[];
    assert RotateStep(TEXT, r, 9).0.store == map[];
  }

  /** Lazy removal in the machine that runs, on the text of the times. */
  lemma RemovedIdIsEvictedOnText(r: Room, x: Id, t: int, ops: seq<Op>)
    requires WellFormed(r) && Queued(r.queue, x) && TenDigitRoom(r)
    requires LeftAlone(ops, x) && InTimeOrder(t, ops)
    requires InWindow(Remove(x, t)) && forall k :: 0 <= k < |ops| ==> InWindow(ops[k])
    ensures
      var room := Run(TEXT, Step(TEXT, r, Remove(x, t)).0, ops);
      x !in room.store && (HasRotation(ops) ==> !Queued(room.queue, x))
  {
    StepKeepsTenDigits(r, Remove(x, t));
    TextRunIsNumericRun(Step(NUMERIC, r, Remove(x, t)).0, ops);
    RemovedIdIsEvicted(r, x, t, ops);
  }
}
