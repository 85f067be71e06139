/**
 The waiting room as a pure state machine: a queue of tickets in order, a store of admitted
 ids with their expiry times, and a capacity.  One step is one Redis script, or the
 transaction of three scripts that makes up a rotation.  Steps come from many servers and
 carry times read earlier, so a run is any sequence of steps with any times.
 */
module WaitingRoom {
  import opened Numerals
  import opened QueueModels

  type Id = string

  /** A place in the queue; `cached` is the position the queue last told this id. */
  datatype Ticket = Ticket(id: Id, expiry: int, cached: nat)

  /** A negative capacity stands for a store without limit. */
  datatype Room = Room(queue: seq<Ticket>, store: map<Id, int>, capacity: int)

  /** How expiry times are compared: Before(o, e, t) says that o finds e earlier than t. */
  type Order = (int, int) -> bool

  predicate Before(o: Order, e: int, t: int) {
    o(e, t)
  }

  /** The order of the scripts, on the text of the times. */
  const TEXT: Order := (e: int, t: int) => LuaLess(Decimal(e), Decimal(t))

  /** The order of the times themselves. */
  const NUMERIC: Order := (e: int, t: int) => e < t

  datatype Op =
    | Position(id: Id, time: int, validated: nat, quarantine: nat, create: bool)
    | Promote(id: Id, time: int, validated: nat)
    | Remove(id: Id, time: int)
    | Rotate(time: int)
    | SetCapacity(capacity: StoreCapacity)

  datatype Reply =
    | Answer(status: nat, position: nat)
    | Done
    | Rotated(counts: QueueRotate)

  // ---------------------------------------------------------------- lookup and filters

  function IndexFrom(q: seq<Ticket>, id: Id, k: nat): (i: nat)
    requires k <= |q|
    ensures k <= i <= |q|
    ensures i < |q| ==> q[i].id == id
    ensures forall j :: k <= j < i ==> q[j].id != id
    decreases |q| - k
  {
    if k == |q| || q[k].id == id then k else IndexFrom(q, id, k + 1)
  }

  /** The index of an id in the queue, or the queue's length if it is not there. */
  function IndexOf(q: seq<Ticket>, id: Id): (i: nat)
    ensures i <= |q|
    ensures i < |q| ==> q[i].id == id
    ensures forall j :: 0 <= j < i ==> q[j].id != id
  {
    IndexFrom(q, id, 0)
  }

  predicate Queued(q: seq<Ticket>, id: Id) {
    IndexOf(q, id) < |q|
  }

  /** The tickets of q that satisfy `keep`, in order. */
  function Filter(q: seq<Ticket>, keep: Ticket -> bool): (f: seq<Ticket>)
    ensures |f| <= |q|
  {
    if q == [] then []
    else Filter(q[..|q| - 1], keep) + (if keep(q[|q| - 1]) then [q[|q| - 1]] else [])
  }

  function Unexpired(o: Order, t: int): Ticket -> bool {
    (x: Ticket) => !Before(o, x.expiry, t)
  }

  function Other(id: Id): Ticket -> bool {
    (x: Ticket) => x.id != id
  }

  // ---------------------------------------------------------------- the steps

  /** Tell every ticket its true position. */
  function Renumber(q: seq<Ticket>): (r: seq<Ticket>)
    ensures |r| == |q|
    ensures forall i :: 0 <= i < |q| ==> r[i] == q[i].(cached := i + 1)
  {
    seq(|q|, i requires 0 <= i < |q| => q[i].(cached := i + 1))
  }

  function SweepQueue(o: Order, q: seq<Ticket>, t: int): seq<Ticket> {
    Renumber(Filter(q, Unexpired(o, t)))
  }

  function SweepStore(o: Order, store: map<Id, int>, t: int): map<Id, int> {
    map id | id in store && !Before(o, store[id], t) :: store[id]
  }

  /** How many ids a store of this size takes from the queue. */
  function Vacancies(capacity: int, size: nat): nat {
    if size < capacity then capacity - size else 0
  }

  function Min(a: nat, b: nat): nat {
    if a <= b then a else b
  }

  /** Put tickets into the store, with their queue expiry. */
  function Admit(store: map<Id, int>, q: seq<Ticket>): map<Id, int> {
    if q == [] then store
    else Admit(store, q[..|q| - 1])[q[|q| - 1].id := q[|q| - 1].expiry]
  }

  function PositionStep(r: Room, op: Op): (Room, Reply)
    requires op.Position?
  {
    var i := IndexOf(r.queue, op.id);
    if op.id in r.store then
      (r.(store := r.store[op.id := op.time + op.validated]), Answer(1, 0))
    else if i < |r.queue| then
      (r.(queue := r.queue[i := r.queue[i].(expiry := op.time + op.validated)]),
       Answer(1, r.queue[i].cached))
    else if !op.create then
      (r, Answer(0, 0))
    else if r.capacity < 0 || (r.queue == [] && |r.store| < r.capacity) then
      (r.(store := r.store[op.id := op.time + op.validated]), Answer(2, 0))
    else
      (r.(queue := r.queue + [Ticket(op.id, op.time + op.quarantine, |r.queue| + 1)]),
       Answer(2, |r.queue| + 1))
  }

  function RemoveStep(r: Room, id: Id, time: int): Room {
    var i := IndexOf(r.queue, id);
    if i < |r.queue| then r.(queue := r.queue[i := r.queue[i].(expiry := time - 1)])
    else r.(store := r.store - {id})
  }

  /** The number of ids a rotation at time t promotes. */
  function Promoted(o: Order, r: Room, t: int): nat {
    Min(|SweepQueue(o, r.queue, t)|, Vacancies(r.capacity, |SweepStore(o, r.store, t)|))
  }

  function RotateStep(o: Order, r: Room, t: int): (Room, QueueRotate) {
    var queue := SweepQueue(o, r.queue, t);
    var store := SweepStore(o, r.store, t);
    var n := Promoted(o, r, t);
    SweepStoreSize(o, r.store, t);
    (Room(queue[n..], Admit(store, queue[..n]), r.capacity),
     QueueRotate(|r.queue| - |queue|, |r.store| - |store|, n))
  }

  function Step(o: Order, r: Room, op: Op): (Room, Reply) {
    match op
    case Position(_, _, _, _, _) => PositionStep(r, op)
    case Promote(id, time, validated) =>
      (Room(Filter(r.queue, Other(id)), r.store[id := time + validated], r.capacity), Done)
    case Remove(id, time) => (RemoveStep(r, id, time), Done)
    case Rotate(time) => var (room, counts) := RotateStep(o, r, time); (room, Rotated(counts))
    case SetCapacity(c) => (r.(capacity := ToIsize(c)), Done)
  }

  /** The room after a run. */
  function Run(o: Order, r: Room, ops: seq<Op>): Room {
    if ops == [] then r
    else Step(o, Run(o, r, ops[..|ops| - 1]), ops[|ops| - 1]).0
  }

  /** What the run answered, step by step. */
  function Replies(o: Order, r: Room, ops: seq<Op>): (rs: seq<Reply>)
    ensures |rs| == |ops|
  {
    if ops == [] then []
    else Replies(o, r, ops[..|ops| - 1]) + [Step(o, Run(o, r, ops[..|ops| - 1]), ops[|ops| - 1]).1]
  }

  predicate Present(r: Room, id: Id) {
    id in r.store || Queued(r.queue, id)
  }

  /** When the id's stay, in store or queue, runs out. */
  function ExpiryOf(r: Room, id: Id): int
    requires Present(r, id)
  {
    if id in r.store then r.store[id] else r.queue[IndexOf(r.queue, id)].expiry
  }

  /** The state every reachable room is in: an id is at most once in the queue, never in queue
      and store at once, and no ticket was told a position better than its own. */
  ghost predicate WellFormed(r: Room) {
    && Distinct(r.queue)
    && (forall i :: 0 <= i < |r.queue| ==> r.queue[i].id !in r.store)
    && (forall i :: 0 <= i < |r.queue| ==> r.queue[i].cached >= i + 1)
  }

  ghost predicate Distinct(q: seq<Ticket>) {
    forall i, j :: 0 <= i < j < |q| ==> q[i].id != q[j].id
  }

  // ---------------------------------------------------------------- facts about the parts

  lemma SweepStoreSize(o: Order, store: map<Id, int>, t: int)
    ensures SweepStore(o, store, t).Keys <= store.Keys
    ensures |SweepStore(o, store, t)| <= |store|
  {
    SubsetSize(SweepStore(o, store, t).Keys, store.Keys);
  }

  lemma {:induction false} SubsetSize<T>(a: set<T>, b: set<T>)
    requires a <= b
    ensures |a| <= |b|
    decreases |a|
  {
    if x :| x in a { SubsetSize(a - {x}, b - {x}); }
  }

  /** A kept ticket lands where the kept tickets before it end, no further back than it was. */
  lemma {:induction false} FilterKeeps(q: seq<Ticket>, keep: Ticket -> bool, i: nat)
    requires i < |q| && keep(q[i])
    ensures |Filter(q[..i], keep)| < |Filter(q, keep)|
    ensures Filter(q, keep)[|Filter(q[..i], keep)|] == q[i]
    decreases |q|
  {
    if i < |q| - 1 {
      assert q[..|q| - 1][..i] == q[..i];
      FilterKeeps(q[..|q| - 1], keep, i);
    }
  }

  /** Every ticket of the filtered queue comes from one that was kept. */
  lemma {:induction false} FilterFrom(q: seq<Ticket>, keep: Ticket -> bool, k: nat) returns (i: nat)
    requires k < |Filter(q, keep)|
    ensures i < |q| && keep(q[i]) && q[i] == Filter(q, keep)[k] && k == |Filter(q[..i], keep)|
    ensures k <= i
    decreases |q|
  {
    var p := q[..|q| - 1];
    if k < |Filter(p, keep)| {
      i := FilterFrom(p, keep, k);
      assert p[..i] == q[..i];
    } else {
      i := |q| - 1;
    }
  }

  lemma {:induction false} FilterMonotone(q: seq<Ticket>, keep: Ticket -> bool, i: nat, j: nat)
    requires i <= j <= |q|
    ensures |Filter(q[..i], keep)| <= |Filter(q[..j], keep)|
    decreases j
  {
    if i < j {
      assert q[..j][..j - 1] == q[..j - 1];
      FilterMonotone(q, keep, i, j - 1);
    }
  }

  lemma FilterDistinct(q: seq<Ticket>, keep: Ticket -> bool)
    requires Distinct(q)
    ensures Distinct(Filter(q, keep))
  {
    forall k, l | 0 <= k < l < |Filter(q, keep)| ensures Filter(q, keep)[k].id != Filter(q, keep)[l].id {
      var i := FilterFrom(q, keep, k);
      var j := FilterFrom(q, keep, l);
      if j < i { FilterMonotone(q, keep, j, i); }
    }
  }

  lemma {:induction false} AdmitKeys(store: map<Id, int>, q: seq<Ticket>)
    ensures forall id :: id in Admit(store, q) <==> id in store || Queued(q, id)
    decreases |q|
  {
    if q != [] {
      var p := q[..|q| - 1];
      AdmitKeys(store, p);
      forall id ensures Queued(q, id) <==> Queued(p, id) || q[|q| - 1].id == id {
        if Queued(p, id) { assert q[IndexOf(p, id)].id == id; }
        if Queued(q, id) && q[|q| - 1].id != id { assert p[IndexOf(q, id)].id == id; }
      }
    }
  }

  lemma LastIsNew(store: map<Id, int>, q: seq<Ticket>)
    requires q != [] && Distinct(q)
    requires q[|q| - 1].id !in store
    ensures q[|q| - 1].id !in Admit(store, q[..|q| - 1])
  {
    var p := q[..|q| - 1];
    AdmitKeys(store, p);
    QueuedAt(p, q[|q| - 1].id);
  }

  lemma {:induction false} AdmitKeeps(store: map<Id, int>, q: seq<Ticket>, id: Id)
    requires id in store && forall i :: 0 <= i < |q| ==> q[i].id != id
    ensures id in Admit(store, q) && Admit(store, q)[id] == store[id]
    decreases |q|
  {
    if q != [] { AdmitKeeps(store, q[..|q| - 1], id); }
  }

  lemma {:induction false} AdmitCarries(store: map<Id, int>, q: seq<Ticket>, i: nat)
    requires Distinct(q) && i < |q|
    ensures q[i].id in Admit(store, q) && Admit(store, q)[q[i].id] == q[i].expiry
    decreases |q|
  {
    if i < |q| - 1 { AdmitCarries(store, q[..|q| - 1], i); }
  }

  lemma {:induction false} AdmitSize(store: map<Id, int>, q: seq<Ticket>)
    requires Distinct(q) && forall i :: 0 <= i < |q| ==> q[i].id !in store
    ensures |Admit(store, q)| == |store| + |q|
    decreases |q|
  {
    if q != [] {
      var p := q[..|q| - 1];
      AdmitSize(store, p);
      LastIsNew(store, q);
      assert Admit(store, q).Keys == Admit(store, p).Keys + {q[|q| - 1].id};
    }
  }

  /** Admission keeps the old entries and carries each ticket's expiry over. */
  lemma AdmitEntries(store: map<Id, int>, q: seq<Ticket>)
    requires Distinct(q)
    requires forall i :: 0 <= i < |q| ==> q[i].id !in store
    ensures forall id :: id in store ==> id in Admit(store, q) && Admit(store, q)[id] == store[id]
    ensures forall i :: 0 <= i < |q| ==> q[i].id in Admit(store, q) && Admit(store, q)[q[i].id] == q[i].expiry
    ensures |Admit(store, q)| == |store| + |q|
  {
    AdmitSize(store, q);
    hide Admit;
    forall id | id in store ensures id in Admit(store, q) && Admit(store, q)[id] == store[id] {
      AdmitKeeps(store, q, id);
    }
    forall i | 0 <= i < |q| ensures q[i].id in Admit(store, q) && Admit(store, q)[q[i].id] == q[i].expiry {
      AdmitCarries(store, q, i);
    }
  }

  lemma IndexOfAt(q: seq<Ticket>, i: nat)
    requires Distinct(q) && i < |q|
    ensures IndexOf(q, q[i].id) == i
  {
  }

  lemma QueuedAt(q: seq<Ticket>, id: Id)
    ensures Queued(q, id) <==> exists i :: 0 <= i < |q| && q[i].id == id
  {
    if Queued(q, id) { assert q[IndexOf(q, id)].id == id; }
  }
}
