/**
 What a call does that is left alone.  Whatever else is under way, a call whose operations follow
 each other undisturbed does to the servers of the pool what the step of its name in PoolRuns does
 and ends with its answer; so every sequence of calls one after the other is a run of the tasks.
 */
module UpstreamCalls {
  import opened Wrappers
  import opened Upstream
  import P = PoolRuns
  import opened UpstreamTasks

  /** The servers of the pool, in order. */
  function Servers(s: System): (servers: seq<Server>)
    requires InRange(s, s.pool)
    ensures |servers| == |s.pool|
    ensures forall k :: 0 <= k < |s.pool| ==> servers[k] == s.instances[s.pool[k]]
  {
    seq(|s.pool|, k requires 0 <= k < |s.pool| => s.instances[s.pool[k]])
  }

  /** The pool as a caller sees it. */
  function Shown(s: System): Pool
    requires InRange(s, s.pool)
  {
    Pool(Servers(s), s.nextId)
  }

  /** Only server h of the pool and task i have changed. */
  function Put(s: System, h: nat, server: Server, i: nat, task: Task): System
    requires h < |s.pool| && InRange(s, s.pool) && i < |s.tasks|
  {
    s.(instances := s.instances[s.pool[h] := server], tasks := s.tasks[i := task])
  }

  lemma PutShows(s: System, h: nat, server: Server, i: nat, task: Task)
    requires Inv(s) && h < |s.pool| && i < |s.tasks|
    ensures InRange(Put(s, h, server, i, task), s.pool)
    ensures Servers(Put(s, h, server, i, task)) == Servers(s)[h := server]
  {
  }

  lemma SetTwice(s: System, i: nat, a: Task, b: Task)
    requires InRange(s, s.pool) && i < |s.tasks|
    ensures Set(Set(s, i, a), i, b) == Set(s, i, b)
    ensures Set(s, i, a).pool == s.pool && |Set(s, i, a).tasks| == |s.tasks| && Set(s, i, a).tasks[i] == a
    ensures InRange(Set(s, i, a), s.pool) && Servers(Set(s, i, a)) == Servers(s)
  {
  }

  /** The labels are operations of task i, with this instant, and at most the aborting of tasks that
      were started after it. */
  ghost predicate ByTask(labels: seq<Label>, i: nat, now: int) {
    forall k :: 0 <= k < |labels| ==> OfTask(labels[k], i, now)
  }

  predicate OfTask(l: Label, i: nat, now: int) {
    match l
    case Go(task) => task == i
    case Touch(task, instant) => task == i && instant == now
    case Add(task, instant) => task == i && instant == now
    case Rescan(task, _) => task == i
    case GiveUp(task) => task == i
    case Abort(child) => child > i
    case _ => false
  }

  /** The labels start a call and carry it on. */
  ghost predicate CallOf(labels: seq<Label>, start: Label, i: nat, now: int) {
    labels != [] && labels[0] == start && ByTask(labels[1..], i, now)
  }

  lemma CallOn(labels: seq<Label>, start: Label, i: nat, now: int, more: seq<Label>)
    requires CallOf(labels, start, i, now) && ByTask(more, i, now)
    ensures CallOf(labels + more, start, i, now)
  {
    assert (labels + more)[1..] == labels[1..] + more;
  }

  lemma CallStarts(start: Label, i: nat, now: int)
    ensures CallOf([start], start, i, now)
  {
  }

  lemma NoLabels(i: nat, now: int)
    ensures ByTask([], i, now)
  {
  }

  lemma TaskDoes(l: Label, i: nat, now: int)
    requires OfTask(l, i, now)
    ensures ByTask([l], i, now)
  {
  }

  lemma TaskOn(labels: seq<Label>, i: nat, now: int, more: seq<Label>)
    requires ByTask(labels, i, now) && ByTask(more, i, now)
    ensures ByTask(labels + more, i, now)
  {
  }

  // ---------------------------------------------------------------- remove_sticky_session

  lemma SeeksFurther(s: System, i: nat, x: Uuid, k: nat)
    requires Inv(s) && i < |s.tasks| && s.tasks[i] == Seeking(x, k)
    ensures k <= |s.pool|
    ensures Apply(s, Go(i))
            == Set(s, i, if k == |s.pool| then Finished
                         else if x in s.instances[s.pool[k]].sticky then Removing(x, s.pool[k]) else Seeking(x, k + 1))
  {
    assert TaskOk(s, s.tasks[i]);
    hide FindId, FromPool;
  }

  lemma HolderIs(servers: seq<Server>, x: Uuid, h: nat)
    requires h <= |servers| && (h < |servers| ==> x in servers[h].sticky)
    requires forall j :: 0 <= j < h ==> x !in servers[j].sticky
    ensures P.Holder(servers, x) == h
  {
    hide P.HolderFrom;
  }

  lemma {:induction false} Seeks(s: System, i: nat, x: Uuid, k: nat) returns (labels: seq<Label>)
    requires Inv(s) && i < |s.tasks| && s.tasks[i] == Seeking(x, k)
    requires k <= |s.pool| && forall j :: 0 <= j < k ==> x !in Servers(s)[j].sticky
    ensures ByTask(labels, i, 0)
    ensures
      var h := P.Holder(Servers(s), x);
      Run(s, labels) == Set(s, i, if h == |s.pool| then Finished else Removing(x, s.pool[h]))
    decreases |s.pool| - k
  {
    SeeksFurther(s, i, x, k);
    RunsOne(s, Go(i));
    labels := [Go(i)];
    TaskDoes(Go(i), i, 0);
    hide Inv, Apply, Run, Servers, P.Holder, Set, ByTask, CallOf;
    if k < |s.pool| && x !in Servers(s)[k].sticky {
      SetTwice(s, i, Seeking(x, k + 1), Finished);
      var t := Set(s, i, Seeking(x, k + 1));
      var rest := Seeks(t, i, x, k + 1);
      RunsOn(s, labels, rest);
      TaskOn(labels, i, 0, rest);
      labels := labels + rest;
      SetTwice(s, i, Seeking(x, k + 1), t.tasks[i]);
      var h := P.Holder(Servers(s), x);
      if h < |s.pool| { SetTwice(s, i, Seeking(x, k + 1), Removing(x, s.pool[h])); }
    } else {
      HolderIs(Servers(s), x, k);
    }
  }

  lemma Removes(s: System, i: nat, x: Uuid, h: nat)
    requires Inv(s) && i < |s.tasks| && h < |s.pool| && s.tasks[i] == Removing(x, s.pool[h])
    ensures Apply(s, Go(i)) == Put(s, h, P.Unstick(Servers(s)[h], x), i, Finished)
  {
    assert TaskOk(s, s.tasks[i]);
    hide FindId, FromPool;
  }

  /** What a call that has been started and run alone leaves: its own task behind the others, which are
      as they were, and at most finished tasks behind it. */
  ghost predicate Leaves(s: System, t: System, own: Task) {
    && |s.tasks| < |t.tasks| && t.tasks[..|s.tasks|] == s.tasks && t.tasks[|s.tasks|] == own
    && forall i :: |s.tasks| < i < |t.tasks| ==> t.tasks[i].Finished?
  }

  /** The new task holds what the answer says: a guard with the URI and a permit of such a server of
      the pool, or nothing. */
  ghost predicate Answered(s: System, t: System, reply: P.Reply) {
    && InRange(s, s.pool)
    && match reply
       case Granted(uri) =>
         exists h :: 0 <= h < |s.pool| && Servers(s)[h].uri == uri && Leaves(s, t, Guarded(s.pool[h], uri))
       case _ => Leaves(s, t, Finished)
  }

  /** The call has done to the pool what the step does, with its answer. */
  ghost predicate Did(s: System, t: System, op: P.Op) {
    && InRange(s, s.pool) && InRange(t, t.pool)
    && Shown(t) == P.Step(Shown(s), op).0
    && Answered(s, t, P.Step(Shown(s), op).1)
  }

  /** A task has been started. */
  function Begin(s: System, task: Task): System {
    s.(tasks := s.tasks + [task])
  }

  lemma BeginSet(s: System, a: Task, b: Task)
    requires InRange(s, s.pool)
    ensures |Begin(s, a).tasks| == |s.tasks| + 1 && Begin(s, a).tasks[|s.tasks|] == a
    ensures Set(Begin(s, a), |s.tasks|, b) == Begin(s, b)
    ensures Begin(s, a).nextId == s.nextId && Begin(s, a).pool == s.pool
    ensures InRange(Begin(s, a), s.pool) && Servers(Begin(s, a)) == Servers(s)
    ensures Leaves(s, Begin(s, a), a)
  {
  }

  /** Server h of the pool has changed too. */
  function BeginPut(s: System, h: nat, server: Server, task: Task): System
    requires h < |s.pool| && InRange(s, s.pool)
  {
    s.(instances := s.instances[s.pool[h] := server], tasks := s.tasks + [task])
  }

  lemma BeginPutShows(s: System, h: nat, server: Server, task: Task)
    requires Inv(s) && h < |s.pool|
    ensures
      var t := BeginPut(s, h, server, task);
      && t.nextId == s.nextId && t.pool == s.pool && InRange(t, t.pool)
      && Servers(t) == Servers(s)[h := server] && Leaves(s, t, task)
  {
  }

  lemma StartsRemoval(s: System, x: Uuid)
    requires Inv(s)
    ensures Run(s, [StartRemoval(x)]) == Begin(s, Seeking(x, 0)) && Inv(Begin(s, Seeking(x, 0)))
  {
    RunsOne(s, StartRemoval(x));
    ApplyKeepsInv(s, StartRemoval(x));
  }

  lemma ThenOne(s: System, labels: seq<Label>, l: Label)
    requires Inv(s)
    ensures Run(s, labels + [l]) == Apply(Run(s, labels), l)
  {
    RunsOn(s, labels, [l]);
    RunsOne(Run(s, labels), l);
  }

  lemma RemovalRuns(s: System, x: Uuid) returns (labels: seq<Label>)
    requires Inv(s)
    ensures CallOf(labels, StartRemoval(x), |s.tasks|, 0)
    ensures
      var h := P.Holder(Servers(s), x);
      Run(s, labels) == if h == |s.pool| then Begin(s, Finished) else BeginPut(s, h, P.Unstick(Servers(s)[h], x), Finished)
  {
    var i, h, begun := |s.tasks|, P.Holder(Servers(s), x), Begin(s, Seeking(x, 0));
    hide Inv, Apply, Run, Servers, P.Holder, Set, Begin, ByTask, CallOf;
    StartsRemoval(s, x);
    BeginSet(s, Seeking(x, 0), Finished);
    var search := Seeks(begun, i, x, 0);
    labels := [StartRemoval(x)] + search;
    RunsOn(s, [StartRemoval(x)], search);
    CallStarts(StartRemoval(x), i, 0);
    CallOn([StartRemoval(x)], StartRemoval(x), i, 0, search);
    if h < |s.pool| {
      BeginSet(s, Seeking(x, 0), Removing(x, s.pool[h]));
      BeginSet(s, Removing(x, s.pool[h]), Finished);
      ThenOne(s, labels, Go(i));
      TaskDoes(Go(i), i, 0);
      CallOn(labels, StartRemoval(x), i, 0, [Go(i)]);
      labels := labels + [Go(i)];
      Removes(Run(s, labels[..|labels| - 1]), i, x, h);
    }
  }

  lemma DidGrant(s: System, t: System, op: P.Op, h: nat, server: Server)
    requires Inv(s) && h < |s.pool|
    requires t == BeginPut(s, h, server, Guarded(s.pool[h], Servers(s)[h].uri))
    requires P.Step(Shown(s), op) == (Shown(s).(servers := Servers(s)[h := server]), P.Granted(Servers(s)[h].uri))
    ensures Did(s, t, op)
  {
    hide P.Step, Leaves, BeginPut;
    BeginPutShows(s, h, server, Guarded(s.pool[h], Servers(s)[h].uri));
  }

  lemma DidPut(s: System, t: System, op: P.Op, h: nat, server: Server)
    requires Inv(s) && h < |s.pool| && t == BeginPut(s, h, server, Finished)
    requires P.Step(Shown(s), op).0 == Shown(s).(servers := Servers(s)[h := server])
    requires !P.Step(Shown(s), op).1.Granted?
    ensures Did(s, t, op)
  {
    hide P.Step, Leaves, BeginPut;
    BeginPutShows(s, h, server, Finished);
  }

  lemma DidNothing(s: System, t: System, op: P.Op)
    requires Inv(s) && t == s.(tasks := t.tasks) && Leaves(s, t, Finished)
    requires P.Step(Shown(s), op).0 == Shown(s) && !P.Step(Shown(s), op).1.Granted?
    ensures Did(s, t, op)
  {
    hide P.Step, Leaves;
    assert Servers(t) == Servers(s);
  }

  /** A removal left alone takes the session from the first server of the pool that has it. */
  lemma RemovalAlone(s: System, x: Uuid) returns (labels: seq<Label>)
    requires Inv(s)
    ensures CallOf(labels, StartRemoval(x), |s.tasks|, 0)
    ensures Did(s, Run(s, labels), P.RemoveSession(x))
  {
    var h := P.Holder(Servers(s), x);
    hide Inv, Apply, Run, Begin, BeginPut, Leaves, Did, P.Holder, ByTask, CallOf;
    labels := RemovalRuns(s, x);
    if h == |s.pool| {
      BeginSet(s, Finished, Finished);
      BeginInstances(s, Finished);
      DidNothing(s, Run(s, labels), P.RemoveSession(x));
    } else {
      DidPut(s, Run(s, labels), P.RemoveSession(x), h, P.Unstick(Servers(s)[h], x));
    }
  }

  lemma BeginInstances(s: System, task: Task)
    ensures Begin(s, task) == s.(tasks := Begin(s, task).tasks)
  {
  }

  // ---------------------------------------------------------------- acquire_sticky_permit, for an id with a session

  lemma LooksFurther(s: System, i: nat, x: Uuid, k: nat)
    requires Inv(s) && i < |s.tasks| && s.tasks[i] == LookingUp(x, k)
    ensures k <= |s.pool|
    ensures Apply(s, Go(i))
            == Set(s, i, if k == |s.pool| then Retrying(x, false)
                         else if x in s.instances[s.pool[k]].sticky then Touching(x, s.pool[k]) else LookingUp(x, k + 1))
  {
    assert TaskOk(s, s.tasks[i]);
    hide FindId, FromPool;
  }

  lemma {:induction false} Looks(s: System, i: nat, x: Uuid, k: nat, now: int) returns (labels: seq<Label>)
    requires Inv(s) && i < |s.tasks| && s.tasks[i] == LookingUp(x, k)
    requires k <= |s.pool| && forall j :: 0 <= j < k ==> x !in Servers(s)[j].sticky
    ensures ByTask(labels, i, now)
    ensures
      var h := P.Holder(Servers(s), x);
      Run(s, labels) == Set(s, i, if h == |s.pool| then Retrying(x, false) else Touching(x, s.pool[h]))
    decreases |s.pool| - k
  {
    LooksFurther(s, i, x, k);
    RunsOne(s, Go(i));
    labels := [Go(i)];
    TaskDoes(Go(i), i, now);
    hide Inv, Apply, Run, Servers, P.Holder, Set, ByTask, CallOf;
    if k < |s.pool| && x !in Servers(s)[k].sticky {
      SetTwice(s, i, LookingUp(x, k + 1), Retrying(x, false));
      var t := Set(s, i, LookingUp(x, k + 1));
      var rest := Looks(t, i, x, k + 1, now);
      RunsOn(s, labels, rest);
      TaskOn(labels, i, now, rest);
      labels := labels + rest;
      var h := P.Holder(Servers(s), x);
      if h < |s.pool| { SetTwice(s, i, LookingUp(x, k + 1), Touching(x, s.pool[h])); }
    } else {
      HolderIs(Servers(s), x, k);
    }
  }

  lemma StartsSticky(s: System, x: Uuid)
    requires Inv(s)
    ensures Run(s, [StartSticky(x)]) == Begin(s, LookingUp(x, 0)) && Inv(Begin(s, LookingUp(x, 0)))
  {
    RunsOne(s, StartSticky(x));
    ApplyKeepsInv(s, StartSticky(x));
  }

  /** Up to the end of its search for the id. */
  lemma LookupRuns(s: System, x: Uuid, now: int) returns (labels: seq<Label>)
    requires Inv(s)
    ensures CallOf(labels, StartSticky(x), |s.tasks|, now)
    ensures
      var h := P.Holder(Servers(s), x);
      Run(s, labels) == Begin(s, if h == |s.pool| then Retrying(x, false) else Touching(x, s.pool[h]))
  {
    var h := P.Holder(Servers(s), x);
    hide Inv, Apply, Run, Servers, P.Holder, Set, Begin, ByTask, CallOf;
    StartsSticky(s, x);
    BeginSet(s, LookingUp(x, 0), if h == |s.pool| then Retrying(x, false) else Touching(x, s.pool[h]));
    var search := Looks(Begin(s, LookingUp(x, 0)), |s.tasks|, x, 0, now);
    labels := [StartSticky(x)] + search;
    RunsOn(s, [StartSticky(x)], search);
    CallStarts(StartSticky(x), |s.tasks|, now);
    CallOn([StartSticky(x)], StartSticky(x), |s.tasks|, now, search);
  }

  lemma Touches(s: System, i: nat, x: Uuid, h: nat, now: int)
    requires Inv(s) && i < |s.tasks| && h < |s.pool| && s.tasks[i] == Touching(x, s.pool[h])
    requires x in Servers(s)[h].sticky
    ensures Apply(s, Touch(i, now)) == Put(s, h, P.Stick(Servers(s)[h], x, now), i, Acquiring(s.pool[h]))
  {
    assert TaskOk(s, s.tasks[i]);
    hide FindId, FromPool, GoStep;
  }

  lemma Acquires(s: System, i: nat, h: nat)
    requires Inv(s) && i < |s.tasks| && h < |s.pool| && s.tasks[i] == Acquiring(s.pool[h])
    ensures
      var server := Servers(s)[h];
      Apply(s, Go(i))
      == if server.available > 0 then Put(s, h, P.Take(server), i, Guarded(s.pool[h], server.uri))
         else Set(s, i, Finished)
  {
    assert TaskOk(s, s.tasks[i]);
    hide FindId, FromPool;
  }

  lemma PutBegun(s: System, h: nat, a: Task, server: Server, b: Task)
    requires h < |s.pool| && InRange(s, s.pool)
    ensures Put(Begin(s, a), h, server, |s.tasks|, b) == BeginPut(s, h, server, b)
  {
  }

  lemma PutPut(s: System, h: nat, one: Server, a: Task, two: Server, b: Task)
    requires h < |s.pool| && Inv(s) && InRange(BeginPut(s, h, one, a), s.pool)
    ensures Put(BeginPut(s, h, one, a), h, two, |s.tasks|, b) == BeginPut(s, h, two, b)
    ensures Set(BeginPut(s, h, one, a), |s.tasks|, b) == BeginPut(s, h, one, b)
    ensures BeginPut(s, h, one, a).tasks[|s.tasks|] == a
  {
  }

  lemma StuckRuns(s: System, x: Uuid, now: int) returns (labels: seq<Label>)
    requires Inv(s) && P.Holder(Servers(s), x) < |s.pool|
    ensures CallOf(labels, StartSticky(x), |s.tasks|, now)
    ensures
      var h := P.Holder(Servers(s), x);
      var touched := P.Stick(Servers(s)[h], x, now);
      Run(s, labels)
      == if touched.available == 0 then BeginPut(s, h, touched, Finished)
         else BeginPut(s, h, P.Take(touched), Guarded(s.pool[h], touched.uri))
  {
    var i, h := |s.tasks|, P.Holder(Servers(s), x);
    var touched := P.Stick(Servers(s)[h], x, now);
    hide Inv, Apply, Run, P.Holder, Set, Begin, Put, BeginPut, Leaves, ByTask, CallOf;
    var lookup := LookupRuns(s, x, now);
    var looked := Begin(s, Touching(x, s.pool[h]));
    BeginSet(s, Touching(x, s.pool[h]), Finished);
    Touches(looked, i, x, h, now);
    ThenOne(s, lookup, Touch(i, now));
    PutBegun(s, h, Touching(x, s.pool[h]), touched, Acquiring(s.pool[h]));
    var marked := BeginPut(s, h, touched, Acquiring(s.pool[h]));
    assert Run(s, lookup + [Touch(i, now)]) == marked;
    BeginPutShows(s, h, touched, Acquiring(s.pool[h]));
    PutPut(s, h, touched, Acquiring(s.pool[h]), touched, Finished);
    Acquires(marked, i, h);
    ThenOne(s, lookup + [Touch(i, now)], Go(i));
    TaskDoes(Touch(i, now), i, now);
    TaskDoes(Go(i), i, now);
    CallOn(lookup, StartSticky(x), i, now, [Touch(i, now)]);
    CallOn(lookup + [Touch(i, now)], StartSticky(x), i, now, [Go(i)]);
    labels := lookup + [Touch(i, now)] + [Go(i)];
    if touched.available > 0 {
      PutPut(s, h, touched, Acquiring(s.pool[h]), P.Take(touched), Guarded(s.pool[h], touched.uri));
    }
  }

  /** A call left alone for an id that has a session marks it and takes a permit of its server, if it
      has one. */
  lemma StuckAlone(s: System, x: Uuid, now: int) returns (labels: seq<Label>)
    requires Inv(s) && P.Holder(Servers(s), x) < |s.pool|
    ensures CallOf(labels, StartSticky(x), |s.tasks|, now)
    ensures Did(s, Run(s, labels), P.AcquireSticky(x, now))
  {
    var h := P.Holder(Servers(s), x);
    var touched := P.Stick(Servers(s)[h], x, now);
    hide Inv, Apply, Run, BeginPut, Leaves, Did, P.Holder, ByTask, CallOf;
    labels := StuckRuns(s, x, now);
    if touched.available == 0 {
      DidPut(s, Run(s, labels), P.AcquireSticky(x, now), h, touched);
    } else {
      DidGrant(s, Run(s, labels), P.AcquireSticky(x, now), h, P.Take(touched));
    }
  }

  // ---------------------------------------------------------------- going through the servers

  /** The servers of the pool in the order a scan finds alone: least first, in a stable order. */
  function Ranking(s: System, bySessions: bool): (order: seq<nat>)
    requires InRange(s, s.pool)
    ensures forall p :: 0 <= p < |order| ==> order[p] in s.pool
  {
    var ranks := StableOrder(Keys(Servers(s), bySessions), |s.pool|);
    seq(|ranks|, p requires 0 <= p < |ranks| => s.pool[ranks[p]])
  }

  /** All before p have no permit, p has one unless it is the end. */
  ghost predicate FirstFree(s: System, order: seq<nat>, p: nat) {
    && InRange(s, order) && p <= |order|
    && (forall q :: 0 <= q < p ==> s.instances[order[q]].available == 0)
    && (p < |order| ==> s.instances[order[p]].available > 0)
  }

  /** The first of the ranking with a permit is the choice. */
  lemma FirstFreeIsChoice(s: System, bySessions: bool, p: nat) returns (h: nat)
    requires InRange(s, s.pool) && FirstFree(s, Ranking(s, bySessions), p)
    ensures p == |Ranking(s, bySessions)| ==> Choice(Servers(s), bySessions) == None
    ensures p < |Ranking(s, bySessions)| ==>
              && h < |s.pool| && s.pool[h] == Ranking(s, bySessions)[p]
              && Choice(Servers(s), bySessions) == Some(h)
  {
    var servers := Servers(s);
    var ranks, order := StableOrder(Keys(servers, bySessions), |s.pool|), Ranking(s, bySessions);
    hide StableOrder, Keys, Choice;
    assert forall q :: 0 <= q < |ranks| ==> order[q] == s.pool[ranks[q]] && servers[ranks[q]] == s.instances[order[q]];
    h := 0;
    if p < |order| {
      h := ranks[p];
      FirstOfOrderIsChoice(servers, bySessions, ranks, p);
    } else {
      NoneInOrderIsNone(servers, bySessions, ranks);
    }
  }

  /** Task i has got a permit of server r. */
  function Got(s: System, i: nat, r: nat, task: Task): System
    requires i < |s.tasks| && r < |s.instances| && s.instances[r].available > 0
  {
    s.(instances := s.instances[r := P.Take(s.instances[r])], tasks := s.tasks[i := task])
  }

  lemma TriesNext(s: System, i: nat, x: Uuid, rest: seq<nat>)
    requires Inv(s) && i < |s.tasks| && s.tasks[i] == Sticking(x, rest)
    ensures InRange(s, s.pool) && InRange(s, rest)
    ensures Apply(s, Go(i))
            == if rest == [] then Set(s, i, Retrying(x, true))
               else (if s.instances[rest[0]].available > 0 then Got(s, i, rest[0], Permitted(x, rest[0]))
                     else Set(s, i, Sticking(x, rest[1..])))
  {
    assert TaskOk(s, s.tasks[i]);
    hide FindId;
  }

  lemma ScansNext(s: System, i: nat, rest: seq<nat>)
    requires Inv(s) && i < |s.tasks| && s.tasks[i] == Scanning(rest) && rest != []
    ensures InRange(s, s.pool) && InRange(s, rest)
    ensures Apply(s, Go(i))
            == if s.instances[rest[0]].available > 0 then Got(s, i, rest[0], Guarded(rest[0], s.instances[rest[0]].uri))
               else Set(s, i, Scanning(rest[1..]))
  {
    assert TaskOk(s, s.tasks[i]);
    hide FindId;
  }

  lemma FreeHere(s: System, rest: seq<nat>)
    requires InRange(s, rest) && (rest != [] ==> s.instances[rest[0]].available > 0)
    ensures FirstFree(s, rest, 0)
  {
  }

  lemma FreeLater(s: System, t: System, rest: seq<nat>, p: nat)
    requires InRange(s, rest) && rest != [] && s.instances[rest[0]].available == 0
    requires t.instances == s.instances && FirstFree(t, rest[1..], p)
    ensures FirstFree(s, rest, p + 1) && (p + 1 < |rest| ==> rest[p + 1] == rest[1..][p])
  {
    assert forall q :: 0 < q < |rest| ==> rest[q] == rest[1..][q - 1];
  }

  /** Task i goes on with another task's state; nothing else changes, so a permit is to be got as before. */
  lemma GotLater(s: System, i: nat, a: Task, r: nat, b: Task)
    requires InRange(s, s.pool) && i < |s.tasks|
    ensures Set(s, i, a).instances == s.instances
    ensures r < |s.instances| && s.instances[r].available > 0 ==> Got(Set(s, i, a), i, r, b) == Got(s, i, r, b)
  {
  }

  /** The scan for a new session, up to a permit or to its end. */
  lemma {:induction false} Tries(s: System, i: nat, x: Uuid, rest: seq<nat>, now: int) returns (labels: seq<Label>, p: nat)
    requires Inv(s) && i < |s.tasks| && s.tasks[i] == Sticking(x, rest)
    ensures ByTask(labels, i, now)
    ensures FirstFree(s, rest, p)
    ensures p <= |rest| && (p < |rest| ==> rest[p] < |s.instances| && s.instances[rest[p]].available > 0)
    ensures Run(s, labels)
            == if p == |rest| then Set(s, i, Retrying(x, true)) else Got(s, i, rest[p], Permitted(x, rest[p]))
    decreases |rest|
  {
    hide Inv, Apply, Run, Set, Got, FirstFree, ByTask, CallOf;
    TriesNext(s, i, x, rest);
    RunsOne(s, Go(i));
    labels, p := [Go(i)], 0;
    TaskDoes(Go(i), i, now);
    if rest != [] && s.instances[rest[0]].available == 0 {
      var t := Set(s, i, Sticking(x, rest[1..]));
      SetTwice(s, i, Sticking(x, rest[1..]), Retrying(x, true));
      GotLater(s, i, Sticking(x, rest[1..]), 0, Finished);
      var more, before := Tries(t, i, x, rest[1..], now);
      RunsOn(s, labels, more);
      TaskOn(labels, i, now, more);
      labels, p := labels + more, before + 1;
      FreeLater(s, t, rest, before);
      if p < |rest| { GotLater(s, i, Sticking(x, rest[1..]), rest[p], Permitted(x, rest[p])); }
    } else {
      FreeHere(s, rest);
    }
  }

  /** The scan for any server, up to a permit or to its end. */
  lemma {:induction false} Scans(s: System, i: nat, rest: seq<nat>) returns (labels: seq<Label>, p: nat)
    requires Inv(s) && i < |s.tasks| && s.tasks[i] == Scanning(rest)
    ensures ByTask(labels, i, 0)
    ensures FirstFree(s, rest, p)
    ensures p <= |rest| && (p < |rest| ==> rest[p] < |s.instances| && s.instances[rest[p]].available > 0)
    ensures Run(s, labels)
            == if p == |rest| then Set(s, i, Scanning([]))
               else Got(s, i, rest[p], Guarded(rest[p], s.instances[rest[p]].uri))
    decreases |rest|
  {
    hide Inv, Apply, Run, Set, Got, FirstFree, ByTask, CallOf;
    labels, p := [], 0;
    NoLabels(i, 0);
    if rest == [] {
      NothingToScan(s, i);
    } else {
      ScansNext(s, i, rest);
      RunsOne(s, Go(i));
      labels := [Go(i)];
      TaskDoes(Go(i), i, 0);
      if s.instances[rest[0]].available == 0 {
        var t := Set(s, i, Scanning(rest[1..]));
        SetTwice(s, i, Scanning(rest[1..]), Scanning([]));
        GotLater(s, i, Scanning(rest[1..]), 0, Finished);
        var more, before := Scans(t, i, rest[1..]);
        RunsOn(s, labels, more);
        TaskOn(labels, i, 0, more);
        labels, p := labels + more, before + 1;
        FreeLater(s, t, rest, before);
        if p < |rest| { GotLater(s, i, Scanning(rest[1..]), rest[p], Guarded(rest[p], s.instances[rest[p]].uri)); }
      } else {
        FreeHere(s, rest);
      }
    }
  }

  lemma NothingToScan(s: System, i: nat)
    requires Inv(s) && i < |s.tasks| && s.tasks[i] == Scanning([])
    ensures Run(s, []) == Set(s, i, Scanning([])) && FirstFree(s, [], 0)
  {
  }

  // ---------------------------------------------------------------- new_sticky_uri

  lemma PutAgain(s: System, h: nat, one: Server, i: nat, a: Task, two: Server, b: Task)
    requires Inv(s) && h < |s.pool| && i < |s.tasks|
    ensures
      var t := Put(s, h, one, i, a);
      && t.pool == s.pool && InRange(t, t.pool) && |t.tasks| == |s.tasks| && t.tasks[i] == a
      && Servers(t)[h] == one
      && Put(t, h, two, i, b) == Put(s, h, two, i, b) && Set(t, i, b) == Put(s, h, one, i, b)
      && Put(s, h, Servers(s)[h], i, b) == Set(s, i, b)
  {
    assert s.instances[s.pool[h] := Servers(s)[h]] == s.instances;
  }

  lemma GotIsPut(s: System, i: nat, h: nat, task: Task)
    requires Inv(s) && h < |s.pool| && i < |s.tasks| && Servers(s)[h].available > 0
    ensures Got(s, i, s.pool[h], task) == Put(s, h, P.Take(Servers(s)[h]), i, task)
  {
  }

  lemma Ranks(s: System, i: nat, x: Uuid, tried: bool)
    requires Inv(s) && i < |s.tasks| && s.tasks[i] == Retrying(x, tried)
    ensures Apply(s, Rescan(i, Ranking(s, true))) == Set(s, i, Sticking(x, Ranking(s, true)))
    ensures Inv(Set(s, i, Sticking(x, Ranking(s, true))))
  {
    hide Ranking;
    assert FromPool(s, Ranking(s, true));
    SetKeepsInv(s, i, Sticking(x, Ranking(s, true)));
  }

  lemma UsesPermit(s: System, i: nat, x: Uuid, h: nat)
    requires Inv(s) && i < |s.tasks| && h < |s.pool| && s.tasks[i] == Permitted(x, s.pool[h])
    ensures
      var server := Servers(s)[h];
      Apply(s, Go(i))
      == if FullSticky(server) then Put(s, h, server.(available := server.available + 1), i, Retrying(x, true))
         else Set(s, i, Adding(x, s.pool[h], s.pool[h]))
  {
    FoundIsPermitted(s, s.pool[h]);
    hide FindId, FromPool;
  }

  lemma AddsTo(s: System, i: nat, x: Uuid, h: nat, now: int)
    requires Inv(s) && i < |s.tasks| && h < |s.pool| && s.tasks[i] == Adding(x, s.pool[h], s.pool[h])
    requires !FullSticky(Servers(s)[h])
    ensures Apply(s, Add(i, now))
            == Put(s, h, P.Stick(Servers(s)[h], x, now), i, Guarded(s.pool[h], Servers(s)[h].uri))
  {
    hide FindId, FromPool, GoStep;
  }

  /** From the permit on. */
  lemma SticksOrDrops(s: System, i: nat, x: Uuid, h: nat, server: Server, now: int) returns (labels: seq<Label>)
    requires Inv(s) && i < |s.tasks| && h < |s.pool| && server == Servers(s)[h] && server.available > 0
    requires Inv(Put(s, h, P.Take(server), i, Permitted(x, s.pool[h])))
    ensures ByTask(labels, i, now)
    ensures
      Run(Put(s, h, P.Take(server), i, Permitted(x, s.pool[h])), labels)
      == if FullSticky(server) then Set(s, i, Retrying(x, true))
         else Put(s, h, P.Stick(P.Take(server), x, now), i, Guarded(s.pool[h], server.uri))
  {
    var taken := P.Take(server);
    var t := Put(s, h, taken, i, Permitted(x, s.pool[h]));
    var adding := Adding(x, s.pool[h], s.pool[h]);
    hide Inv, Apply, Run, Put, Set, ByTask, CallOf;
    PutAgain(s, h, taken, i, Permitted(x, s.pool[h]), server, Retrying(x, true));
    PutAgain(s, h, taken, i, Permitted(x, s.pool[h]), taken, adding);
    UsesPermit(t, i, x, h);
    RunsOne(t, Go(i));
    labels := [Go(i)];
    TaskDoes(Go(i), i, now);
    if !FullSticky(server) {
      var u := Put(s, h, taken, i, adding);
      assert Run(t, labels) == u;
      PutAgain(s, h, taken, i, adding, P.Stick(taken, x, now), Guarded(s.pool[h], server.uri));
      AddsTo(u, i, x, h, now);
      ThenOne(t, labels, Add(i, now));
      TaskDoes(Add(i, now), i, now);
      TaskOn(labels, i, now, [Add(i, now)]);
      labels := labels + [Add(i, now)];
    }
  }

  /** One attempt for a new id, run alone. */
  lemma Attempts(s: System, i: nat, x: Uuid, tried: bool, now: int) returns (labels: seq<Label>)
    requires Inv(s) && i < |s.tasks| && s.tasks[i] == Retrying(x, tried)
    ensures ByTask(labels, i, now)
    ensures
      var c, servers := Choice(Servers(s), true), Servers(s);
      Run(s, labels)
      == if c.None? || FullSticky(servers[c.value]) then Set(s, i, Retrying(x, true))
         else Put(s, c.value, P.Stick(P.Take(servers[c.value]), x, now), i, Guarded(s.pool[c.value], servers[c.value].uri))
  {
    var order, servers := Ranking(s, true), Servers(s);
    var t := Set(s, i, Sticking(x, order));
    hide Inv, Apply, Run, Put, Set, Got, Ranking, FirstFree, FullSticky, ByTask, CallOf;
    Ranks(s, i, x, tried);
    RunsOne(s, Rescan(i, order));
    PoolInRange(s);
    SetTwice(s, i, Sticking(x, order), Retrying(x, true));
    GotLater(s, i, Sticking(x, order), 0, Finished);
    var more, p := Tries(t, i, x, order, now);
    RunsOn(s, [Rescan(i, order)], more);
    TaskDoes(Rescan(i, order), i, now);
    TaskOn([Rescan(i, order)], i, now, more);
    labels := [Rescan(i, order)] + more;
    SameFree(s, t, order, p);
    var h := FirstFreeIsChoice(s, true, p);
    if p < |order| {
      GotLater(s, i, Sticking(x, order), order[p], Permitted(x, order[p]));
      GotIsPut(s, i, h, Permitted(x, order[p]));
      var rest := SticksOrDrops(s, i, x, h, servers[h], now);
      RunsOn(s, labels, rest);
      TaskOn(labels, i, now, rest);
      labels := labels + rest;
    }
  }

  lemma PoolInRange(s: System)
    requires Inv(s)
    ensures InRange(s, s.pool)
  {
  }

  lemma SameFree(s: System, t: System, order: seq<nat>, p: nat)
    requires t.instances == s.instances && FirstFree(t, order, p)
    ensures FirstFree(s, order, p)
  {
  }

  lemma GivesUp(s: System, i: nat, x: Uuid)
    requires Inv(s) && i < |s.tasks| && (s.tasks[i] == Retrying(x, true) || s.tasks[i].Joining?)
    ensures Apply(s, GiveUp(i)) == Set(s, i, Finished)
  {
  }

  lemma NewRuns(s: System, x: Uuid, now: int) returns (labels: seq<Label>)
    requires Inv(s) && P.Holder(Servers(s), x) == |s.pool|
    ensures CallOf(labels, StartSticky(x), |s.tasks|, now)
    ensures
      var c, servers := Choice(Servers(s), true), Servers(s);
      Run(s, labels)
      == if c.None? || FullSticky(servers[c.value]) then Begin(s, Finished)
         else BeginPut(s, c.value, P.Stick(P.Take(servers[c.value]), x, now), Guarded(s.pool[c.value], servers[c.value].uri))
  {
    var i, c, servers := |s.tasks|, Choice(Servers(s), true), Servers(s);
    hide Inv, Apply, Run, Put, Set, Begin, BeginPut, FullSticky, Choice, P.Holder, Leaves, ByTask, CallOf;
    PoolInRange(s);
    var lookup := LookupRuns(s, x, now);
    BeginSet(s, Retrying(x, false), Retrying(x, true));
    var attempt := Attempts(Begin(s, Retrying(x, false)), i, x, false, now);
    RunsOn(s, lookup, attempt);
    CallOn(lookup, StartSticky(x), i, now, attempt);
    labels := lookup + attempt;
    if c.None? || FullSticky(servers[c.value]) {
      BeginSet(s, Retrying(x, true), Finished);
      GivesUp(Begin(s, Retrying(x, true)), i, x);
      ThenOne(s, labels, GiveUp(i));
      TaskDoes(GiveUp(i), i, now);
      CallOn(labels, StartSticky(x), i, now, [GiveUp(i)]);
      labels := labels + [GiveUp(i)];
    } else {
      PutBegun(s, c.value, Retrying(x, false), P.Stick(P.Take(servers[c.value]), x, now),
               Guarded(s.pool[c.value], servers[c.value].uri));
    }
  }

  /** A call left alone for an id without a session makes one attempt and then gives up. */
  lemma NewAlone(s: System, x: Uuid, now: int) returns (labels: seq<Label>)
    requires Inv(s) && P.Holder(Servers(s), x) == |s.pool|
    ensures CallOf(labels, StartSticky(x), |s.tasks|, now)
    ensures Did(s, Run(s, labels), P.AcquireSticky(x, now))
  {
    var c, servers := Choice(Servers(s), true), Servers(s);
    hide Inv, Apply, Run, Begin, BeginPut, Leaves, Did, P.Holder, Choice, FullSticky, ByTask, CallOf;
    PoolInRange(s);
    labels := NewRuns(s, x, now);
    if c.None? || FullSticky(servers[c.value]) {
      BeginSet(s, Finished, Finished);
      BeginInstances(s, Finished);
      DidNothing(s, Run(s, labels), P.AcquireSticky(x, now));
    } else {
      DidGrant(s, Run(s, labels), P.AcquireSticky(x, now), c.value, P.Stick(P.Take(servers[c.value]), x, now));
    }
  }

  // ---------------------------------------------------------------- acquire_connection_permit

  lemma Spawns(s: System)
    requires Inv(s) && Inv(Begin(s, Scanning([])))
    ensures
      var i := |s.tasks|;
      Apply(Begin(s, Scanning([])), Go(i))
      == s.(tasks := s.tasks + [Joining] + seq(|s.pool|, k requires 0 <= k < |s.pool| => Waiting(i, s.pool[k])))
  {
    assert (s.tasks + [Scanning([])])[|s.tasks| := Joining] == s.tasks + [Joining];
  }

  /** The tasks from c on are finished; nothing else has changed. */
  ghost predicate Aborted(s: System, t: System, c: nat) {
    && t == s.(tasks := t.tasks) && |t.tasks| == |s.tasks|
    && forall j :: 0 <= j < |s.tasks| ==> t.tasks[j] == if j < c then s.tasks[j] else Finished
  }

  lemma AbortsOne(s: System, n: nat, c: nat)
    requires Inv(s) && n < c < |s.tasks| && s.tasks[n].Finished? && s.tasks[c].Waiting? && s.tasks[c].parent == n
    ensures Apply(s, Abort(c)) == Set(s, c, Finished)
  {
  }

  lemma AbortedOnce(s: System, t: System, c: nat)
    requires c < |s.tasks| && Aborted(Set(s, c, Finished), t, c + 1)
    ensures Aborted(s, t, c)
  {
  }

  /** The spawned tasks are aborted, one by one. */
  lemma {:induction false} Aborts(s: System, n: nat, c: nat) returns (labels: seq<Label>)
    requires Inv(s) && n < c <= |s.tasks| && s.tasks[n].Finished?
    requires forall j :: c <= j < |s.tasks| ==> s.tasks[j].Waiting? && s.tasks[j].parent == n
    ensures ByTask(labels, n, 0)
    ensures Aborted(s, Run(s, labels), c)
    decreases |s.tasks| - c
  {
    labels := [];
    NoLabels(n, 0);
    assert c == |s.tasks| ==> Aborted(s, Run(s, []), c);
    hide Inv, Apply, Run, Aborted, ByTask, CallOf;
    if c < |s.tasks| {
      AbortsOne(s, n, c);
      RunsOne(s, Abort(c));
      var t := Run(s, [Abort(c)]);
      var rest := Aborts(t, n, c + 1);
      RunsOn(s, [Abort(c)], rest);
      TaskDoes(Abort(c), n, 0);
      TaskOn([Abort(c)], n, 0, rest);
      labels := [Abort(c)] + rest;
      AbortedOnce(s, Run(s, labels), c);
    }
  }

  lemma SpawnsAndGivesUp(s: System) returns (given: System)
    requires Inv(s) && Inv(Begin(s, Scanning([])))
    ensures given == Run(Begin(s, Scanning([])), [Go(|s.tasks|)] + [GiveUp(|s.tasks|)])
    ensures given == s.(tasks := given.tasks) && |s.tasks| < |given.tasks|
    ensures given.tasks[..|s.tasks|] == s.tasks && given.tasks[|s.tasks|].Finished?
    ensures forall j :: |s.tasks| < j < |given.tasks| ==> given.tasks[j].Waiting? && given.tasks[j].parent == |s.tasks|
  {
    var i, begun := |s.tasks|, Begin(s, Scanning([]));
    PoolInRange(s);
    hide Inv, Apply, Run;
    Spawns(s);
    RunsOne(begun, Go(i));
    var spawned := Run(begun, [Go(i)]);
    GivesUp(spawned, i, "");
    ThenOne(begun, [Go(i)], GiveUp(i));
    given := Run(begun, [Go(i)] + [GiveUp(i)]);
  }

  /** A scan that has found nothing spawns tasks, runs into its timeout and drops them. */
  lemma WaitsInVain(s: System) returns (labels: seq<Label>)
    requires Inv(s) && Inv(Begin(s, Scanning([])))
    ensures ByTask(labels, |s.tasks|, 0)
    ensures
      var t := Run(Begin(s, Scanning([])), labels);
      t == s.(tasks := t.tasks) && Leaves(s, t, Finished)
  {
    var i, begun := |s.tasks|, Begin(s, Scanning([]));
    hide Inv, Apply, Run, ByTask, Begin, Leaves, Aborted;
    var given := SpawnsAndGivesUp(s);
    var rest := Aborts(given, i, i + 1);
    RunsOn(begun, [Go(i)] + [GiveUp(i)], rest);
    TaskDoes(Go(i), i, 0);
    TaskDoes(GiveUp(i), i, 0);
    TaskOn([Go(i)], i, 0, [GiveUp(i)]);
    TaskOn([Go(i)] + [GiveUp(i)], i, 0, rest);
    labels := [Go(i)] + [GiveUp(i)] + rest;
    AbortedLeaves(s, given, Run(begun, labels));
  }

  lemma AbortedLeaves(s: System, given: System, t: System)
    requires |s.tasks| < |given.tasks| && given.tasks[..|s.tasks|] == s.tasks && given.tasks[|s.tasks|].Finished?
    requires given == s.(tasks := given.tasks) && Aborted(given, t, |s.tasks| + 1)
    ensures t == s.(tasks := t.tasks) && Leaves(s, t, Finished)
  {
    var n := |s.tasks|;
    forall j | 0 <= j < n ensures t.tasks[j] == s.tasks[j] {
      assert given.tasks[..n][j] == s.tasks[j];
    }
    assert t.tasks[..n] == s.tasks;
  }

  lemma StartsConnection(s: System, order: seq<nat>)
    requires Inv(s) && FromPool(s, order)
    ensures Run(s, [StartConnection(order)]) == Begin(s, Scanning(order)) && Inv(Begin(s, Scanning(order)))
  {
    RunsOne(s, StartConnection(order));
    ApplyKeepsInv(s, StartConnection(order));
  }

  lemma ConnectionRuns(s: System) returns (labels: seq<Label>)
    requires Inv(s)
    ensures CallOf(labels, StartConnection(Ranking(s, false)), |s.tasks|, 0)
    ensures
      var c, servers, t := Choice(Servers(s), false), Servers(s), Run(s, labels);
      if c.None? then t == s.(tasks := t.tasks) && Leaves(s, t, Finished)
      else t == BeginPut(s, c.value, P.Take(servers[c.value]), Guarded(s.pool[c.value], servers[c.value].uri))
  {
    var i, servers, order := |s.tasks|, Servers(s), Ranking(s, false);
    PoolInRange(s);
    assert FromPool(s, order);
    hide Inv, Apply, Run, Put, Set, Got, Begin, BeginPut, Ranking, FirstFree, Choice, Leaves, ByTask, CallOf;
    StartsConnection(s, order);
    BeginSet(s, Scanning(order), Scanning([]));
    var begun := Begin(s, Scanning(order));
    var scan, p := Scans(begun, i, order);
    RunsOn(s, [StartConnection(order)], scan);
    CallStarts(StartConnection(order), i, 0);
    CallOn([StartConnection(order)], StartConnection(order), i, 0, scan);
    labels := [StartConnection(order)] + scan;
    BeginInstances(s, Scanning(order));
    SameFree(s, begun, order, p);
    var h := FirstFreeIsChoice(s, false, p);
    if p < |order| {
      GotIsPut(begun, i, h, Guarded(s.pool[h], servers[h].uri));
      PutBegun(s, h, Scanning(order), P.Take(servers[h]), Guarded(s.pool[h], servers[h].uri));
    } else {
      var rest := WaitsInVain(s);
      RunsOn(s, labels, rest);
      CallOn(labels, StartConnection(order), i, 0, rest);
      labels := labels + rest;
    }
  }

  /** A call for any server left alone takes a permit of the choice, or waits in vain. */
  lemma ConnectionAlone(s: System) returns (labels: seq<Label>)
    requires Inv(s)
    ensures CallOf(labels, StartConnection(Ranking(s, false)), |s.tasks|, 0)
    ensures Did(s, Run(s, labels), P.AcquireConnection)
  {
    var c, servers := Choice(Servers(s), false), Servers(s);
    hide Inv, Apply, Run, BeginPut, Leaves, Did, Choice, ByTask, CallOf;
    PoolInRange(s);
    labels := ConnectionRuns(s);
    if c.None? {
      DidNothing(s, Run(s, labels), P.AcquireConnection);
    } else {
      DidGrant(s, Run(s, labels), P.AcquireConnection, c.value, P.Take(servers[c.value]));
    }
  }

  // ---------------------------------------------------------------- expire_sticky

  /** Server h has lost its stale sessions. */
  function Expired(s: System, h: nat, now: int, expiry: nat): System
    requires h < |s.pool| && InRange(s, s.pool)
  {
    var server := Servers(s)[h];
    SetSticky(s, s.pool[h], server.sticky - P.Stale(server, now, expiry))
  }

  lemma ExpiredShows(s: System, h: nat, now: int, expiry: nat)
    requires Inv(s) && h < |s.pool|
    ensures
      var t, server := Expired(s, h, now, expiry), Servers(s)[h];
      && Apply(s, Expire(s.pool[h], now, expiry)) == t
      && t.pool == s.pool && t.nextId == s.nextId && t.tasks == s.tasks && InRange(t, t.pool)
      && Servers(t) == Servers(s)[h := server.(sticky := server.sticky - P.Stale(server, now, expiry))]
  {
    assert s.pool[h] in s.pool;
  }

  /** The servers from k on have lost their stale sessions. */
  ghost predicate ExpiredFrom(s: System, t: System, k: nat, now: int, expiry: nat) {
    && InRange(s, s.pool) && InRange(t, t.pool)
    && t.pool == s.pool && t.nextId == s.nextId && t.tasks == s.tasks
    && forall h :: 0 <= h < |s.pool| ==>
         var server := Servers(s)[h];
         Servers(t)[h] == if h < k then server else server.(sticky := server.sticky - P.Stale(server, now, expiry))
  }

  lemma ExpiredOneMore(s: System, t: System, u: System, k: nat, now: int, expiry: nat)
    requires Inv(s) && k < |s.pool| && t == Expired(s, k, now, expiry) && ExpiredFrom(t, u, k + 1, now, expiry)
    ensures ExpiredFrom(s, u, k, now, expiry)
  {
    ExpiredShows(s, k, now, expiry);
    hide Inv, Apply, Expired;
  }

  /** One expiry for each server of the pool from k on, in order, with the same instant. */
  ghost predicate OneEach(labels: seq<Label>, pool: seq<nat>, k: nat, now: int, expiry: nat) {
    && |labels| + k == |pool|
    && forall j :: 0 <= j < |labels| ==> labels[j] == Expire(pool[k + j], now, expiry)
  }

  lemma OneMore(labels: seq<Label>, pool: seq<nat>, k: nat, now: int, expiry: nat)
    requires k < |pool| && OneEach(labels, pool, k + 1, now, expiry)
    ensures OneEach([Expire(pool[k], now, expiry)] + labels, pool, k, now, expiry)
  {
    assert forall j :: 0 < j <= |labels| ==> ([Expire(pool[k], now, expiry)] + labels)[j] == labels[j - 1];
  }

  lemma NoneToExpire(s: System, now: int, expiry: nat)
    requires Inv(s)
    ensures ExpiredFrom(s, Run(s, []), |s.pool|, now, expiry) && OneEach([], s.pool, |s.pool|, now, expiry)
  {
  }

  lemma {:induction false} Expires(s: System, k: nat, now: int, expiry: nat) returns (labels: seq<Label>)
    requires Inv(s) && k <= |s.pool|
    ensures ExpiredFrom(s, Run(s, labels), k, now, expiry)
    ensures OneEach(labels, s.pool, k, now, expiry)
    decreases |s.pool| - k
  {
    labels := [];
    hide Inv, Apply, Run, ExpiredFrom, Expired, OneEach;
    NoneToExpire(s, now, expiry);
    PoolInRange(s);
    if k < |s.pool| {
      ExpiredShows(s, k, now, expiry);
      RunsOne(s, Expire(s.pool[k], now, expiry));
      var first := [Expire(s.pool[k], now, expiry)];
      var rest := Expires(Run(s, first), k + 1, now, expiry);
      RunsOn(s, first, rest);
      labels := first + rest;
      OneMore(rest, s.pool, k, now, expiry);
      ExpiredOneMore(s, Run(s, first), Run(s, labels), k, now, expiry);
    }
  }

  /** An expiry left alone expires every server of the pool. */
  lemma ExpiryAlone(s: System, now: int, expiry: nat) returns (labels: seq<Label>)
    requires Inv(s)
    ensures OneEach(labels, s.pool, 0, now, expiry)
    ensures
      var t := Run(s, labels);
      t.tasks == s.tasks && InRange(t, t.pool) && Shown(t) == P.Step(Shown(s), P.ExpireSessions(now, expiry)).0
  {
    PoolInRange(s);
    hide Inv, Apply, Run, OneEach, ExpiredFrom, Shown, P.Step;
    labels := Expires(s, 0, now, expiry);
    AllExpired(s, Run(s, labels), now, expiry);
  }

  lemma AllExpired(s: System, t: System, now: int, expiry: nat)
    requires ExpiredFrom(s, t, 0, now, expiry)
    ensures t.tasks == s.tasks && Shown(t) == P.Step(Shown(s), P.ExpireSessions(now, expiry)).0
  {
    assert Servers(t) == P.ExpireStep(Servers(s), now, expiry);
    hide Servers, P.ExpireStep, P.AllStale;
  }

  // ---------------------------------------------------------------- add_upstreams and remove_uris

  lemma AddOneShows(s: System, c: Config)
    requires InRange(s, s.pool)
    ensures
      var t := AddOne(s, c);
      && InRange(t, t.pool) && t.tasks == s.tasks
      && Shown(t) == Pool(Servers(s) + [P.NewServer(s.nextId, c)], s.nextId + 1)
  {
    var t := AddOne(s, c);
    assert Servers(t) == Servers(s) + [P.NewServer(s.nextId, c)];
  }

  lemma {:induction false} AddShows(s: System, upstreams: seq<Config>, known: set<string>)
    requires InRange(s, s.pool)
    ensures
      var t := AddServersStep(s, upstreams, known);
      InRange(t, t.pool) && t.tasks == s.tasks && Shown(t) == P.AddStep(Shown(s), upstreams, known)
    decreases |upstreams|
  {
    if upstreams != [] {
      var n := |upstreams| - 1;
      AddShows(s, upstreams[..n], known);
      AddOneShows(AddServersStep(s, upstreams[..n], known), upstreams[n]);
      hide AddOne, P.NewServer, Servers;
    }
  }

  lemma UrisShown(s: System)
    requires InRange(s, s.pool)
    ensures PoolUris(s) == P.Uris(Servers(s))
  {
    forall uri ensures uri in PoolUris(s) <==> uri in P.Uris(Servers(s)) {
      P.UrisMember(Servers(s), uri);
      if uri in PoolUris(s) {
        var k :| 0 <= k < |s.pool| && s.instances[s.pool[k]].uri == uri;
        assert Servers(s)[k].uri == uri;
      }
    }
  }

  /** While no call is under way, adding servers is the pool's step. */
  lemma AddAlone(s: System, upstreams: seq<Config>)
    requires Inv(s) && Quiet(s)
    ensures
      var t := Apply(s, AddServers(upstreams));
      t.tasks == s.tasks && InRange(t, t.pool) && Shown(t) == P.Step(Shown(s), P.AddUpstreams(upstreams)).0
  {
    PoolInRange(s);
    AddShows(s, upstreams, PoolUris(s));
    UrisShown(s);
    hide AddServersStep, P.AddStep, P.Uris, PoolUris;
  }

  /** The servers with these indices. */
  function Those(s: System, refs: seq<nat>): (servers: seq<Server>)
    requires InRange(s, refs)
    ensures |servers| == |refs| && forall k :: 0 <= k < |refs| ==> servers[k] == s.instances[refs[k]]
  {
    seq(|refs|, k requires 0 <= k < |refs| => s.instances[refs[k]])
  }

  lemma {:induction false} KeepSnoc(s: System, pool: seq<nat>, r: nat, uris: set<string>)
    requires InRange(s, pool + [r]) && InRange(s, pool) && r < |s.instances|
    ensures Keep(s, pool + [r], uris) == Keep(s, pool, uris) + (if s.instances[r].uri in uris then [] else [r])
    decreases |pool|
  {
    if pool != [] {
      assert (pool + [r])[1..] == pool[1..] + [r];
      KeepSnoc(s, pool[1..], r, uris);
    }
  }

  lemma {:induction false} KeepShows(s: System, pool: seq<nat>, uris: set<string>)
    requires InRange(s, pool)
    ensures InRange(s, Keep(s, pool, uris)) && Those(s, Keep(s, pool, uris)) == P.RetainStep(Those(s, pool), uris)
    decreases |pool|
  {
    if pool != [] {
      var n := |pool| - 1;
      var front, r := pool[..n], pool[n];
      assert pool == front + [r] && Those(s, pool)[..n] == Those(s, front);
      KeepShows(s, front, uris);
      KeepSnoc(s, front, r, uris);
    }
  }

  /** And so is removing them. */
  lemma RemoveAlone(s: System, uris: set<string>)
    requires Inv(s) && Quiet(s)
    ensures
      var t := Apply(s, RemoveServers(uris));
      t.tasks == s.tasks && InRange(t, t.pool) && Shown(t) == P.Step(Shown(s), P.RemoveUris(uris)).0
  {
    PoolInRange(s);
    KeepShows(s, s.pool, uris);
    var t := Apply(s, RemoveServers(uris));
    assert t == s.(pool := Keep(s, s.pool, uris));
    hide Inv, Apply, Keep, P.RetainStep;
    assert Servers(s) == Those(s, s.pool);
    assert Servers(t) == Those(s, t.pool);
  }

  // ---------------------------------------------------------------- a guard is dropped

  lemma {:induction false} HeldByOne(tasks: seq<Task>, i: nat, r: nat)
    requires i < |tasks| && HeldBy(tasks[i]) == Some(r)
    ensures Held(tasks, r) >= 1
    decreases |tasks|
  {
    if i < |tasks| - 1 { HeldByOne(tasks[..|tasks| - 1], i, r); }
  }

  lemma {:induction false} HolderOf(tasks: seq<Task>, r: nat) returns (i: nat)
    requires Held(tasks, r) >= 1
    ensures i < |tasks| && HeldBy(tasks[i]) == Some(r)
    decreases |tasks|
  {
    var n := |tasks| - 1;
    if Holds(tasks[n], r) == 1 { i := n; } else { i := HolderOf(tasks[..n], r); }
  }

  lemma ReleasedOne(servers: seq<Server>, h: nat)
    requires h < |servers| && servers[h].available < servers[h].maxConnections
    requires forall j :: 0 <= j < |servers| && j != h ==> servers[j].id != servers[h].id
    ensures P.ReleaseStep(servers, servers[h].id) == servers[h := servers[h].(available := servers[h].available + 1)]
  {
  }

  /** Dropping a guard gives its server the permit back. */
  lemma ReleaseAlone(s: System, i: nat, h: nat)
    requires Inv(s) && i < |s.tasks| && s.tasks[i].Guarded? && h < |s.pool| && s.tasks[i].server == s.pool[h]
    ensures
      var t := Apply(s, DropGuard(i));
      && t.tasks == s.tasks[i := Finished] && InRange(t, t.pool)
      && Shown(t) == P.Step(Shown(s), P.Release(Servers(s)[h].id)).0
  {
    var r, server := s.pool[h], Servers(s)[h];
    HeldByOne(s.tasks, i, r);
    assert Conserved(s, r);
    PutShows(s, h, server.(available := server.available + 1), i, Finished);
    forall j | 0 <= j < |s.pool| && j != h ensures Servers(s)[j].id != server.id {
      assert s.pool[j] != s.pool[h];
    }
    ReleasedOne(Servers(s), h);
    hide P.ReleaseStep, Servers, Held;
  }

  // ---------------------------------------------------------------- one call after the other

  /** No call is under way; there are only guards. */
  ghost predicate Idle(s: System) {
    forall i :: 0 <= i < |s.tasks| ==> s.tasks[i].Guarded? || s.tasks[i].Finished?
  }

  lemma LeavesIdle(s: System, t: System, own: Task)
    requires Idle(s) && Leaves(s, t, own) && (own.Guarded? || own.Finished?)
    ensures Idle(t)
  {
    forall i | 0 <= i < |t.tasks| ensures t.tasks[i].Guarded? || t.tasks[i].Finished? {
      if i < |s.tasks| { assert t.tasks[..|s.tasks|][i] == s.tasks[i]; }
    }
  }

  lemma DidIdle(s: System, t: System, op: P.Op)
    requires Idle(s) && Did(s, t, op)
    ensures Idle(t) && InRange(t, t.pool) && Shown(t) == P.Step(Shown(s), op).0
  {
    hide P.Step, Leaves;
    match P.Step(Shown(s), op).1
    case Granted(uri) =>
      var h :| 0 <= h < |s.pool| && Servers(s)[h].uri == uri && Leaves(s, t, Guarded(s.pool[h], uri));
      LeavesIdle(s, t, Guarded(s.pool[h], uri));
    case _ => LeavesIdle(s, t, Finished);
  }

  lemma ReleaseCall(s: System, id: nat) returns (labels: seq<Label>)
    requires Inv(s) && Idle(s)
    ensures
      var t := Run(s, labels);
      Idle(t) && InRange(t, t.pool) && Shown(t) == P.Step(Shown(s), P.Release(id)).0
  {
    PoolInRange(s);
    var servers := Servers(s);
    labels := [];
    if h: nat :| h < |s.pool| && servers[h].id == id && servers[h].available < servers[h].maxConnections {
      assert Conserved(s, s.pool[h]);
      var i := HolderOf(s.tasks, s.pool[h]);
      ReleaseAlone(s, i, h);
      RunsOne(s, DropGuard(i));
      labels := [DropGuard(i)];
      hide P.Step, Inv, Apply, Run;
    } else {
      assert P.ReleaseStep(servers, id) == servers;
    }
  }

  /** Every call of the pool, made while no other is under way, can run to its end, and does then what
      its step does. */
  lemma CallAlone(s: System, op: P.Op) returns (labels: seq<Label>)
    requires Inv(s) && Idle(s)
    ensures
      var t := Run(s, labels);
      Idle(t) && InRange(t, t.pool) && Shown(t) == P.Step(Shown(s), op).0
  {
    assert Quiet(s);
    PoolInRange(s);
    hide Inv, Apply, Run, P.Step, Did, Idle, ByTask, CallOf;
    match op
    case AcquireConnection =>
      labels := ConnectionAlone(s);
      DidIdle(s, Run(s, labels), op);
    case AcquireSticky(x, now) =>
      if P.Holder(Servers(s), x) < |s.pool| { labels := StuckAlone(s, x, now); } else { labels := NewAlone(s, x, now); }
      DidIdle(s, Run(s, labels), op);
    case RemoveSession(x) =>
      labels := RemovalAlone(s, x);
      DidIdle(s, Run(s, labels), op);
    case Release(id) => labels := ReleaseCall(s, id);
    case ExpireSessions(now, expiry) =>
      labels := ExpiryAlone(s, now, expiry);
      SameTasksIdle(s, Run(s, labels));
    case AddUpstreams(us) =>
      AddAlone(s, us);
      RunsOne(s, AddServers(us));
      labels := [AddServers(us)];
      SameTasksIdle(s, Run(s, labels));
    case RemoveUris(us) =>
      RemoveAlone(s, us);
      RunsOne(s, RemoveServers(us));
      labels := [RemoveServers(us)];
      SameTasksIdle(s, Run(s, labels));
  }

  lemma SameTasksIdle(s: System, t: System)
    requires Idle(s) && t.tasks == s.tasks
    ensures Idle(t)
  {
  }

  /** So every sequence of calls, one after the other, is a run of the tasks. */
  lemma {:induction false} CallsAreARun(ops: seq<P.Op>) returns (labels: seq<Label>)
    ensures
      var t := Run(NOBODY, labels);
      Idle(t) && InRange(t, t.pool) && Shown(t) == P.Run(Pool([], 1), ops)
    decreases |ops|
  {
    labels := [];
    NobodyIdle();
    hide Inv, Apply, Run, P.Step, Idle, Shown, ByTask, CallOf;
    if ops != [] {
      var n := |ops| - 1;
      var before := CallsAreARun(ops[..n]);
      var last := CallAlone(Run(NOBODY, before), ops[n]);
      RunsOn(NOBODY, before, last);
      labels := before + last;
    }
  }

  lemma NobodyIdle()
    ensures Inv(NOBODY) && Run(NOBODY, []) == NOBODY && Idle(NOBODY) && Shown(NOBODY) == Pool([], 1)
  {
    assert Servers(NOBODY) == [];
  }
}
