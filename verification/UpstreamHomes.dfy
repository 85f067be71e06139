/**
 On how many servers an id can be stuck when requests run concurrently.

 A request for an id looks for its server without a lock that spans the search, and adds the id to
 a server only later.  The id keeps one home as long as nobody adds it to a server in which
 another request has looked for it in vain; where that happens, the other request can go on and
 add it to a second one.
 */
module UpstreamHomes {
  import opened Wrappers
  import opened Upstream
  import PoolRuns
  import opened UpstreamTasks

  /** Server r is in the pool and has a session of the id. */
  ghost predicate Home(s: System, x: Uuid, r: nat) {
    r in s.pool && r < |s.instances| && x in s.instances[r].sticky
  }

  /** The id has at most one server in the pool. */
  ghost predicate OneHome(s: System, x: Uuid) {
    forall q, r :: Home(s, x, q) && Home(s, x, r) ==> q == r
  }

  /** A request for the id that has looked in every server and may add the id to one. */
  predicate Past(t: Task, x: Uuid) {
    (t.Retrying? || t.Sticking? || t.Permitted? || t.Adding?) && t.id == x
  }

  predicate Looking(t: Task, x: Uuid) {
    t.LookingUp? && t.id == x
  }

  /** The request has looked for the id in server r, in vain. */
  ghost predicate Missed(s: System, t: Task, x: Uuid, r: nat) {
    && r in s.pool
    && (Past(t, x) || (Looking(t, x) && exists k :: 0 <= k < t.k && k < |s.pool| && s.pool[k] == r))
  }

  /** The id has one home at most, and where a request has not found it, it is not. */
  ghost predicate Settled(s: System, x: Uuid) {
    && OneHome(s, x)
    && forall i, r :: 0 <= i < |s.tasks| && Missed(s, s.tasks[i], x, r) ==> !Home(s, x, r)
  }

  /** The step adds the id to a server. */
  ghost predicate Adds(s: System, l: Label, x: Uuid) {
    && l.Add? && l.task < |s.tasks| && s.tasks[l.task].Adding? && s.tasks[l.task].id == x
    && s.tasks[l.task].target < |s.instances| && !FullSticky(s.instances[s.tasks[l.task].target])
  }

  /** The step adds the id to a server in which another request has missed it. */
  ghost predicate Races(s: System, l: Label, x: Uuid) {
    Adds(s, l, x)
    && exists j :: 0 <= j < |s.tasks| && j != l.task && Missed(s, s.tasks[j], x, s.tasks[l.task].target)
  }

  // ---------------------------------------------------------------- one step

  /** What the request b, which was a before, has missed, it has just missed or had before. */
  ghost predicate Continues(s: System, a: Task, b: Task, x: Uuid) {
    && (Past(b, x) ==> Past(a, x) || (Looking(a, x) && a.k == |s.pool|))
    && (Looking(b, x) ==>
          || b.k == 0 || a == b
          || (Looking(a, x) && b.k == a.k + 1 && a.k < |s.pool| && !Home(s, x, s.pool[a.k])))
  }

  lemma ContinuesMissed(s: System, t: System, a: Task, b: Task, x: Uuid, r: nat)
    requires Inv(s) && t.pool == s.pool && TaskOk(s, a) && Continues(s, a, b, x) && Missed(t, b, x, r)
    ensures Missed(s, a, x, r) || !Home(s, x, r)
  {
    if Looking(b, x) && a != b {
      var k :| 0 <= k < b.k && k < |s.pool| && s.pool[k] == r;
    } else if Past(b, x) && !Past(a, x) {
      var k :| 0 <= k < |s.pool| && s.pool[k] == r;
    }
  }

  /** A step that gives the id no new home and lets the requests look on keeps it settled. */
  lemma FewerHomes(s: System, t: System, x: Uuid)
    requires Inv(s) && Settled(s, x) && t.pool == s.pool && |s.tasks| <= |t.tasks|
    requires forall r :: Home(t, x, r) ==> Home(s, x, r)
    requires forall i :: 0 <= i < |s.tasks| ==> Continues(s, s.tasks[i], t.tasks[i], x)
    requires forall i :: |s.tasks| <= i < |t.tasks| ==> !Past(t.tasks[i], x) && (Looking(t.tasks[i], x) ==> t.tasks[i].k == 0)
    ensures Settled(t, x)
  {
    forall i, r | 0 <= i < |t.tasks| && Missed(t, t.tasks[i], x, r) ensures !Home(t, x, r) {
      if i < |s.tasks| {
        assert TaskOk(s, s.tasks[i]);
        ContinuesMissed(s, t, s.tasks[i], t.tasks[i], x, r);
      }
    }
  }

  /** No server joins or leaves the pool. */
  predicate Ordinary(l: Label) {
    !l.AddServers? && !l.RemoveServers?
  }

  lemma OrdinaryAddsNoHome(s: System, l: Label, x: Uuid, r: nat)
    requires Inv(s) && Ordinary(l) && !Adds(s, l, x) && Home(Apply(s, l), x, r)
    ensures Home(s, x, r)
  {
    ApplyKeepsInv(s, l);
    OrdinaryKeepsPool(s, l);
    if x !in s.instances[r].sticky { SessionsOnlyFromAdding(s, l, r, x); }
  }

  lemma GoKeepsPool(s: System, i: nat)
    requires Inv(s) && i < |s.tasks|
    ensures GoStep(s, i).pool == s.pool && |GoStep(s, i).instances| == |s.instances|
    ensures |s.tasks| <= |GoStep(s, i).tasks|
    ensures forall k :: 0 <= k < |s.tasks| && k != i ==> GoStep(s, i).tasks[k] == s.tasks[k]
  {
    assert TaskOk(s, s.tasks[i]);
    hide Inv, FromPool, FindId;
  }

  lemma GoContinues(s: System, i: nat, x: Uuid)
    requires Inv(s) && i < |s.tasks| && i < |GoStep(s, i).tasks|
    ensures Continues(s, s.tasks[i], GoStep(s, i).tasks[i], x)
  {
    assert TaskOk(s, s.tasks[i]);
    match s.tasks[i]
    case LookingUp(_, _) => hide Inv;
    case Sticking(_, _) => hide Inv, TaskOk, Home;
    case Permitted(_, _) => hide Inv, TaskOk, Home, FindId;
    case _ => hide Inv, TaskOk, Home, FromPool;
  }

  lemma OrdinaryKeepsPool(s: System, l: Label)
    requires Inv(s) && Ordinary(l)
    ensures Apply(s, l).pool == s.pool && |Apply(s, l).instances| == |s.instances|
    ensures |s.tasks| <= |Apply(s, l).tasks|
  {
    hide Conserved;
    if l.Go? && l.task < |s.tasks| { GoKeepsPool(s, l.task); hide GoStep; }
  }

  lemma OtherContinues(s: System, l: Label, x: Uuid, i: nat)
    requires Inv(s) && Ordinary(l) && !l.Go? && !Adds(s, l, x) && i < |s.tasks| && |s.tasks| <= |Apply(s, l).tasks|
    ensures Continues(s, s.tasks[i], Apply(s, l).tasks[i], x)
  {
    hide Inv, TaskOk, GoStep, Home;
  }

  lemma OrdinaryContinues(s: System, l: Label, x: Uuid, i: nat)
    requires Inv(s) && Ordinary(l) && !Adds(s, l, x) && i < |s.tasks| && |s.tasks| <= |Apply(s, l).tasks|
    ensures Continues(s, s.tasks[i], Apply(s, l).tasks[i], x)
  {
    hide Inv, TaskOk, GoStep, Home;
    if !l.Go? {
      OtherContinues(s, l, x, i);
    } else if l.task < |s.tasks| {
      GoKeepsPool(s, l.task);
      if l.task == i { GoContinues(s, i, x); }
    }
  }

  lemma OrdinaryStarts(s: System, l: Label, x: Uuid, i: nat)
    requires Inv(s) && Ordinary(l) && |s.tasks| <= i < |Apply(s, l).tasks|
    ensures !Past(Apply(s, l).tasks[i], x) && (Looking(Apply(s, l).tasks[i], x) ==> Apply(s, l).tasks[i].k == 0)
  {
    hide Inv, TaskOk, FindId;
  }

  lemma OrdinaryKeepsSettled(s: System, l: Label, x: Uuid)
    requires Inv(s) && Settled(s, x) && Ordinary(l) && !Adds(s, l, x)
    ensures Settled(Apply(s, l), x)
  {
    var t := Apply(s, l);
    OrdinaryKeepsPool(s, l);
    forall r | Home(t, x, r) ensures Home(s, x, r) { OrdinaryAddsNoHome(s, l, x, r); }
    forall i | 0 <= i < |s.tasks| ensures Continues(s, s.tasks[i], t.tasks[i], x) { OrdinaryContinues(s, l, x, i); }
    forall i | |s.tasks| <= i < |t.tasks|
      ensures !Past(t.tasks[i], x) && (Looking(t.tasks[i], x) ==> t.tasks[i].k == 0)
    {
      OrdinaryStarts(s, l, x, i);
    }
    hide Apply, Inv, Continues, Home, Settled;
    FewerHomes(s, t, x);
  }

  /** What the step that adds the id does. */
  lemma AddingStep(s: System, l: Label, x: Uuid)
    requires Inv(s) && Adds(s, l, x)
    ensures
      var t, target := Apply(s, l), s.tasks[l.task].target;
      && t.pool == s.pool && target in s.pool
      && t.tasks == s.tasks[l.task := Guarded(target, s.instances[target].uri)]
      && (forall r :: Home(t, x, r) <==> Home(s, x, r) || r == target)
      && |t.instances| == |s.instances|
      && (forall q :: 0 <= q < |s.instances| && q != target ==> t.instances[q] == s.instances[q])
  {
    assert TaskOk(s, s.tasks[l.task]);
  }

  /** Adding the id keeps things settled exactly if no other request has missed it in that server. */
  lemma AddingKeepsSettledIff(s: System, l: Label, x: Uuid)
    requires Inv(s) && Settled(s, x) && Adds(s, l, x)
    ensures Settled(Apply(s, l), x) <==> !Races(s, l, x)
  {
    var t, target := Apply(s, l), s.tasks[l.task].target;
    AddingStep(s, l, x);
    hide Apply;
    forall r | r in s.pool ensures !Home(s, x, r) { assert Missed(s, s.tasks[l.task], x, r); }
    forall i, r | 0 <= i < |s.tasks| && i != l.task ensures Missed(t, t.tasks[i], x, r) <==> Missed(s, s.tasks[i], x, r) {}
    if !Races(s, l, x) {
      forall i, r | 0 <= i < |t.tasks| && Missed(t, t.tasks[i], x, r) ensures !Home(t, x, r) {}
    } else {
      var j :| 0 <= j < |s.tasks| && j != l.task && Missed(s, s.tasks[j], x, target);
      assert Missed(t, t.tasks[j], x, target) && Home(t, x, target);
    }
  }

  /** Servers join and leave only while no request is under way. */
  lemma QuietMissesNothing(s: System, x: Uuid)
    requires Quiet(s)
    ensures forall i, r :: 0 <= i < |s.tasks| ==> !Missed(s, s.tasks[i], x, r)
  {
    forall i, r | 0 <= i < |s.tasks| ensures !Missed(s, s.tasks[i], x, r) {
      assert !Reading(s.tasks[i]);
    }
  }

  lemma {:induction false} JoinersHaveNobody(s: System, upstreams: seq<Config>, known: set<string>, x: Uuid, r: nat)
    requires Inv(s) && Quiet(s)
    ensures Home(AddServersStep(s, upstreams, known), x, r) ==> Home(s, x, r)
    ensures AddServersStep(s, upstreams, known).tasks == s.tasks
    decreases |upstreams|
  {
    if upstreams != [] {
      JoinersHaveNobody(s, upstreams[..|upstreams| - 1], known, x, r);
      AddServersKeepsInv(s, upstreams[..|upstreams| - 1], known);
      assert Inv(AddServersStep(s, upstreams[..|upstreams| - 1], known));
    }
  }

  lemma PoolLabelKeepsSettled(s: System, l: Label, x: Uuid)
    requires Inv(s) && Settled(s, x) && !Ordinary(l)
    ensures Settled(Apply(s, l), x)
  {
    if Quiet(s) {
      var t := Apply(s, l);
      forall r | Home(t, x, r) ensures Home(s, x, r) {
        match l
        case AddServers(us) =>
          JoinersHaveNobody(s, us, PoolUris(s), x, r);
        case RemoveServers(uris) => KeepFrom(s, s.pool, uris);
      }
      assert t.tasks == s.tasks by {
        if l.AddServers? {
          JoinersHaveNobody(s, l.upstreams, PoolUris(s), x, 0);
        }
      }
      QuietMissesNothing(t, x);
    }
  }

  /** As long as nobody races, every step keeps the id settled. */
  lemma StepKeepsSettled(s: System, l: Label, x: Uuid)
    requires Inv(s) && Settled(s, x) && !Races(s, l, x)
    ensures Settled(Apply(s, l), x)
  {
    hide Inv, Settled, Apply, Races;
    if !Ordinary(l) {
      PoolLabelKeepsSettled(s, l, x);
    } else if Adds(s, l, x) {
      AddingKeepsSettledIff(s, l, x);
    } else {
      OrdinaryKeepsSettled(s, l, x);
    }
  }

  // ---------------------------------------------------------------- every interleaving

  lemma NobodySettled(x: Uuid)
    ensures Inv(NOBODY) && Settled(NOBODY, x) && Run(NOBODY, []) == NOBODY
  {
  }

  lemma SettledOneHome(s: System, x: Uuid)
    ensures Settled(s, x) ==> OneHome(s, x)
  {
  }

  /** In every interleaving in which nobody adds the id to a server where another request has missed
      it, the id never has more than one home. */
  lemma {:induction false} OneHomeUnlessRaced(labels: seq<Label>, x: Uuid)
    requires forall k :: 0 <= k < |labels| ==> !Races(Run(NOBODY, labels[..k]), labels[k], x)
    ensures OneHome(Run(NOBODY, labels), x) && Settled(Run(NOBODY, labels), x)
    decreases |labels|
  {
    hide *;
    NobodySettled(x);
    if labels != [] {
      var n := |labels| - 1;
      var before := labels[..n];
      forall k | 0 <= k < n ensures !Races(Run(NOBODY, before[..k]), before[k], x) {
        assert before[..k] == labels[..k];
      }
      OneHomeUnlessRaced(before, x);
      RunsLast(NOBODY, labels, n);
      StepKeepsSettled(Run(NOBODY, before), labels[n], x);
    }
    SettledOneHome(Run(NOBODY, labels), x);
  }

  /** A request for the id that has looked in some server and may still add the id. */
  predicate UnderWay(t: Task, x: Uuid) {
    Past(t, x) || (Looking(t, x) && t.k > 0)
  }

  ghost predicate OneAtATime(s: System, x: Uuid) {
    forall i, j :: 0 <= i < j < |s.tasks| ==> !(UnderWay(s.tasks[i], x) && UnderWay(s.tasks[j], x))
  }

  lemma RaceOverlaps(s: System, l: Label, x: Uuid)
    ensures Races(s, l, x) ==> !OneAtATime(s, x)
  {
    if Races(s, l, x) {
      var j :| 0 <= j < |s.tasks| && j != l.task && Missed(s, s.tasks[j], x, s.tasks[l.task].target);
      assert UnderWay(s.tasks[j], x) && UnderWay(s.tasks[l.task], x);
    }
  }

  /** In particular if its requests do not overlap between their first look and adding the id. */
  lemma OneHomeWithoutOverlap(labels: seq<Label>, x: Uuid)
    requires forall k :: 0 <= k < |labels| ==> OneAtATime(Run(NOBODY, labels[..k]), x)
    ensures OneHome(Run(NOBODY, labels), x)
  {
    forall k | 0 <= k < |labels| ensures !Races(Run(NOBODY, labels[..k]), labels[k], x) {
      RaceOverlaps(Run(NOBODY, labels[..k]), labels[k], x);
    }
    OneHomeUnlessRaced(labels, x);
  }

  // ---------------------------------------------------------------- how a race splits

  /** The request at task j can end up adding the id to server r if it goes on alone. */
  ghost predicate CanAdd(s: System, j: nat, x: Uuid, r: nat) {
    && j < |s.tasks| && r in s.pool && r < |s.instances| && !FullSticky(s.instances[r])
    && match s.tasks[j]
       case LookingUp(id, k) =>
         && id == x && s.instances[r].available > 0
         && forall m :: k <= m < |s.pool| ==> !Home(s, x, s.pool[m])
       case Retrying(id, _) => id == x && s.instances[r].available > 0
       case Sticking(id, rest) => id == x && rest != [] && rest[0] == r && s.instances[r].available > 0
       case Permitted(id, server) => id == x && server == r
       case Adding(id, server, target) => id == x && server == target == r
       case _ => false
  }

  /** What it does next. */
  function NextOf(t: Task, j: nat, r: nat, now: int): Label {
    match t
    case Retrying(_, _) => Rescan(j, [r])
    case Adding(_, _, _) => Add(j, now)
    case _ => Go(j)
  }

  function StepsLeft(s: System, t: Task): nat {
    match t
    case LookingUp(_, k) => if k <= |s.pool| then 5 + |s.pool| - k else 5
    case Retrying(_, _) => 4
    case Sticking(_, _) => 3
    case Permitted(_, _) => 2
    case _ => 1
  }

  /** The states differ in task j and server r at most. */
  ghost predicate OnlyTouches(s: System, t: System, j: nat, r: nat) {
    && t.pool == s.pool && |t.tasks| == |s.tasks| && |t.instances| == |s.instances|
    && (forall i :: 0 <= i < |s.tasks| && i != j ==> t.tasks[i] == s.tasks[i])
    && (forall q :: 0 <= q < |s.instances| && q != r ==> t.instances[q] == s.instances[q])
  }

  lemma LooksInVain(s: System, j: nat, x: Uuid, k: nat)
    requires Inv(s) && j < |s.tasks| && s.tasks[j] == LookingUp(x, k)
    requires k < |s.pool| ==> !Home(s, x, s.pool[k])
    ensures k <= |s.pool|
    ensures Apply(s, Go(j)) == Set(s, j, if k == |s.pool| then Retrying(x, false) else LookingUp(x, k + 1))
  {
    assert TaskOk(s, s.tasks[j]);
    hide FindId, FromPool;
  }

  /** The request has come one operation closer to adding the id to r. */
  ghost predicate Advances(s: System, t: System, j: nat, x: Uuid, r: nat)
    requires j < |s.tasks|
  {
    CanAdd(t, j, x, r) && OnlyTouches(s, t, j, r) && StepsLeft(t, t.tasks[j]) < StepsLeft(s, s.tasks[j])
  }

  lemma LooksOn(s: System, j: nat, x: Uuid, r: nat)
    requires Inv(s) && CanAdd(s, j, x, r) && s.tasks[j].LookingUp?
    ensures Advances(s, Apply(s, Go(j)), j, x, r)
  {
    var k := s.tasks[j].k;
    assert k < |s.pool| ==> !Home(s, x, s.pool[k]);
    LooksInVain(s, j, x, k);
    hide Inv, Apply;
    var t := Set(s, j, if k == |s.pool| then Retrying(x, false) else LookingUp(x, k + 1));
    assert forall m :: k < m < |s.pool| ==> !Home(s, x, s.pool[m]) && !Home(t, x, s.pool[m]);
  }

  lemma SeesRoom(s: System, j: nat, x: Uuid, r: nat)
    requires Inv(s) && CanAdd(s, j, x, r) && s.tasks[j].Permitted?
    ensures Advances(s, Apply(s, Go(j)), j, x, r)
  {
    FoundIsPermitted(s, r);
    hide Inv, FindId, Home;
  }

  lemma TakesPermit(s: System, j: nat, x: Uuid, r: nat)
    requires Inv(s) && CanAdd(s, j, x, r) && s.tasks[j].Sticking?
    ensures Advances(s, Apply(s, Go(j)), j, x, r)
  {
    hide Inv, FindId, Home;
  }

  lemma RanksAgain(s: System, j: nat, x: Uuid, r: nat)
    requires Inv(s) && CanAdd(s, j, x, r) && s.tasks[j].Retrying?
    ensures Advances(s, Apply(s, Rescan(j, [r])), j, x, r)
  {
    hide Inv, GoStep, Home;
  }

  lemma GoesOn(s: System, j: nat, x: Uuid, r: nat, now: int)
    requires Inv(s) && CanAdd(s, j, x, r) && !s.tasks[j].Adding?
    ensures Advances(s, Apply(s, NextOf(s.tasks[j], j, r, now)), j, x, r)
  {
    hide Inv, Apply, Advances;
    match s.tasks[j]
    case LookingUp(_, _) => LooksOn(s, j, x, r);
    case Permitted(_, _) => SeesRoom(s, j, x, r);
    case Sticking(_, _) => TakesPermit(s, j, x, r);
    case Retrying(_, _) => RanksAgain(s, j, x, r);
  }

  lemma AddsAtLast(s: System, j: nat, x: Uuid, r: nat, now: int)
    requires Inv(s) && CanAdd(s, j, x, r) && s.tasks[j].Adding?
    ensures Home(Apply(s, Add(j, now)), x, r) && OnlyTouches(s, Apply(s, Add(j, now)), j, r)
  {
    assert TaskOk(s, s.tasks[j]);
  }

  /** Left to itself such a request adds the id. */
  lemma {:induction false} CarriesOn(s: System, j: nat, x: Uuid, r: nat, now: int) returns (labels: seq<Label>)
    requires Inv(s) && CanAdd(s, j, x, r)
    ensures Home(Run(s, labels), x, r) && OnlyTouches(s, Run(s, labels), j, r)
    decreases StepsLeft(s, s.tasks[j])
  {
    var l := NextOf(s.tasks[j], j, r, now);
    var t := Next(s, l);
    hide Inv, Home, CanAdd, Apply, StepsLeft;
    RunsOne(s, l);
    if s.tasks[j].Adding? {
      AddsAtLast(s, j, x, r, now);
      labels := [l];
    } else {
      GoesOn(s, j, x, r, now);
      var rest := CarriesOn(t, j, x, r, now);
      RunsOn(s, [l], rest);
      labels := [l] + rest;
    }
  }

  lemma StillCanAdd(s: System, l: Label, j: nat, x: Uuid, r: nat)
    requires Inv(s) && Adds(s, l, x) && j != l.task && CanAdd(s, j, x, r)
    requires Missed(s, s.tasks[j], x, s.tasks[l.task].target) && r != s.tasks[l.task].target
    ensures CanAdd(Apply(s, l), j, x, r)
  {
    var t, target := Apply(s, l), s.tasks[l.task].target;
    AddingStep(s, l, x);
    hide Apply;
    if Looking(s.tasks[j], x) {
      var k :| 0 <= k < s.tasks[j].k && k < |s.pool| && s.pool[k] == target;
      forall m | s.tasks[j].k <= m < |s.pool| ensures !Home(t, x, s.pool[m]) {
        assert !Home(s, x, s.pool[m]) && s.pool[m] != s.pool[k];
      }
    }
  }

  lemma KeepsHome(s: System, t: System, j: nat, r: nat, x: Uuid, q: nat)
    requires OnlyTouches(s, t, j, r) && Home(s, x, q) && q != r
    ensures Home(t, x, q)
  {
  }

  /** Racing is what splits: once the id has been added to a server in which another request has
      missed it, that request, if it can add the id to another server, goes on to do so. */
  lemma RaceReachesSplit(s: System, l: Label, j: nat, x: Uuid, r: nat, now: int) returns (labels: seq<Label>)
    requires Inv(s) && Adds(s, l, x) && j != l.task && CanAdd(s, j, x, r)
    requires Missed(s, s.tasks[j], x, s.tasks[l.task].target) && r != s.tasks[l.task].target
    ensures !OneHome(Run(s, [l] + labels), x)
  {
    var t, target := Next(s, l), s.tasks[l.task].target;
    StillCanAdd(s, l, j, x, r);
    AddingStep(s, l, x);
    labels := CarriesOn(t, j, x, r, now);
    RunsOne(s, l);
    RunsOn(s, [l], labels);
    hide Apply, Inv, Home, CanAdd;
    KeepsHome(t, Run(t, labels), j, r, x, target);
    assert Home(Run(t, labels), x, r) && Home(Run(t, labels), x, target);
  }

  /** A lookup that finds nothing. */
  lemma {:induction false} LookupEnds(s: System, j: nat, x: Uuid, k: nat) returns (labels: seq<Label>)
    requires Inv(s) && j < |s.tasks| && s.tasks[j] == LookingUp(x, k) && k <= |s.pool|
    requires forall m :: k <= m < |s.pool| ==> !Home(s, x, s.pool[m])
    ensures Run(s, labels) == Set(s, j, Retrying(x, false))
    decreases |s.pool| - k
  {
    assert k < |s.pool| ==> !Home(s, x, s.pool[k]);
    LooksInVain(s, j, x, k);
    RunsOne(s, Go(j));
    var t := Next(s, Go(j));
    hide Inv, Apply;
    if k == |s.pool| {
      labels := [Go(j)];
    } else {
      assert forall m :: k < m < |s.pool| ==> !Home(s, x, s.pool[m]) && s.pool[m] == t.pool[m];
      var rest := LookupEnds(t, j, x, k + 1);
      RunsOn(s, [Go(j)], rest);
      labels := [Go(j)] + rest;
      assert Set(t, j, Retrying(x, false)) == Set(s, j, Retrying(x, false));
    }
  }

  lemma Starts(s: System, x: Uuid)
    requires Inv(s)
    ensures Run(s, [StartSticky(x)]) == s.(tasks := s.tasks + [LookingUp(x, 0)])
  {
    RunsOne(s, StartSticky(x));
  }

  lemma TwoStart(s: System, x: Uuid)
    requires Inv(s)
    ensures Run(s, [StartSticky(x), StartSticky(x)])
            == s.(tasks := s.tasks + [LookingUp(x, 0), LookingUp(x, 0)])
  {
    hide *;
    var start := [StartSticky(x)];
    Starts(s, x);
    Starts(Run(s, start), x);
    RunsOn(s, start, start);
    assert start + start == [StartSticky(x), StartSticky(x)];
    assert s.tasks + [LookingUp(x, 0)] + [LookingUp(x, 0)] == s.tasks + [LookingUp(x, 0), LookingUp(x, 0)];
  }

  lemma NoHomesEither(s: System, t: System, x: Uuid)
    requires s.pool == t.pool && s.instances == t.instances && forall p :: !Home(s, x, p)
    ensures forall p :: !Home(t, x, p)
  {
    forall p ensures !Home(t, x, p) { assert !Home(s, x, p); }
  }

  lemma BothReady(s: System, i: nat, j: nat, x: Uuid, q: nat, r: nat)
    requires i < |s.tasks| && s.tasks[i] == LookingUp(x, 0) && j < |s.tasks| && s.tasks[j] == Retrying(x, false)
    requires forall p :: !Home(s, x, p)
    requires q in s.pool && r in s.pool && q < |s.instances| && r < |s.instances|
    requires s.instances[q].available > 0 && !FullSticky(s.instances[q])
    requires s.instances[r].available > 0 && !FullSticky(s.instances[r])
    ensures CanAdd(s, i, x, q) && CanAdd(s, j, x, r)
  {
  }

  /** Two first requests for an id that overlap: both look everywhere in vain, then each adds the id
      to a server of its own.  Any two servers with a permit and a session left will do. */
  lemma FirstRequestsSplit(s: System, x: Uuid, q: nat, r: nat, now: int) returns (labels: seq<Label>)
    requires Inv(s) && forall p :: !Home(s, x, p)
    requires q != r && q in s.pool && r in s.pool && q < |s.instances| && r < |s.instances|
    requires s.instances[q].available > 0 && !FullSticky(s.instances[q])
    requires s.instances[r].available > 0 && !FullSticky(s.instances[r])
    ensures !OneHome(Run(s, labels), x)
  {
    var i, j, start := |s.tasks|, |s.tasks| + 1, [StartSticky(x), StartSticky(x)];
    var two := Run(s, start);
    hide Apply, Inv, FullSticky, OneHome, Run, Home, CanAdd;
    TwoStart(s, x);
    NoHomesEither(s, two, x);
    var lookup := LookupEnds(two, j, x, 0);
    var looked := Run(two, lookup);
    NoHomesEither(s, looked, x);
    BothReady(looked, i, j, x, q, r);
    var rest := BothCarryOn(looked, i, j, x, q, r, now);
    RunsOn(s, start, lookup);
    RunsOn(s, start + lookup, rest);
    labels := start + lookup + rest;
  }

  lemma BothCarryOn(s: System, i: nat, j: nat, x: Uuid, q: nat, r: nat, now: int) returns (labels: seq<Label>)
    requires Inv(s) && CanAdd(s, i, x, q) && CanAdd(s, j, x, r) && i != j && q != r
    requires s.tasks[j].Retrying?
    ensures !OneHome(Run(s, labels), x)
  {
    var first := CarriesOn(s, i, x, q, now);
    var t := Run(s, first);
    assert CanAdd(t, j, x, r);
    var second := CarriesOn(t, j, x, r, now);
    RunsOn(s, first, second);
    labels := first + second;
    hide Inv, Home, CanAdd;
    KeepsHome(t, Run(t, second), j, r, x, q);
    assert Home(Run(t, second), x, r) && Home(Run(t, second), x, q);
  }

  /** Two servers with room, from nothing. */
  const TWO := System([PoolRuns.NewServer(1, Config("a", 1, 1)), PoolRuns.NewServer(2, Config("b", 1, 1))], [0, 1], 3, [])

  lemma TwoServers()
    ensures Run(NOBODY, [AddServers([Config("a", 1, 1), Config("b", 1, 1)])]) == TWO
  {
    var us, known := [Config("a", 1, 1), Config("b", 1, 1)], PoolUris(NOBODY);
    assert us[..1] == [us[0]] && us[..1][..0] == [];
    assert AddServersStep(NOBODY, us[..1], known) == AddOne(NOBODY, us[0]);
    assert AddServersStep(NOBODY, us, known) == AddOne(AddOne(NOBODY, us[0]), us[1]) == TWO;
    hide AddServersStep;
    RunsOne(NOBODY, AddServers(us));
  }

  /** So an id can come to have two homes: this is a run from the empty pool. */
  lemma ConcurrentFirstRequestsSplit(x: Uuid, now: int) returns (labels: seq<Label>)
    ensures !OneHome(Run(NOBODY, labels), x)
  {
    var start := [AddServers([Config("a", 1, 1), Config("b", 1, 1)])];
    TwoServers();
    forall r ensures !Home(TWO, x, r) {}
    labels := FirstRequestsSplit(TWO, x, 0, 1, now);
    RunsOn(NOBODY, start, labels);
    labels := start + labels;
  }
}
