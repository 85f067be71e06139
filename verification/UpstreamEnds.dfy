/**
 What every single operation does to the sessions, whatever else is under way; how a waiting call
 comes by a permit; and that from every state all calls can end, with every permit back.
 */
module UpstreamEnds {
  import opened Wrappers
  import opened Upstream
  import P = PoolRuns
  import opened UpstreamTasks
  import opened UpstreamCalls

  // ---------------------------------------------------------------- sessions

  /** The operation takes the id's session from server r: a removal that has found it there, or an
      expiry more than its time after the session was last used. */
  predicate TakesSession(s: System, l: Label, x: Uuid, r: nat) {
    && r < |s.instances| && x in s.instances[r].sticky
    && match l
       case Go(i) => i < |s.tasks| && s.tasks[i] == Removing(x, r)
       case Expire(server, now, expiry) => server == r && r in s.pool && now - s.instances[r].sticky[x] > expiry
       case _ => false
  }

  /** The operation writes the instant of the id's session on server r: it marks a session that is
      there, or adds one where there are fewer than the server allows. */
  predicate WritesSession(s: System, l: Label, x: Uuid, r: nat) {
    && r < |s.instances|
    && match l
       case Touch(i, _) => i < |s.tasks| && s.tasks[i] == Touching(x, r) && x in s.instances[r].sticky
       case Add(i, _) =>
         i < |s.tasks| && s.tasks[i] == Adding(x, r, r) && |s.instances[r].sticky| < s.instances[r].maxSticky
       case _ => false
  }

  function InstantOf(l: Label): int {
    match l
    case Touch(_, now) => now
    case Add(_, now) => now
    case _ => 0
  }

  /** The sessions of a server after any operation of any task: those before, but for one that the
      operation takes, and with its instant one that it writes. */
  ghost predicate SessionsFollow(s: System, t: System, l: Label, x: Uuid, r: nat) {
    && r < |s.instances| <= |t.instances|
    && (x in t.instances[r].sticky <==>
          (x in s.instances[r].sticky && !TakesSession(s, l, x, r)) || WritesSession(s, l, x, r))
    && (x in t.instances[r].sticky ==>
          t.instances[r].sticky[x] == if WritesSession(s, l, x, r) then InstantOf(l) else s.instances[r].sticky[x])
  }

  lemma SessionsChange(s: System, l: Label, x: Uuid, r: nat)
    requires Inv(s) && r < |s.instances|
    ensures SessionsFollow(s, Apply(s, l), l, x, r)
  {
    hide Inv, SessionsFollow;
    match l
    case Go(i) => GoSessions(s, i, x, r);
    case Touch(i, now) => MarkSessions(s, l, x, r);
    case Add(i, now) => MarkSessions(s, l, x, r);
    case AddServers(us) => ServerSessions(s, l, x, r);
    case _ => OtherSessions(s, l, x, r);
  }

  lemma GoKeepsSessions(s: System, i: nat, r: nat)
    requires Inv(s) && i < |s.tasks| && !s.tasks[i].Removing? && r < |s.instances|
    ensures |GoStep(s, i).instances| == |s.instances| && GoStep(s, i).instances[r].sticky == s.instances[r].sticky
  {
    assert TaskOk(s, s.tasks[i]);
    hide Inv, FindId, FromPool;
  }

  lemma RemovalSessions(s: System, i: nat)
    requires Inv(s) && i < |s.tasks| && s.tasks[i].Removing?
    ensures
      var x, r := s.tasks[i].id, s.tasks[i].server;
      && r < |s.instances|
      && GoStep(s, i).instances == s.instances[r := s.instances[r].(sticky := s.instances[r].sticky - {x})]
  {
    assert TaskOk(s, s.tasks[i]);
    hide Inv, FindId, FromPool;
  }

  lemma GoSessions(s: System, i: nat, x: Uuid, r: nat)
    requires Inv(s) && r < |s.instances|
    ensures SessionsFollow(s, Apply(s, Go(i)), Go(i), x, r)
  {
    hide Inv, GoStep;
    if i < |s.tasks| {
      if s.tasks[i].Removing? { RemovalSessions(s, i); } else { GoKeepsSessions(s, i, r); }
    }
  }

  lemma MarkSessions(s: System, l: Label, x: Uuid, r: nat)
    requires Inv(s) && r < |s.instances| && (l.Touch? || l.Add?)
    ensures SessionsFollow(s, Apply(s, l), l, x, r)
  {
    if l.task < |s.tasks| { assert TaskOk(s, s.tasks[l.task]); }
    hide Inv, FindId, FromPool, GoStep;
  }

  lemma ServerSessions(s: System, l: Label, x: Uuid, r: nat)
    requires Inv(s) && r < |s.instances| && l.AddServers?
    ensures SessionsFollow(s, Apply(s, l), l, x, r)
  {
    if Quiet(s) { AddServersKeepsOld(s, l.upstreams, PoolUris(s)); }
  }

  lemma ExpirySessions(s: System, l: Label, x: Uuid, r: nat)
    requires Inv(s) && r < |s.instances| && l.Expire?
    ensures SessionsFollow(s, Apply(s, l), l, x, r)
  {
    hide Conserved, TaskOk;
  }

  lemma OtherKeepsSessions(s: System, l: Label, r: nat)
    requires Inv(s) && r < |s.instances| && !l.Go? && !l.Touch? && !l.Add? && !l.AddServers? && !l.Expire?
    ensures |Apply(s, l).instances| == |s.instances| && Apply(s, l).instances[r].sticky == s.instances[r].sticky
  {
    hide FindId, FromPool, GoStep;
  }

  lemma OtherSessions(s: System, l: Label, x: Uuid, r: nat)
    requires Inv(s) && r < |s.instances| && !l.Go? && !l.Touch? && !l.Add? && !l.AddServers?
    ensures SessionsFollow(s, Apply(s, l), l, x, r)
  {
    hide Inv, Apply;
    if l.Expire? { ExpirySessions(s, l, x, r); } else { OtherKeepsSessions(s, l, r); }
  }

  // ---------------------------------------------------------------- a waiting call

  lemma ChildTakes(s: System, c: nat, i: nat, r: nat)
    requires Inv(s) && c < |s.tasks| && s.tasks[c] == Waiting(i, r)
    ensures r < |s.instances|
    ensures Apply(s, Go(c)) == if s.instances[r].available > 0 then Got(s, c, r, Holding(i, r)) else s
  {
    assert TaskOk(s, s.tasks[c]);
    assert Set(s, c, Waiting(i, r)) == s;
    hide FindId, FromPool;
  }

  lemma ChildYields(s: System, i: nat, c: nat, r: nat)
    requires Inv(s) && i < |s.tasks| && c < |s.tasks| && s.tasks[i].Joining? && s.tasks[c] == Holding(i, r)
    ensures r < |s.instances|
    ensures Apply(s, Join(i, c)) == Set(Set(s, c, Finished), i, Guarded(r, s.instances[r].uri))
  {
    assert TaskOk(s, s.tasks[c]);
  }

  /** A call that waits for any server gets the first permit that its task finds free: a guard of that
      server for exactly one permit. */
  lemma WaiterIsServed(s: System, i: nat, c: nat, r: nat)
    requires Inv(s) && i < |s.tasks| && c < |s.tasks| && s.tasks[i].Joining? && s.tasks[c] == Waiting(i, r)
    requires r < |s.instances| && s.instances[r].available > 0
    ensures
      var server := s.instances[r];
      Run(s, [Go(c)] + [Join(i, c)])
      == s.(instances := s.instances[r := server.(available := server.available - 1)],
            tasks := s.tasks[c := Finished][i := Guarded(r, server.uri)])
  {
    var held := Got(s, c, r, Holding(i, r));
    hide Inv, Apply, Run;
    ChildTakes(s, c, i, r);
    RunsOne(s, Go(c));
    ChildYields(held, i, c, r);
    ThenOne(s, [Go(c)], Join(i, c));
    assert s.tasks[c := Holding(i, r)][c := Finished] == s.tasks[c := Finished];
  }

  // ---------------------------------------------------------------- everything can end

  /** Task i no longer holds the pool, the others are as they were, and what has been started since
      does not hold it either. */
  ghost predicate Calmed(s: System, t: System, i: nat) {
    && i < |s.tasks| <= |t.tasks| && !Reading(t.tasks[i])
    && (forall j :: 0 <= j < |s.tasks| && j != i ==> t.tasks[j] == s.tasks[j])
    && (forall j :: |s.tasks| <= j < |t.tasks| ==> !Reading(t.tasks[j]))
  }

  /** A call that waits can be dropped. */
  lemma Drops(s: System, i: nat) returns (labels: seq<Label>)
    requires Inv(s) && i < |s.tasks| && Awaiting(s.tasks[i])
    ensures
      var t := Run(s, labels);
      t.tasks == s.tasks[i := Finished]
  {
    labels := [Cancel(i)];
    RunsOne(s, Cancel(i));
    EndKeepsInv(s, i);
  }

  lemma AcquiringEnds(s: System, i: nat) returns (labels: seq<Label>)
    requires Inv(s) && i < |s.tasks| && s.tasks[i].Acquiring?
    ensures Calmed(s, Run(s, labels), i)
  {
    labels := [Go(i)];
    RunsOne(s, Go(i));
    assert TaskOk(s, s.tasks[i]);
    hide FindId, FromPool;
  }

  lemma DropCalms(s: System, i: nat, labels: seq<Label>) returns (all: seq<Label>)
    requires Inv(s) && i < |s.tasks|
    requires
      var t := Run(s, labels);
      && |s.tasks| <= |t.tasks| && Awaiting(t.tasks[i])
      && (forall j :: 0 <= j < |s.tasks| && j != i ==> t.tasks[j] == s.tasks[j])
      && (forall j :: |s.tasks| <= j < |t.tasks| ==> !Reading(t.tasks[j]))
    ensures Calmed(s, Run(s, all), i)
  {
    hide Inv, Run, Apply;
    var t := Run(s, labels);
    var last := Drops(t, i);
    RunsOn(s, labels, last);
    all := labels + last;
  }

  lemma StickingEnds(s: System, i: nat) returns (labels: seq<Label>)
    requires Inv(s) && i < |s.tasks| && s.tasks[i].Sticking?
    ensures Calmed(s, Run(s, labels), i)
  {
    var x, rest := s.tasks[i].id, s.tasks[i].rest;
    hide Inv, Run, Apply, Calmed, FirstFree;
    var scan, p := Tries(s, i, x, rest, 0);
    labels := DropCalms(s, i, scan);
  }

  lemma SpawnsAt(s: System, i: nat)
    requires Inv(s) && i < |s.tasks| && s.tasks[i] == Scanning([])
    ensures
      var t := Apply(s, Go(i));
      && |s.tasks| <= |t.tasks| && t.tasks[i].Joining?
      && (forall j :: 0 <= j < |s.tasks| && j != i ==> t.tasks[j] == s.tasks[j])
      && (forall j :: |s.tasks| <= j < |t.tasks| ==> !Reading(t.tasks[j]))
  {
    hide FindId, FromPool;
  }

  lemma EmptyScanEnds(s: System, i: nat) returns (labels: seq<Label>)
    requires Inv(s) && i < |s.tasks| && s.tasks[i] == Scanning([])
    ensures Calmed(s, Run(s, labels), i)
  {
    hide Inv, Run, Apply, Calmed;
    SpawnsAt(s, i);
    RunsOne(s, Go(i));
    labels := DropCalms(s, i, [Go(i)]);
  }

  lemma ScanEnds(s: System, i: nat) returns (labels: seq<Label>)
    requires Inv(s) && i < |s.tasks| && s.tasks[i].Scanning?
    ensures Calmed(s, Run(s, labels), i)
  {
    hide Inv, Run, Apply, FirstFree;
    var scan, p := Scans(s, i, s.tasks[i].rest);
    labels := scan;
    if p == |s.tasks[i].rest| {
      var t := Run(s, scan);
      var more := EmptyScanEnds(t, i);
      RunsOn(s, scan, more);
      labels := scan + more;
    }
  }

  /** Every call can be brought to an end by itself. */
  lemma CallEnds(s: System, i: nat) returns (labels: seq<Label>)
    requires Inv(s) && i < |s.tasks|
    ensures Calmed(s, Run(s, labels), i)
  {
    labels := [];
    assert !Reading(s.tasks[i]) ==> Calmed(s, Run(s, []), i);
    assert Run(s, []) == s;
    hide Inv, Run, Apply, Calmed;
    if Awaiting(s.tasks[i]) {
      labels := DropCalms(s, i, []);
    } else {
      match s.tasks[i]
      case Scanning(_) => labels := ScanEnds(s, i);
      case Sticking(_, _) => labels := StickingEnds(s, i);
      case Acquiring(_) => labels := AcquiringEnds(s, i);
      case _ =>
    }
  }

  /** The tasks before k, and those from n on, do not hold the pool. */
  ghost predicate CalmOutside(s: System, k: nat, n: nat) {
    forall i :: 0 <= i < |s.tasks| && (i < k || i >= n) ==> !Reading(s.tasks[i])
  }

  lemma CalmOneMore(s: System, t: System, k: nat, n: nat)
    requires CalmOutside(s, k, n) && k < n <= |s.tasks| && Calmed(s, t, k)
    ensures CalmOutside(t, k + 1, n) && |s.tasks| <= |t.tasks|
  {
  }

  lemma {:induction false} CallsEnd(s: System, k: nat, n: nat) returns (labels: seq<Label>)
    requires Inv(s) && k <= n <= |s.tasks| && CalmOutside(s, k, n)
    ensures Quiet(Run(s, labels))
    decreases n - k
  {
    labels := [];
    assert k == n ==> Quiet(Run(s, []));
    hide Inv, Run, Apply, Calmed, CalmOutside, Quiet;
    if k < n {
      var first := CallEnds(s, k);
      CalmOneMore(s, Run(s, first), k, n);
      var rest := CallsEnd(Run(s, first), k + 1, n);
      RunsOn(s, first, rest);
      labels := first + rest;
    }
  }

  ghost predicate FinishedBefore(s: System, k: nat) {
    k <= |s.tasks| && forall i :: 0 <= i < k ==> s.tasks[i].Finished?
  }

  /** A guard, or what a call has left behind, is dropped. */
  function LastOf(t: Task, k: nat): seq<Label> {
    match t
    case Guarded(_, _) => [DropGuard(k)]
    case Waiting(_, _) => [Abort(k)]
    case Holding(_, _) => [Abort(k)]
    case _ => []
  }

  lemma GuardDrops(s: System, k: nat)
    requires Inv(s) && k < |s.tasks| && s.tasks[k].Guarded?
    ensures Apply(s, DropGuard(k)).tasks == s.tasks[k := Finished]
  {
    hide FindId, FromPool, GoStep;
  }

  lemma ChildDrops(s: System, k: nat)
    requires Inv(s) && Quiet(s) && k < |s.tasks| && (s.tasks[k].Waiting? || s.tasks[k].Holding?)
    ensures Apply(s, Abort(k)).tasks == s.tasks[k := Finished]
  {
    assert TaskOk(s, s.tasks[k]);
    assert !Reading(s.tasks[s.tasks[k].parent]);
    hide FindId, FromPool, GoStep;
  }

  lemma Finishes(s: System, k: nat)
    requires Inv(s) && Quiet(s) && k < |s.tasks|
    ensures Run(s, LastOf(s.tasks[k], k)).tasks == s.tasks[k := Finished]
  {
    assert !Reading(s.tasks[k]) && Run(s, []) == s;
    hide Inv, Run, Apply, Quiet;
    match s.tasks[k]
    case Guarded(_, _) =>
      GuardDrops(s, k);
      RunsOne(s, DropGuard(k));
    case Finished => assert s.tasks[k := Finished] == s.tasks;
    case _ =>
      ChildDrops(s, k);
      RunsOne(s, Abort(k));
  }

  lemma FinishedOneMore(s: System, t: System, k: nat)
    requires Quiet(s) && FinishedBefore(s, k) && k < |s.tasks| && t.tasks == s.tasks[k := Finished]
    ensures Quiet(t) && FinishedBefore(t, k + 1) && |t.tasks| == |s.tasks|
  {
  }

  lemma {:induction false} AllFinish(s: System, k: nat) returns (labels: seq<Label>)
    requires Inv(s) && Quiet(s) && FinishedBefore(s, k)
    ensures
      var t := Run(s, labels);
      |t.tasks| == |s.tasks| && FinishedBefore(t, |t.tasks|)
    decreases |s.tasks| - k
  {
    assert k <= |s.tasks| && Run(s, []) == s;
    labels := [];
    hide Inv, Run, Apply, FinishedBefore, Quiet;
    if k < |s.tasks| {
      var first := LastOf(s.tasks[k], k);
      Finishes(s, k);
      FinishedOneMore(s, Run(s, first), k);
      var rest := AllFinish(Run(s, first), k + 1);
      RunsOn(s, first, rest);
      labels := first + rest;
    }
  }

  lemma {:induction false} FinishedHoldNothing(tasks: seq<Task>, r: nat)
    requires forall i :: 0 <= i < |tasks| ==> tasks[i].Finished?
    ensures Held(tasks, r) == 0
    decreases |tasks|
  {
    if tasks != [] { FinishedHoldNothing(tasks[..|tasks| - 1], r); }
  }

  lemma NothingHeld(s: System)
    requires Inv(s) && FinishedBefore(s, |s.tasks|)
    ensures forall r :: 0 <= r < |s.instances| ==> s.instances[r].available == s.instances[r].maxConnections
  {
    forall r | 0 <= r < |s.instances| ensures s.instances[r].available == s.instances[r].maxConnections {
      assert Conserved(s, r);
      FinishedHoldNothing(s.tasks, r);
    }
  }

  /** From every state all calls can be ended and all guards dropped, and then every connection of
      every server ever added is free: no interleaving loses a permit. */
  lemma EveryPermitReturns(s: System) returns (labels: seq<Label>)
    requires Inv(s)
    ensures
      var t := Run(s, labels);
      && (forall i :: 0 <= i < |t.tasks| ==> t.tasks[i].Finished?)
      && (forall r :: 0 <= r < |t.instances| ==> t.instances[r].available == t.instances[r].maxConnections)
  {
    assert CalmOutside(s, 0, |s.tasks|);
    var calm := CallsEnd(s, 0, |s.tasks|);
    var t := Run(s, calm);
    assert FinishedBefore(t, 0);
    var finish := AllFinish(t, 0);
    RunsOn(s, calm, finish);
    labels := calm + finish;
    NothingHeld(Run(s, labels));
  }

  // ---------------------------------------------------------------- configured limits

  /** Some call of the run added a server with this URI and these limits. */
  ghost predicate Configured(labels: seq<Label>, server: Server) {
    exists i, k ::
      && 0 <= i < |labels| && labels[i].AddServers? && 0 <= k < |labels[i].upstreams|
      && labels[i].upstreams[k] == Config(server.uri, server.maxConnections, server.maxSticky)
  }

  /** The server keeps its identity and its limits. */
  ghost predicate Kept(s: System, t: System, r: nat) {
    && r < |s.instances| == |t.instances|
    && t.instances[r] == s.instances[r].(available := t.instances[r].available, sticky := t.instances[r].sticky)
  }

  lemma GoKeepsServer(s: System, i: nat, r: nat)
    requires Inv(s) && i < |s.tasks| && r < |s.instances|
    ensures Kept(s, GoStep(s, i), r)
  {
    assert TaskOk(s, s.tasks[i]);
    hide Inv, FindId, FromPool;
  }

  lemma OtherKeepsServer(s: System, l: Label, r: nat)
    requires Inv(s) && !l.Go? && !l.AddServers? && r < |s.instances|
    ensures Kept(s, Apply(s, l), r)
  {
    hide FindId, FromPool, GoStep;
  }

  lemma SameNumber(s: System, l: Label)
    requires Inv(s) && !l.AddServers?
    ensures |Apply(s, l).instances| == |s.instances|
  {
    if l.Go? && l.task < |s.tasks| { assert TaskOk(s, s.tasks[l.task]); }
    hide FindId, FromPool;
  }

  lemma {:induction false} AddKeepsServers(s: System, upstreams: seq<Config>, known: set<string>)
    ensures
      var t := AddServersStep(s, upstreams, known);
      && s.instances <= t.instances
      && forall r :: |s.instances| <= r < |t.instances| ==>
           exists k :: 0 <= k < |upstreams| && upstreams[k].uri !in known
                       && upstreams[k] == Config(t.instances[r].uri, t.instances[r].maxConnections, t.instances[r].maxSticky)
    decreases |upstreams|
  {
    if upstreams != [] {
      var n := |upstreams| - 1;
      AddKeepsServers(s, upstreams[..n], known);
      var before, t := AddServersStep(s, upstreams[..n], known), AddServersStep(s, upstreams, known);
      forall r | |s.instances| <= r < |t.instances|
        ensures exists k :: 0 <= k < |upstreams| && upstreams[k].uri !in known
                            && upstreams[k] == Config(t.instances[r].uri, t.instances[r].maxConnections, t.instances[r].maxSticky)
      {
        if r < |before.instances| {
          var k :| 0 <= k < n && upstreams[..n][k].uri !in known
                   && upstreams[..n][k] == Config(t.instances[r].uri, t.instances[r].maxConnections, t.instances[r].maxSticky);
          assert upstreams[k] == upstreams[..n][k];
        } else {
          assert upstreams[n] == Config(t.instances[r].uri, t.instances[r].maxConnections, t.instances[r].maxSticky);
        }
      }
    }
  }

  lemma StepConfigured(s: System, l: Label, r: nat)
    requires Inv(s) && r < |Apply(s, l).instances|
    ensures
      var after := Apply(s, l).instances[r];
      if r < |s.instances| then
        after == s.instances[r].(available := after.available, sticky := after.sticky)
      else
        && l.AddServers?
        && exists k :: 0 <= k < |l.upstreams| && l.upstreams[k] == Config(after.uri, after.maxConnections, after.maxSticky)
  {
    hide GoStep;
    if l.AddServers? {
      if Quiet(s) { AddKeepsServers(s, l.upstreams, PoolUris(s)); }
    } else {
      SameNumber(s, l);
      if l.Go? { if l.task < |s.tasks| { GoKeepsServer(s, l.task, r); } } else { OtherKeepsServer(s, l, r); }
    }
  }

  lemma ConfiguredLater(labels: seq<Label>, n: nat, server: Server, after: Server)
    requires n <= |labels| && Configured(labels[..n], server)
    requires after == server.(available := after.available, sticky := after.sticky)
    ensures Configured(labels, after)
  {
    var i, k :| 0 <= i < n && labels[..n][i].AddServers? && 0 <= k < |labels[..n][i].upstreams|
      && labels[..n][i].upstreams[k] == Config(server.uri, server.maxConnections, server.maxSticky);
    assert labels[i] == labels[..n][i];
  }

  lemma NobodyHasNone()
    ensures Inv(NOBODY) && Run(NOBODY, []).instances == []
  {
  }

  /** So the limits that hold in every interleaving are the configured ones: every server has the URI,
      the connections and the sessions of a configuration that was added. */
  lemma {:induction false} LimitsAreConfigured(labels: seq<Label>, r: nat)
    requires Inv(NOBODY) && r < |Run(NOBODY, labels).instances|
    ensures Configured(labels, Run(NOBODY, labels).instances[r])
    decreases |labels|
  {
    NobodyHasNone();
    if labels != [] {
      var n := |labels| - 1;
      var s, l := Run(NOBODY, labels[..n]), labels[n];
      RunsLast(NOBODY, labels, n);
      hide Inv, Run, Apply;
      StepConfigured(s, l, r);
      if r < |s.instances| {
        LimitsAreConfigured(labels[..n], r);
        ConfiguredLater(labels, n, s.instances[r], Run(NOBODY, labels).instances[r]);
      }
    }
  }
}
