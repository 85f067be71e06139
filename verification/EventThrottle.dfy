/**
 The event throttle: a buffer of when each event was last published, consulted before publishing
 and cleaned from time to time.
 */
module EventThrottle {
  import opened Wrappers

  datatype QueueEvent =
    | SettingsChanged | WaitingPageChanged | QueueAdded | QueueExpired | QueueRemoved | StoreAdded | StoreExpired

  type Buffer = map<QueueEvent, int>

  /** An emit reads the clock before the check and again when it writes the buffer, unless its
      caller fixed the instant; then both are the same. */
  datatype Call = Emit(event: QueueEvent, check: int, write: int) | Flush(now: int)

  /** Instants never give a negative duration. */
  function Elapsed(now: int, since: int): nat {
    if now < since then 0 else now - since
  }

  /** Whether an event is held back at this instant. */
  predicate Throttled(b: Buffer, throttle: nat, event: QueueEvent, now: int) {
    event in b && Elapsed(now, b[event]) < throttle
  }

  function Step(b: Buffer, throttle: nat, c: Call): Buffer {
    match c
    case Emit(event, check, write) => if Throttled(b, throttle, event, check) then b else b[event := write]
    case Flush(now) => map event | event in b && Throttled(b, throttle, event, now) :: b[event]
  }

  class Throttle {
    const publishThrottle: nat
    var buffer: Buffer

    constructor (publishThrottle: nat)
      ensures this.publishThrottle == publishThrottle && buffer == map[]
    {
      this.publishThrottle := publishThrottle;
      buffer := map[];
    }

    /** Publish the event unless it is held back; record the attempt even if publishing failed. */
    method Emit(event: QueueEvent, check: int, write: int) returns (published: bool)
      modifies this`buffer
      ensures published <==> !Throttled(old(buffer), publishThrottle, event, check)
      ensures buffer == if published then old(buffer)[event := write] else old(buffer)
    {
      if event in buffer && Elapsed(check, buffer[event]) < publishThrottle {
        return false;
      }
      buffer := buffer[event := write];
      published := true;
    }

    /** Keep exactly the events that are still held back. */
    method Flush(now: int)
      modifies this`buffer
      ensures forall event :: event in buffer <==> Throttled(old(buffer), publishThrottle, event, now)
      ensures forall event :: event in buffer ==> event in old(buffer) && buffer[event] == old(buffer)[event]
    {
      buffer := map event | event in buffer && Elapsed(now, buffer[event]) < publishThrottle :: buffer[event];
    }

    /** A sequence of calls, and the emits that were published. */
    method Serve(calls: seq<Call>) returns (published: seq<Call>)
      requires buffer == map[]
      modifies this`buffer
      ensures buffer == Run(publishThrottle, calls)
      ensures published == Published(publishThrottle, calls)
    {
      published := [];
      for k := 0 to |calls|
        invariant buffer == Run(publishThrottle, calls[..k])
        invariant published == Published(publishThrottle, calls[..k])
      {
        assert calls[..k + 1][..k] == calls[..k];
        match calls[k]
        case Emit(event, check, write) =>
          var attempt := Emit(event, check, write);
          if attempt {
            published := published + [calls[k]];
          }
        case Flush(now) =>
          ghost var before := buffer;
          Flush(now);
          assert buffer == Step(before, publishThrottle, calls[k]);
      }
      assert calls[..|calls|] == calls;
    }
  }

  /** The buffer after a sequence of calls, from an empty one. */
  function Run(throttle: nat, calls: seq<Call>): Buffer {
    if calls == [] then map[] else Step(Run(throttle, calls[..|calls| - 1]), throttle, calls[|calls| - 1])
  }

  /** Whether call k is an emit that is published. */
  predicate IsPublished(throttle: nat, calls: seq<Call>, k: nat)
    requires k < |calls|
  {
    calls[k].Emit? && !Throttled(Run(throttle, calls[..k]), throttle, calls[k].event, calls[k].check)
  }

  function Published(throttle: nat, calls: seq<Call>): seq<Call> {
    if calls == [] then []
    else
      Published(throttle, calls[..|calls| - 1])
      + (if IsPublished(throttle, calls, |calls| - 1) then [calls[|calls| - 1]] else [])
  }

  /** These are the indices, in order, of the calls that are published. */
  ghost predicate Selects(ks: seq<nat>, throttle: nat, calls: seq<Call>, published: seq<Call>) {
    && Increasing(ks) && |ks| == |published|
    && (forall k :: 0 <= k < |calls| ==> (k in ks <==> IsPublished(throttle, calls, k)))
    && (forall p :: 0 <= p < |ks| ==> ks[p] < |calls| && published[p] == calls[ks[p]])
  }

  lemma SelectsOn(ks: seq<nat>, throttle: nat, calls: seq<Call>, n: nat, published: seq<Call>)
    requires |calls| == n + 1 && Selects(ks, throttle, calls[..n], published)
    ensures !IsPublished(throttle, calls, n) ==> Selects(ks, throttle, calls, published)
    ensures IsPublished(throttle, calls, n) ==> Selects(ks + [n], throttle, calls, published + [calls[n]])
  {
    AppendLarger(ks, n);
    assert forall p :: 0 <= p < |ks| ==> ks[p] != n;
    forall k | 0 <= k < n ensures IsPublished(throttle, calls, k) <==> IsPublished(throttle, calls[..n], k) {
      PublishedBefore(throttle, calls, n, k);
    }
    hide IsPublished;
  }

  /** What is published: exactly the emits that are not held back, in order. */
  lemma {:induction false} PublishedAre(throttle: nat, calls: seq<Call>) returns (ks: seq<nat>)
    ensures Selects(ks, throttle, calls, Published(throttle, calls))
    decreases |calls|
  {
    ks := [];
    assert calls == [] ==> Selects([], throttle, calls, Published(throttle, calls));
    hide IsPublished, Selects;
    if calls != [] {
      var n := |calls| - 1;
      ks := PublishedAre(throttle, calls[..n]);
      SelectsOn(ks, throttle, calls, n, Published(throttle, calls[..n]));
      if IsPublished(throttle, calls, n) { ks := ks + [n]; }
    }
  }

  lemma PublishedBefore(throttle: nat, calls: seq<Call>, n: nat, k: nat)
    requires k < n <= |calls|
    ensures IsPublished(throttle, calls, k) <==> IsPublished(throttle, calls[..n], k)
  {
    assert calls[..n][..k] == calls[..k];
  }

  function WithoutFlushes(calls: seq<Call>): seq<Call> {
    if calls == [] then []
    else
      WithoutFlushes(calls[..|calls| - 1])
      + (if calls[|calls| - 1].Flush? then [] else [calls[|calls| - 1]])
  }

  function Start(c: Call): int {
    match c case Emit(_, check, _) => check case Flush(now) => now
  }

  function End(c: Call): int {
    match c case Emit(_, _, write) => write case Flush(now) => now
  }

  /** One call after the other, on a clock that does not go back. */
  ghost predicate InOrder(calls: seq<Call>) {
    && (forall k :: 0 <= k < |calls| ==> Start(calls[k]) <= End(calls[k]))
    && (forall j, k :: 0 <= j < k < |calls| ==> End(calls[j]) <= Start(calls[k]))
  }

  /** Two buffers hold back the same events from this instant on. */
  ghost predicate Alike(a: Buffer, b: Buffer, throttle: nat, now: int) {
    forall event: QueueEvent ::
      && (Throttled(a, throttle, event, now) <==> Throttled(b, throttle, event, now))
      && (Throttled(a, throttle, event, now) ==> a[event] == b[event])
  }

  lemma AlikeLater(a: Buffer, b: Buffer, throttle: nat, now: int, later: int)
    requires Alike(a, b, throttle, now) && now <= later
    ensures Alike(a, b, throttle, later)
  {
    forall event: QueueEvent | Throttled(a, throttle, event, later) || Throttled(b, throttle, event, later)
      ensures Throttled(a, throttle, event, now) && Throttled(b, throttle, event, now)
    {
    }
  }

  lemma FlushedAlike(b: Buffer, throttle: nat, flushed: int, now: int)
    requires flushed <= now
    ensures Alike(Step(b, throttle, Call.Flush(flushed)), b, throttle, now)
  {
    forall event: QueueEvent | Throttled(b, throttle, event, now) ensures Throttled(b, throttle, event, flushed) {}
  }

  lemma {:induction false} BuffersAlike(throttle: nat, calls: seq<Call>, now: int)
    requires InOrder(calls) && forall k :: 0 <= k < |calls| ==> End(calls[k]) <= now
    ensures Alike(Run(throttle, calls), Run(throttle, WithoutFlushes(calls)), throttle, now)
    ensures Published(throttle, calls) == Published(throttle, WithoutFlushes(calls))
    decreases |calls|
  {
    if calls != [] {
      var before, c := calls[..|calls| - 1], calls[|calls| - 1];
      var rest := WithoutFlushes(before);
      BuffersAlike(throttle, before, Start(c));
      var a, b := Run(throttle, before), Run(throttle, rest);
      AlikeLater(a, b, throttle, Start(c), now);
      if c.Emit? {
        var all := WithoutFlushes(calls);
        assert all[..|all| - 1] == rest;
      } else {
        FlushedAlike(a, throttle, c.now, now);
        assert WithoutFlushes(calls) == rest;
      }
    }
  }

  /** Cleaning is invisible: without the flushes the same emits are published. */
  lemma FlushIsInvisible(throttle: nat, calls: seq<Call>)
    requires InOrder(calls)
    ensures Published(throttle, calls) == Published(throttle, WithoutFlushes(calls))
  {
    var now := if calls == [] then 0 else End(calls[|calls| - 1]);
    forall k | 0 <= k < |calls| ensures End(calls[k]) <= now {
      if k < |calls| - 1 { assert End(calls[k]) <= Start(calls[|calls| - 1]); }
    }
    BuffersAlike(throttle, calls, now);
  }

  /** After call j is published the buffer remembers it, until the throttle time has passed. */
  lemma {:induction false} Remembered(throttle: nat, calls: seq<Call>, j: nat, k: nat)
    requires InOrder(calls) && j < k < |calls| && IsPublished(throttle, calls, j)
    ensures
      var b, event := Run(throttle, calls[..k]), calls[j].event;
      || (event in b && b[event] >= calls[j].write)
      || Start(calls[k]) >= calls[j].write + throttle
    decreases k
  {
    var c := calls[k - 1];
    assert calls[..k][..k - 1] == calls[..k - 1];
    if j < k - 1 {
      Remembered(throttle, calls, j, k - 1);
      assert End(calls[j]) <= Start(c) && End(c) <= Start(calls[k]);
    }
  }

  /** Two publications of the same event are at least the throttle time apart. */
  lemma PublicationsAreSpaced(throttle: nat, calls: seq<Call>, j: nat, k: nat)
    requires InOrder(calls) && j < k < |calls|
    requires IsPublished(throttle, calls, j) && IsPublished(throttle, calls, k)
    requires calls[j].event == calls[k].event
    ensures calls[k].check >= calls[j].write + throttle
  {
    Remembered(throttle, calls, j, k);
    assert End(calls[j]) <= Start(calls[k]);
  }

  /** The buffer holds only instants of publications. */
  lemma {:induction false} BufferedFrom(throttle: nat, calls: seq<Call>, event: QueueEvent) returns (j: nat)
    requires event in Run(throttle, calls)
    ensures j < |calls| && IsPublished(throttle, calls, j)
    ensures calls[j].event == event && Run(throttle, calls)[event] == calls[j].write
    decreases |calls|
  {
    var n := |calls| - 1;
    if calls[n].Emit? && calls[n].event == event && IsPublished(throttle, calls, n) {
      j := n;
    } else {
      j := BufferedFrom(throttle, calls[..n], event);
      assert calls[..n][..j] == calls[..j];
    }
  }

  /** An emit is published exactly if every earlier publication of its event is the throttle time
      ago. */
  lemma PublishedIff(throttle: nat, calls: seq<Call>, k: nat)
    requires InOrder(calls) && k < |calls| && calls[k].Emit?
    ensures IsPublished(throttle, calls, k) <==>
            forall j :: 0 <= j < k && IsPublished(throttle, calls, j) && calls[j].event == calls[k].event ==>
                          calls[k].check >= calls[j].write + throttle
  {
    var event := calls[k].event;
    if IsPublished(throttle, calls, k) {
      forall j | 0 <= j < k && IsPublished(throttle, calls, j) && calls[j].event == event
        ensures calls[k].check >= calls[j].write + throttle
      {
        PublicationsAreSpaced(throttle, calls, j, k);
      }
    } else {
      var j := BufferedFrom(throttle, calls[..k], event);
      assert calls[..k][..j] == calls[..j];
      assert End(calls[j]) <= Start(calls[k]);
    }
  }

  // ---------------------------------------------------------------- overlapping emits

  /** Emits that overlap.  An emit checks the buffer under the read lock; having published, it reads
      the clock; then it waits for the write lock and writes the instant it read.  A Stamp names
      the check it follows, a Write the stamp.  A flush reads the clock under its one lock. */
  datatype Turn =
    | Check(event: QueueEvent, now: int)
    | Stamp(check: nat, event: QueueEvent, now: int)
    | Write(stamp: nat, event: QueueEvent, now: int)
    | Sweep(now: int)

  /** What a turn does to the buffer. */
  function Turned(throttle: nat, b: Buffer, turn: Turn): Buffer {
    match turn
    case Check(_, _) => b
    case Stamp(_, _, _) => b
    case Write(_, event, now) => b[event := now]
    case Sweep(now) => Step(b, throttle, Call.Flush(now))
  }

  function Buffered(throttle: nat, turns: seq<Turn>): Buffer {
    if turns == [] then map[] else Turned(throttle, Buffered(throttle, turns[..|turns| - 1]), turns[|turns| - 1])
  }

  /** Turn c checks this event and finds it not held back. */
  predicate Passes(throttle: nat, turns: seq<Turn>, c: nat, event: QueueEvent)
    requires c <= |turns|
  {
    && c < |turns| && turns[c].Check? && turns[c].event == event
    && !Throttled(Buffered(throttle, turns[..c]), throttle, event, turns[c].now)
  }

  /** The clock does not go back. */
  ghost predicate Forward(turns: seq<Turn>) {
    forall j, k :: 0 <= j < k < |turns| && !turns[j].Write? && !turns[k].Write? ==> turns[j].now <= turns[k].now
  }

  /** Every write writes an instant that was read before, and no reading is written twice. */
  ghost predicate WritesStamps(turns: seq<Turn>) {
    && (forall k :: 0 <= k < |turns| && turns[k].Write? ==>
          && turns[k].stamp < k && turns[turns[k].stamp].Stamp?
          && turns[turns[k].stamp].event == turns[k].event && turns[turns[k].stamp].now == turns[k].now)
    && (forall j, k :: 0 <= j < k < |turns| && turns[j].Write? && turns[k].Write? ==> turns[j].stamp != turns[k].stamp)
  }

  /** Only an emit that passed its check publishes, once. */
  ghost predicate StampsChecks(throttle: nat, turns: seq<Turn>) {
    && (forall k :: 0 <= k < |turns| && turns[k].Stamp? ==>
          turns[k].check < k && Passes(throttle, turns, turns[k].check, turns[k].event))
    && (forall j, k :: 0 <= j < k < |turns| && turns[j].Stamp? && turns[k].Stamp? ==> turns[j].check != turns[k].check)
  }

  ghost predicate Possible(throttle: nat, turns: seq<Turn>) {
    Forward(turns) && WritesStamps(turns) && StampsChecks(throttle, turns)
  }

  /** The last write of the event, or -1. */
  function LastWrite(turns: seq<Turn>, event: QueueEvent): (k: int)
    ensures -1 <= k < |turns|
    ensures k >= 0 ==> turns[k].Write? && turns[k].event == event
    ensures forall i :: k < i < |turns| && turns[i].Write? ==> turns[i].event != event
  {
    if turns == [] then -1
    else
      var last := turns[|turns| - 1];
      if last.Write? && last.event == event then |turns| - 1
      else
        var k := LastWrite(turns[..|turns| - 1], event);
        assert forall i :: 0 <= i < |turns| - 1 ==> turns[i] == turns[..|turns| - 1][i];
        k
  }

  /** The clock has come to this instant. */
  ghost predicate Reached(turns: seq<Turn>, instant: int) {
    exists k :: 0 <= k < |turns| && !turns[k].Write? && turns[k].now >= instant
  }

  ghost predicate NotBefore(turns: seq<Turn>, now: int) {
    forall k :: 0 <= k < |turns| && !turns[k].Write? ==> turns[k].now <= now
  }

  /** A check of the event that comes next, at this instant, passes. */
  ghost predicate NextPasses(throttle: nat, turns: seq<Turn>, event: QueueEvent, now: int) {
    NotBefore(turns, now) && !Throttled(Buffered(throttle, turns), throttle, event, now)
  }

  lemma FrontForward(turns: seq<Turn>, n: nat)
    requires Forward(turns) && WritesStamps(turns) && n <= |turns|
    ensures Forward(turns[..n]) && WritesStamps(turns[..n])
  {
  }

  lemma FrontPossible(throttle: nat, turns: seq<Turn>, n: nat)
    requires Possible(throttle, turns) && n <= |turns|
    ensures Possible(throttle, turns[..n])
  {
    FrontForward(turns, n);
    forall k | 0 <= k < n && turns[k].Stamp? ensures Passes(throttle, turns[..n], turns[k].check, turns[k].event) {
      assert turns[..n][..turns[k].check] == turns[..turns[k].check];
    }
  }

  lemma ReachedLater(turns: seq<Turn>, n: nat, instant: int)
    requires n <= |turns|
    ensures Reached(turns[..n], instant) ==> Reached(turns, instant)
  {
    if Reached(turns[..n], instant) {
      var i :| 0 <= i < n && !turns[..n][i].Write? && turns[..n][i].now >= instant;
      assert turns[i].now >= instant;
    }
  }

  /** The instant of a write was read on the clock before. */
  lemma WrittenBeforeNow(turns: seq<Turn>, k: nat, now: int)
    requires WritesStamps(turns) && k < |turns| && turns[k].Write? && NotBefore(turns, now)
    ensures turns[k].now <= now
  {
    assert turns[turns[k].stamp].now <= now;
  }

  /** The buffer has the last write of the event, made at `instant`, unless the throttle time has
      passed since. */
  ghost predicate Remembers(throttle: nat, b: Buffer, event: QueueEvent, instant: int, turns: seq<Turn>) {
    if event in b then b[event] == instant else Reached(turns, instant + throttle)
  }

  lemma LastIsLatest(turns: seq<Turn>, n: nat)
    requires Forward(turns) && |turns| == n + 1 && !turns[n].Write?
    ensures NotBefore(turns, turns[n].now) && Reached(turns, turns[n].now)
  {
  }

  /** A turn other than a write of the event keeps that. */
  lemma TurnRemembers(throttle: nat, turns: seq<Turn>, n: nat, b: Buffer, event: QueueEvent, k: nat)
    requires Forward(turns) && WritesStamps(turns) && |turns| == n + 1
    requires k < n && turns[k].Write? && Remembers(throttle, b, event, turns[k].now, turns[..n])
    requires !(turns[n].Write? && turns[n].event == event)
    ensures Remembers(throttle, Turned(throttle, b, turns[n]), event, turns[k].now, turns)
  {
    ReachedLater(turns, n, turns[k].now + throttle);
    if turns[n].Sweep? {
      LastIsLatest(turns, n);
      WrittenBeforeNow(turns, k, turns[n].now);
    }
  }

  lemma LastTurn(throttle: nat, turns: seq<Turn>, n: nat, event: QueueEvent)
    requires |turns| == n + 1
    ensures Buffered(throttle, turns) == Turned(throttle, Buffered(throttle, turns[..n]), turns[n])
    ensures LastWrite(turns, event)
            == if turns[n].Write? && turns[n].event == event then n else LastWrite(turns[..n], event)
  {
  }

  lemma WriteRemembers(throttle: nat, turns: seq<Turn>, n: nat, b: Buffer)
    requires n < |turns| && turns[n].Write?
    ensures Remembers(throttle, Turned(throttle, b, turns[n]), turns[n].event, turns[n].now, turns)
  {
  }

  lemma NeverWritten(throttle: nat, b: Buffer, event: QueueEvent, turn: Turn)
    requires event !in b && !(turn.Write? && turn.event == event)
    ensures event !in Turned(throttle, b, turn)
  {
  }

  lemma {:induction false} BufferRemembers(throttle: nat, turns: seq<Turn>, event: QueueEvent)
    requires Forward(turns) && WritesStamps(turns)
    ensures
      var b, k := Buffered(throttle, turns), LastWrite(turns, event);
      if k < 0 then event !in b else Remembers(throttle, b, event, turns[k].now, turns)
    decreases |turns|
  {
    assert turns == [] ==> event !in Buffered(throttle, turns);
    hide *;
    if turns != [] {
      var n := |turns| - 1;
      var b, k := Buffered(throttle, turns[..n]), LastWrite(turns[..n], event);
      FrontForward(turns, n);
      BufferRemembers(throttle, turns[..n], event);
      LastTurn(throttle, turns, n, event);
      if turns[n].Write? && turns[n].event == event {
        WriteRemembers(throttle, turns, n, b);
      } else if k >= 0 {
        TurnRemembers(throttle, turns, n, b, event, k);
      } else {
        NeverWritten(throttle, b, event, turns[n]);
      }
    }
  }

  /** The latest instant read so far. */
  lemma {:induction false} Clock(turns: seq<Turn>, j: nat) returns (now: int)
    requires Forward(turns) && j < |turns| && !turns[j].Write?
    ensures NotBefore(turns, now) && Reached(turns, now)
    decreases |turns|
  {
    var n := |turns| - 1;
    if !turns[n].Write? {
      now := turns[n].now;
    } else {
      now := Clock(turns[..n], j);
      var i :| 0 <= i < n && !turns[..n][i].Write? && turns[..n][i].now >= now;
      assert turns[i].now >= now;
      assert forall k :: 0 <= k < n ==> turns[..n][k] == turns[k];
    }
  }

  /** Either half of what assures the distance from an instant does. */
  lemma Assures(throttle: nat, turns: seq<Turn>, event: QueueEvent, instant: int, now: int)
    requires Forward(turns) && WritesStamps(turns) && NextPasses(throttle, turns, event, now)
    requires
      var k := LastWrite(turns, event);
      (k >= 0 && turns[k].now >= instant) || Reached(turns, instant + throttle)
    ensures now >= instant + throttle
  {
    var k := LastWrite(turns, event);
    if !Reached(turns, instant + throttle) {
      BufferRemembers(throttle, turns, event);
      WrittenBeforeNow(turns, k, now);
    }
  }

  /** Without them a check passes too soon. */
  lemma PassesTooSoon(throttle: nat, turns: seq<Turn>, event: QueueEvent, j: nat, instant: int) returns (now: int)
    requires Forward(turns) && WritesStamps(turns) && j < |turns| && !turns[j].Write?
    requires
      var k := LastWrite(turns, event);
      !(k >= 0 && turns[k].now >= instant) && !Reached(turns, instant + throttle)
    ensures NextPasses(throttle, turns, event, now) && now < instant + throttle
  {
    var k := LastWrite(turns, event);
    now := Clock(turns, j);
    BufferRemembers(throttle, turns, event);
    if k >= 0 && turns[k].now + throttle > now { now := turns[k].now + throttle; }
  }

  /** The distance of publications under overlap.  An emit of the event has read its instant at turn
      j.  Whatever the time of the next check of the event, if it passes it is the throttle time
      later, exactly if the last write so far has an instant no older than that reading, or the
      throttle time has passed already. */
  lemma SpacingAssuredIff(throttle: nat, turns: seq<Turn>, j: nat)
    requires Possible(throttle, turns) && j < |turns| && turns[j].Stamp?
    ensures
      var event, stamped, k := turns[j].event, turns[j].now, LastWrite(turns, turns[j].event);
      (forall now :: NextPasses(throttle, turns, event, now) ==> now >= stamped + throttle)
      <==> (k >= 0 && turns[k].now >= stamped) || Reached(turns, stamped + throttle)
  {
    var event, stamped, k := turns[j].event, turns[j].now, LastWrite(turns, turns[j].event);
    hide Forward, WritesStamps, StampsChecks, NextPasses, Reached;
    if (k >= 0 && turns[k].now >= stamped) || Reached(turns, stamped + throttle) {
      forall now | NextPasses(throttle, turns, event, now) ensures now >= stamped + throttle {
        Assures(throttle, turns, event, stamped, now);
      }
    } else {
      var now := PassesTooSoon(throttle, turns, event, j, stamped);
    }
  }

  lemma EarlierPasses(throttle: nat, turns: seq<Turn>, tail: seq<Turn>, c: nat, event: QueueEvent)
    requires c <= |turns| && Passes(throttle, turns, c, event)
    ensures Passes(throttle, turns + tail, c, event)
  {
    assert (turns + tail)[..c] == turns[..c];
  }

  lemma WritesStampsStill(turns: seq<Turn>, tail: seq<Turn>)
    requires WritesStamps(turns) && forall k :: 0 <= k < |tail| ==> !tail[k].Write?
    ensures WritesStamps(turns + tail)
  {
    var more := turns + tail;
    forall k | 0 <= k < |more| && more[k].Write? ensures k < |turns| && more[k] == turns[k] {}
  }

  lemma StampsNextCheck(throttle: nat, turns: seq<Turn>, event: QueueEvent, now: int)
    requires StampsChecks(throttle, turns) && NextPasses(throttle, turns, event, now)
    ensures StampsChecks(throttle, turns + [Check(event, now), Stamp(|turns|, event, now)])
  {
    var n, tail := |turns|, [Check(event, now), Stamp(|turns|, event, now)];
    forall k | 0 <= k < n && turns[k].Stamp? ensures Passes(throttle, turns + tail, turns[k].check, turns[k].event) {
      EarlierPasses(throttle, turns, tail, turns[k].check, turns[k].event);
    }
    assert (turns + tail)[..n] == turns;
    assert Passes(throttle, turns + tail, n, event);
    hide Passes;
  }

  /** Such a check does come next in a possible run, and its emit publishes. */
  lemma NextPublishes(throttle: nat, turns: seq<Turn>, event: QueueEvent, now: int)
    requires Possible(throttle, turns) && NextPasses(throttle, turns, event, now)
    ensures Possible(throttle, turns + [Check(event, now), Stamp(|turns|, event, now)])
  {
    hide Forward, WritesStamps, StampsChecks, NextPasses;
    ForwardStill(throttle, turns, event, now);
    WritesStampsStill(turns, [Check(event, now), Stamp(|turns|, event, now)]);
    StampsNextCheck(throttle, turns, event, now);
  }

  lemma ForwardStill(throttle: nat, turns: seq<Turn>, event: QueueEvent, now: int)
    requires Forward(turns) && NextPasses(throttle, turns, event, now)
    ensures Forward(turns + [Check(event, now), Stamp(|turns|, event, now)])
  {
    hide Throttled;
  }

  /** Emits of an event one after the other: each has written before the next checks. */
  ghost predicate NoOverlap(turns: seq<Turn>, event: QueueEvent) {
    forall j, k :: 0 <= j < k < |turns| && StampOf(turns[j], event) && StampOf(turns[k], event) ==>
                     WrittenBefore(turns, j, turns[k].check)
  }

  predicate StampOf(turn: Turn, event: QueueEvent) {
    turn.Stamp? && turn.event == event
  }

  ghost predicate WrittenBefore(turns: seq<Turn>, j: nat, c: nat) {
    exists w :: 0 <= w < |turns| && w < c && turns[w].Write? && turns[w].stamp == j
  }

  /** The last write before a later emit's check is of an instant no older than this emit's. */
  lemma LastWriteIsNoOlder(turns: seq<Turn>, j: nat, c: nat, event: QueueEvent) returns (k: nat)
    requires Forward(turns) && WritesStamps(turns) && NoOverlap(turns, event)
    requires j < c <= |turns| && StampOf(turns[j], event) && turns[j].check < j && WrittenBefore(turns, j, c)
    ensures k < c && turns[k].Write? && turns[k].now >= turns[j].now
    ensures LastWrite(turns[..c], event) == k
  {
    var w :| 0 <= w < |turns| && w < c && turns[w].Write? && turns[w].stamp == j;
    var last := LastWrite(turns[..c], event);
    assert turns[..c][w] == turns[w] && w <= last;
    k := last;
    assert StampOf(turns[turns[k].stamp], event);
  }

  /** If no two emits of the event overlap, its publications are the throttle time apart, whatever
      other events and flushes do in between. */
  lemma NoOverlapIsSpaced(throttle: nat, turns: seq<Turn>, event: QueueEvent, j: nat, k: nat)
    requires Possible(throttle, turns) && NoOverlap(turns, event)
    requires j < k < |turns| && StampOf(turns[j], event) && StampOf(turns[k], event)
    ensures turns[k].check < k && turns[turns[k].check].now >= turns[j].now + throttle
  {
    var c := turns[k].check;
    assert Passes(throttle, turns, c, event) && WrittenBefore(turns, j, c);
    var last := LastWriteIsNoOlder(turns, j, c, event);
    var before := turns[..c];
    FrontPossible(throttle, turns, c);
    assert NextPasses(throttle, before, event, turns[c].now);
    SpacingAssuredIff(throttle, before, j);
  }

  lemma NothingWritten(throttle: nat, turns: seq<Turn>, n: nat)
    requires n <= |turns| && forall k :: 0 <= k < n ==> turns[k].Check? || turns[k].Stamp?
    ensures Buffered(throttle, turns[..n]) == map[]
    decreases n
  {
    if n > 0 {
      assert turns[..n][..n - 1] == turns[..n - 1];
      NothingWritten(throttle, turns, n - 1);
    }
  }

  /** Two emits that both check before either writes publish the event twice at once. */
  lemma OverlappingEmitsBothPublish(throttle: nat, event: QueueEvent, now: int) returns (turns: seq<Turn>)
    ensures Possible(throttle, turns) && |turns| == 6
    ensures turns[2] == Stamp(0, event, now) && turns[3] == Stamp(1, event, now)
  {
    turns := [Check(event, now), Check(event, now), Stamp(0, event, now), Stamp(1, event, now),
              Write(2, event, now), Write(3, event, now)];
    NothingWritten(throttle, turns, 0);
    NothingWritten(throttle, turns, 1);
    assert Passes(throttle, turns, 0, event) && Passes(throttle, turns, 1, event);
    hide Passes;
  }

  /** A late write of an early instant: an emit that checks after another has written publishes
      seven later, though the throttle time is ten. */
  lemma LateWriteShortensDistance(event: QueueEvent) returns (turns: seq<Turn>)
    ensures Possible(10, turns) && |turns| == 8
    ensures turns[3] == Stamp(1, event, 5) && turns[4] == Write(3, event, 5)
    ensures turns[6] == Check(event, 12) && turns[7] == Stamp(6, event, 12)
  {
    turns := [Check(event, 0), Check(event, 0), Stamp(0, event, 1), Stamp(1, event, 5),
              Write(3, event, 5), Write(2, event, 1), Check(event, 12), Stamp(6, event, 12)];
    NothingWritten(10, turns, 0);
    NothingWritten(10, turns, 1);
    NothingWritten(10, turns, 4);
    assert turns[..6][..5] == turns[..5] && turns[..5][..4] == turns[..4];
    assert Buffered(10, turns[..6]) == map[event := 1];
    assert Passes(10, turns, 0, event) && Passes(10, turns, 1, event) && Passes(10, turns, 6, event);
    hide Passes;
  }

  /** Emits that overlap can keep their distance: here the second checks before the first writes, and
      publishes nineteen later. */
  lemma SpacedThoughOverlapping(event: QueueEvent) returns (turns: seq<Turn>)
    ensures Possible(10, turns) && |turns| == 5
    ensures turns[1] == Stamp(0, event, 1) && turns[3] == Write(1, event, 1)
    ensures turns[2] == Check(event, 20) && turns[4] == Stamp(2, event, 20)
    ensures !NoOverlap(turns, event)
  {
    turns := [Check(event, 0), Stamp(0, event, 1), Check(event, 20), Write(1, event, 1), Stamp(2, event, 20)];
    NothingWritten(10, turns, 0);
    NothingWritten(10, turns, 2);
    assert Passes(10, turns, 0, event) && Passes(10, turns, 2, event);
    hide Passes;
    assert StampOf(turns[1], event) && StampOf(turns[4], event) && !WrittenBefore(turns, 1, turns[4].check);
  }
}
