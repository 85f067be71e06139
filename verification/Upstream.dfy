/**
 The upstream pool on values: servers with a limited number of connections and of sticky
 sessions, the choice of a server, and the pool's operations as steps.
 */
module Upstream {
  import opened Wrappers

  type Uuid = string

  /** `available` counts the free permits of the server's semaphore; `sticky` holds the ids stuck
      to it and when each was last used. */
  datatype Server = Server(
    id: nat,
    uri: string,
    maxConnections: nat,
    available: nat,
    maxSticky: nat,
    sticky: map<Uuid, int>)

  datatype Pool = Pool(servers: seq<Server>, nextId: nat)

  datatype Config = Config(uri: string, connections: nat, stickySessions: nat)

  predicate FullSticky(s: Server) {
    |s.sticky| >= s.maxSticky
  }

  // ---------------------------------------------------------------- choosing a server

  /** What a server is ranked by: its connections, or its sessions and then its connections. */
  function Key(s: Server, bySessions: bool): (int, int) {
    (if bySessions then |s.sticky| else 0, s.maxConnections - s.available)
  }

  predicate Less(a: (int, int), b: (int, int)) {
    a.0 < b.0 || (a.0 == b.0 && a.1 < b.1)
  }

  /** i is the earliest server of least rank among those with a free permit. */
  ghost predicate IsChoice(servers: seq<Server>, bySessions: bool, i: nat) {
    && i < |servers| && servers[i].available > 0
    && forall j :: 0 <= j < |servers| && servers[j].available > 0 ==>
         || Less(Key(servers[i], bySessions), Key(servers[j], bySessions))
         || (Key(servers[i], bySessions) == Key(servers[j], bySessions) && i <= j)
  }

  /** The choice, by one scan. */
  function Choice(servers: seq<Server>, bySessions: bool): (c: Option<nat>)
    ensures c.Some? ==> IsChoice(servers, bySessions, c.value)
    ensures c.None? ==> forall j :: 0 <= j < |servers| ==> servers[j].available == 0
  {
    if servers == [] then None
    else
      var n := |servers| - 1;
      var front := servers[..n];
      var best := Choice(front, bySessions);
      assert forall j :: 0 <= j < n ==> servers[j] == front[j];
      if servers[n].available == 0 then best
      else if best.Some? && !Less(Key(servers[n], bySessions), Key(servers[best.value], bySessions)) then best
      else Some(n)
  }

  lemma ChoiceUnique(servers: seq<Server>, bySessions: bool, i: nat)
    requires IsChoice(servers, bySessions, i)
    ensures Choice(servers, bySessions) == Some(i)
  {
    var c := Choice(servers, bySessions);
    assert servers[i].available > 0;
  }

  /** Server i has a permit, and of those the fewest connections in use. */
  ghost predicate LeastConnected(servers: seq<Server>, i: nat) {
    && i < |servers| && servers[i].available > 0
    && forall j :: 0 <= j < |servers| && servers[j].available > 0 ==>
         var mine, yours := servers[i].maxConnections - servers[i].available,
                            servers[j].maxConnections - servers[j].available;
         mine < yours || (mine == yours && i <= j)
  }

  /** Server i has a permit, and of those the fewest sessions, then the fewest connections in use. */
  ghost predicate LeastStuck(servers: seq<Server>, i: nat) {
    && i < |servers| && servers[i].available > 0
    && forall j :: 0 <= j < |servers| && servers[j].available > 0 ==>
         var mine, yours := servers[i].maxConnections - servers[i].available,
                            servers[j].maxConnections - servers[j].available;
         || |servers[i].sticky| < |servers[j].sticky|
         || (|servers[i].sticky| == |servers[j].sticky| && (mine < yours || (mine == yours && i <= j)))
  }

  /** The choice by connections, said on the fields. */
  lemma LeastConnectionsIff(servers: seq<Server>, i: nat)
    ensures Choice(servers, false) == Some(i) <==> LeastConnected(servers, i)
  {
    if i < |servers| && IsChoice(servers, false, i) { ChoiceUnique(servers, false, i); }
  }

  /** The choice by sessions, said on the fields. */
  lemma LeastSessionsIff(servers: seq<Server>, i: nat)
    ensures Choice(servers, true) == Some(i) <==> LeastStuck(servers, i)
  {
    if i < |servers| && IsChoice(servers, true, i) { ChoiceUnique(servers, true, i); }
  }

  lemma NoChoiceIff(servers: seq<Server>, bySessions: bool)
    ensures Choice(servers, bySessions) == None <==> forall j :: 0 <= j < |servers| ==> servers[j].available == 0
  {
  }

  // ---------------------------------------------------------------- stable sort

  /** Where the sort puts index k into an order: behind every entry whose key is not larger. */
  function Insert(keys: seq<(int, int)>, order: seq<nat>, k: nat): seq<nat>
    requires k < |keys| && forall p :: 0 <= p < |order| ==> order[p] < |keys|
  {
    if order == [] || !Less(keys[k], keys[order[|order| - 1]]) then order + [k]
    else Insert(keys, order[..|order| - 1], k) + [order[|order| - 1]]
  }

  /** The indices of the first n keys in the order of a stable sort. */
  function StableOrder(keys: seq<(int, int)>, n: nat): (order: seq<nat>)
    requires n <= |keys|
    ensures forall p :: 0 <= p < |order| ==> order[p] < n
  {
    if n == 0 then []
    else
      var before := StableOrder(keys, n - 1);
      InsertBelow(keys, before, n - 1);
      Insert(keys, before, n - 1)
  }

  lemma {:induction false} InsertBelow(keys: seq<(int, int)>, order: seq<nat>, k: nat)
    requires k < |keys| && forall p :: 0 <= p < |order| ==> order[p] < k
    ensures forall p :: 0 <= p < |Insert(keys, order, k)| ==> Insert(keys, order, k)[p] <= k
    decreases |order|
  {
    if order != [] && Less(keys[k], keys[order[|order| - 1]]) { InsertBelow(keys, order[..|order| - 1], k); }
  }

  lemma {:induction false} InsertMember(keys: seq<(int, int)>, order: seq<nat>, k: nat, i: nat)
    requires k < |keys| && forall p :: 0 <= p < |order| ==> order[p] < |keys|
    ensures i in Insert(keys, order, k) <==> i in order || i == k
    decreases |order|
  {
    if order != [] && Less(keys[k], keys[order[|order| - 1]]) {
      var front := order[..|order| - 1];
      InsertMember(keys, front, k, i);
      assert order == front + [order[|order| - 1]];
    }
  }

  /** In a stable order earlier entries have smaller keys, or the same key and a smaller index. */
  ghost predicate Ordered(keys: seq<(int, int)>, order: seq<nat>) {
    && (forall p :: 0 <= p < |order| ==> order[p] < |keys|)
    && forall p, q :: 0 <= p < q < |order| ==> Precedes(keys, order[p], order[q])
  }

  predicate Precedes(keys: seq<(int, int)>, i: nat, j: nat)
    requires i < |keys| && j < |keys|
  {
    Less(keys[i], keys[j]) || (keys[i] == keys[j] && i < j)
  }

  /** An entry of the order after an insertion is the new one or was there, at index q, before. */
  lemma {:induction false} InsertedAt(keys: seq<(int, int)>, order: seq<nat>, k: nat, p: nat) returns (q: nat)
    requires k < |keys| && (forall i :: 0 <= i < |order| ==> order[i] < |keys|) && p < |Insert(keys, order, k)|
    ensures Insert(keys, order, k)[p] != k ==> q < |order| && order[q] == Insert(keys, order, k)[p]
    decreases |order|
  {
    q := 0;
    if order == [] || !Less(keys[k], keys[order[|order| - 1]]) {
      q := p;
    } else if p < |Insert(keys, order[..|order| - 1], k)| {
      q := InsertedAt(keys, order[..|order| - 1], k, p);
    } else {
      q := |order| - 1;
    }
  }

  lemma {:induction false} InsertOrdered(keys: seq<(int, int)>, order: seq<nat>, k: nat)
    requires k < |keys| && Ordered(keys, order) && forall p :: 0 <= p < |order| ==> order[p] < k
    ensures Ordered(keys, Insert(keys, order, k))
    decreases |order|
  {
    if order == [] || !Less(keys[k], keys[order[|order| - 1]]) {
    } else {
      var front, last := order[..|order| - 1], order[|order| - 1];
      InsertOrdered(keys, front, k);
      var inserted := Insert(keys, front, k);
      forall p | 0 <= p < |inserted| ensures Precedes(keys, inserted[p], last) {
        var q := InsertedAt(keys, front, k, p);
        if inserted[p] != k { assert front[q] == order[q]; }
      }
    }
  }

  lemma StableOrderStep(keys: seq<(int, int)>, n: nat)
    requires n <= |keys|
    ensures n == 0 ==> StableOrder(keys, n) == []
    ensures n > 0 ==> StableOrder(keys, n) == Insert(keys, StableOrder(keys, n - 1), n - 1)
  {
  }

  lemma NothingOrdered(keys: seq<(int, int)>)
    ensures Ordered(keys, [])
  {
  }

  lemma {:induction false} StableOrderOrdered(keys: seq<(int, int)>, n: nat)
    requires n <= |keys|
    ensures Ordered(keys, StableOrder(keys, n))
    decreases n
  {
    hide *;
    StableOrderStep(keys, n);
    if n > 0 {
      StableOrderOrdered(keys, n - 1);
      InsertOrdered(keys, StableOrder(keys, n - 1), n - 1);
    } else {
      NothingOrdered(keys);
    }
  }

  lemma {:induction false} StableOrderMember(keys: seq<(int, int)>, n: nat, i: nat)
    requires n <= |keys|
    ensures i in StableOrder(keys, n) <==> i < n
    decreases n
  {
    StableOrderStep(keys, n);
    hide StableOrder, Insert;
    if n > 0 {
      StableOrderMember(keys, n - 1, i);
      InsertMember(keys, StableOrder(keys, n - 1), n - 1, i);
    }
  }

  /** The stable order is ordered and has every index. */
  lemma StableOrderSorts(keys: seq<(int, int)>, n: nat)
    requires n <= |keys|
    ensures Ordered(keys, StableOrder(keys, n))
    ensures forall i :: i in StableOrder(keys, n) <==> 0 <= i < n
  {
    StableOrderOrdered(keys, n);
    hide StableOrder, Ordered;
    forall i: nat ensures i in StableOrder(keys, n) <==> i < n { StableOrderMember(keys, n, i); }
  }

  function Keys(servers: seq<Server>, bySessions: bool): (keys: seq<(int, int)>)
    ensures |keys| == |servers|
    ensures forall i :: 0 <= i < |servers| ==> keys[i] == Key(servers[i], bySessions)
  {
    seq(|servers|, i requires 0 <= i < |servers| => Key(servers[i], bySessions))
  }

  /** Sort, filter, take the first that succeeds: this is the choice. */
  lemma FirstOfOrderIsChoice(servers: seq<Server>, bySessions: bool, order: seq<nat>, p: nat)
    requires order == StableOrder(Keys(servers, bySessions), |servers|)
    requires p < |order| && order[p] < |servers| && servers[order[p]].available > 0
    requires forall q :: 0 <= q < p ==> order[q] < |servers| && servers[order[q]].available == 0
    ensures Choice(servers, bySessions) == Some(order[p])
  {
    var keys := Keys(servers, bySessions);
    StableOrderSorts(keys, |servers|);
    forall j | 0 <= j < |servers| && servers[j].available > 0
      ensures j == order[p] || Precedes(keys, order[p], j)
    {
      assert j in order;
      var q :| 0 <= q < |order| && order[q] == j;
      if q > p { assert Precedes(keys, order[p], order[q]); }
    }
    assert IsChoice(servers, bySessions, order[p]);
    ChoiceUnique(servers, bySessions, order[p]);
  }

  lemma NoneInOrderIsNone(servers: seq<Server>, bySessions: bool, order: seq<nat>)
    requires order == StableOrder(Keys(servers, bySessions), |servers|)
    requires forall q :: 0 <= q < |order| ==> order[q] < |servers| && servers[order[q]].available == 0
    ensures Choice(servers, bySessions) == None
  {
    StableOrderSorts(Keys(servers, bySessions), |servers|);
    forall j | 0 <= j < |servers| ensures servers[j].available == 0 {
      assert j in order;
      var q :| 0 <= q < |order| && order[q] == j;
      assert servers[order[q]].available == 0;
    }
  }
}
