/**
 The scripts of the waiting room, changing the six Redis structures in place.

 A script demands nothing of the structures it finds.  Redis answers `false` for a missing
 hash field, and a script that goes on to compare or store that `false` dies with a Lua
 error; `failed` stands for that error.  On linked structures no script fails and each one
 does exactly a step of the waiting room.
 */
module RedisScripts {
  import opened Wrappers
  import opened Numerals
  import opened QueueModels
  import opened WaitingRoom
  import opened RedisKeys

  class WaitingRoomKeys {
    var queueIds: seq<Id>
    var positionCache: map<Id, nat>
    var queueExpiry: map<Id, int>
    var storeIds: set<Id>
    var storeExpiry: map<Id, int>
    var storeCapacity: Option<int>

    ghost function Db(): Redis
      reads this
    {
      Redis(queueIds, positionCache, queueExpiry, storeIds, storeExpiry, storeCapacity)
    }

    /** A prefix nobody has used yet. */
    constructor ()
      ensures Linked(Db()) && Abstract(Db()) == Room([], map[], -1)
    {
      queueIds, positionCache, queueExpiry := [], map[], map[];
      storeIds, storeExpiry, storeCapacity := {}, map[], None;
    }

    /** id_position.lua */
    method IdPosition(id: Id, time: int, validated: nat, quarantine: nat, create: bool)
      returns (status: nat, position: nat)
      modifies this
      ensures Does(old(Db()), Position(id, time, validated, quarantine, create), Db(), Answer(status, position))
    {
      ghost var was, op := Db(), Position(id, time, validated, quarantine, create);
      if id in storeIds {
        storeExpiry := storeExpiry[id := time + validated];
        RefreshStored(was, op);
        assert Db() == was.(storeExpiry := was.storeExpiry[id := time + validated]);
        return 1, 0;
      }
      if id in positionCache {
        queueExpiry := queueExpiry[id := time + validated];
        RefreshQueued(was, op);
        assert Db() == was.(queueExpiry := was.queueExpiry[id := time + validated]);
        return 1, positionCache[id];
      }
      if !create {
        Absent(was, op);
        return 0, 0;
      }
      status := 2;
      position := AddNew(id, time, validated, quarantine);
    }

    /** The part of id_position.lua that takes in a new id: the position in the queue, or 0 for
        the store. */
    method AddNew(id: Id, time: int, validated: nat, quarantine: nat) returns (position: nat)
      requires id !in storeIds && id !in positionCache
      modifies this
      ensures Does(old(Db()), Position(id, time, validated, quarantine, true), Db(), Answer(2, position))
    {
      ghost var was, op := Db(), Position(id, time, validated, quarantine, true);
      var capacity := match storeCapacity case None => -1 case Some(c) => c;
      if capacity < 0 {
        storeIds := storeIds + {id};
        storeExpiry := storeExpiry[id := time + validated];
        EnterStore(was, op, Db());
        return 0;
      }
      if |queueIds| > 0 {
        queueIds := queueIds + [id];
        position := |queueIds|;
        positionCache := positionCache[id := position];
        queueExpiry := queueExpiry[id := time + quarantine];
        JoinQueue(was, op, Db());
        return position;
      }
      if |storeIds| < capacity {
        storeIds := storeIds + {id};
        storeExpiry := storeExpiry[id := time + validated];
        EnterStore(was, op, Db());
        return 0;
      } else {
        queueIds := queueIds + [id];
        position := |queueIds|;
        positionCache := positionCache[id := position];
        queueExpiry := queueExpiry[id := time + quarantine];
        JoinQueue(was, op, Db());
        return position;
      }
    }

    /** id_promote.lua */
    method IdPromote(id: Id, time: int, validated: nat)
      modifies this
      ensures Does(old(Db()), Promote(id, time, validated), Db(), Done)
    {
      ForcePromotion(Db(), Promote(id, time, validated));
      queueIds := RemoveAll(queueIds, id);
      positionCache := positionCache - {id};
      queueExpiry := queueExpiry - {id};
      storeIds := storeIds + {id};
      storeExpiry := storeExpiry[id := time + validated];
    }

    /** id_remove.lua */
    method IdRemove(id: Id, time: int)
      modifies this
      ensures Does(old(Db()), Remove(id, time), Db(), Done)
    {
      if id in queueExpiry {
        MarkRemoved(Db(), Remove(id, time));
        queueExpiry := queueExpiry[id := time - 1];
      } else {
        LeaveStore(Db(), Remove(id, time));
        storeExpiry := storeExpiry - {id};
        storeIds := storeIds - {id};
      }
    }

    /** queue_timeout.lua: sweep the queue from front to back while it shrinks. */
    method QueueTimeout(now: int) returns (failed: bool, removed: nat)
      modifies this
      ensures SweepsQueue(old(Db()), now, Db(), failed, removed)
    {
      hide Swept, SweepsQueue, Decimal, LuaLess, RemoveFirst;
      ghost var was := Db();
      var last := |queueIds| - 1;
      var positionModifier := 0;
      removed := 0;
      var i := 0;
      SweepStarts(was, now);
      while i <= last
        invariant 0 <= i <= last + 1 == |was.queueIds|
        invariant positionModifier + removed == 0 && removed <= i && |queueIds| == last + 1 - removed
        invariant Swept(was, now, i, removed, Db())
      {
        var id := queueIds[i + positionModifier];
        if id !in queueExpiry {
          SweepFails(was, now, i, removed, Db());
          return true, removed;
        }
        ghost var db := Db();
        if LuaLess(Decimal(queueExpiry[id]), Decimal(now)) {
          SweepDrops(was, now, i, removed, db);
          queueExpiry := queueExpiry - {id};
          positionCache := positionCache - {id};
          queueIds := RemoveFirst(queueIds, id);
          assert Db() == db.(queueIds := RemoveFirst(db.queueIds, id), positionCache := db.positionCache - {id},
                             queueExpiry := db.queueExpiry - {id});
          positionModifier := positionModifier - 1;
          removed := removed + 1;
        } else {
          SweepKeeps(was, now, i, removed, db);
          positionCache := positionCache[id := i + positionModifier + 1];
          assert Db() == db.(positionCache := db.positionCache[id := i - removed + 1]);
        }
        i := i + 1;
      }
      SweepEnds(was, now, removed, Db());
      failed := false;
    }

    /** store_timeout.lua: sweep the members of the store, which Redis lists in any order. */
    method StoreTimeout(now: int) returns (failed: bool, removed: nat)
      modifies this
      ensures SweepsStore(old(Db()), now, Db(), failed, removed)
    {
      ghost var was := Db();
      var tokens := storeIds;
      removed := 0;
      StoreSweepStarts(was, now);
      while tokens != {}
        invariant StoreSwept(was, now, tokens, removed, Db())
      {
        var id :| id in tokens;
        if id !in storeExpiry {
          StoreSweepFails(was, now, tokens, id, removed, Db());
          return true, removed;
        }
        ghost var db := Db();
        if LuaLess(Decimal(storeExpiry[id]), Decimal(now)) {
          storeExpiry := storeExpiry - {id};
          storeIds := storeIds - {id};
          StoreSweepTurn(was, now, tokens, id, removed, db, Db());
          removed := removed + 1;
        } else {
          StoreSweepTurn(was, now, tokens, id, removed, db, Db());
        }
        tokens := tokens - {id};
      }
      StoreSweepEnds(was, now, removed, Db());
      failed := false;
    }

    /** store_promote.lua: pop as many ids as the store has room for, then hand them over, in
        whatever order the table of popped ids is walked. */
    method StorePromote() returns (failed: bool, moved: nat)
      modifies this
      ensures PromotesFront(old(Db()), Db(), failed, moved)
    {
      ghost var was := Db();
      var capacity := match storeCapacity case None => -1 case Some(c) => c;
      var storeSize := |storeIds|;
      var transferSize := 0;
      if storeSize < capacity {
        if capacity > 0 {
          transferSize := capacity - storeSize;
        } else {
          transferSize := |queueIds|;
        }
      }
      var transferIds := PopFront(transferSize);
      ghost var popped := Db();
      moved, failed := 0, false;
      if |transferIds| > 0 {
        storeIds := storeIds + IdSet(transferIds);
        failed, moved := HandOver(transferIds, was);
      } else {
        NothingHandedOver(was, popped);
      }
      assert Db() == popped.(storeIds := was.storeIds + IdSet(transferIds),
                             queueExpiry := queueExpiry, storeExpiry := storeExpiry);
      PromotionEnds(was, |transferIds|, Db(), failed, moved);
    }

    /** The first loop of store_promote.lua. */
    method PopFront(transferSize: nat) returns (transferIds: seq<Id>)
      modifies this`queueIds, this`positionCache
      ensures |transferIds| == Min(transferSize, |old(queueIds)|)
      ensures transferIds == old(queueIds)[..|transferIds|] && queueIds == old(queueIds)[|transferIds|..]
      ensures positionCache == old(positionCache) - IdSet(transferIds)
    {
      transferIds := [];
      for i := 0 to transferSize
        invariant |transferIds| == Min(i, |old(queueIds)|)
        invariant transferIds == old(queueIds)[..|transferIds|] && queueIds == old(queueIds)[|transferIds|..]
        invariant positionCache == old(positionCache) - IdSet(transferIds)
      {
        if queueIds != [] {
          var id := queueIds[0];
          queueIds := queueIds[1..];
          positionCache := positionCache - {id};
          assert (transferIds + [id])[..|transferIds|] == transferIds;
          transferIds := transferIds + [id];
        }
      }
    }

    /** The second loop of store_promote.lua. */
    method HandOver(transferIds: seq<Id>, ghost was: Redis) returns (failed: bool, moved: nat)
      requires queueExpiry == was.queueExpiry && storeExpiry == was.storeExpiry
      requires |transferIds| <= |was.queueIds| && transferIds == was.queueIds[..|transferIds|]
      modifies this`queueExpiry, this`storeExpiry
      ensures Linked(was) ==> !failed && HandedOver(was, IdSet(transferIds), queueExpiry, storeExpiry)
      ensures !failed ==> moved == |transferIds|
    {
      var pending := Indices(|transferIds|);
      HandOverStarts(was, transferIds, pending);
      ghost var done: set<Id> := {};
      moved := 0;
      while pending != {}
        invariant pending <= Indices(|transferIds|)
        invariant moved + |pending| == |transferIds|
        invariant HandingOver(was, transferIds, pending, done, queueExpiry, storeExpiry)
      {
        var i :| i in pending;
        var id := transferIds[i];
        HandOverFindsExpiry(was, transferIds, pending, done, i, queueExpiry, storeExpiry);
        if id !in queueExpiry {
          return true, moved;
        }
        HandOverGoesOn(was, transferIds, pending, done, i, queueExpiry, storeExpiry);
        storeExpiry := storeExpiry[id := queueExpiry[id]];
        queueExpiry := queueExpiry - {id};
        moved := moved + 1;
        pending := pending - {i};
        done := done + {id};
      }
      HandOverEnds(was, transferIds, done, queueExpiry, storeExpiry);
      failed := false;
    }

    /** rotate_full: the three scripts in one transaction, which runs them all even if one fails,
        and the three counts. */
    method RotateFull(now: int) returns (failed: bool, counts: QueueRotate)
      modifies this
      ensures Does(old(Db()), Rotate(now), Db(), Rotated(counts))
      ensures Linked(old(Db())) ==> !failed
    {
      ghost var was := Db();
      var storeFailed, storeRemoved := StoreTimeout(now);
      ghost var swept := Db();
      var queueFailed, queueRemoved := QueueTimeout(now);
      ghost var renumbered := Db();
      var promoteFailed, promoted := StorePromote();
      counts := QueueRotate(queueRemoved, storeRemoved, promoted);
      failed := storeFailed || queueFailed || promoteFailed;
      RotationComposes(was, now, swept, renumbered, Db(), (storeFailed, queueFailed, promoteFailed), counts);
    }

    /** The capacity write of set_store_capacity and set_queue_settings. */
    method SetStoreCapacity(capacity: StoreCapacity)
      modifies this
      ensures Does(old(Db()), SetCapacity(capacity), Db(), Done)
    {
      CapacityWrite(Db(), SetCapacity(capacity));
      storeCapacity := Some(ToIsize(capacity));
    }

    /** One request, from whichever server, with whatever time it read. */
    method Execute(op: Op) returns (failed: bool, reply: Reply)
      modifies this
      ensures Does(old(Db()), op, Db(), reply)
      ensures Linked(old(Db())) ==> !failed
    {
      failed := false;
      match op
      case Position(id, time, validated, quarantine, create) =>
        var status, position := IdPosition(id, time, validated, quarantine, create);
        reply := Answer(status, position);
      case Promote(id, time, validated) =>
        IdPromote(id, time, validated);
        reply := Done;
      case Remove(id, time) =>
        IdRemove(id, time);
        reply := Done;
      case Rotate(time) =>
        var counts;
        failed, counts := RotateFull(time);
        reply := Rotated(counts);
      case SetCapacity(c) =>
        SetStoreCapacity(c);
        reply := Done;
    }

    /** Any sequence of requests: from linked structures no script ever fails, the structures stay
        linked, and rooms and answers are those of the waiting room's run. */
    method Serve(ops: seq<Op>) returns (failed: bool, replies: seq<Reply>)
      modifies this
      ensures Linked(old(Db())) ==>
                && !failed && Linked(Db())
                && Abstract(Db()) == Run(TEXT, Abstract(old(Db())), ops)
                && replies == Replies(TEXT, Abstract(old(Db())), ops)
    {
      ghost var was := Db();
      failed, replies := false, [];
      for k := 0 to |ops|
        invariant Follows(was, ops[..k], Db(), failed, replies)
      {
        ghost var db, done := Db(), replies;
        var broken, reply := Execute(ops[k]);
        FollowsOn(was, ops, k, db, failed, done, Db(), broken, reply);
        failed, replies := failed || broken, replies + [reply];
      }
      assert ops[..|ops|] == ops;
    }
  }
}
