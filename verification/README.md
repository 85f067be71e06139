# Omnis Bouncer: the waiting room, the upstream pool and the event throttle

Omnis Bouncer puts visitors of a web application into a *store* of limited capacity or into a *queue* in front of it,
and passes the requests of admitted visitors on to a pool of upstream servers. This project models three parts of it
and proves what they promise.

**The waiting room.** Six Redis structures and six Lua scripts keep the queue and the store. A step is one script, or
the transaction of three scripts that makes up a rotation; steps come from many servers, and each carries a time read
earlier, so a run is any sequence of steps with any times.

- `Wrappers.dfy`: values that may be missing, selections from sequences.
- `Numerals.dfy`: the numerals Redis stores for expiry times and the order Lua puts on them.
- `QueueModels.dfy`: capacity and position as they pass to and from Redis.
- `WaitingRoom.dfy`: the waiting room as a pure machine: a queue of tickets, a store with expiry times, a capacity.
- `RoomInvariants.dfy`: what every step keeps, and what one rotation does.
- `RoomRuns.dfy`: guarantees over whole runs: first come first served, bounded waiting, store size, told positions.
- `RoomTime.dfy`: how long an id is kept, removal by marking, comparing times as text.
- `RedisKeys.dfy`, `RedisScripts.dfy`: the six structures and the scripts that change them in place. The scripts
  have no preconditions. On linked structures none of them fails and each does exactly a step of the pure machine.

**The upstream pool.** Servers have a semaphore for connections and a map of sticky sessions.

- `Upstream.dfy`: the choice of a server, by a scan and by the stable sort.
- `PoolRuns.dfy`: the pool's operations as steps, and affinity over any sequence of calls.
- `PoolAnswers.dfy`: what each call answers and changes, said on the servers' fields, and how long a session lasts.
- `UpstreamPool.dfy`: the servers and the pool as objects updated in place, method by method against those steps.
- `UpstreamTasks.dfy`: the pool under concurrency: tasks interleave between any two lock or semaphore operations, and a
  call can be dropped wherever it waits.
- `UpstreamCalls.dfy`: a call left alone does what the step of its name does, so sequences of calls are runs of the tasks.
- `UpstreamEnds.dfy`: what every operation does to sessions, how waiting calls are served, and the return of all permits.
- `UpstreamHomes.dfy`: when concurrent requests leave an id on one server, and how they put it on two.

**The event throttle** (`EventThrottle.dfy`): a buffer of when each event was last published, its cleaning, and emits that
overlap.

`dafny verify dfyconfig.toml` checks everything.

## How the model reads the code

- A missing hash field reads as `false` in Lua, which the guards `expiry ~= nil` let through; the comparison or the
  write that follows is then an error. The methods model that error as `failed`, and it is proved unreachable from
  linked structures (`RedisScripts.WaitingRoomKeys.Serve`).
- An expiry is kept as a number whose numeral is what Redis stores; the scripts' comparisons are made on the numerals.
  The machine takes the order of times as a parameter: `TEXT` is what the scripts do, `NUMERIC` is what they mean.
  Results that hold for both are stated for every order.
- `SMEMBERS` and the walk over the popped ids may come in any order.
- Capacities are 64-bit words: a size that does not fit a signed word wraps.
- Instants do not give negative durations.
- The flag `removed` of a server is never set by the code and is left out.

Where the code and its documentation differ, the model follows the code:

- `redis_functions/README.md` calls a negative capacity a store without limit. New ids are indeed let in at once, but
  a rotation takes nobody from the queue: the test before the transfer never holds (`RoomInvariants.RotationDrainsIff`,
  `RoomInvariants.UnlimitedKeepsWaiting`), and newcomers pass those who wait (`RoomRuns.NewcomerOvertakesIff`).
- Expiry times are described as integers but compared as text, which agrees with the integers exactly as
  `Numerals.TextOrderExact` says, so a run goes as the integers would have it exactly if
  `RoomTime.TextRunIsNumericRunIff` says so, and always for times of ten digits (`RoomTime.TextRunIsNumericRun`).

Two promises hold on a condition only, when calls overlap:

- The pool is meant to keep an id on one server. Concurrent first requests break that
  (`UpstreamHomes.ConcurrentFirstRequestsSplit`), and `UpstreamHomes.OneHomeUnlessRaced` says when it holds.
- The throttle is meant to space publications. Overlapping emits break that (`EventThrottle.OverlappingEmitsBothPublish`,
  `EventThrottle.LateWriteShortensDistance`), and `EventThrottle.SpacingAssuredIff` says when it holds.

## Model

| member | source | states |
|---|---|---|
| Numerals.ValueOfDecimal | redis_functions/id_position.lua:24 | the numeral written for a time determines the time |
| Numerals.TextOrderExact | redis_functions/queue_timeout.lua:28 | for which pairs of numbers, negative ones included, Lua's text comparison is the numeric one, both directions, all pairs |
| Numerals.TextOrderCounterexample | redis_functions/store_timeout.lua:17 | "9" and "10" compare the wrong way round, and so do "-1" and "-2" |
| Numerals.TextOrderInWindow | redis_functions/store_timeout.lua:17 | on ten-digit numbers the text comparison is the numeric one |
| QueueModels.FromIsizeIff | src/queue/models.rs:142-153 | a stored number is a capacity exactly from -1 on, and which; below it is refused with the number |
| QueueModels.StoredSize | src/queue/models.rs:155-162 | a size is stored as itself if it fits a signed word, and otherwise as the negative number congruent to it |
| QueueModels.CapacityRoundTrip | src/queue/models.rs:122-162 | a capacity read back is the one written exactly if its size fits a signed word |
| QueueModels.CapacityWrapCounterexample | src/queue/models.rs:155-162 | the largest size is read back as unlimited |
| RoomInvariants.StepSource | redis_functions/id_promote.lua:20-26 | every ticket after any step was there before, no further back, told no worse a position and with its expiry unless it asked or was removed; or it is the newcomer at the back |
| RoomInvariants.StepKeepsWellFormed | redis_functions/id_position.lua:21-116 | any step with any time keeps: no duplicates in the queue, nobody in queue and store at once, told position never better than the true one |
| RoomInvariants.RunKeepsWellFormed | src/queue/scripts.rs:125-258 | so does any run |
| RoomInvariants.RotatedQueue | redis_functions/queue_timeout.lua:14-38 | the queue after a rotation is what is left of the unexpired queue, in order, once as many as there is room for are promoted; each is told a position too high by exactly the number promoted |
| RoomInvariants.RotatedIds | redis_functions/store_promote.lua:28-61 | the store after a rotation holds its unexpired ids and the promoted prefix of the unexpired queue, nobody else |
| RoomInvariants.RotatedStore | src/queue/scripts.rs:242-257 | expiry times are carried over, the counts account for the size, and whoever still waits does so at a store filled to a capacity that is not negative |
| RoomInvariants.RotatedStoreUnexpired | redis_functions/store_timeout.lua:13-23 | nothing in the store is expired after a rotation |
| RoomInvariants.RotationDrainsIff | redis_functions/store_promote.lua:25-35 | a rotation empties the queue exactly if those waiting fit the vacancies; with a negative capacity it promotes nobody |
| RoomInvariants.UnlimitedKeepsWaiting | redis_functions/store_promote.lua:25-35 | a run from an empty room in which the limit is lifted, the room rotates, and an unexpired id still waits |
| RoomRuns.RunsCompose | src/queue/scripts.rs:125-258 | a run of no request changes nothing, of one is its step, and runs put end to end are one run |
| RoomRuns.RunCapacity | src/queue/control.rs:363-380 | the capacity after a run is the one last written, or the one before |
| RoomRuns.LeaverGoesToStore | redis_functions/store_promote.lua:37-61 | an id leaves the queue only into the store or because a rotation found it expired |
| RoomRuns.StayersKeepOrder | redis_functions/queue_timeout.lua:25-37 | ids that stay keep their relative order in every step |
| RoomRuns.NoOvertaking | redis_functions/store_promote.lua:40-47 | a step that takes somebody from queue to store, unless by hand, takes everyone ahead out of the queue too |
| RoomRuns.FirstComeFirstServed | redis_functions/id_position.lua:81-116 | over whole runs with limited capacity: while a waits, nobody behind a and no newcomer gets into the store unless by hand |
| RoomRuns.NewcomerOvertakesIff | redis_functions/id_position.lua:68-77 | a newcomer passes a waiting id exactly if the capacity is negative |
| RoomRuns.UnlimitedNewcomerOvertakes | redis_functions/id_position.lua:68-77 | a room in which that happens |
| RoomRuns.RotationMovesUp | redis_functions/queue_timeout.lua:25-37 | a rotation moves an id up by the number expired ahead of it plus the number promoted |
| RoomRuns.BoundedWait | redis_functions/store_promote.lua:28-47 | an id at position p never found expired is in the store within p rotations that find room |
| RoomRuns.StepStoreBound | redis_functions/store_promote.lua:29-35 | a step other than promotion by hand and capacity writes leaves the store within its size or the limit |
| RoomRuns.StoreBound | redis_functions/id_promote.lua:24-26 | over runs the store exceeds the largest capacity so far at most by the number of promotions by hand |
| RoomRuns.NewcomerEntersIff | redis_functions/id_position.lua:96-116 | under a size that has been set, a newcomer who finds nobody waiting enters exactly while the store is smaller than that size; without a limit always |
| RoomRuns.ToldPositionNeverRises | redis_functions/id_position.lua:37-46 | while an id waits, neither its place nor the position it is told ever rises, and the told one is never better |
| RoomRuns.PositionAgrees | src/queue/models.rs:66-78 | the decoded answer to id_position says where the id is, its status whether it was there before, and its position is exact for newcomers |
| RoomRuns.AnswersAgree | src/waiting_room.rs:78-86 | this holds for every answer of every run, so a caller that asks to create is never told "not present" |
| RoomTime.KeptByRotationIff | redis_functions/queue_timeout.lua:26-31 | a rotation keeps an id, in queue or store, exactly until its expiry |
| RoomTime.AskingKeepsFor | redis_functions/id_position.lua:21-116 | asking keeps an id exactly for the validated time, a newcomer that queues for the quarantine time |
| RoomTime.PromotionKeepsFor | redis_functions/id_promote.lua:19-26 | promotion by hand puts an id into the store for exactly the validated time |
| RoomTime.OthersUntouched | redis_functions/id_remove.lua:14-26 | a step for one id, and a capacity write, leaves every other id in store or queue as it was, expiry and told position included |
| RoomTime.EntryIsQueueingAndRotatingIff | redis_functions/id_position.lua:81-116 | with nobody waiting, queueing (for the quarantine time) and being rotated comes to the same as entering through id_position exactly if there is a limit and it is used up or the two times are equal; with room under a limit only that id's expiry differs |
| RoomTime.RemovedIdIsEvicted | redis_functions/id_remove.lua:18-22 | a queued id that is removed and left alone is never admitted in any run in time order, and is gone after the first rotation |
| RoomTime.RemovedIdIsEvictedOnText | redis_functions/id_remove.lua:21 | the same for the comparison on text, for ten-digit times |
| RoomTime.EvictedByRotationIff | src/queue/scripts.rs:237-248 | without time order: the next rotation evicts a removed id exactly if its time is not before the removal's |
| RoomTime.RemovedFromStoreStaysOut | redis_functions/id_remove.lua:23-26 | a stored id that is removed is gone at once, and stays out of every run that leaves it alone, with any times |
| RoomTime.TextKeepsOnTimeIff | redis_functions/queue_timeout.lua:28 | at a rotation on text an id stays or goes as by the numbers exactly if the two orders agree on its expiry |
| RoomTime.RotationsAgreeIff | src/queue/scripts.rs:242-257 | a rotation on text is the rotation on numbers, counts and positions included, exactly if the orders agree on every expiry in the room |
| RoomTime.TextRunIsNumericRunIff | src/queue/scripts.rs:246-248 | a run on text goes through the rooms of the run on numbers exactly if that is so whenever it rotates |
| RoomTime.TextRunIsNumericRun | src/queue/scripts.rs:246-248 | while all times and expiries have ten digits, runs comparing text and runs comparing numbers have the same rooms and answers |
| RoomTime.TextOrderEvictsEarly | redis_functions/store_timeout.lua:17 | outside that window an id can be thrown out before its time |
| RedisKeys.AbstractInjective | redis_functions/README.md:32-43 | two sets of linked structures stand for the same room exactly if they are equal, but for how an unlimited store is written down |
| RedisKeys.SweepDrops | redis_functions/queue_timeout.lua:28-33 | a turn of the sweep that drops an id keeps the tickets before it swept and those after it as they were |
| RedisKeys.SweepKeeps | redis_functions/queue_timeout.lua:34-36 | so does a turn that renumbers one |
| RedisKeys.SweepFails | redis_functions/queue_timeout.lua:27-28 | only structures that were not linked make the sweep meet an id without an expiry |
| RedisKeys.PromotionEnds | redis_functions/store_promote.lua:25-62 | what the two loops of the promotion leave is the admission of a prefix of the queue |
| RedisKeys.RotationComposes | src/queue/scripts.rs:244-257 | the three scripts in a row do one rotation of the room, with its counts |
| RedisScripts.WaitingRoomKeys.IdPosition | redis_functions/id_position.lua:18-116 | on linked structures: the room's step and answer, and linked structures again |
| RedisScripts.WaitingRoomKeys.AddNew | redis_functions/id_position.lua:55-116 | the same for the part that takes in a new id |
| RedisScripts.WaitingRoomKeys.IdPromote | redis_functions/id_promote.lua:12-26 | the same for promotion by hand |
| RedisScripts.WaitingRoomKeys.IdRemove | redis_functions/id_remove.lua:14-26 | the same for removal |
| RedisScripts.WaitingRoomKeys.QueueTimeout | redis_functions/queue_timeout.lua:10-38 | the shrinking loop leaves the order-preserving filter by "not expired", positions 1 to n, the hashes cut to the survivors, and counts what is gone; it does not fail on linked structures |
| RedisScripts.WaitingRoomKeys.StoreTimeout | redis_functions/store_timeout.lua:10-23 | in whatever order the members come, the store is cut to the unexpired and the count is right |
| RedisScripts.WaitingRoomKeys.StorePromote | redis_functions/store_promote.lua:9-62 | the first of the queue move to the store with their expiry, as many as there is room for |
| RedisScripts.WaitingRoomKeys.PopFront | redis_functions/store_promote.lua:37-47 | the pop loop takes a prefix of the queue and its cached positions |
| RedisScripts.WaitingRoomKeys.HandOver | redis_functions/store_promote.lua:49-61 | in whatever order the popped ids are walked, every expiry moves from queue to store |
| RedisScripts.WaitingRoomKeys.RotateFull | src/queue/scripts.rs:229-258 | the transaction is one rotation of the room with its three counts, and does not fail on linked structures |
| RedisScripts.WaitingRoomKeys.SetStoreCapacity | src/queue/control.rs:363-380 | only the capacity changes |
| RedisScripts.WaitingRoomKeys.Execute | src/queue/control.rs:518-618 | every request does its step |
| RedisScripts.WaitingRoomKeys.Serve | src/queue/control.rs:518-618 | any sequence of requests has the rooms and answers of the pure machine's run, keeps the structures linked, and no script ever fails |
| Upstream.Choice | src/upstream.rs:344-373 | the choice is the earliest server of least rank among those with a free permit, or none if there is no free permit; the rank is fixed by the two rows below |
| Upstream.LeastConnectionsIff | src/upstream.rs:344-355 | by connections: the choice is the server with fewest permits in use among those with a free one, the earliest of several, said on the servers' fields |
| Upstream.LeastSessionsIff | src/upstream.rs:330-341 | by sessions: fewest sessions, then fewest permits in use, then the earliest, said on the fields |
| Upstream.ChoiceUnique | src/upstream.rs:365-373 | there is only one such server |
| Upstream.StableOrderSorts | src/upstream.rs:339-341 | the stable order has every server once, smaller keys first and equal keys in pool order |
| Upstream.FirstOfOrderIsChoice | src/upstream.rs:380-389 | sort, skip full servers, take the first: this is the choice |
| PoolRuns.StepKeepsSound | src/upstream.rs:320-559 | every call keeps server ids unique and below the next one, limits respected, and each session on one server |
| PoolRuns.RunKeepsSound | src/upstream.rs:320-559 | so does any sequence of calls |
| PoolRuns.StepKeepsHome | src/upstream.rs:423-448 | a call that leaves an id stuck leaves it on its server |
| PoolRuns.Affinity | src/upstream.rs:423-524 | over any sequence of calls an id that stays stuck stays with its server, and asking for it gives that server's URI or nothing |
| PoolRuns.SessionEnds | src/upstream.rs:496-558 | a session ends exactly by removal, expiry or removal of its server |
| PoolRuns.NewSessionIff | src/upstream.rs:469-494 | an attempt for a new id succeeds exactly if the chosen server has a session left; a failed one changes nothing |
| PoolRuns.NewSessionIffAnyRoom | src/upstream.rs:451-482 | with equal session limits: exactly if any server has both a permit and a session left |
| PoolRuns.FreeSessionMissed | src/upstream.rs:451-482 | with different limits a free session can be missed |
| PoolAnswers.ConnectionAnswers | src/upstream.rs:376-389 | a call for any server is granted exactly if there is a free permit: the URI of the server with fewest in use, and one permit of it, nothing else |
| PoolAnswers.StuckAnswers | src/upstream.rs:423-448 | a call for an id stuck to a server gets that server's URI and one permit exactly if one is free there; either way the session is marked with the instant, and nothing else changes |
| PoolAnswers.NewAnswers | src/upstream.rs:451-483 | one attempt for a new id gets URI, one permit and a session with the instant on the server with fewest sessions, exactly if that server has fewer than it allows; otherwise nothing changes |
| PoolAnswers.NewWithoutPermit | src/upstream.rs:451-466 | without any free permit such an attempt changes nothing |
| PoolAnswers.ReleaseAnswers | src/upstream.rs:52-57 | dropping a guard gives its server one permit back and changes nothing else |
| PoolAnswers.ReleaseUndoesConnection | src/upstream.rs:376-389 | a connection handed out and dropped again leaves the pool as it was |
| PoolAnswers.RemovalAnswers | src/upstream.rs:496-513 | removal ends exactly the sessions of that id and changes nothing else |
| PoolAnswers.ExpiryAnswers | src/upstream.rs:172-179 | expiry ends exactly the sessions last used longer ago than the expiry and changes nothing else |
| PoolAnswers.ExpiryNames | src/upstream.rs:516-524 | and returns exactly their ids |
| PoolAnswers.SessionLasts | src/upstream.rs:423-558 | over any calls that do not ask for the id, its session keeps server and instant exactly until a call removes it, expires what is older than the time since, or removes the server; then the id is nowhere |
| PoolAnswers.GrantedSessionLasts | src/upstream.rs:423-558 | so for the session of a call that was granted, from the instant of that call on, and an expiry at any later point ends it exactly if more than its time has passed |
| PoolAnswers.AddAnswers | src/upstream.rs:536-549 | adding leaves the servers there are and appends one per configuration of unknown URI, in order, with the next ids, the configured URI, connections (all free) and sessions (none used) |
| PoolAnswers.RemoveAnswers | src/upstream.rs:552-558 | removing leaves exactly the servers of other URIs, unchanged and in order |
| PoolRuns.AddKeepsUrisDistinctIff | src/upstream.rs:536-549 | adding keeps URIs distinct exactly if the call names no new URI twice |
| PoolRuns.RepeatedUriIsAddedTwice | src/upstream.rs:536-549 | a call that repeats a URI |
| UpstreamPool.UpstreamServer.UpdateId | src/upstream.rs:134-141 | marks a session that is there and never brings one back |
| UpstreamPool.UpstreamServer.TryAddSticky | src/upstream.rs:148-161 | adds the session exactly if the server is not full |
| UpstreamPool.UpstreamServer.ExpireSticky | src/upstream.rs:172-179 | ends exactly the sessions older than the expiry and says which |
| UpstreamPool.UpstreamPool.Least | src/upstream.rs:330-355 | the servers in the stable order of their ranks |
| UpstreamPool.UpstreamPool.AcquireLeast | src/upstream.rs:376-389 | takes one permit of the choice, or nothing if there is none |
| UpstreamPool.UpstreamPool.AcquireConnectionPermit | src/upstream.rs:376-420 | hands out the URI of the choice and takes exactly one permit there |
| UpstreamPool.UpstreamPool.FindHolder | src/upstream.rs:428-435 | finds the first server the id is stuck to |
| UpstreamPool.UpstreamPool.AcquireStickyPermit | src/upstream.rs:423-448 | an id with a session gets a permit of its server or none; a new id one attempt |
| UpstreamPool.UpstreamPool.StickOrDrop | src/upstream.rs:477-483 | with a permit in hand: a session on the same server, or the permit is given back |
| UpstreamPool.UpstreamPool.NewStickyUri | src/upstream.rs:451-483 | one attempt for a new id, permit and session together or neither |
| UpstreamPool.UpstreamPool.DropGuard | src/upstream.rs:52-57 | dropping a guard gives its server one permit back |
| UpstreamPool.UpstreamPool.RemoveStickySession | src/upstream.rs:496-513 | removes the id from its server |
| UpstreamPool.UpstreamPool.ExpireSticky | src/upstream.rs:516-524 | expires the sessions of every server and returns them all |
| UpstreamPool.UpstreamPool.AddUpstreams | src/upstream.rs:536-549 | adds the unknown URIs with fresh ids, in order |
| UpstreamPool.UpstreamPool.RemoveUris | src/upstream.rs:552-558 | keeps the servers of other URIs, in order |
| UpstreamTasks.ApplyKeepsInv | src/upstream.rs:134-161 | every lock or semaphore operation of every task, and dropping a call where it waits, keeps session limits, permit accounts and what the tasks know |
| UpstreamTasks.FoundIsPermitted | src/upstream.rs:477-479 | the server found by id is the one whose permit is held |
| UpstreamTasks.EveryInterleaving | src/upstream.rs:191-193 | in every reachable state: no server above its session limit, free and held permits add up to its connections, every guard names the server of its permit |
| UpstreamTasks.FailedCallsTakeNothing | src/upstream.rs:376-494 | once all calls are over, exactly the permits of the guards handed out are taken |
| UpstreamTasks.SessionsOnlyFromAdding | src/upstream.rs:134-161 | a session appears only where a task found room under the write lock; update_id brings none back |
| UpstreamEnds.SessionsChange | src/upstream.rs:134-179 | in every state, any operation of any task leaves a server's sessions as they were, but for the one it removes, expires, marks or adds, with its instant |
| UpstreamEnds.LimitsAreConfigured | src/upstream.rs:93-106 | the limits that hold in every reachable state are those of a configuration that was added, with its URI |
| UpstreamEnds.WaiterIsServed | src/upstream.rs:391-419 | a call waiting on the join set gets a guard of the server whose permit its task finds, for exactly one permit |
| UpstreamEnds.EveryPermitReturns | src/upstream.rs:391-419 | from every state all calls can end and all guards be dropped, and then every connection of every server is free |
| UpstreamCalls.ConnectionAlone | src/upstream.rs:376-420 | acquire_connection_permit left alone, whatever else is under way, does the step and ends with its answer: a guard, or nothing after its timeout |
| UpstreamCalls.StuckAlone | src/upstream.rs:423-448 | acquire_sticky_permit left alone for an id that has a session: the same |
| UpstreamCalls.NewAlone | src/upstream.rs:451-494 | and for a new id, with one attempt |
| UpstreamCalls.Attempts | src/upstream.rs:469-483 | an attempt left alone in the middle of the retry loop takes permit and session of the choice, or nothing |
| UpstreamCalls.RemovalAlone | src/upstream.rs:496-513 | remove_sticky_session left alone removes the session and ends |
| UpstreamCalls.ExpiryAlone | src/upstream.rs:516-524 | expire_sticky left alone, server by server, does the step |
| UpstreamCalls.AddAlone | src/upstream.rs:536-549 | add_upstreams, while no call holds the pool, does the step |
| UpstreamCalls.RemoveAlone | src/upstream.rs:552-558 | and so does remove_uris |
| UpstreamCalls.ReleaseAlone | src/upstream.rs:52-57 | dropping a guard does the step, whatever else is under way |
| UpstreamCalls.CallsAreARun | src/upstream.rs:205-300 | every sequence of calls one after the other is a run of the tasks from the empty pool, with the pool of the sequential run |
| UpstreamHomes.AddingKeepsSettledIff | src/upstream.rs:148-161 | adding an id keeps it on one server of the pool, and what other requests for it have seen true, exactly if none of them has looked in that server in vain |
| UpstreamHomes.OneHomeUnlessRaced | src/upstream.rs:423-448 | in every interleaving without such an addition the id is on at most one server of the pool, always |
| UpstreamHomes.OneHomeWithoutOverlap | src/upstream.rs:423-448 | in particular if no two requests for the id are under way at once between their first look and adding it |
| UpstreamHomes.RaceReachesSplit | src/upstream.rs:428-436 | after such an addition a request that has missed the id and can add it elsewhere goes on to a second server |
| UpstreamHomes.FirstRequestsSplit | src/upstream.rs:428-480 | from any state in which two servers of the pool have a permit and a session left, two overlapping first requests for an id nobody has end on both |
| UpstreamHomes.ConcurrentFirstRequestsSplit | src/upstream.rs:428-436 | a run from the empty pool that ends with an id on two servers |
| EventThrottle.Throttle.Emit | src/queue/control.rs:208-244 | publishes exactly if the event is not held back, and records it |
| EventThrottle.Throttle.Flush | src/queue/control.rs:247-251 | keeps exactly the events still held back |
| EventThrottle.Throttle.Serve | src/queue/control.rs:208-251 | any sequence of calls publishes what the pure run says |
| EventThrottle.PublishedAre | src/queue/control.rs:208-244 | what is published are exactly the emits not held back, in order |
| EventThrottle.PublishedIff | src/queue/control.rs:217-243 | an emit is published exactly if every earlier publication of its event is the throttle time ago |
| EventThrottle.FlushIsInvisible | src/queue/control.rs:247-251 | on a clock that does not go back, flushes change nothing in what is published |
| EventThrottle.PublicationsAreSpaced | src/queue/control.rs:217-243 | two publications of an event are at least the throttle time apart |
| EventThrottle.SpacingAssuredIff | src/queue/control.rs:217-243 | with emits overlapping lock by lock: after an emit has read its instant, whatever the time of the next check that passes, it is the throttle time later, exactly if the last write so far is of an instant no older or that time is over already |
| EventThrottle.NextPublishes | src/queue/control.rs:217-243 | every such check is the next step of a possible run, and its emit publishes |
| EventThrottle.NoOverlapIsSpaced | src/queue/control.rs:217-243 | publications of an event whose emits do not overlap are the throttle time apart, whatever else overlaps |
| EventThrottle.LateWriteShortensDistance | src/queue/control.rs:241-243 | a late write of an early instant lets an emit that checked after another's write publish too soon |
| EventThrottle.SpacedThoughOverlapping | src/queue/control.rs:217-243 | overlapping emits that keep their distance all the same |
| EventThrottle.OverlappingEmitsBothPublish | src/queue/control.rs:217-243 | two emits that both check before either writes publish twice at once |

## Left out

- Redis transport, script loading, publishing and subscribing, connection pools, proxying, cookies, TLS, configuration,
  control routes and the user interface: input and output.
- `queue_enabled`, `check_sync_keys`, settings timestamps and the waiting page: no admission depends on them.
- Which events the queue control emits after a request: it follows from the counts and positions modelled here.
- Lua's limits: the number of arguments of `unpack`, and numbers above 2^53.
- The writes a script made before it died of a Lua error: the error is modelled, and proved not to happen on linked
  structures; what it leaves behind otherwise is not.
- Text that is not the numeral of a number in the expiry hashes: the scripts write none.
- Acquiring a URI to load a cache: the choice of `Upstream.Choice`, without a permit.
- Ranking under concurrency: in `UpstreamTasks` a scan may try servers in any order; that it tries them by rank is proved
  for calls left alone (`UpstreamCalls`).
- UpstreamPool.UpstreamPool.AcquireStickyPermit: one attempt for a new id instead of attempts until a timeout, because
  between attempts other calls run; the retry loop is in `UpstreamTasks`.
- UpstreamPool.UpstreamPool.AcquireConnectionPermit: the wait on spawned tasks is in `UpstreamTasks`; called alone it
  can only time out.
- Overlapping emits whose caller fixes the instant: the repository has no such caller, each emit reads the clock itself.
- EventThrottle.Throttle.Serve: starts from an empty buffer.
