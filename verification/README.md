# A verified model of the Celery client's asynchronous core

The project models the containers on which the Celery client is built, the
protocol by which the Redis backend delivers task results, and the small text
layer that turns a URI query into options. JavaScript runs one synchronous
stretch at a time, so each stretch of the source between two awaits is one atomic
step here, and the main theorems hold for every sequence of steps.

- `List.dfy`, `PromiseQueue.dfy`, `ResourcePool.dfy`, `PromiseMap.dfy` and
  `RedisBackend.dfy` are classes with the fields of the source. Their methods are
  proved against values: the list against a sequence, the others against the
  functions of the state machines below.
- `PoolModel.dfy`, `PoolProperties.dfy`, `PoolLaws.dfy`, `PoolLiveness.dfy` and
  `UseModel.dfy` are the allocator as a state machine: a ledger says where each
  created resource is, and the fields are proved to agree with it. `use` adds the
  promise chain of `returnAfter`.
- `PromiseMapModel.dfy`, `PromiseMapProperties.dfy`, `PromiseMapStatus.dfy`,
  `PromiseMapAgreement.dfy`, `PromiseMapArrival.dfy` and `PromiseMapLaws.dfy` are
  the promise map as a state machine with promises known by their fate (section
  27.2 of ECMA-262): open, following a job, settled.
- `RedisModel.dfy`, `RedisProperties.dfy`, `RedisDelivery.dfy`, `RedisLosses.dfy`
  and `RedisLaws.dfy` are the race between GET and the subscription, on top of the
  promise map.
- `Letters.dfy`, `Queries.dfy`, `CamelCase.dfy`, `QueryParser.dfy` and `Integers.dfy` are the
  text layer.

Where the code does not do what its documentation or its names suggest, the model
follows the code:

- `toCamelCase` converts the first underscore only (`src/utility.ts:122-123`).
- `numInUse` also counts failed creations and destroyed resources
  (`src/containers/resource_pool.ts:87-89`).
- `destroyAll` does not wait for creations and hand-offs, and neither it nor a
  failed creation ever frees a slot (`src/containers/resource_pool.ts:174-198`).
- `clear` cancels no timer, although `delete` does
  (`src/containers/promise_map.ts:188-204`).
- `setStatus` makes an entry again for a key that was removed, and a late job
  overwrites the status of a newer settlement; `resolve` and `reject` then return
  false for a key that has no promise (`src/containers/promise_map.ts:212-345`).
- `get` of the Redis backend speaks of subscribing first, but its GET does not
  wait for the subscription, and while it listens it keeps the only connection
  that the subscriber leaves (`src/redis/backend.ts:73-160`).

Assumptions: `create` yields fresh resources other than `undefined`; only the
holder of a resource gives it back, except that a foreign return is modelled as
the error it is; a message that reaches a subscriber without a handler is dropped.

Check everything with `dafny verify dfyconfig.toml`.

## Model

| member | source | states |
|---|---|---|
| `PoolProperties.Conservation` | src/containers/resource_pool.ts:78-202 | In every state of every run, `resourceCount` is creations in flight + hand-offs + `inUse` + `unused` + resources passed to destroy + failed creations + resources dropped by a throwing destroy; these groups are disjoint; the count never exceeds the cap |
| `PoolProperties.WaitingDiscipline` | src/containers/resource_pool.ts:154-202 | In every run: somebody waits only when nothing is idle and the cap is reached, and the calls served from the queue are exactly the first blocked calls in get() order |
| `PoolProperties.NoBarging` | src/containers/resource_pool.ts:190-202 | A get() made while an earlier call waits still waits, and has and creates nothing, for as long as the earlier one is not served |
| `PoolLaws.OwnedIsPeakInUse` | src/containers/resource_pool.ts:190-202 | In every run, the pool owns exactly as many resources as numInUse() said at most: none is created while an idle one could serve |
| `PoolLaws.CreatesOnlyWhenNothingIdle` | src/containers/resource_pool.ts:190-198 | A step takes a slot if and only if it is a get() that finds nothing idle below the cap; no step gives one back |
| `PoolLaws.GetCases` | src/containers/resource_pool.ts:190-202 | get() takes the oldest idle resource and nothing else; without one it creates below the cap; at the cap it waits last |
| `PoolLaws.HandOverCases` | src/containers/resource_pool.ts:120-125 | A created resource goes to its call, a failed creation keeps its slot, and the continuation makes the call the holder |
| `PoolLaws.ReturnCases` | src/containers/resource_pool.ts:154-168 | A foreign return changes nothing; otherwise the resource goes to the call that waits longest, or behind the idle ones, waking every destroyAll() when nothing is in use |
| `PoolLaws.DestroyAllCases` | src/containers/resource_pool.ts:174-185 | destroyAll() waits if and only if something is in use; when it goes on, the idle resources go to destroy oldest first up to the one at which it throws |
| `PoolLaws.WokenOnlyWhenEmpty` | src/containers/resource_pool.ts:163-177 | A waiting destroyAll() is woken only by the return that leaves nothing in use |
| `PoolLaws.WaitsWhileInUse` | src/containers/resource_pool.ts:174-177 | It does not go on in any run throughout which something is in use |
| `PoolProperties.OldestIdleFirst` | src/containers/resource_pool.ts:167-194 | Idle resources are reused oldest first, over any run: one returned later never leaves `unused` before one returned earlier |
| `PoolProperties.HeldUntilReturned` | src/containers/resource_pool.ts:120-168 | From hand-off until its return a resource belongs to one call only, is not idle and is not passed to destroy, over any run |
| `PoolProperties.HeldAcrossStep` | src/containers/resource_pool.ts:120-202 | No step other than its return takes a resource from the call it is handed to |
| `PoolProperties.DestroyedOnceFromIdle` | src/containers/resource_pool.ts:174-185 | A step passes only idle resources to destroy, after those passed before, and never one twice |
| `PoolProperties.DestroyAllCompletes` | src/containers/resource_pool.ts:174-185 | From a quiet state and without further get(), a destroyAll() that waits finds every resource idle or destroyed when it goes on, and leaves each destroyed exactly once, also when calls of it overlap |
| `PoolProperties.DestroyAllAtOnce` | src/containers/resource_pool.ts:174-185 | The same for a destroyAll() that need not wait |
| `PoolProperties.FlushIsCompleteIff` | src/containers/resource_pool.ts:179-184 | The second half of destroyAll() leaves every slot destroyed if and only if nothing is in creation or failed, everything is idle or destroyed, and only the last destroy may throw |
| `PoolProperties.DestroyAllMissesHandOff` | src/containers/resource_pool.ts:120-122 | A run in which destroyAll() neither waits for nor destroys a resource in hand-off |
| `PoolLiveness.DeadIff` | src/containers/resource_pool.ts:120-202 | With calls waiting: no run whatsoever serves any of them if and only if the cap is reached, nothing is in creation, and every resource is destroyed or dropped |
| `PoolLiveness.ServeAll` | src/containers/resource_pool.ts:120-202 | From every other state some run serves all waiting calls, in order |
| `PoolLiveness.DeadPoolStarvesEveryone` | src/containers/resource_pool.ts:174-198 | Such a pool stays so, and every later get() waits for ever |
| `PoolLiveness.FailuresKill` | src/containers/resource_pool.ts:195-198 | For every cap, a run of failed creations alone gets there |
| `PoolLiveness.DestroyAllKills` | src/containers/resource_pool.ts:174-185 | So does a complete destroyAll() of a full pool |
| `PoolLiveness.WaitingDestroyAllCanGoOn` | src/containers/resource_pool.ts:163-177 | From every state of every run, each destroyAll() that waits for "empty" is woken in some continuation |
| `PoolLiveness.RunKeepsAwaits` | src/containers/resource_pool.ts:163-177 | In every run, a destroyAll() waits only while some call has a resource or is being handed one |
| `PoolProperties.NumInUseExactIff` | src/containers/resource_pool.ts:82-89 | `numInUse()` is the number of resources pending, in hand-off and in use if and only if no creation failed and nothing was passed to destroy |
| `PoolModel.StepKeepsInv` | src/containers/resource_pool.ts:120-202 | Every synchronous stretch keeps the invariant: ledger, queue order, cap and history |
| `PoolModel.RunKeepsInv` | src/containers/resource_pool.ts:120-202 | So does every run |
| `UseModel.UseReturnsExactlyOnce` | src/containers/resource_pool.ts:104-148 | In every run each use() gives its resource back exactly once, and ends with what its callback ended with |
| `UseModel.UseStepKeepsInv` | src/containers/resource_pool.ts:104-148 | Each handler of the promise chain keeps the once-only return and the hold on the resource |
| `UseModel.HandlerFinishes` | src/containers/resource_pool.ts:137-147 | The handler ends the use with what its callback produced, and the caller has the resource no more |
| `UseModel.ForeignReturnEndsInError` | src/containers/resource_pool.ts:137-147 | If somebody else returned the resource, the use ends with the error of return(), and the pool does not change |
| `UseModel.CreateFailsUse` | src/containers/resource_pool.ts:104-105 | A use whose create() fails ends there |
| `UseModel.FailedUseStaysFailed` | src/containers/resource_pool.ts:104-105 | In every run after that its callback never runs and it returns nothing |
| `ResourcePools.ResourcePool.constructor` | src/containers/resource_pool.ts:59-73 | An empty pool |
| `ResourcePools.ResourcePool.NumInUse` | src/containers/resource_pool.ts:87-89 | The owned resources that are not idle |
| `ResourcePools.ResourcePool.GetResource` | src/containers/resource_pool.ts:190-202 | Case by case over the fields: the oldest idle resource if there is one, else a slot below the cap, else the last place in the queue |
| `ResourcePools.ResourcePool.Deliver` | src/containers/resource_pool.ts:120-125 | The continuation of get() puts the resource in use |
| `ResourcePools.ResourcePool.Return` | src/containers/resource_pool.ts:154-168 | Case by case over the fields: error for a foreign resource; hand-off to the first waiter, whose promise is fulfilled with it; or last idle place, signalling "empty" when nothing is in use |
| `ResourcePools.ResourcePool.HandOrKeep` | src/containers/resource_pool.ts:159-167 | The part of it behind the ownership test |
| `ResourcePools.ResourcePool.DestroyAll` | src/containers/resource_pool.ts:174-185 | Waits while something is in use; otherwise yields all idle resources in order and leaves none |
| `ResourcePools.ResourcePool.TakeUnused` | src/containers/resource_pool.ts:179-182 | The rest of destroyAll(): the idle resources in order, and none left |
| `ResourcePools.ResourcePool.ReturnAfter` | src/containers/resource_pool.ts:131-148 | One return takes effect, and the settlement passes through exactly when the resource is in use |
| `ResourcePools.ResourcePool.Emit` | src/containers/resource_pool.ts:163-165 | Every listener of "empty" is called, and none is left |
| `Lists.ChainsMirror` | src/containers/list.ts:40-44 | The chain of next pointers from head and that of previous pointers from tail are the same `size` nodes in opposite orders, and both end |
| `Lists.NextChainIs` | src/containers/list.ts:168-179 | Following next from any node yields the rest of the list and stops |
| `Lists.PreviousChainIs` | src/containers/list.ts:40-44 | Following previous from any node yields the front in reverse and stops |
| `Lists.List.constructor` | src/containers/list.ts:48 | An empty list |
| `Lists.List.Length` | src/containers/list.ts:53-55 | The number of elements |
| `Lists.List.From` | src/containers/list.ts:63-71 | A list with exactly the given elements |
| `Lists.List.Push` | src/containers/list.ts:92-98 | old + xs, and the new length |
| `Lists.List.Pop` | src/containers/list.ts:106-123 | Removes and yields the last element; nothing happens to an empty list |
| `Lists.List.Shift` | src/containers/list.ts:131-148 | Removes and yields the first element; nothing happens to an empty list |
| `Lists.List.Unshift` | src/containers/list.ts:157-163 | xs + old, and the new length |
| `Lists.List.Iterate` | src/containers/list.ts:168-179 | Yields exactly the elements in order |
| `Lists.List.PushOne` | src/containers/list.ts:185-203 | old + [x], both pointer directions kept |
| `Lists.List.UnshiftOne` | src/containers/list.ts:209-227 | [x] + old, both pointer directions kept |
| `PromiseQueues.PromiseQueue.constructor` | src/containers/promise_queue.ts:45 | An empty queue |
| `PromiseQueues.PromiseQueue.Push` | src/containers/promise_queue.ts:54-60 | Appends one fresh pending promise; what was dequeued and then what waits stays exactly what was pushed, in push order |
| `PromiseQueues.PromiseQueue.ResolveAll` | src/containers/promise_queue.ts:69-71 | Stops, settles every waiting promise once in push order with the value, and returns their number |
| `PromiseQueues.PromiseQueue.RejectAll` | src/containers/promise_queue.ts:79-81 | The same with a reason |
| `PromiseQueues.PromiseQueue.ResolveOne` | src/containers/promise_queue.ts:89-91 | Dequeues and fulfils the first promise, or says that there is none; no settled promise changes |
| `PromiseQueues.PromiseQueue.RejectOne` | src/containers/promise_queue.ts:99-101 | The same with a rejection |
| `PromiseQueues.PromiseQueue.SettleOne` | src/containers/promise_queue.ts:110-126 | Dequeues and settles the first promise as asked, or says that there is none |
| `PromiseQueues.PromiseQueue.InvokeWhile` | src/containers/promise_queue.ts:133-141 | The loop ends when the queue is empty and counts the promises that it settled |
| `PromiseMapProperties.NoStrandedWaiter` | src/containers/promise_map.ts:158-396 | In every run, each promise made by get() either has its resolvers stored, uncalled, with the current promise of its key, or had them called exactly once |
| `PromiseMapProperties.TwoMapsFit` | src/containers/promise_map.ts:158-175 | In every run, keys of `promises` are keys of `data`, stored functions belong to the open promise of the key, and an entry without a promise has neither functions nor timer |
| `PromiseMapProperties.KeySetsPartIff` | src/containers/promise_map.ts:330-345 | From equal key sets, a step makes them differ if and only if it ends a job whose key was removed |
| `PromiseMapAgreement.KeySetsAlwaysEqualIff` | src/containers/promise_map.ts:314-345 | Over every run, the key sets are always equal if and only if no job ends after its key was removed |
| `PromiseMapAgreement.LateJobPartsKeySets` | src/containers/promise_map.ts:314-345 | A run from the empty map in which one does |
| `PromiseMapProperties.RejectAllExact` | src/containers/promise_map.ts:137-150 | Rejects exactly the pending entries with stored functions, leaves none of that kind, and leaves every other entry and promise as it was |
| `PromiseMapProperties.RejectCountIsExact` | src/containers/promise_map.ts:137-150 | The count is the number of such entries |
| `PromiseMapProperties.RejectOne` | src/containers/promise_map.ts:285-304 | Rejecting such an entry settles its waiter, removes its functions and keeps its promise |
| `PromiseMapProperties.TimersAlwaysExactIff` | src/containers/promise_map.ts:188-204 | Over every run, the live timers are always exactly the stored ones if and only if each clear() finds no live timer |
| `PromiseMapProperties.TimerDiscipline` | src/containers/promise_map.ts:354-396 | In such runs a timer is live if and only if it is stored, there is one per key at most, and it was set by the latest settlement of the key, no earlier than its entry was made |
| `PromiseMapProperties.ClearTimersIff` | src/containers/promise_map.ts:188-204 | A clear() keeps the timers exact if and only if none is live |
| `PromiseMapProperties.ClearLeaksTimers` | src/containers/promise_map.ts:188-204 | Every timer live at clear() stays live, and a get() of its key made afterwards is rejected when it fires |
| `PromiseMapProperties.ClearLeaksFromStart` | src/containers/promise_map.ts:188-204 | A run from the empty map that gets there |
| `PromiseMapStatus.StatusAgreement` | src/containers/promise_map.ts:70-96 | In every run in which no key is settled, deleted, expired or cleared while a job for it runs, the status is the state of the promise, and stored functions imply pending |
| `PromiseMapStatus.FinishAgreesIff` | src/containers/promise_map.ts:314-345 | For any end of a job, exactly when the status agrees afterwards: the key has a promise, led by the job or already ended the same way |
| `PromiseMapAgreement.StatusAlwaysRightIff` | src/containers/promise_map.ts:212-345 | Over every run, the status of a key is always right if and only if each of its jobs ends in that situation; no other step can break it |
| `PromiseMapAgreement.AgreesStepIff` | src/containers/promise_map.ts:212-345 | The same for one step of any kind |
| `PromiseMapAgreement.LateJobOverwritesStatus` | src/containers/promise_map.ts:314-325 | A run from the empty map in which a stale job makes a rejected key count as fulfilled |
| `PromiseMapArrival.ArrivalOrderIrrelevant` | src/containers/promise_map.ts:109-175 | If a key is settled once, every get() of it, before or after, is answered with one promise that ends with that settlement, whatever happens to other keys |
| `PromiseMapArrival.SettledOnceFromStart` | src/containers/promise_map.ts:109-175 | The same for every run from the empty map |
| `PromiseMapLaws.SettledKeysExpire` | src/containers/promise_map.ts:354-373 | In every state of every run with a timeout, an entry has a timer if and only if its key was settled since the entry was made; the timer is live and removes the key when it fires |
| `PromiseMapLaws.SettleStartsTimer` | src/containers/promise_map.ts:224-236 | Every resolve and reject, of a new, waited-for or settled key, sets a timer now and cancels the one before |
| `PromiseMapLaws.SettledKeyExpires` | src/containers/promise_map.ts:354-373 | When that timer fires the key is in neither map |
| `PromiseMapLaws.LatestSettlementDecides` | src/containers/promise_map.ts:212-312 | However often a key was settled, the latest settlement decides how its promise ends; a waiter keeps its promise, otherwise a new one takes its place |
| `PromiseMapLaws.GetCases` | src/containers/promise_map.ts:158-175 | get() finds the promise and changes nothing, or makes a pending one whose resolvers are stored and which has no timer |
| `PromiseMapLaws.FinishCases` | src/containers/promise_map.ts:314-345 | A job and all who follow it end with the outcome of its input, value or reason; the entry of its key only gets the status |
| `PromiseMapLaws.DeleteCases` | src/containers/promise_map.ts:181-183 | delete() removes the key, rejects a waiter with "deleted", cancels the timer, and changes nothing else |
| `PromiseMapLaws.FireCases` | src/containers/promise_map.ts:365-369 | The same for a timer that fires, with "timed out" |
| `PromiseMapLaws.ClearCases` | src/containers/promise_map.ts:188-204 | clear() empties both maps, rejects exactly the unsettled promises with "cleared", and leaves the timers |
| `PromiseMapLaws.RejectEachInOrder` | src/containers/promise_map.ts:137-150 | rejectAll() works in map order: of two entries it rejects, the earlier gets its timer first |
| `PromiseMapModel.StepKeepsInv` | src/containers/promise_map.ts:109-396 | Every step, stale jobs included, keeps the invariant of the two maps, the waiters and the timers |
| `PromiseMapModel.RunKeepsInv` | src/containers/promise_map.ts:109-396 | So does every run |
| `PromiseMapModel.ClearedCell` | src/containers/promise_map.ts:188-204 | clear() rejects exactly the promises nobody has settled, each by one call |
| `PromiseMaps.PromiseMap.constructor` | src/containers/promise_map.ts:51-55 | An empty map |
| `PromiseMaps.PromiseMap.Has` | src/containers/promise_map.ts:61-63 | True if and only if get() of the key would change nothing, because it finds a promise |
| `PromiseMaps.PromiseMap.IsPending` | src/containers/promise_map.ts:70-74 | While the status of the key is right: true if and only if the key has a promise that has not settled |
| `PromiseMaps.PromiseMap.IsFulfilled` | src/containers/promise_map.ts:81-85 | While the status of the key is right: true if and only if the promise of the key has fulfilled |
| `PromiseMaps.PromiseMap.IsRejected` | src/containers/promise_map.ts:92-96 | While the status of the key is right: true if and only if the promise of the key has rejected |
| `PromiseMaps.PromiseMap.Resolve` | src/containers/promise_map.ts:109-115 | Fields change as in the state machine; true if and only if there was no entry; a new key comes last in map order, an old one keeps its place |
| `PromiseMaps.PromiseMap.Reject` | src/containers/promise_map.ts:123-129 | Fields change as in the state machine; true if and only if there was no entry; a new key comes last in map order, an old one keeps its place |
| `PromiseMaps.PromiseMap.ResolveEntry` | src/containers/promise_map.ts:246-278 | Stores the job that a waiter or the key now follows; the key keeps its timer |
| `PromiseMaps.PromiseMap.RejectEntry` | src/containers/promise_map.ts:285-312 | Rejects the waiter or stores a rejected promise; the key keeps its timer |
| `PromiseMaps.PromiseMap.RejectAll` | src/containers/promise_map.ts:137-150 | Ends although it rewrites the map it iterates over, works in map order, and returns the number of pending entries with stored functions |
| `PromiseMaps.PromiseMap.GetPromise` | src/containers/promise_map.ts:158-175 | Yields the promise of the key, made and stored if there is none |
| `PromiseMaps.PromiseMap.MakeWaiter` | src/containers/promise_map.ts:165-172 | Stores a new promise and its resolvers |
| `PromiseMaps.WithoutKeepsOrder` | src/containers/promise_map.ts:393 | Deleting a key leaves the keys before and behind it in order |
| `PromiseMaps.PromiseMap.Delete` | src/containers/promise_map.ts:181-183 | Removes the key and rejects a stored waiter with "deleted"; the other keys keep their order |
| `PromiseMaps.PromiseMap.DoDelete` | src/containers/promise_map.ts:380-396 | Rejects a stored waiter, cancels the timer and removes both entries; true if and only if there was a promise |
| `PromiseMaps.PromiseMap.Clear` | src/containers/promise_map.ts:188-204 | Rejects the stored waiters, empties both maps, keeps the timers, and returns the number of promises |
| `PromiseMaps.PromiseMap.FireTimer` | src/containers/promise_map.ts:365-369 | A timer that fires deletes its key |
| `PromiseMaps.PromiseMap.FinishJob` | src/containers/promise_map.ts:314-325 | The end of a job settles it and sets the status of its key |
| `PromiseMaps.PromiseMap.SetStatus` | src/containers/promise_map.ts:330-345 | Changes the status only, and makes an entry if there is none |
| `PromiseMaps.PromiseMap.SetTimeout` | src/containers/promise_map.ts:354-373 | Replaces the timer of an entry that exists, if the map has a timeout |
| `RedisDelivery.NoLostResult` | src/redis/backend.ts:84-228 | For every interleaving with GETs after the handler is attached: once a successful result is stored, each getter has it, has its GET still to run, or its message is undelivered or held under its task |
| `RedisDelivery.DrainedDoneIff` | src/redis/backend.ts:84-228 | For every run that has drained and every getter of a stored result: it has that result if and only if it does not listen for a lost one and is not queued behind a holder that listens for a lost or missing one |
| `RedisDelivery.DrainedServesIff` | src/redis/backend.ts:84-228 | With GETs after the handler is attached: a getter of a successful result has it if and only if it is not queued behind a holder whose task has none |
| `RedisDelivery.DrainedServesEveryone` | src/redis/backend.ts:128-228 | So every getter has its result if every waited-for task has a successful one |
| `RedisDelivery.ListenerCanMove` | src/redis/backend.ts:132-136 | A listener whose result is under way or held is never stuck |
| `RedisDelivery.DrainingTerminates` | src/redis/backend.ts:84-228 | Every internal step lowers a measure, so draining ends |
| `RedisProperties.EveryResultHasAPlace` | src/redis/backend.ts:84-228 | In every state of every run, a stored result was lost by some step, or is under way, or is held by the map, and only one of these |
| `RedisLosses.MissedIffLost` | src/redis/backend.ts:84-228 | In every state of every run, a listener has missed its published result if and only if a step lost it: a publish before PSUBSCRIBE took effect, or a message without handler or with a task that is no UUID |
| `RedisLosses.DroppedMessageIsMissedIff` | src/redis/backend.ts:84-92 | A message that arrives between an empty GET and its reply is missed if and only if the handler is not attached or the task is no UUID |
| `RedisLosses.ListenerMissesMessageIff` | src/redis/backend.ts:84-92 | The same for the message of a getter that listens already |
| `RedisLosses.AnsweredMissesPublishIff` | src/redis/backend.ts:84-92 | A result published between an empty GET and its reply is missed at once if and only if PSUBSCRIBE has not taken effect |
| `RedisLosses.ListenerMissesPublishIff` | src/redis/backend.ts:84-92 | The same for a getter that listens already |
| `RedisLosses.PublishedTooEarly` | src/redis/backend.ts:84-92 | For every task, a run from the start in which its result is published too early and missed |
| `RedisLosses.DeliveredTooEarly` | src/redis/backend.ts:84-92 | For every task, a run from the start in which its message arrives before the handler is attached and is missed |
| `RedisLosses.NotAUuid` | src/redis/backend.ts:218-223 | For every task that is no UUID, a run from the start that misses its result although its GET came after the handler was attached |
| `RedisLosses.BlockedForGood` | src/redis/backend.ts:142-160 | A drained run from the start in which one unanswered getter keeps another from a stored result |
| `RedisLosses.MissedForEver` | src/redis/backend.ts:128-140 | Whatever happens next, a missed result stays missed, by its getter and by everybody who asks for the task afterwards |
| `RedisDelivery.UnansweredGetterBlocksOthers` | src/redis/backend.ts:142-160 | A getter that listens keeps the client connection, so until its result comes no queued getter runs its GET |
| `RedisDelivery.RunKeepsConnection` | src/redis/backend.ts:73-82 | In every run, one call at most has the client connection, and the queue lists exactly the queued ones |
| `RedisProperties.WakeIsRight` | src/redis/backend.ts:132-136 | A listener only ever wakes with the stored result of its own task |
| `RedisProperties.StepKeepsBaseInv` | src/redis/backend.ts:84-228 | Every step keeps the invariant of store, channel, promise map and getters, for any interleaving |
| `RedisProperties.RunKeepsInv` | src/redis/backend.ts:84-228 | Every run with GETs after the handler is attached keeps what is published on its way to those who wait |
| `RedisLaws.StartCases` | src/redis/backend.ts:132-142 | A call listens at once, without the connection, if and only if the map has its task; otherwise it queues last |
| `RedisLaws.AcquireCases` | src/redis/backend.ts:142 | The first in the queue gets the free connection |
| `RedisLaws.ServeCases` | src/redis/backend.ts:144 | GET answers with what is stored at that moment |
| `RedisLaws.ReplyCases` | src/redis/backend.ts:146-156 | A successful reply ends the call and frees the connection; otherwise the call keeps it and listens to the promise of its task |
| `RedisLaws.WakeCases` | src/redis/backend.ts:132-136 | A getter ends with the stored result and frees the connection if it kept it |
| `RedisLaws.DeliverCases` | src/redis/backend.ts:218-228 | A handled message decides how the promise of its task ends; a dropped one changes nothing |
| `RedisLaws.PublishCases` | src/redis/backend.ts:94-114 | A result is stored and published in one step |
| `RedisLaws.MessagesInOrder` | src/redis/backend.ts:84-92 | Over every run, messages arrive in publish order, none twice and none unsent |
| `RedisLaws.ConnectionInOrder` | src/redis/backend.ts:142 | Over every run, queued calls get the connection in call order |
| `RedisLaws.LateGetSeesResult` | src/redis/backend.ts:142-156 | Over every run, a call whose GET comes after a success was stored never listens; it ends with that result, whatever became of the message |
| `RedisBackends.UuidIff` | src/redis/backend.ts:47-49 | An id is accepted if and only if it is five words of 8, 4, 4, 4 and 12 hexadecimal digits with dashes between them |
| `RedisBackends.MatchIdIff` | src/redis/backend.ts:47-49 | A channel is matched if and only if it is "celery-task-meta-" followed by such an id, and the id is recovered |
| `RedisBackends.RedisBackend.constructor` | src/redis/backend.ts:53-56 | A backend with an empty result map that has a timeout |
| `RedisBackends.RedisBackend.StartGet` | src/redis/backend.ts:132-140 | Listens at once if the map has the task, otherwise asks Redis and changes nothing |
| `RedisBackends.RedisBackend.HandleReply` | src/redis/backend.ts:146-156 | Given the reply to GET: takes a successful result as it is, and listens otherwise |
| `RedisBackends.RedisBackend.OnMessage` | src/redis/backend.ts:218-228 | Fails exactly for a channel that is not "celery-task-meta-" and a dashed id; otherwise resolves that task with the message |
| `Queries.ParseQueries` | src/uri.ts:267-278 | Each key has the in-order list of its values, as a scalar when there is one; its scalar is the last one |
| `Queries.ValuesOfSpec` | src/uri.ts:267-278 | That list is the values at exactly the places of the key |
| `CamelCase.ToCamelCaseSpec` | src/utility.ts:122-123 | A name changes if and only if it has an underscore before a letter a to z; then the first such underscore goes and its letter becomes the capital A to Z |
| `CamelCase.CamelFormIsFixedIff` | src/utility.ts:116-123 | A converted name is unchanged by a second conversion if and only if it had one match at most |
| `CamelCase.FoldIsAtOnce` | src/uri.ts:299-314 | Without chains and collisions the fold renames all keys at once, a renamed key winning over one that had the name |
| `CamelCase.FoldLastWins` | src/uri.ts:299-314 | When several keys become one name, the last of them in the order wins |
| `CamelCase.FoldOrderIrrelevantIff` | src/uri.ts:299-314 | The order of the keys makes no difference if and only if no renamed key becomes another renamed key and keys with one new name carry one value |
| `QueryParsers.WithSourcesSpec` | src/query_parser.ts:292-295 | Keeps the entries at exactly the places whose source is in the query, in their order |
| `QueryParsers.MapOfSpec` | src/query_parser.ts:50-56 | The map has each source once, in the order of the first descriptors and with the entry of the last |
| `QueryParsers.ParseSpec` | src/query_parser.ts:71-85 | Parsing fails if and only if the parser of a present source fails; otherwise each target has what the last present entry for it parses, and all else is as in `init` |
| `QueryParsers.BuildAndParse` | src/query_parser.ts:50-142 | From descriptors to result: the last descriptor of a source counts; parsing fails if and only if one that counts and whose source is present fails; otherwise each target has what the one whose source was described latest yields, and `init` where none applies |
| `QueryParsers.WinnerExists` | src/query_parser.ts:71-85 | There is such a descriptor for every target to which any applies |
| `Integers.FormsExclusive` | src/utility.ts:226-251 | The four alternatives exclude each other on every string |
| `Integers.ParseIntegerIff` | src/utility.ts:46-63 | The result is n if and only if the string is a literal for n, some of its letters as capitals, between white space; all other strings fail |
| `Integers.PrintedLiteralParsesBack` | src/utility.ts:36-63 | A literal for n, with any of its letters as capitals and any white space around it, parses to n |
| `Integers.OctalValue` | src/utility.ts:227 | The leading zero of an octal literal does not change its value |
| `Integers.DigitsRoundTrip` | src/utility.ts:46-63 | Reading the digits of n in a base gives n back |
| `Integers.ValueIsPositional` | src/utility.ts:46-63 | One digit more multiplies by the base and adds its place in 0123456789abcdef |
| `Integers.ParseDbIsDecimal` | src/redis/uri/tcp.ts:163-175 | The decimal value of the digits behind the slash for any number of leading zeros, and failure without a digit |
| `Integers.ParseDbFailsIff` | src/redis/uri/tcp.ts:163-175 | Fails if and only if the path does not begin with a slash and a digit |

## Left out

- Resources, promises and keys are values with an identity; what they hold, and elements that are `undefined`, are not modelled.
- `maxResources` is a natural number; the source accepts any number.
- A `create` that throws synchronously is a creation that fails in the next step.
- List iteration interleaved with changes: the generator runs to its end over an unchanged list. `List.of` is `from`.
- Microtask counts, re-entrancy, user-defined `then` getters, and promise-like values passed to `PromiseQueue.resolveOne`, which reach the resolver as they are.
- Real time: a timer fires at any later step, and `createTimeoutPromise` is absent.
- In the Redis protocol: timers of the result map, TTL expiry, `delete`, `end`, `disconnect` and `uri`, more than one result per task, and results put or deleted through the client's own connections.
- `put` is the atomic SET and PUBLISH that its documentation describes; key prefixes and the wire format of ioredis are not part of this model.
- Message bodies are opaque, with a flag for the status Success; JSON parsing is left out.
- The GET itself and the pooled connection are steps of the Redis state machine, not fields of the class.
- Integers.ParseIntegerIff: values are exact; the source's numbers are so only below 2^53.
- Integers.PrintedLiteralParsesBack: letter case is that of ASCII letters.
- CamelCase.FoldIsAtOnce: queries are maps, so the order of the properties of the result is not modelled.
- QueryParsers.ParseSpec: `query` has own properties only; sources inherited from `Object.prototype` and the target `__proto__` are not modelled.
- Queries.ParseQueries: starts from decoded entries; `URL.parse`, percent decoding and the host and query patterns are library behaviour.
- `parseBoolean`, `parsePort`, `filterMapEvent`, the descriptor factories and the option builders of amqp and redis: one case distinction or copying each.
- Packers, encoders, serializers, the AMQP backend and brokers, round-robin selection and publish failover: thin wrappers or network code.
