/** The class of src/containers/promise_map.ts. Each method is one synchronous
    stretch and refines the matching function of the state machine. */
module PromiseMaps {
  import opened Wrappers
  import opened Promises
  import opened PromiseMapModel
  import opened PromiseMapProperties
  import opened PromiseMapStatus

  class PromiseMap<K(==), V> {
    var promises: map<K, Pid>
    var data: map<K, MapData>
    const hasTimeout: bool
    var order: seq<K>                // the keys of `data` in insertion order, as a Map iterates over them
    var heap: seq<Cell<K, V>>        // the promises made so far
    var timers: map<Tid, Timer<K>>   // the timers still to fire
    var nextTimer: Tid
    var now: nat
    ghost var born: map<K, nat>
    ghost var settledAt: map<K, nat>

    ghost function Abs(): State<K, V>
      reads this
    {
      State(promises, data, hasTimeout, heap, timers, nextTimer, now, born, settledAt)
    }

    /** What the methods rely on; the reachable states satisfy it. */
    ghost predicate Valid()
      reads this
    {
      OrderOf(Abs(), order) && Inv(Abs())
    }

    constructor (hasTimeout: bool)
      ensures Valid() && Abs() == Init<K, V>(hasTimeout)
      ensures this.hasTimeout == hasTimeout && promises == map[] && data == map[] && timers == map[]
    {
      this.hasTimeout := hasTimeout;
      promises, data, order, heap, timers, nextTimer, now := map[], map[], [], [], map[], 0, 0;
      born, settledAt := map[], map[];
    }

    /** Whether `get(key)` would find a promise, and so change nothing. */
    method Has(key: K) returns (has: bool)
      ensures has <==> key in promises
      ensures has <==> Get(Abs(), key).0 == Abs()
    {
      has := key in promises;
    }

    /** What the promise of the key has settled to, if there is one and it has. */
    ghost function Settlement(key: K): Option<Outcome<V>>
      reads this
    {
      if key in promises && promises[key] < |heap| then End(heap, promises[key]) else None
    }

    /** The last clause of this method and of the next two says what the answer
        means while the status of the key is right. */
    method IsPending(key: K) returns (pending: bool)
      ensures pending <==> key in data && data[key].status == Pending
      ensures Valid() && Agrees(Abs(), key) ==>
        (pending <==> key in promises && Settlement(key) == None)
    {
      pending := key in data && data[key].status == Pending;
    }

    method IsFulfilled(key: K) returns (fulfilled: bool)
      ensures fulfilled <==> key in data && data[key].status == HasFulfilled
      ensures Valid() && Agrees(Abs(), key) ==>
        (fulfilled <==> exists v :: Settlement(key) == Some(Fulfilled(v)))
    {
      fulfilled := key in data && data[key].status == HasFulfilled;
      assert Settlement(key).Some? && Settlement(key).value.Fulfilled? ==>
        Settlement(key) == Some(Fulfilled(Settlement(key).value.value));
    }

    method IsRejected(key: K) returns (rejected: bool)
      ensures rejected <==> key in data && data[key].status == HasRejected
      ensures Valid() && Agrees(Abs(), key) ==>
        (rejected <==> exists reason :: Settlement(key) == Some(Rejected(reason)))
    {
      rejected := key in data && data[key].status == HasRejected;
      assert Settlement(key).Some? && Settlement(key).value.Rejected? ==>
        Settlement(key) == Some(Rejected(Settlement(key).value.reason));
    }

    method Resolve(key: K, input: Input<V>) returns (inserted: bool)
      requires Valid()
      modifies this
      ensures Valid() && Abs() == PromiseMapModel.Resolve(old(Abs()), key, input)
      ensures order == if key in old(data) then old(order) else old(order) + [key]
      ensures inserted <==> key !in old(data)
    {
      ResolveKeepsInv(Abs(), key, input);
      inserted := ResolveEntry(key, input);
      SetTimeout(key);
    }

    /** `resolveExisting` or `resolveNew`, stored as `settle` does. */
    method ResolveEntry(key: K, input: Input<V>) returns (inserted: bool)
      requires OrderOf(Abs(), order)
      modifies this
      ensures OrderOf(Abs(), order) && Abs() == PromiseMapModel.ResolveEntry(old(Abs()), key, input)
      ensures order == if key in old(data) then old(order) else old(order) + [key]
      ensures inserted <==> key !in old(data)
    {
      inserted := key !in data;
      settledAt := settledAt[key := now];
      var job := |heap|;
      heap := heap + [Cell(Job(key, input), Open, 0)];
      if inserted {
        promises := promises[key := job];
        SetData(key, MapData(None, Pending, None));
      } else {
        var entry := data[key];
        if entry.functions.Some? {
          CallFunctions(entry.functions.value, Following(job));
        } else {
          promises := promises[key := job];
        }
        SetData(key, entry.(functions := None, status := Pending));
      }
    }

    method Reject(key: K, reason: Reason) returns (inserted: bool)
      requires Valid()
      modifies this
      ensures Valid() && Abs() == PromiseMapModel.Reject(old(Abs()), key, reason)
      ensures inserted <==> key !in old(data)
      ensures order == if key in old(data) then old(order) else old(order) + [key]
    {
      RejectKeepsInv(Abs(), key, reason);
      inserted := RejectEntry(key, reason);
      SetTimeout(key);
    }

    /** `rejectExisting` or `rejectNew`, stored as `settle` does. */
    method RejectEntry(key: K, reason: Reason) returns (inserted: bool)
      requires OrderOf(Abs(), order)
      modifies this
      ensures OrderOf(Abs(), order) && Abs() == PromiseMapModel.RejectEntry(old(Abs()), key, reason)
      ensures inserted <==> key !in old(data)
      ensures order == if key in old(data) then old(order) else old(order) + [key]
    {
      inserted := key !in data;
      settledAt := settledAt[key := now];
      if inserted {
        promises := promises[key := |heap|];
        heap := heap + [Cell(Immediate, Settled(Rejected(reason)), 0)];
        SetData(key, MapData(None, HasRejected, None));
      } else {
        var entry := data[key];
        if entry.functions.Some? {
          CallFunctions(entry.functions.value, Settled(Rejected(reason)));
        } else {
          promises := promises[key := |heap|];
          heap := heap + [Cell(Immediate, Settled(Rejected(reason)), 0)];
        }
        SetData(key, entry.(functions := None, status := HasRejected));
      }
    }

    /** Iterates over the live map while `Reject` rewrites its entries: the
        number of keys never grows, so the loop ends. */
    method RejectAll(reason: Reason) returns (numRejected: nat)
      requires Valid()
      modifies this
      ensures Valid() && Abs() == RejectEach(old(Abs()), old(order), reason) && order == old(order)
      ensures numRejected == |RejectableIn(old(Abs()), old(order))|
      ensures numRejected == |set k | k in old(data) && old(data)[k].status == Pending && old(data)[k].functions.Some?|
    {
      RejectCountIsExact(Abs(), order, reason);
      CountIsOfPending(Abs(), order);
      numRejected := 0;
      var i := 0;
      while i < |order|
        invariant Valid() && order == old(order) && i <= |order|
        invariant RejectEach(Abs(), order[i..], reason) == RejectEach(old(Abs()), old(order), reason)
        invariant numRejected + RejectCount(Abs(), order[i..], reason)
               == RejectCount(old(Abs()), old(order), reason)
        decreases |order| - i
      {
        var key := order[i];
        assert order[i..][1..] == order[i + 1..] && key in data;
        i := i + 1;
        if data[key].status != Pending || data[key].functions == None {
          continue;
        }
        var _ := Reject(key, reason);
        numRejected := numRejected + 1;
      }
    }

    /** `get(key)`; the caller's promise follows `promise`. */
    method GetPromise(key: K) returns (promise: Pid)
      requires Valid()
      modifies this
      ensures Valid() && (Abs(), promise) == Get(old(Abs()), key)
      ensures order == if key in old(data) then old(order) else old(order) + [key]
    {
      GetKeepsInv(Abs(), key);
      if key in promises {
        return promises[key];
      }
      promise := |heap|;
      MakeWaiter(key);
    }

    /** `new Promise(...)`, whose executor stores the resolvers, and
        `this.promises.set(key, promise)`. */
    method MakeWaiter(key: K)
      requires OrderOf(Abs(), order) && key !in promises
      modifies this`heap, this`data, this`order, this`born, this`promises
      ensures OrderOf(Abs(), order) && Abs() == Get(old(Abs()), key).0
      ensures order == if key in old(data) then old(order) else old(order) + [key]
    {
      var promise := |heap|;
      heap := heap + [Cell(Waiter(key), Open, 0)];
      SetData(key, MapData(Some(promise), Pending, None));
      born := born[key := now];
      assert born == old(born)[key := now];
      promises := promises[key := promise];
    }

    method Delete(key: K) returns (deleted: bool)
      requires Valid()
      modifies this
      ensures Valid() && Abs() == Do(old(Abs()), PromiseMapModel.Delete(key)) && order == Without(old(order), key)
      ensures deleted <==> key in old(promises)
    {
      DoDeleteKeepsInv(Abs(), key, Deleted);
      deleted := DoDelete(key, Deleted);
    }

    method DoDelete(key: K, reason: Reason) returns (deleted: bool)
      requires OrderOf(Abs(), order)
      modifies this
      ensures OrderOf(Abs(), order) && Abs() == PromiseMapModel.DoDelete(old(Abs()), key, reason)
      ensures order == Without(old(order), key)
      ensures deleted <==> key in old(promises)
    {
      if key in data {
        if data[key].functions.Some? {
          CallFunctions(data[key].functions.value, Settled(Rejected(reason)));
        }
        if data[key].timer.Some? {
          timers := timers - {data[key].timer.value};
        }
        order := Without(order, key);
      }
      data := data - {key};
      deleted := key in promises;
      promises := promises - {key};
    }

    method Clear() returns (numDeleted: nat)
      requires Valid()
      modifies this
      ensures Valid() && Abs() == PromiseMapModel.Clear(old(Abs()), old(order)) && order == []
      ensures numDeleted == |old(promises)|
    {
      ClearKeepsInv(Abs(), order);
      var i := 0;
      while i < |order|
        invariant i <= |order|
        invariant promises == old(promises) && data == old(data) && timers == old(timers) && order == old(order)
        invariant nextTimer == old(nextTimer) && now == old(now) && born == old(born) && settledAt == old(settledAt)
        invariant ClearEach(heap, data, order[i..]) == ClearEach(old(heap), data, order)
      {
        var key := order[i];
        assert order[i..][1..] == order[i + 1..] && key in data;
        if data[key].functions.Some? {
          CallFunctions(data[key].functions.value, Settled(Rejected(Cleared)));
        }
        i := i + 1;
      }
      numDeleted := |promises|;
      promises, data, order := map[], map[], [];
    }

    /** A timer fires: it is live no more, and deletes its key. */
    method FireTimer(timer: Tid)
      requires Valid() && timer in timers
      modifies this
      ensures Valid() && Abs() == Do(old(Abs()), Fire(timer)) && order == Without(old(order), old(timers)[timer].key)
    {
      FireKeepsInv(Abs(), timer);
      var key := timers[timer].key;
      timers := timers - {timer};
      var _ := DoDelete(key, TimedOut);
    }

    /** The rest of `doResolve(key, ...)` after its await. */
    method FinishJob(job: Pid, outcome: Outcome<V>)
      requires Valid() && Enabled(Abs(), JobDone(job, outcome))
      modifies this
      ensures Valid() && Abs() == Do(old(Abs()), JobDone(job, outcome))
      ensures var key := old(heap)[job].origin.key;
        order == if key in old(data) then old(order) else old(order) + [key]
    {
      FinishJobKeepsInv(Abs(), job, outcome);
      var key := heap[job].origin.key;
      SetStatus(key, if outcome.Fulfilled? then HasFulfilled else HasRejected);
      heap := heap[job := heap[job].(fate := Settled(outcome))];
    }

    /** `setStatus(key, status)`. */
    method SetStatus(key: K, status: Status)
      requires OrderOf(Abs(), order)
      modifies this`data, this`order, this`born
      ensures OrderOf(Abs(), order) && Abs() == PromiseMapModel.SetStatus(old(Abs()), key, status)
      ensures order == if key in old(data) then old(order) else old(order) + [key]
    {
      if key in data {
        SetData(key, data[key].(status := status));
      } else {
        SetData(key, MapData(None, status, None));
      }
    }

    /** Time passes between two steps. */
    method Tick()
      requires Valid()
      modifies this`now
      ensures Valid() && Abs() == old(Abs()).(now := old(now) + 1)
    {
      TickKeepsInv(Abs(), now + 1);
      now := now + 1;
    }

    /** `this.data.set(key, entry)`. */
    method SetData(key: K, entry: MapData)
      requires OrderOf(Abs(), order)
      modifies this`data, this`order, this`born
      ensures OrderOf(Abs(), order) && data == old(data)[key := entry]
      ensures order == if key in old(data) then old(order) else old(order) + [key]
      ensures born == if key in old(data) then old(born) else old(born)[key := now]
    {
      if key !in data {
        order := order + [key];
        born := born[key := now];
      }
      data := data[key := entry];
    }

    /** Call a resolver of the promise `p`. */
    method CallFunctions(p: Pid, fate: Fate<V>)
      modifies this`heap
      ensures heap == CallResolver(old(heap), p, fate)
    {
      if p < |heap| {
        var cell := heap[p];
        heap := heap[p := cell.(fate := if cell.fate.Open? then fate else cell.fate, calls := cell.calls + 1)];
      }
    }

    method SetTimeout(key: K)
      requires OrderOf(Abs(), order)
      modifies this`data, this`order, this`born, this`timers, this`nextTimer
      ensures OrderOf(Abs(), order) && Abs() == PromiseMapModel.SetTimeout(old(Abs()), key)
      ensures order == old(order)
    {
      if key !in data || !hasTimeout {
        return;
      }
      if data[key].timer.Some? {
        timers := timers - {data[key].timer.value};
      }
      timers := timers[nextTimer := Timer(key, now)];
      SetData(key, data[key].(timer := Some(nextTimer)));
      nextTimer := nextTimer + 1;
    }
  }

  /** Removing a key keeps the order of the others. */
  function Without<K(==)>(s: seq<K>, k: K): (r: seq<K>)
    ensures forall l :: l in r ==> l in s && l != k
    ensures forall l :: l in s && l != k ==> l in r
    ensures Distinct(s) ==> Distinct(r)
    ensures k !in s ==> r == s
  {
    if s == [] then []
    else
      var rest := Without(s[1..], k);
      assert Distinct(s) ==> Distinct(s[1..]) && s[0] !in s[1..];
      if s[0] == k then rest else [s[0]] + rest
  }

  lemma {:induction false} WithoutKeepsOrder<K>(a: seq<K>, k: K, b: seq<K>)
    requires k !in a && k !in b
    ensures Without(a + [k] + b, k) == a + b
    decreases |a|
  {
    if a == [] {
      assert ([k] + b)[1..] == b && a + [k] + b == [k] + b;
    } else {
      assert (a + [k] + b)[1..] == a[1..] + [k] + b;
      WithoutKeepsOrder(a[1..], k, b);
      assert a + b == [a[0]] + (a[1..] + b);
    }
  }

  lemma CountIsOfPending<K, V>(s: State<K, V>, order: seq<K>)
    requires OrderOf(s, order)
    ensures RejectableIn(s, order) == set k | k in s.data && s.data[k].status == Pending && s.data[k].functions.Some?
  {
  }
}
