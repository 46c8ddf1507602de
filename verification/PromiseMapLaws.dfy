/** What each step of the promise map does to its key, case by case: how the
    promise will end, which timer is set, and what becomes of the entry. */
module PromiseMapLaws {
  import opened Wrappers
  import opened Promises
  import opened PromiseMapModel
  import opened PromiseMapProperties
  import opened PromiseMapStatus
  import opened PromiseMapArrival

  /** get() finds the promise and changes nothing, or makes one whose resolvers it
      stores. */
  lemma GetCases<K, V>(s: State<K, V>, k: K)
    requires Inv(s)
    ensures k in s.promises ==> Get(s, k) == (s, s.promises[k])
    ensures k !in s.promises ==>
      var (t, p) := Get(s, k);
      && |t.heap| == |s.heap| + 1 && p == |s.heap| && s.heap <= t.heap
      && t.heap[p].origin == Waiter(k) && t.heap[p].fate.Open? && t.heap[p].calls == 0
      && t.promises == s.promises[k := p] && t.timers == s.timers
      && SameElsewhere(s.data, t.data, k)
      && k in t.data && t.data[k].functions == Some(p) && t.data[k].status == Pending && t.data[k].timer == None
  {
  }

  /** `t` is `s` with `k` settled: a waiter keeps its promise, and without one a new
      promise takes the place of the old. */
  ghost predicate Resettled<K, V>(s: State<K, V>, t: State<K, V>, k: K, status: Status) {
    && k in t.data && t.data[k].functions == None && t.data[k].status == status
    && k in t.promises
    && (k in s.promises && k in s.data ==> (t.promises[k] == s.promises[k] <==> s.data[k].functions.Some?))
  }

  lemma ResolveResettles<K, V>(s: State<K, V>, k: K, input: Input<V>)
    requires EntryOk(s, k)
    ensures Resettled(s, Resolve(s, k, input), k, Pending)
  {
  }

  lemma RejectResettles<K, V>(s: State<K, V>, k: K, reason: Reason)
    requires EntryOk(s, k)
    ensures Resettled(s, Reject(s, k, reason), k, HasRejected)
  {
  }

  /** However often a key was settled before, the latest settlement decides how its
      promise ends. */
  lemma LatestSettlementDecides<K, V>(s: State<K, V>, settle: Event<K, V>, k: K)
    requires Inv(s) && (settle.DoResolve? || settle.DoReject?) && settle.key == k
    ensures var t := Step(s, settle);
      && Locked(t, k, if settle.DoReject? then Ended(Rejected(settle.reason)) else ByJob(|s.heap|, settle.input))
      && Resettled(s, t, k, if settle.DoReject? then HasRejected else Pending)
  {
    KeyCells(s, k);
    if k in s.promises {
      assert CellOk(s, s.promises[k]);
    }
    if settle.DoReject? {
      RejectLocks(s, k, settle.reason);
      RejectResettles(s, k, settle.reason);
    } else {
      ResolveLocks(s, k, settle.input);
      ResolveResettles(s, k, settle.input);
    }
  }

  /** The end of a job settles it, and whoever follows it, with the outcome of its
      input, value or reason. The entry of its key only gets the status. */
  lemma FinishCases<K, V>(s: State<K, V>, j: Pid, outcome: Outcome<V>)
    requires Inv(s) && Enabled(s, JobDone(j, outcome))
    ensures var t := Step(s, JobDone(j, outcome));
      var k := s.heap[j].origin.key;
      && |t.heap| == |s.heap| && End(t.heap, j) == Some(outcome)
      && (forall p :: 0 <= p < |s.heap| && s.heap[p].fate == Following(j) ==> End(t.heap, p) == Some(outcome))
      && (forall p :: 0 <= p < |s.heap| && p != j ==> t.heap[p] == s.heap[p])
      && t.promises == s.promises && t.timers == s.timers && SameElsewhere(s.data, t.data, k)
      && k in t.data && t.data[k].status == (if outcome.Fulfilled? then HasFulfilled else HasRejected)
      && t.data[k].functions == (if k in s.data then s.data[k].functions else None)
      && t.data[k].timer == (if k in s.data then s.data[k].timer else None)
  {
    assert CellOk(s, j);
  }

  /** `k` is gone, a waiter of `k` was rejected with the reason, the timer of `k`
      is cancelled, and nothing else changed. */
  ghost predicate Removed<K, V>(s: State<K, V>, t: State<K, V>, k: K, reason: Reason) {
    && t.promises == s.promises - {k} && t.data == s.data - {k} && |t.heap| == |s.heap|
    && (forall p :: 0 <= p < |s.heap| ==>
          if k in s.data && s.data[k].functions == Some(p)
          then t.heap[p].fate == Settled(Rejected(reason)) && t.heap[p].calls == 1
          else t.heap[p] == s.heap[p])
    && (forall u :: u in t.timers <==> u in s.timers && !(k in s.data && s.data[k].timer == Some(u)))
    && (forall u :: u in t.timers ==> t.timers[u] == s.timers[u])
  }

  lemma DeleteCases<K, V>(s: State<K, V>, k: K)
    requires Inv(s)
    ensures Removed(s, Step(s, Delete(k)), k, Deleted)
  {
    StoredIsOpen(s, k);
  }

  lemma FireCases<K, V>(s: State<K, V>, t: Tid)
    requires Inv(s) && t in s.timers
    ensures Removed(s.(timers := s.timers - {t}), Step(s, Fire(t)), s.timers[t].key, TimedOut)
  {
    StoredIsOpen(s, s.timers[t].key);
  }

  lemma StoredIsOpen<K, V>(s: State<K, V>, k: K)
    requires Inv(s)
    ensures k in s.data && s.data[k].functions.Some? ==>
      var p := s.data[k].functions.value;
      p < |s.heap| && s.heap[p].fate.Open? && s.heap[p].calls == 0
  {
    KeyCells(s, k);
  }

  /** clear() empties both maps, rejects the promises nobody has settled, and
      leaves the timers alone. */
  lemma ClearCases<K, V>(s: State<K, V>, order: seq<K>)
    requires Inv(s) && OrderOf(s, order)
    ensures var t := Step(s, ClearAll(order));
      && t.promises == map[] && t.data == map[] && t.timers == s.timers && |t.heap| == |s.heap|
      && forall p :: 0 <= p < |s.heap| ==>
           t.heap[p].fate == if s.heap[p].origin.Waiter? && s.heap[p].fate.Open? then Settled(Rejected(Cleared))
                             else s.heap[p].fate
  {
    ClearEachLength(s.heap, s.data, order);
    forall p | 0 <= p < |s.heap|
      ensures ClearEach(s.heap, s.data, order)[p].fate
           == if s.heap[p].origin.Waiter? && s.heap[p].fate.Open? then Settled(Rejected(Cleared))
              else s.heap[p].fate
    {
      ClearedCell(s, order, p);
    }
  }

  // ---------------------------------------------------------------------------
  // Expiry.

  /** The entry of `k` in `t` has a timer set now, the only one that `k` had there
      before is cancelled. */
  ghost predicate TimerSet<K, V>(s: State<K, V>, t: State<K, V>, k: K) {
    && k in t.data && t.data[k].timer.Some?
    && var u := t.data[k].timer.value;
       && u !in s.timers && u in t.timers && t.timers[u] == Timer(k, s.now)
       && forall v :: v in t.timers && v != u <==> v in s.timers && !(k in s.data && s.data[k].timer == Some(v))
  }

  lemma SetTimeoutSets<K, V>(s: State<K, V>, k: K)
    requires s.hasTimeout && k in s.data && forall u :: u in s.timers ==> u < s.nextTimer
    ensures TimerSet(s, SetTimeout(s, k), k)
  {
  }

  /** Every settlement starts the timer of its key anew, whatever it settles and
      however the key stood. */
  lemma SettleStartsTimer<K, V>(s: State<K, V>, settle: Event<K, V>, k: K)
    requires Inv(s) && s.hasTimeout && (settle.DoResolve? || settle.DoReject?) && settle.key == k
    ensures TimerSet(s, Step(s, settle), k)
  {
    if settle.DoResolve? {
      ResolveSettles(s, k, settle.input);
      SetTimeoutSets(ResolveEntry(s, k, settle.input), k);
    } else {
      RejectSettles(s, k, settle.reason);
      SetTimeoutSets(RejectEntry(s, k, settle.reason), k);
    }
  }

  /** And when that timer fires, the key is gone. */
  lemma SettledKeyExpires<K, V>(s: State<K, V>, settle: Event<K, V>, k: K)
    requires Inv(s) && s.hasTimeout && (settle.DoResolve? || settle.DoReject?) && settle.key == k
    ensures var t := Step(s, settle);
      && k in t.data && t.data[k].timer.Some? && Enabled(t, Fire(t.data[k].timer.value))
      && k !in Step(t, Fire(t.data[k].timer.value)).promises
      && k !in Step(t, Fire(t.data[k].timer.value)).data
  {
    StepKeepsInv(s, settle);
    SettleStartsTimer(s, settle, k);
    FireCases(Step(s, settle), Step(s, settle).data[k].timer.value);
  }

  /** The entry has a timer if and only if its key was settled since the entry was
      made. */
  ghost predicate ExpiryOk<K, V>(s: State<K, V>, k: K) {
    && s.hasTimeout
    && (k in s.data ==>
          && k in s.born && s.born[k] <= s.now
          && (s.data[k].timer.Some? <==> k in s.settledAt && s.born[k] <= s.settledAt[k]))
  }

  /** Before a step, all settlements are past. */
  ghost predicate SettledBefore<K, V>(s: State<K, V>, k: K) {
    k in s.settledAt ==> s.settledAt[k] < s.now
  }

  /** Within a step, up to now. */
  ghost predicate SettledByNow<K, V>(s: State<K, V>, k: K) {
    k in s.settledAt ==> s.settledAt[k] <= s.now
  }

  lemma TimeoutKeepsExpiry<K, V>(s: State<K, V>, u: State<K, V>, l: K, k: K)
    requires ExpiryOk(s, k) && SettledByNow(s, k) && SettlesEntry(s, u, l)
    ensures ExpiryOk(SetTimeout(u, l), k) && SettledByNow(SetTimeout(u, l), k) && SetTimeout(u, l).now == s.now
  {
  }

  lemma RejectKeepsExpiry<K, V>(s: State<K, V>, l: K, reason: Reason, k: K)
    requires ExpiryOk(s, k) && SettledByNow(s, k)
    ensures ExpiryOk(Reject(s, l, reason), k) && SettledByNow(Reject(s, l, reason), k)
    ensures Reject(s, l, reason).now == s.now
  {
    RejectSettles(s, l, reason);
    TimeoutKeepsExpiry(s, RejectEntry(s, l, reason), l, k);
  }

  lemma ResolveKeepsExpiry<K, V>(s: State<K, V>, l: K, input: Input<V>, k: K)
    requires ExpiryOk(s, k) && SettledByNow(s, k)
    ensures ExpiryOk(Resolve(s, l, input), k) && SettledByNow(Resolve(s, l, input), k)
    ensures Resolve(s, l, input).now == s.now
  {
    ResolveSettles(s, l, input);
    TimeoutKeepsExpiry(s, ResolveEntry(s, l, input), l, k);
  }

  lemma {:induction false} RejectEachKeepsExpiry<K, V>(s: State<K, V>, keys: seq<K>, reason: Reason, k: K)
    requires ExpiryOk(s, k) && SettledByNow(s, k)
    ensures var t := RejectEach(s, keys, reason); ExpiryOk(t, k) && SettledByNow(t, k) && t.now == s.now
    decreases |keys|
  {
    if keys != [] {
      RejectKeepsExpiry(s, keys[0], reason, k);
      RejectEachKeepsExpiry(if Rejectable(s, keys[0]) then Reject(s, keys[0], reason) else s, keys[1..], reason, k);
    }
  }

  /** The steps that make, change or remove an entry without settling its key. */
  lemma EntryKeepsExpiry<K, V>(s: State<K, V>, e: Event<K, V>, k: K)
    requires Inv(s) && Enabled(s, e) && ExpiryOk(s, k) && SettledBefore(s, k)
    requires e.DoGet? || e.JobDone? || e.Delete? || e.Fire? || e.ClearAll?
    ensures ExpiryOk(Do(s, e), k) && SettledByNow(Do(s, e), k) && Do(s, e).now == s.now
  {
    match e
    case DoGet(l) => KeyCells(s, k);
    case JobDone(j, outcome) =>
    case _ =>
  }

  lemma StepKeepsExpiry<K, V>(s: State<K, V>, e: Event<K, V>, k: K)
    requires Inv(s) && Enabled(s, e) && ExpiryOk(s, k) && SettledBefore(s, k)
    ensures ExpiryOk(Step(s, e), k) && SettledBefore(Step(s, e), k)
  {
    match e
    case DoResolve(l, input) => ResolveKeepsExpiry(s, l, input, k);
    case DoReject(l, reason) => RejectKeepsExpiry(s, l, reason, k);
    case RejectAll(order, reason) => RejectEachKeepsExpiry(s, order, reason, k);
    case _ => EntryKeepsExpiry(s, e, k);
  }

  lemma {:induction false} RunKeepsExpiry<K, V>(s: State<K, V>, es: seq<Event<K, V>>, k: K)
    requires Inv(s) && ValidRun(s, es) && ExpiryOk(s, k) && SettledBefore(s, k)
    ensures Inv(After(s, es)) && ExpiryOk(After(s, es), k)
    decreases |es|
  {
    if es != [] {
      StepKeepsInv(s, es[0]);
      StepKeepsExpiry(s, es[0], k);
      RunKeepsExpiry(Step(s, es[0]), es[1..], k);
    }
  }

  /** Expiry, in every state of every run of a map with a timeout: an entry has a
      timer if and only if its key was settled since the entry was made, and that
      timer is live, is the key's own, and removes it when it fires. */
  lemma SettledKeysExpire<K, V>(es: seq<Event<K, V>>, k: K)
    requires ValidRun(Init<K, V>(true), es) && k in After(Init<K, V>(true), es).data
    ensures var s := After(Init<K, V>(true), es);
      && k in s.born
      && (s.data[k].timer.Some? <==> k in s.settledAt && s.born[k] <= s.settledAt[k])
      && (s.data[k].timer.Some? ==>
            && s.data[k].timer.value in s.timers && s.timers[s.data[k].timer.value].key == k
            && k !in Step(s, Fire(s.data[k].timer.value)).data
            && k !in Step(s, Fire(s.data[k].timer.value)).promises)
  {
    InitInv<K, V>(true);
    RunKeepsExpiry(Init<K, V>(true), es, k);
    KeyCells(After(Init<K, V>(true), es), k);
  }

  // ---------------------------------------------------------------------------
  // The order in which rejectAll() works.

  lemma {:induction false} RejectEachTimersAreNew<K, V>(s: State<K, V>, keys: seq<K>, reason: Reason, l: K)
    requires Inv(s) && s.hasTimeout && Distinct(keys) && l in keys && Rejectable(s, l)
    ensures var t := RejectEach(s, keys, reason);
      l in t.data && t.data[l].timer.Some? && s.nextTimer <= t.data[l].timer.value
    decreases |keys|
  {
    var k := keys[0];
    if Rejectable(s, k) {
      var t := Reject(s, k, reason);
      RejectOne(s, k, reason);
      if k == l {
        assert l !in keys[1..];
        RejectEachAtEntry(t, keys[1..], reason, l);
      } else {
        RejectEachTimersAreNew(t, keys[1..], reason, l);
      }
    } else {
      RejectEachTimersAreNew(s, keys[1..], reason, l);
    }
  }

  /** It goes through the map in order: of two entries that it rejects, the
      earlier one gets its timer first. */
  lemma {:induction false} RejectEachInOrder<K, V>(s: State<K, V>, keys: seq<K>, reason: Reason, i: nat, j: nat)
    requires Inv(s) && s.hasTimeout && Distinct(keys)
    requires i < j < |keys| && Rejectable(s, keys[i]) && Rejectable(s, keys[j])
    ensures var t := RejectEach(s, keys, reason);
      && keys[i] in t.data && keys[j] in t.data
      && t.data[keys[i]].timer.Some? && t.data[keys[j]].timer.Some?
      && t.data[keys[i]].timer.value < t.data[keys[j]].timer.value
    decreases |keys|
  {
    var k := keys[0];
    var t := if Rejectable(s, k) then Reject(s, k, reason) else s;
    if Rejectable(s, k) {
      RejectOne(s, k, reason);
    }
    if i == 0 {
      assert k !in keys[1..] && keys[1..][j - 1] == keys[j];
      RejectEachAtEntry(t, keys[1..], reason, k);
      RejectEachTimersAreNew(t, keys[1..], reason, keys[j]);
    } else {
      assert keys[1..][i - 1] == keys[i] && keys[1..][j - 1] == keys[j];
      assert keys[i] != k && keys[j] != k;
      RejectEachInOrder(t, keys[1..], reason, i - 1, j - 1);
    }
  }
}
