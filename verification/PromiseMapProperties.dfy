/** What every run of the promise map keeps, and exactly when the claims that
    need a condition hold. */
module PromiseMapProperties {
  import opened Wrappers
  import opened Promises
  import opened PromiseMapModel

  // ---------------------------------------------------------------------------
  // Waiters.

  /** No stranded waiter, in every state of every run: the resolvers of each
      promise that `get` made have been called exactly once, or never, and then
      they are still stored with the current promise of the key. */
  lemma NoStrandedWaiter<K, V>(hasTimeout: bool, es: seq<Event<K, V>>, p: Pid)
    requires ValidRun(Init<K, V>(hasTimeout), es)
    requires p < |After(Init<K, V>(hasTimeout), es).heap|
    requires After(Init<K, V>(hasTimeout), es).heap[p].origin.Waiter?
    ensures var s := After(Init<K, V>(hasTimeout), es);
      var c := s.heap[p];
      || (c.calls == 0 && c.fate.Open? && Stored(s, c.origin.key, p))
      || (c.calls == 1 && !c.fate.Open?)
  {
    InitInv<K, V>(hasTimeout);
    RunKeepsInv(Init<K, V>(hasTimeout), es);
    assert CellOk(After(Init<K, V>(hasTimeout), es), p);
  }

  /** The two maps, in every state of every run. So `get` on a key without a
      promise never overwrites a resolver or a timer. */
  lemma TwoMapsFit<K, V>(hasTimeout: bool, es: seq<Event<K, V>>, k: K)
    requires ValidRun(Init<K, V>(hasTimeout), es)
    ensures var s := After(Init<K, V>(hasTimeout), es);
      && s.promises.Keys <= s.data.Keys
      && (k in s.data && k !in s.promises ==> s.data[k].functions == None && s.data[k].timer == None)
      && (k in s.data && s.data[k].functions.Some? ==>
            && k in s.promises && s.promises[k] == s.data[k].functions.value
            && s.promises[k] < |s.heap| && s.heap[s.promises[k]].fate.Open?)
      && (k in s.data && s.data[k].timer.Some? ==> s.data[k].timer.value in s.timers)
  {
    InitInv<K, V>(hasTimeout);
    RunKeepsInv(Init<K, V>(hasTimeout), es);
    KeyCells(After(Init<K, V>(hasTimeout), es), k);
  }

  /** The key sets part exactly when a job ends whose key has been removed. */
  lemma KeySetsPartIff<K, V>(s: State<K, V>, e: Event<K, V>)
    requires Inv(s) && Enabled(s, e) && s.promises.Keys == s.data.Keys
    ensures Step(s, e).promises.Keys == Step(s, e).data.Keys
       <==> !(e.JobDone? && s.heap[e.job].origin.key !in s.promises)
  {
    match e
    case JobDone(j, _) => assert s.heap[j].origin.key in Step(s, e).data;
    case DoResolve(k, input) =>
      SettleKeys(s, k, input, Deleted);
      SetTimeoutKeys(ResolveEntry(s, k, input), k);
    case DoReject(k, reason) =>
      SettleKeys(s, k, Later, reason);
      SetTimeoutKeys(RejectEntry(s, k, reason), k);
    case RejectAll(order, reason) => RejectEachKeys(s, order, reason);
    case _ =>
  }

  lemma TouchedKeys<K, V>(s: State<K, V>, t: State<K, V>, k: K)
    requires OnlyTouches(s, t, k) && s.promises.Keys == s.data.Keys && k in t.promises && k in t.data
    ensures t.promises.Keys == t.data.Keys
  {
    forall l
      ensures l in t.promises.Keys <==> l in t.data.Keys
    {
      assert l != k ==> (l in t.promises <==> l in s.promises.Keys) && (l in t.data <==> l in s.data.Keys);
    }
  }

  lemma SettledHasKey<K, V>(s: State<K, V>, k: K, input: Input<V>, reason: Reason)
    requires EntryOk(s, k)
    ensures k in ResolveEntry(s, k, input).promises && k in ResolveEntry(s, k, input).data
    ensures k in RejectEntry(s, k, reason).promises && k in RejectEntry(s, k, reason).data
  {
  }

  lemma SettleKeys<K, V>(s: State<K, V>, k: K, input: Input<V>, reason: Reason)
    requires Inv(s) && s.promises.Keys == s.data.Keys
    ensures ResolveEntry(s, k, input).promises.Keys == ResolveEntry(s, k, input).data.Keys
    ensures RejectEntry(s, k, reason).promises.Keys == RejectEntry(s, k, reason).data.Keys
  {
    KeyCells(s, k);
    SettledHasKey(s, k, input, reason);
    ResolveTouches(s, k, input);
    RejectTouches(s, k, reason);
    TouchedKeys(s, ResolveEntry(s, k, input), k);
    TouchedKeys(s, RejectEntry(s, k, reason), k);
  }

  lemma SetTimeoutKeys<K, V>(s: State<K, V>, k: K)
    requires s.promises.Keys == s.data.Keys
    ensures SetTimeout(s, k).promises.Keys == SetTimeout(s, k).data.Keys
  {
  }

  // ---------------------------------------------------------------------------
  // rejectAll.

  /** Rejecting one rejectable entry. */
  lemma RejectOne<K, V>(s: State<K, V>, k: K, reason: Reason)
    requires Inv(s) && Rejectable(s, k)
    ensures var t := Reject(s, k, reason);
      && Inv(t) && t.promises == s.promises && SameElsewhere(s.data, t.data, k)
      && k in t.data && t.data[k].functions == None && t.data[k].status == HasRejected
      && s.data[k].functions.value < |s.heap|
      && s.heap[s.data[k].functions.value].origin == Waiter(k)
      && t.heap == s.heap[s.data[k].functions.value :=
                          s.heap[s.data[k].functions.value].(fate := Settled(Rejected(reason)), calls := 1)]
  {
    RejectKeepsInv(s, k, reason);
    KeyCells(s, k);
  }

  lemma {:induction false} RejectEachKeys<K, V>(s: State<K, V>, keys: seq<K>, reason: Reason)
    requires Inv(s)
    ensures var t := RejectEach(s, keys, reason);
      t.promises == s.promises && t.data.Keys == s.data.Keys && |t.heap| == |s.heap|
    decreases |keys|
  {
    if keys != [] {
      if Rejectable(s, keys[0]) {
        RejectOne(s, keys[0], reason);
      }
      RejectEachKeys(if Rejectable(s, keys[0]) then Reject(s, keys[0], reason) else s, keys[1..], reason);
    }
  }

  /** At an entry: rejected if it is pending with stored functions, and as it
      was otherwise. */
  lemma {:induction false} RejectEachAtEntry<K, V>(s: State<K, V>, keys: seq<K>, reason: Reason, l: K)
    requires Inv(s) && l in s.data
    ensures var t := RejectEach(s, keys, reason);
      && l in t.data && |t.heap| == |s.heap|
      && if l in keys && Rejectable(s, l)
         then && t.data[l].functions == None && t.data[l].status == HasRejected
              && s.data[l].functions.value < |t.heap|
              && t.heap[s.data[l].functions.value].fate == Settled(Rejected(reason))
         else t.data[l] == s.data[l]
    decreases |keys|
  {
    RejectEachKeys(s, keys, reason);
    KeyCells(s, l);
    if keys != [] {
      var k := keys[0];
      if Rejectable(s, k) {
        RejectOne(s, k, reason);
        var t := Reject(s, k, reason);
        RejectEachAtEntry(t, keys[1..], reason, l);
        if k == l {
          RejectEachAtCell(t, keys[1..], reason, s.data[l].functions.value);
        }
      } else {
        RejectEachAtEntry(s, keys[1..], reason, l);
      }
    }
  }

  /** At a promise: settled only if it is the waiter of a rejectable entry. */
  lemma {:induction false} RejectEachAtCell<K, V>(s: State<K, V>, keys: seq<K>, reason: Reason, p: Pid)
    requires Inv(s) && p < |s.heap|
    ensures |RejectEach(s, keys, reason).heap| == |s.heap|
    ensures RejectEach(s, keys, reason).heap[p] != s.heap[p] ==>
      s.heap[p].origin.Waiter? && s.heap[p].fate.Open? && Rejectable(s, s.heap[p].origin.key)
    decreases |keys|
  {
    RejectEachKeys(s, keys, reason);
    if keys != [] {
      var k := keys[0];
      if Rejectable(s, k) {
        RejectOne(s, k, reason);
        KeyCells(s, k);
        RejectEachAtCell(Reject(s, k, reason), keys[1..], reason, p);
      } else {
        RejectEachAtCell(s, keys[1..], reason, p);
      }
    }
  }

  /** The number that `rejectAll` counts up to. */
  ghost function RejectCount<K, V>(s: State<K, V>, keys: seq<K>, reason: Reason): nat
    decreases |keys|
  {
    if keys == [] then 0
    else if Rejectable(s, keys[0]) then 1 + RejectCount(Reject(s, keys[0], reason), keys[1..], reason)
    else RejectCount(s, keys[1..], reason)
  }

  ghost function RejectableIn<K, V>(s: State<K, V>, keys: seq<K>): set<K> {
    set k | k in keys && Rejectable(s, k)
  }

  lemma RejectableSplit<K, V>(s: State<K, V>, t: State<K, V>, keys: seq<K>)
    requires keys != [] && Distinct(keys)
    requires forall l :: l in keys && l != keys[0] ==> (Rejectable(s, l) <==> Rejectable(t, l))
    ensures |RejectableIn(s, keys)| == (if Rejectable(s, keys[0]) then 1 else 0) + |RejectableIn(t, keys[1..])|
  {
    var k := keys[0];
    assert k !in keys[1..] && forall l :: l in keys <==> l == k || l in keys[1..];
    var rest := RejectableIn(t, keys[1..]);
    assert k !in rest;
    assert RejectableIn(s, keys) == if Rejectable(s, k) then {k} + rest else rest;
  }

  /** It is the number of rejectable entries. */
  lemma {:induction false} RejectCountIsExact<K, V>(s: State<K, V>, keys: seq<K>, reason: Reason)
    requires Inv(s) && Distinct(keys)
    ensures RejectCount(s, keys, reason) == |RejectableIn(s, keys)|
    decreases |keys|
  {
    if keys != [] {
      var k := keys[0];
      if Rejectable(s, k) {
        RejectOne(s, k, reason);
        RejectCountIsExact(Reject(s, k, reason), keys[1..], reason);
        RejectableSplit(s, Reject(s, k, reason), keys);
      } else {
        RejectCountIsExact(s, keys[1..], reason);
        RejectableSplit(s, s, keys);
      }
    }
  }

  /** `rejectAll` as a whole: exactly the pending entries with stored functions
      are rejected, none of that kind is left, and every other entry and every
      other promise is as it was. */
  lemma RejectAllExact<K, V>(s: State<K, V>, order: seq<K>, reason: Reason)
    requires Inv(s) && OrderOf(s, order)
    ensures var t := RejectEach(s, order, reason);
      && t.promises == s.promises && t.data.Keys == s.data.Keys && |t.heap| == |s.heap|
      && (forall k :: k in t.data ==> !(t.data[k].status == Pending && t.data[k].functions.Some?))
      && (forall k :: k in s.data && s.data[k].status == Pending && s.data[k].functions.Some? ==>
            && s.data[k].functions.value < |t.heap|
            && t.data[k].status == HasRejected && t.data[k].functions == None
            && t.heap[s.data[k].functions.value].fate == Settled(Rejected(reason)))
      && (forall k :: k in s.data && !(s.data[k].status == Pending && s.data[k].functions.Some?) ==>
            t.data[k] == s.data[k])
      && (forall p :: 0 <= p < |s.heap| && t.heap[p] != s.heap[p] ==>
            && s.heap[p].origin.Waiter? && s.heap[p].origin.key in s.data
            && s.data[s.heap[p].origin.key].status == Pending && s.data[s.heap[p].origin.key].functions.Some?)
  {
    var t := RejectEach(s, order, reason);
    RejectEachKeys(s, order, reason);
    forall k | k in s.data
      ensures if Rejectable(s, k)
        then && t.data[k].functions == None && t.data[k].status == HasRejected
             && s.data[k].functions.value < |t.heap|
             && t.heap[s.data[k].functions.value].fate == Settled(Rejected(reason))
        else t.data[k] == s.data[k]
    {
      RejectEachAtEntry(s, order, reason, k);
    }
    forall p | 0 <= p < |s.heap| && t.heap[p] != s.heap[p]
      ensures s.heap[p].origin.Waiter? && Rejectable(s, s.heap[p].origin.key)
    {
      RejectEachAtCell(s, order, reason, p);
    }
  }

  // ---------------------------------------------------------------------------
  // Timers, in runs whose calls of clear() find none.

  /** A live timer is the one stored for its key; it was set by the latest
      settlement of the key, and the entry is older than it. */
  ghost predicate TimerExact<K, V>(s: State<K, V>, t: Tid) {
    t in s.timers ==>
      var k := s.timers[t].key;
      && k in s.data && s.data[k].timer == Some(t)
      && k in s.settledAt && s.timers[t].setAt == s.settledAt[k]
      && k in s.born && s.born[k] <= s.timers[t].setAt
  }

  ghost predicate TimersExact<K, V>(s: State<K, V>) {
    && (forall t: Tid {:trigger TimerExact(s, t)} :: TimerExact(s, t))
    && (forall k :: k in s.data ==> k in s.born && s.born[k] <= s.now)
  }

  /** `u` is `s` with `k` settled, up to the call of `setTimeout`. */
  ghost predicate SettlesEntry<K, V>(s: State<K, V>, u: State<K, V>, k: K) {
    && k in u.data && u.data == s.data[k := u.data[k]]
    && u.data[k].timer == (if k in s.data then s.data[k].timer else None)
    && u.timers == s.timers && u.nextTimer == s.nextTimer && u.now == s.now && u.hasTimeout == s.hasTimeout
    && u.settledAt == s.settledAt[k := s.now]
    && u.born == if k in s.data then s.born else s.born[k := s.now]
  }

  lemma ResolveSettles<K, V>(s: State<K, V>, k: K, input: Input<V>)
    ensures SettlesEntry(s, ResolveEntry(s, k, input), k)
  {
  }

  lemma RejectSettles<K, V>(s: State<K, V>, k: K, reason: Reason)
    ensures SettlesEntry(s, RejectEntry(s, k, reason), k)
  {
  }

  lemma SettleKeepsTimersExact<K, V>(s: State<K, V>, u: State<K, V>, k: K)
    requires Inv(s) && TimersExact(s) && SettlesEntry(s, u, k)
    requires !s.hasTimeout ==> s.timers == map[]
    ensures TimersExact(SetTimeout(u, k))
  {
    var v := SetTimeout(u, k);
    KeyCells(s, k);
    forall t: Tid
      ensures TimerExact(v, t)
    {
      assert TimerExact(s, t);
    }
  }

  lemma DeleteKeepsTimersExact<K, V>(s: State<K, V>, t: State<K, V>, k: K)
    requires Inv(s) && TimersExact(s)
    requires t.data == s.data - {k} && t.born == s.born && t.settledAt == s.settledAt && t.now == s.now
    requires forall u :: u in t.timers <==> u in s.timers && s.timers[u].key != k
    requires forall u :: u in t.timers ==> t.timers[u] == s.timers[u]
    ensures TimersExact(t)
  {
    forall u: Tid
      ensures TimerExact(t, u)
    {
      assert TimerExact(s, u);
    }
  }

  ghost predicate TimerInv<K, V>(s: State<K, V>) {
    Inv(s) && TimersExact(s) && (!s.hasTimeout ==> s.timers == map[])
  }

  lemma RejectKeepsTimerInv<K, V>(s: State<K, V>, k: K, reason: Reason)
    requires TimerInv(s)
    ensures TimerInv(Reject(s, k, reason)) && Reject(s, k, reason).now == s.now
  {
    RejectKeepsInv(s, k, reason);
    RejectSettles(s, k, reason);
    SettleKeepsTimersExact(s, RejectEntry(s, k, reason), k);
  }

  lemma ResolveKeepsTimerInv<K, V>(s: State<K, V>, k: K, input: Input<V>)
    requires TimerInv(s)
    ensures TimerInv(Resolve(s, k, input)) && Resolve(s, k, input).now == s.now
  {
    ResolveKeepsInv(s, k, input);
    ResolveSettles(s, k, input);
    SettleKeepsTimersExact(s, ResolveEntry(s, k, input), k);
  }

  lemma {:induction false} RejectEachKeepsTimerInv<K, V>(s: State<K, V>, keys: seq<K>, reason: Reason)
    requires TimerInv(s)
    ensures TimerInv(RejectEach(s, keys, reason)) && RejectEach(s, keys, reason).now == s.now
    decreases |keys|
  {
    if keys != [] {
      RejectKeepsTimerInv(s, keys[0], reason);
      RejectEachKeepsTimerInv(if Rejectable(s, keys[0]) then Reject(s, keys[0], reason) else s, keys[1..], reason);
    }
  }

  /** Steps that make or change an entry without touching a timer. */
  lemma EntryKeepsTimersExact<K, V>(s: State<K, V>, t: State<K, V>, k: K)
    requires Inv(s) && TimersExact(s)
    requires SameElsewhere(s.data, t.data, k) && k in t.data
    requires t.data[k].timer == (if k in s.data then s.data[k].timer else None)
    requires t.timers == s.timers && t.now == s.now && t.settledAt == s.settledAt
    requires t.born == s.born || (t.born == s.born[k := s.now] && t.data[k].timer == None)
    requires k in t.born && t.born[k] <= s.now
    ensures TimersExact(t)
  {
    forall u: Tid
      ensures TimerExact(t, u)
    {
      assert TimerExact(s, u);
    }
  }

  lemma DoKeepsTimerInv<K, V>(s: State<K, V>, e: Event<K, V>)
    requires TimerInv(s) && Enabled(s, e) && (e.ClearAll? ==> s.timers == map[])
    ensures TimerInv(Do(s, e)) && Do(s, e).now == s.now
  {
    DoKeepsInv(s, e);
    match e
    case DoGet(k) =>
      KeyCells(s, k);
      if k !in s.promises {
        EntryKeepsTimersExact(s, Do(s, e), k);
      }
    case DoResolve(k, input) => ResolveKeepsTimerInv(s, k, input);
    case DoReject(k, reason) => RejectKeepsTimerInv(s, k, reason);
    case JobDone(j, outcome) => EntryKeepsTimersExact(s, Do(s, e), s.heap[j].origin.key);
    case Fire(t) => FireKeepsTimersExact(s, t);
    case Delete(k) => DeletedKeepsTimersExact(s, k);
    case RejectAll(order, reason) => RejectEachKeepsTimerInv(s, order, reason);
    case ClearAll(order) => ClearTimersIff(s, order);
  }

  /** `clear()` keeps the timers exact if and only if none is live. */
  lemma ClearTimersIff<K, V>(s: State<K, V>, order: seq<K>)
    requires TimerInv(s) && OrderOf(s, order)
    ensures TimersExact(Clear(s, order)) <==> s.timers == map[]
  {
    var t := Clear(s, order);
    if s.timers == map[] {
      assert forall u: Tid :: TimerExact(t, u);
    } else {
      var u :| u in s.timers;
      assert !TimerExact(t, u);
    }
  }

  lemma OneTimerPerKey<K, V>(s: State<K, V>, t: Tid)
    requires Inv(s) && TimersExact(s)
    ensures t in s.timers ==> s.timers[t].key in s.data && s.data[s.timers[t].key].timer == Some(t)
  {
    assert TimerExact(s, t);
  }

  lemma DeletedKeepsTimersExact<K, V>(s: State<K, V>, k: K)
    requires Inv(s) && TimersExact(s)
    ensures TimersExact(DoDelete(s, k, Deleted))
  {
    KeyCells(s, k);
    forall u | u in s.timers
      ensures s.timers[u].key == k <==> k in s.data && s.data[k].timer == Some(u)
    {
      OneTimerPerKey(s, u);
    }
    DeleteKeepsTimersExact(s, DoDelete(s, k, Deleted), k);
  }

  lemma FireKeepsTimersExact<K, V>(s: State<K, V>, t: Tid)
    requires Inv(s) && TimersExact(s) && t in s.timers
    ensures TimersExact(Do(s, Fire(t)))
  {
    var k := s.timers[t].key;
    OneTimerPerKey(s, t);
    forall u | u in s.timers
      ensures s.timers[u].key == k <==> u == t
    {
      OneTimerPerKey(s, u);
    }
    DeleteKeepsTimersExact(s, Do(s, Fire(t)), k);
  }

  lemma TickKeepsTimerInv<K, V>(s: State<K, V>)
    requires TimerInv(s)
    ensures TimerInv(s.(now := s.now + 1))
  {
    var t := s.(now := s.now + 1);
    TickKeepsInv(s, s.now + 1);
    forall u: Tid
      ensures TimerExact(t, u)
    {
      assert TimerExact(s, u);
    }
  }

  /** Every clear() of the run finds no live timer. */
  ghost predicate ClearsWithoutTimers<K, V>(s: State<K, V>, es: seq<Event<K, V>>)
    requires ValidRun(s, es)
    decreases |es|
  {
    es == [] || ((es[0].ClearAll? ==> s.timers == map[]) && ClearsWithoutTimers(Step(s, es[0]), es[1..]))
  }

  ghost predicate AlwaysTimersExact<K, V>(s: State<K, V>, es: seq<Event<K, V>>)
    requires ValidRun(s, es)
    decreases |es|
  {
    TimersExact(s) && (es == [] || AlwaysTimersExact(Step(s, es[0]), es[1..]))
  }

  lemma {:induction false} RunKeepsTimerInv<K, V>(s: State<K, V>, es: seq<Event<K, V>>)
    requires TimerInv(s) && ValidRun(s, es) && ClearsWithoutTimers(s, es)
    ensures TimerInv(After(s, es))
    decreases |es|
  {
    if es != [] {
      DoKeepsTimerInv(s, es[0]);
      TickKeepsTimerInv(Do(s, es[0]));
      RunKeepsTimerInv(Step(s, es[0]), es[1..]);
    }
  }

  lemma {:induction false} AlwaysTimersExactIff<K, V>(s: State<K, V>, es: seq<Event<K, V>>)
    requires TimerInv(s) && ValidRun(s, es)
    ensures AlwaysTimersExact(s, es) <==> ClearsWithoutTimers(s, es)
    decreases |es|
  {
    if es != [] {
      if es[0].ClearAll? && s.timers != map[] {
        var u :| u in s.timers;
        assert !TimerExact(Step(s, es[0]), u);
      } else {
        DoKeepsTimerInv(s, es[0]);
        TickKeepsTimerInv(Do(s, es[0]));
        AlwaysTimersExactIff(Step(s, es[0]), es[1..]);
      }
    }
  }

  /** Timer discipline, over every run: the timers are exact in all of its states
      if and only if each clear() finds no live timer. */
  lemma TimersAlwaysExactIff<K, V>(hasTimeout: bool, es: seq<Event<K, V>>)
    requires ValidRun(Init<K, V>(hasTimeout), es)
    ensures AlwaysTimersExact(Init<K, V>(hasTimeout), es) <==> ClearsWithoutTimers(Init<K, V>(hasTimeout), es)
  {
    AlwaysTimersExactIff(Init<K, V>(hasTimeout), es);
  }

  /** What that means: the live timers are exactly the stored ones, one per key at
      most, each set by the latest settlement of its key; and when a timer fires,
      the entry it expires was there when the timer was set. */
  lemma TimerDiscipline<K, V>(hasTimeout: bool, es: seq<Event<K, V>>, t: Tid)
    requires ValidRun(Init<K, V>(hasTimeout), es) && ClearsWithoutTimers(Init<K, V>(hasTimeout), es)
    ensures var s := After(Init<K, V>(hasTimeout), es);
      && (t in s.timers <==> exists k :: k in s.data && s.data[k].timer == Some(t))
      && (t in s.timers ==>
            && TimerExact(s, t)
            && forall u :: u in s.timers && s.timers[u].key == s.timers[t].key ==> u == t)
  {
    RunKeepsTimerInv(Init<K, V>(hasTimeout), es);
    var s := After(Init<K, V>(hasTimeout), es);
    assert TimerExact(s, t);
    forall k | k in s.data && s.data[k].timer == Some(t)
      ensures t in s.timers
    {
      KeyCells(s, k);
    }
    forall u | u in s.timers
      ensures s.timers[u].key in s.data && s.data[s.timers[u].key].timer == Some(u)
    {
      OneTimerPerKey(s, u);
    }
  }

  /** What goes wrong otherwise, for every timer that was live at clear(): it
      stays live, and a get() of its key made afterwards is rejected when it
      fires. */
  lemma ClearLeaksTimers<K, V>(s: State<K, V>, order: seq<K>, t: Tid)
    requires Inv(s) && OrderOf(s, order) && t in s.timers
    ensures var k := s.timers[t].key;
      var cleared := Step(s, ClearAll(order));
      var asked := Step(cleared, DoGet(k));
      var waiter := Get(cleared, k).1;
      && Enabled(asked, Fire(t))
      && |cleared.heap| <= waiter < |asked.heap| && asked.heap[waiter].fate.Open?
      && waiter < |Step(asked, Fire(t)).heap|
      && Step(asked, Fire(t)).heap[waiter].fate == Settled(Rejected(TimedOut))
  {
    ClearEachLength(s.heap, s.data, order);
  }

  /** A run that gets there. */
  lemma ClearLeaksFromStart<K, V>(k: K, reason: Reason)
    ensures var es := [DoReject(k, reason)] + [ClearAll([k]), DoGet(k), Fire(0)];
      && ValidRun(Init<K, V>(true), es)
      && var s := After(Init<K, V>(true), es);
         |s.heap| == 2 && s.heap[1] == Cell(Waiter(k), Settled(Rejected(TimedOut)), 1)
  {
    var s0 := Init<K, V>(true);
    var s1 := Step(s0, DoReject(k, reason));
    var s2 := Step(s1, ClearAll([k]));
    ClearEachLength(s1.heap, s1.data, [k]);
    var s3 := Step(s2, DoGet(k));
    assert s3.timers[0].key == k && s3.data[k].functions == Some(1);
    ThreeSteps(s1, ClearAll([k]), DoGet(k), Fire(0));
    RunCons(s0, DoReject(k, reason), [ClearAll([k]), DoGet(k), Fire(0)]);
  }
}
