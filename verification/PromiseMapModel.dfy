/** The keyed promises of src/containers/promise_map.ts as a state machine. A
    promise is known by its index in `heap` and by its fate, as in section 27.2
    of ECMA-262. */
module PromiseMapModel {
  import opened Wrappers
  import opened Promises

  type Pid = nat
  type Tid = nat

  /** The argument of `resolve`: a value, or something promise-like that settles
      later, in whatever way. */
  datatype Input<V> = Plain(value: V) | Later

  /** `Following(j)`: resolved with the promise `j` and locked in to it. */
  datatype Fate<V> = Open | Following(job: Pid) | Settled(outcome: Outcome<V>)

  /** A promise made by `get`, by a call of `doResolve`, or by
      `Promise.reject`. */
  datatype Origin<K, V> = Waiter(key: K) | Job(key: K, input: Input<V>) | Immediate

  /** `calls` counts the calls of the resolvers of a waiter. */
  datatype Cell<K, V> = Cell(origin: Origin<K, V>, fate: Fate<V>, calls: nat)

  datatype Status = Pending | HasFulfilled | HasRejected

  datatype MapData = MapData(functions: Option<Pid>, status: Status, timer: Option<Tid>)

  datatype Timer<K> = Timer(key: K, setAt: nat)

  /** `now`, `born` and `settledAt` are history: the time, when the entry of a
      key was made, and when the key was last settled. */
  datatype State<K, V> = State(
    promises: map<K, Pid>,
    data: map<K, MapData>,
    hasTimeout: bool,
    heap: seq<Cell<K, V>>,
    timers: map<Tid, Timer<K>>,  // the live timers
    nextTimer: Tid,
    now: nat,
    born: map<K, nat>,
    settledAt: map<K, nat>)

  ghost function Init<K, V>(hasTimeout: bool): State<K, V> {
    State(map[], map[], hasTimeout, [], map[], 0, 0, map[], map[])
  }

  /** Calling a resolver of `p`: only the first call changes the fate. */
  ghost function CallResolver<K, V>(heap: seq<Cell<K, V>>, p: Pid, fate: Fate<V>): seq<Cell<K, V>> {
    if p < |heap| then
      heap[p := heap[p].(fate := if heap[p].fate.Open? then fate else heap[p].fate,
                         calls := heap[p].calls + 1)]
    else heap
  }

  /** `get(key)`, with the promise that the caller's promise follows. */
  ghost function Get<K, V>(s: State<K, V>, k: K): (State<K, V>, Pid) {
    if k in s.promises then (s, s.promises[k])
    else
      var p := |s.heap|;
      (s.(heap := s.heap + [Cell(Waiter(k), Open, 0)],
          data := s.data[k := MapData(Some(p), Pending, None)],
          promises := s.promises[k := p],
          born := s.born[k := s.now]),
       p)
  }

  /** `setTimeout(key)`. */
  ghost function SetTimeout<K, V>(s: State<K, V>, k: K): State<K, V> {
    if k !in s.data || !s.hasTimeout then s
    else
      var t := s.nextTimer;
      var cleared := ClearTimeout(s.timers, s.data[k].timer);
      s.(timers := cleared[t := Timer(k, s.now)],
         nextTimer := t + 1,
         data := s.data[k := s.data[k].(timer := Some(t))])
  }

  ghost function ClearTimeout<K>(timers: map<Tid, Timer<K>>, t: Option<Tid>): map<Tid, Timer<K>> {
    if t.Some? then timers - {t.value} else timers
  }

  /** `resolve(key, value)` up to `setTimeout`. The job of `doResolve` starts
      first, as it does in the source. */
  ghost function ResolveEntry<K, V>(s: State<K, V>, k: K, input: Input<V>): State<K, V> {
    var j := |s.heap|;
    var t := s.(heap := s.heap + [Cell(Job(k, input), Open, 0)], settledAt := s.settledAt[k := s.now]);
    if k !in s.data then
      t.(promises := s.promises[k := j],
         data := s.data[k := MapData(None, Pending, None)],
         born := s.born[k := s.now])
    else
      var u := t.(data := s.data[k := s.data[k].(functions := None, status := Pending)]);
      if s.data[k].functions.Some? then
        u.(heap := CallResolver(t.heap, s.data[k].functions.value, Following(j)))
      else u.(promises := s.promises[k := j])
  }

  /** `reject(key, reason)` up to `setTimeout`. */
  ghost function RejectEntry<K, V>(s: State<K, V>, k: K, reason: Reason): State<K, V> {
    var q := |s.heap|;
    var rejected := s.heap + [Cell(Immediate, Settled(Rejected(reason)), 0)];
    var t := s.(settledAt := s.settledAt[k := s.now]);
    if k !in s.data then
      t.(heap := rejected,
         promises := s.promises[k := q],
         data := s.data[k := MapData(None, HasRejected, None)],
         born := s.born[k := s.now])
    else
      var u := t.(data := s.data[k := s.data[k].(functions := None, status := HasRejected)]);
      if s.data[k].functions.Some? then
        u.(heap := CallResolver(s.heap, s.data[k].functions.value, Settled(Rejected(reason))))
      else u.(heap := rejected, promises := s.promises[k := q])
  }

  ghost function Resolve<K, V>(s: State<K, V>, k: K, input: Input<V>): State<K, V> {
    SetTimeout(ResolveEntry(s, k, input), k)
  }

  ghost function Reject<K, V>(s: State<K, V>, k: K, reason: Reason): State<K, V> {
    SetTimeout(RejectEntry(s, k, reason), k)
  }

  /** The entries `rejectAll` rejects. */
  ghost predicate Rejectable<K, V>(s: State<K, V>, k: K) {
    k in s.data && s.data[k].status == Pending && s.data[k].functions.Some?
  }

  /** `rejectAll(reason)` over the entries in the order `keys`. */
  ghost function RejectEach<K, V>(s: State<K, V>, keys: seq<K>, reason: Reason): State<K, V>
    decreases |keys|
  {
    if keys == [] then s
    else RejectEach(if Rejectable(s, keys[0]) then Reject(s, keys[0], reason) else s, keys[1..], reason)
  }

  /** `doDelete(key, reason)`. */
  ghost function DoDelete<K, V>(s: State<K, V>, k: K, reason: Reason): State<K, V> {
    if k !in s.data then s.(promises := s.promises - {k})
    else
      s.(heap := if s.data[k].functions.Some?
                 then CallResolver(s.heap, s.data[k].functions.value, Settled(Rejected(reason)))
                 else s.heap,
         timers := ClearTimeout(s.timers, s.data[k].timer),
         data := s.data - {k},
         promises := s.promises - {k})
  }

  /** The loop of `clear()` over the control blocks in the order `keys`. */
  ghost function ClearEach<K, V>(heap: seq<Cell<K, V>>, data: map<K, MapData>, keys: seq<K>): seq<Cell<K, V>>
    decreases |keys|
  {
    if keys == [] then heap
    else
      ClearEach(if keys[0] in data && data[keys[0]].functions.Some?
                then CallResolver(heap, data[keys[0]].functions.value, Settled(Rejected(Cleared)))
                else heap,
                data, keys[1..])
  }

  /** `clear()`: no timer is cancelled. */
  ghost function Clear<K, V>(s: State<K, V>, keys: seq<K>): State<K, V> {
    s.(heap := ClearEach(s.heap, s.data, keys), promises := map[], data := map[])
  }

  /** `setStatus(key, status)`, which makes an entry if there is none. */
  ghost function SetStatus<K, V>(s: State<K, V>, k: K, status: Status): State<K, V> {
    if k in s.data then s.(data := s.data[k := s.data[k].(status := status)])
    else s.(data := s.data[k := MapData(None, status, None)], born := s.born[k := s.now])
  }

  ghost function StatusOf<V>(o: Outcome<V>): Status {
    if o.Fulfilled? then HasFulfilled else HasRejected
  }

  /** The rest of `doResolve` after its await. */
  ghost function FinishJob<K, V>(s: State<K, V>, j: Pid, k: K, outcome: Outcome<V>): State<K, V>
    requires j < |s.heap|
  {
    SetStatus(s, k, StatusOf(outcome)).(heap := s.heap[j := s.heap[j].(fate := Settled(outcome))])
  }

  /** `order` is the insertion order of `data`. */
  datatype Event<K, V> =
    | DoGet(key: K)
    | DoResolve(key: K, input: Input<V>)
    | DoReject(key: K, reason: Reason)
    | JobDone(job: Pid, outcome: Outcome<V>)
    | Fire(timer: Tid)
    | Delete(key: K)
    | RejectAll(order: seq<K>, reason: Reason)
    | ClearAll(order: seq<K>)

  ghost predicate Distinct<T>(s: seq<T>) {
    forall i, j :: 0 <= i < j < |s| ==> s[i] != s[j]
  }

  ghost predicate OrderOf<K, V>(s: State<K, V>, order: seq<K>) {
    Distinct(order) && (forall k :: k in order ==> k in s.data) && (forall k :: k in s.data ==> k in order)
  }

  ghost predicate Enabled<K, V>(s: State<K, V>, e: Event<K, V>) {
    match e
    case JobDone(j, outcome) =>
      && j < |s.heap| && s.heap[j].origin.Job? && s.heap[j].fate.Open?
      && (s.heap[j].origin.input.Plain? ==> outcome == Fulfilled(s.heap[j].origin.input.value))
    case Fire(t) => t in s.timers
    case RejectAll(order, _) => OrderOf(s, order)
    case ClearAll(order) => OrderOf(s, order)
    case _ => true
  }

  ghost function Do<K, V>(s: State<K, V>, e: Event<K, V>): State<K, V>
    requires Enabled(s, e)
  {
    match e
    case DoGet(k) => Get(s, k).0
    case DoResolve(k, input) => Resolve(s, k, input)
    case DoReject(k, reason) => Reject(s, k, reason)
    case JobDone(j, outcome) => FinishJob(s, j, s.heap[j].origin.key, outcome)
    case Fire(t) => DoDelete(s.(timers := s.timers - {t}), s.timers[t].key, TimedOut)
    case Delete(k) => DoDelete(s, k, Deleted)
    case RejectAll(order, reason) => RejectEach(s, order, reason)
    case ClearAll(order) => Clear(s, order)
  }

  ghost function Step<K, V>(s: State<K, V>, e: Event<K, V>): State<K, V>
    requires Enabled(s, e)
  {
    Do(s, e).(now := s.now + 1)
  }

  ghost predicate ValidRun<K, V>(s: State<K, V>, es: seq<Event<K, V>>)
    decreases |es|
  {
    es == [] || (Enabled(s, es[0]) && ValidRun(Step(s, es[0]), es[1..]))
  }

  ghost function After<K, V>(s: State<K, V>, es: seq<Event<K, V>>): State<K, V>
    requires ValidRun(s, es)
    decreases |es|
  {
    if es == [] then s else After(Step(s, es[0]), es[1..])
  }

  /** What a promise has settled to, through the job it may follow. */
  ghost function End<K, V>(heap: seq<Cell<K, V>>, p: Pid): Option<Outcome<V>>
    requires p < |heap|
  {
    match heap[p].fate
    case Open => None
    case Settled(outcome) => Some(outcome)
    case Following(j) =>
      if j < |heap| && heap[j].fate.Settled? then Some(heap[j].fate.outcome) else None
  }

  // ---------------------------------------------------------------------------
  // The invariant.

  /** A promise of `get` nobody has settled: the current promise of its key,
      with its resolvers still stored. */
  ghost predicate Stored<K, V>(s: State<K, V>, k: K, p: Pid) {
    && k in s.promises && s.promises[k] == p
    && k in s.data && s.data[k].functions == Some(p)
  }

  /** No stranded waiter: its resolvers are stored and unused, or they have been
      called once. Only waiters follow, and they follow jobs of their key. */
  ghost predicate CellOk<K, V>(s: State<K, V>, p: Pid) {
    p < |s.heap| ==>
      var c := s.heap[p];
      && (c.origin.Waiter? ==> if c.fate.Open? then c.calls == 0 && Stored(s, c.origin.key, p) else c.calls == 1)
      && (c.fate.Following? ==>
            && c.origin.Waiter? && c.fate.job < |s.heap|
            && s.heap[c.fate.job].origin.Job? && s.heap[c.fate.job].origin.key == c.origin.key)
  }

  /** The two maps fit together at `k`: a stored promise belongs to `k`, stored
      resolvers belong to the open promise of `k`, a stored timer is live and
      belongs to `k`, and without a promise there are neither. */
  ghost predicate EntryOk<K, V>(s: State<K, V>, k: K) {
    && (k in s.promises ==>
          && k in s.data && s.promises[k] < |s.heap|
          && (s.heap[s.promises[k]].origin.Immediate? || s.heap[s.promises[k]].origin.key == k))
    && (k in s.data ==>
          && (k !in s.promises ==> s.data[k].functions == None && s.data[k].timer == None)
          && (s.data[k].functions.Some? ==>
                && Stored(s, k, s.data[k].functions.value)
                && s.heap[s.promises[k]].origin == Waiter(k) && s.heap[s.promises[k]].fate.Open?)
          && (s.data[k].timer.Some? ==>
                s.data[k].timer.value in s.timers && s.timers[s.data[k].timer.value].key == k))
  }

  ghost predicate Inv<K, V>(s: State<K, V>) {
    && s.promises.Keys <= s.data.Keys
    && (forall k {:trigger EntryOk(s, k)} :: k in s.data ==> EntryOk(s, k))
    && (forall p: Pid {:trigger CellOk(s, p)} :: CellOk(s, p))
    && (forall t :: t in s.timers ==> t < s.nextTimer)
  }

  lemma InitInv<K, V>(hasTimeout: bool)
    ensures Inv(Init<K, V>(hasTimeout))
  {
  }

  ghost predicate SameElsewhere<K, T>(m: map<K, T>, n: map<K, T>, k: K) {
    && (forall l :: l in m && l != k ==> l in n && n[l] == m[l])
    && (forall l :: l in n && l != k ==> l in m)
  }

  /** What an operation on `k` leaves as it was: the other keys, and every cell
      but that of the open promise of `k`. */
  ghost predicate OnlyTouches<K, V>(s: State<K, V>, t: State<K, V>, k: K) {
    && SameElsewhere(s.data, t.data, k) && SameElsewhere(s.promises, t.promises, k)
    && |s.heap| <= |t.heap|
    && (forall p {:trigger t.heap[p]} :: 0 <= p < |s.heap| ==>
          && t.heap[p].origin == s.heap[p].origin
          && (t.heap[p] != s.heap[p] ==>
                && s.heap[p].fate.Open? && !t.heap[p].fate.Open?
                && (s.heap[p].origin == Waiter(k)
                    || (s.heap[p].origin.Job? && s.heap[p].origin.key == k && t.heap[p].fate.Settled?))))
    && (forall u :: u in s.timers && s.timers[u].key != k ==> u in t.timers && t.timers[u] == s.timers[u])
  }

  /** Then the invariant has to be checked again only for `k`, for its promises
      and for the new cells. */
  lemma TouchedKeepsInv<K, V>(s: State<K, V>, t: State<K, V>, k: K)
    requires Inv(s) && OnlyTouches(s, t, k)
    requires EntryOk(t, k)
    requires forall p :: 0 <= p < |t.heap| && (|s.heap| <= p || s.heap[p].origin == Waiter(k)) ==> CellOk(t, p)
    requires forall u :: u in t.timers ==> u < t.nextTimer
    ensures Inv(t)
  {
    forall l | l in t.data
      ensures EntryOk(t, l)
    {
      if l != k {
        assert EntryOk(s, l);
      }
    }
    forall p: Pid
      ensures CellOk(t, p)
    {
      if p < |s.heap| && s.heap[p].origin != Waiter(k) {
        assert CellOk(s, p);
      }
    }
  }

  lemma GetKeepsInv<K, V>(s: State<K, V>, k: K)
    requires Inv(s)
    ensures Inv(Get(s, k).0)
  {
    KeyCells(s, k);
    if k !in s.promises {
      TouchedKeepsInv(s, Get(s, k).0, k);
    }
  }

  /** The invariant at one key: its entry and its waiters. */
  lemma KeyCells<K, V>(s: State<K, V>, k: K)
    requires Inv(s)
    ensures EntryOk(s, k)
    ensures forall p :: 0 <= p < |s.heap| && s.heap[p].origin == Waiter(k) ==> CellOk(s, p)
  {
    assert k in s.data ==> EntryOk(s, k);
  }

  lemma SetTimeoutKeepsInv<K, V>(s: State<K, V>, k: K)
    requires Inv(s) && k in s.promises
    ensures Inv(SetTimeout(s, k))
  {
    KeyCells(s, k);
    TouchedKeepsInv(s, SetTimeout(s, k), k);
  }

  lemma ResolveTouches<K, V>(s: State<K, V>, k: K, input: Input<V>)
    requires Inv(s)
    ensures OnlyTouches(s, ResolveEntry(s, k, input), k)
  {
    KeyCells(s, k);
  }

  lemma ResolveEntryOk<K, V>(s: State<K, V>, k: K, input: Input<V>)
    requires Inv(s)
    ensures EntryOk(ResolveEntry(s, k, input), k)
  {
    KeyCells(s, k);
  }

  lemma ResolveCellsOk<K, V>(s: State<K, V>, k: K, input: Input<V>, p: Pid)
    requires Inv(s) && (p < |s.heap| ==> s.heap[p].origin == Waiter(k))
    ensures CellOk(ResolveEntry(s, k, input), p)
  {
    KeyCells(s, k);
    assert CellOk(s, p);
  }

  lemma ResolveEntryKeepsInv<K, V>(s: State<K, V>, k: K, input: Input<V>)
    requires Inv(s)
    ensures Inv(ResolveEntry(s, k, input))
  {
    var t := ResolveEntry(s, k, input);
    ResolveTouches(s, k, input);
    ResolveEntryOk(s, k, input);
    forall p | 0 <= p < |t.heap| && (|s.heap| <= p || s.heap[p].origin == Waiter(k)) {
      ResolveCellsOk(s, k, input, p);
    }
    TouchedKeepsInv(s, t, k);
  }

  lemma ResolveKeepsInv<K, V>(s: State<K, V>, k: K, input: Input<V>)
    requires Inv(s)
    ensures Inv(Resolve(s, k, input))
  {
    ResolveEntryKeepsInv(s, k, input);
    KeyCells(s, k);
    SetTimeoutKeepsInv(ResolveEntry(s, k, input), k);
  }

  lemma RejectTouches<K, V>(s: State<K, V>, k: K, reason: Reason)
    requires Inv(s)
    ensures OnlyTouches(s, RejectEntry(s, k, reason), k)
  {
    KeyCells(s, k);
  }

  lemma RejectEntryOk<K, V>(s: State<K, V>, k: K, reason: Reason)
    requires Inv(s)
    ensures EntryOk(RejectEntry(s, k, reason), k)
  {
    KeyCells(s, k);
  }

  lemma RejectCellsOk<K, V>(s: State<K, V>, k: K, reason: Reason, p: Pid)
    requires Inv(s) && (p < |s.heap| ==> s.heap[p].origin == Waiter(k))
    ensures CellOk(RejectEntry(s, k, reason), p)
  {
    KeyCells(s, k);
    assert CellOk(s, p);
  }

  lemma RejectEntryKeepsInv<K, V>(s: State<K, V>, k: K, reason: Reason)
    requires Inv(s)
    ensures Inv(RejectEntry(s, k, reason))
  {
    var t := RejectEntry(s, k, reason);
    RejectTouches(s, k, reason);
    RejectEntryOk(s, k, reason);
    forall p | 0 <= p < |t.heap| && (|s.heap| <= p || s.heap[p].origin == Waiter(k)) {
      RejectCellsOk(s, k, reason, p);
    }
    TouchedKeepsInv(s, t, k);
  }

  lemma RejectKeepsInv<K, V>(s: State<K, V>, k: K, reason: Reason)
    requires Inv(s)
    ensures Inv(Reject(s, k, reason))
  {
    RejectEntryKeepsInv(s, k, reason);
    KeyCells(s, k);
    SetTimeoutKeepsInv(RejectEntry(s, k, reason), k);
  }

  lemma {:induction false} RejectEachKeepsInv<K, V>(s: State<K, V>, keys: seq<K>, reason: Reason)
    requires Inv(s)
    ensures Inv(RejectEach(s, keys, reason))
    decreases |keys|
  {
    if keys != [] {
      RejectKeepsInv(s, keys[0], reason);
      RejectEachKeepsInv(if Rejectable(s, keys[0]) then Reject(s, keys[0], reason) else s, keys[1..], reason);
    }
  }

  lemma DoDeleteTouches<K, V>(s: State<K, V>, k: K, reason: Reason)
    requires Inv(s)
    ensures OnlyTouches(s, DoDelete(s, k, reason), k)
  {
    KeyCells(s, k);
  }

  lemma DoDeleteKeepsInv<K, V>(s: State<K, V>, k: K, reason: Reason)
    requires Inv(s)
    ensures Inv(DoDelete(s, k, reason))
  {
    KeyCells(s, k);
    DoDeleteTouches(s, k, reason);
    TouchedKeepsInv(s, DoDelete(s, k, reason), k);
  }

  /** `Fire` first forgets the timer, which its entry may still name. */
  lemma FireKeepsInv<K, V>(s: State<K, V>, t: Tid)
    requires Inv(s) && t in s.timers
    ensures Inv(Do(s, Fire(t)))
  {
    KeyCells(s, s.timers[t].key);
    TouchedKeepsInv(s, Do(s, Fire(t)), s.timers[t].key);
  }

  lemma FinishJobTouches<K, V>(s: State<K, V>, j: Pid, outcome: Outcome<V>)
    requires Inv(s) && Enabled(s, JobDone(j, outcome))
    ensures OnlyTouches(s, FinishJob(s, j, s.heap[j].origin.key, outcome), s.heap[j].origin.key)
  {
  }

  lemma FinishJobKeepsInv<K, V>(s: State<K, V>, j: Pid, outcome: Outcome<V>)
    requires Inv(s) && Enabled(s, JobDone(j, outcome))
    ensures Inv(FinishJob(s, j, s.heap[j].origin.key, outcome))
  {
    var k := s.heap[j].origin.key;
    KeyCells(s, k);
    FinishJobTouches(s, j, outcome);
    TouchedKeepsInv(s, FinishJob(s, j, k, outcome), k);
  }

  lemma {:induction false} ClearEachLength<K, V>(heap: seq<Cell<K, V>>, data: map<K, MapData>, keys: seq<K>)
    ensures |ClearEach(heap, data, keys)| == |heap|
    decreases |keys|
  {
    if keys != [] {
      ClearEachLength(if keys[0] in data && data[keys[0]].functions.Some?
                      then CallResolver(heap, data[keys[0]].functions.value, Settled(Rejected(Cleared)))
                      else heap, data, keys[1..]);
    }
  }

  ghost predicate Names<K>(data: map<K, MapData>, k: K, p: Pid) {
    k in data && data[k].functions == Some(p)
  }

  /** The loop of `clear` calls exactly the stored resolvers, each once. */
  lemma {:induction false} ClearEachAt<K, V>(heap: seq<Cell<K, V>>, data: map<K, MapData>, keys: seq<K>, p: Pid)
    requires Distinct(keys) && p < |heap|
    requires forall k, l :: k in data && l in data && k != l && data[k].functions.Some? ==>
      data[k].functions != data[l].functions
    ensures |ClearEach(heap, data, keys)| == |heap|
    ensures (forall k :: k in keys ==> !Names(data, k, p)) ==> ClearEach(heap, data, keys)[p] == heap[p]
    ensures forall k :: k in keys && Names(data, k, p) ==>
      ClearEach(heap, data, keys)[p] == CallResolver(heap, p, Settled(Rejected(Cleared)))[p]
    decreases |keys|
  {
    if keys != [] {
      var k := keys[0];
      var next := if k in data && data[k].functions.Some?
        then CallResolver(heap, data[k].functions.value, Settled(Rejected(Cleared))) else heap;
      assert k !in keys[1..];
      assert forall l :: l in keys <==> l == k || l in keys[1..];
      assert !Names(data, k, p) ==> next[p] == heap[p];
      ClearEachAt(next, data, keys[1..], p);
    }
  }

  lemma ClearedCell<K, V>(s: State<K, V>, order: seq<K>, p: Pid)
    requires Inv(s) && OrderOf(s, order) && p < |s.heap|
    ensures var heap := ClearEach(s.heap, s.data, order);
      && |heap| == |s.heap| && heap[p].origin == s.heap[p].origin
      && if s.heap[p].origin.Waiter? && s.heap[p].fate.Open?
         then heap[p].fate == Settled(Rejected(Cleared)) && heap[p].calls == 1
         else heap[p] == s.heap[p]
  {
    forall k, l | k in s.data && l in s.data && k != l && s.data[k].functions.Some?
      ensures s.data[k].functions != s.data[l].functions
    {
      assert EntryOk(s, k) && EntryOk(s, l);
    }
    ClearEachAt(s.heap, s.data, order, p);
    assert CellOk(s, p);
    if s.heap[p].origin.Waiter? && s.heap[p].fate.Open? {
      assert Names(s.data, s.heap[p].origin.key, p);
    } else {
      forall k | k in order
        ensures !Names(s.data, k, p)
      {
        assert EntryOk(s, k);
      }
    }
  }

  lemma ClearKeepsInv<K, V>(s: State<K, V>, order: seq<K>)
    requires Inv(s) && OrderOf(s, order)
    ensures Inv(Clear(s, order))
  {
    ClearEachLength(s.heap, s.data, order);
    var t := Clear(s, order);
    forall p: Pid
      ensures CellOk(t, p)
    {
      if p < |s.heap| {
        assert CellOk(s, p);
        ClearedCell(s, order, p);
        if s.heap[p].fate.Following? {
          ClearedCell(s, order, s.heap[p].fate.job);
        }
      }
    }
  }

  lemma TickKeepsInv<K, V>(s: State<K, V>, now: nat)
    requires Inv(s)
    ensures Inv(s.(now := now))
  {
    var t := s.(now := now);
    assert forall k :: k in s.data && EntryOk(s, k) ==> EntryOk(t, k);
    assert forall p: Pid :: CellOk(s, p) ==> CellOk(t, p);
  }

  lemma DoKeepsInv<K, V>(s: State<K, V>, e: Event<K, V>)
    requires Inv(s) && Enabled(s, e)
    ensures Inv(Do(s, e))
  {
    match e
    case DoGet(k) => GetKeepsInv(s, k);
    case DoResolve(k, input) => ResolveKeepsInv(s, k, input);
    case DoReject(k, reason) => RejectKeepsInv(s, k, reason);
    case JobDone(j, outcome) => FinishJobKeepsInv(s, j, outcome);
    case Fire(t) => FireKeepsInv(s, t);
    case Delete(k) => DoDeleteKeepsInv(s, k, Deleted);
    case RejectAll(order, reason) => RejectEachKeepsInv(s, order, reason);
    case ClearAll(order) => ClearKeepsInv(s, order);
  }

  lemma StepKeepsInv<K, V>(s: State<K, V>, e: Event<K, V>)
    requires Inv(s) && Enabled(s, e)
    ensures Inv(Step(s, e))
  {
    DoKeepsInv(s, e);
    TickKeepsInv(Do(s, e), s.now + 1);
  }

  lemma {:induction false} RunKeepsInv<K, V>(s: State<K, V>, es: seq<Event<K, V>>)
    requires Inv(s) && ValidRun(s, es)
    ensures Inv(After(s, es))
    decreases |es|
  {
    if es != [] {
      StepKeepsInv(s, es[0]);
      RunKeepsInv(Step(s, es[0]), es[1..]);
    }
  }

  /** A run with one step more in front. */
  lemma RunCons<K, V>(s: State<K, V>, e: Event<K, V>, es: seq<Event<K, V>>)
    requires Enabled(s, e) && ValidRun(Step(s, e), es)
    ensures ValidRun(s, [e] + es) && After(s, [e] + es) == After(Step(s, e), es)
  {
    assert ([e] + es)[1..] == es;
  }

  /** A run of three steps. */
  lemma ThreeSteps<K, V>(s: State<K, V>, a: Event<K, V>, b: Event<K, V>, c: Event<K, V>)
    requires Enabled(s, a) && Enabled(Step(s, a), b) && Enabled(Step(Step(s, a), b), c)
    ensures ValidRun(s, [a, b, c]) && After(s, [a, b, c]) == Step(Step(Step(s, a), b), c)
  {
    RunCons(Step(Step(s, a), b), c, []);
    RunCons(Step(s, a), b, [c] + []);
    RunCons(s, a, [b] + ([c] + []));
    assert [a] + ([b] + ([c] + [])) == [a, b, c];
  }
}
