/** The outcome of a key that is settled once does not depend on whether it was
    asked for before or after. */
module PromiseMapArrival {
  import opened Wrappers
  import opened Promises
  import opened PromiseMapModel
  import opened PromiseMapProperties
  import opened PromiseMapStatus

  /** Neither settles, deletes nor expires `k`, nor all keys at once. Anything
      may happen to other keys. */
  ghost predicate Neutral<K, V>(s: State<K, V>, e: Event<K, V>, k: K)
    requires Enabled(s, e)
  {
    match e
    case DoGet(_) => true
    case JobDone(_, _) => true
    case DoResolve(l, _) => l != k
    case DoReject(l, _) => l != k
    case Delete(l) => l != k
    case Fire(t) => s.timers[t].key != k
    case RejectAll(_, _) => false
    case ClearAll(_) => false
  }

  ghost predicate NeutralRun<K, V>(s: State<K, V>, es: seq<Event<K, V>>, k: K)
    requires ValidRun(s, es)
    decreases |es|
  {
    es == [] || (Neutral(s, es[0], k) && NeutralRun(Step(s, es[0]), es[1..], k))
  }

  /** The promises that the calls of `get(k)` in a run are answered with. */
  ghost function Answers<K, V>(s: State<K, V>, es: seq<Event<K, V>>, k: K): seq<Pid>
    requires ValidRun(s, es)
    decreases |es|
  {
    if es == [] then []
    else (if es[0] == DoGet(k) then [Get(s, k).1] else []) + Answers(Step(s, es[0]), es[1..], k)
  }

  /** What a neutral step other than get(k) leaves alone. */
  ghost predicate LeavesAlone<K, V>(s: State<K, V>, t: State<K, V>, k: K) {
    && (k in t.promises <==> k in s.promises)
    && (k in s.promises ==> t.promises[k] == s.promises[k])
    && |s.heap| <= |t.heap|
    && (forall p {:trigger t.heap[p]} :: 0 <= p < |s.heap| ==>
          && t.heap[p].origin == s.heap[p].origin
          && (t.heap[p].fate != s.heap[p].fate ==>
                s.heap[p].fate.Open? && s.heap[p].origin != Waiter(k)
                && (s.heap[p].origin.Job? && s.heap[p].origin.key == k ==> Honest(t.heap[p]))))
    && (forall p {:trigger t.heap[p]} :: |s.heap| <= p < |t.heap| ==>
          t.heap[p].origin.Job? ==> t.heap[p].origin.key != k)
  }

  /** A settled job for a plain value has fulfilled with it. */
  ghost predicate Honest<K, V>(c: Cell<K, V>) {
    c.origin.Job? && c.origin.input.Plain? && c.fate.Settled? ==>
      c.fate == Settled(Fulfilled(c.origin.input.value))
  }

  lemma OtherKeyLeavesAlone<K, V>(s: State<K, V>, t: State<K, V>, l: K, k: K)
    requires Inv(s) && OnlyTouches(s, t, l) && l != k
    requires forall p :: |s.heap| <= p < |t.heap| ==> t.heap[p].origin.Job? ==> t.heap[p].origin.key != k
    ensures LeavesAlone(s, t, k)
  {
  }

  lemma TimeoutLeavesAlone<K, V>(s: State<K, V>, t: State<K, V>, l: K, k: K)
    requires LeavesAlone(s, t, k)
    ensures LeavesAlone(s, SetTimeout(t, l), k)
  {
  }

  lemma GetLeavesAlone<K, V>(s: State<K, V>, l: K, k: K)
    requires Inv(s) && l != k
    ensures LeavesAlone(s, Get(s, l).0, k)
  {
  }

  lemma FinishLeavesAlone<K, V>(s: State<K, V>, j: Pid, outcome: Outcome<V>, k: K)
    requires Inv(s) && Enabled(s, JobDone(j, outcome))
    ensures LeavesAlone(s, Do(s, JobDone(j, outcome)), k)
  {
  }

  lemma FireLeavesAlone<K, V>(s: State<K, V>, t: Tid, k: K)
    requires Inv(s) && t in s.timers && s.timers[t].key != k
    ensures LeavesAlone(s, Do(s, Fire(t)), k)
  {
    KeyCells(s, s.timers[t].key);
    OtherKeyLeavesAlone(s, Do(s, Fire(t)), s.timers[t].key, k);
  }

  lemma NeutralStep<K, V>(s: State<K, V>, e: Event<K, V>, k: K)
    requires Inv(s) && Enabled(s, e) && Neutral(s, e, k) && e != DoGet(k)
    ensures LeavesAlone(s, Do(s, e), k)
  {
    match e
    case DoGet(l) => GetLeavesAlone(s, l, k);
    case DoResolve(l, input) =>
      ResolveTouches(s, l, input);
      OtherKeyLeavesAlone(s, ResolveEntry(s, l, input), l, k);
      TimeoutLeavesAlone(s, ResolveEntry(s, l, input), l, k);
    case DoReject(l, reason) =>
      RejectTouches(s, l, reason);
      OtherKeyLeavesAlone(s, RejectEntry(s, l, reason), l, k);
      TimeoutLeavesAlone(s, RejectEntry(s, l, reason), l, k);
    case Delete(l) =>
      DoDeleteTouches(s, l, Deleted);
      OtherKeyLeavesAlone(s, Do(s, e), l, k);
    case Fire(t) => FireLeavesAlone(s, t, k);
    case JobDone(j, outcome) => FinishLeavesAlone(s, j, outcome, k);
  }

  /** The key may have been asked for, but not settled. */
  ghost predicate Unsettled<K, V>(s: State<K, V>, k: K) {
    && NoJob(s, k)
    && (k in s.promises ==>
          s.promises[k] < |s.heap| && s.heap[s.promises[k]].origin == Waiter(k) && s.heap[s.promises[k]].fate.Open?)
  }

  lemma UnsettledStep<K, V>(s: State<K, V>, e: Event<K, V>, k: K)
    requires Inv(s) && Unsettled(s, k) && Enabled(s, e) && Neutral(s, e, k)
    ensures Unsettled(Step(s, e), k)
    ensures k in s.promises || e == DoGet(k) ==> k in Step(s, e).promises
    ensures k in s.promises ==> Step(s, e).promises[k] == s.promises[k]
    ensures e == DoGet(k) ==> Step(s, e).promises[k] == Get(s, k).1
  {
    var t := Step(s, e);
    if e != DoGet(k) {
      NeutralStep(s, e, k);
    }
    forall j: Pid | Running(t, j)
      ensures t.heap[j].origin.key != k
    {
      if j < |s.heap| {
        assert Running(s, j);
      }
    }
  }

  lemma {:induction false} UnsettledRun<K, V>(s: State<K, V>, es: seq<Event<K, V>>, k: K)
    requires Inv(s) && Unsettled(s, k) && ValidRun(s, es) && NeutralRun(s, es, k)
    ensures var t := After(s, es);
      && Inv(t) && Unsettled(t, k)
      && (k in s.promises ==> k in t.promises && t.promises[k] == s.promises[k])
      && forall p :: p in Answers(s, es, k) ==> k in t.promises && p == t.promises[k]
    decreases |es|
  {
    if es != [] {
      StepKeepsInv(s, es[0]);
      UnsettledStep(s, es[0], k);
      UnsettledRun(Step(s, es[0]), es[1..], k);
    }
  }

  /** How the promise of a settled key will end. */
  datatype Target<V> = Ended(outcome: Outcome<V>) | ByJob(job: Pid, input: Input<V>)

  ghost predicate Locked<K, V>(s: State<K, V>, k: K, target: Target<V>) {
    && k in s.promises && s.promises[k] < |s.heap|
    && match target
       case Ended(outcome) => s.heap[s.promises[k]].fate == Settled(outcome)
       case ByJob(j, input) =>
         && j < |s.heap| && s.heap[j].origin == Job(k, input) && Honest(s.heap[j])
         && !s.heap[j].fate.Following?
         && (s.promises[k] == j || s.heap[s.promises[k]].fate == Following(j))
  }

  ghost function TargetOf<K, V>(s: State<K, V>, settle: Event<K, V>): Target<V>
    requires settle.DoResolve? || settle.DoReject?
  {
    if settle.DoReject? then Ended(Rejected(settle.reason)) else ByJob(|s.heap|, settle.input)
  }

  lemma ResolveLocks<K, V>(s: State<K, V>, k: K, input: Input<V>)
    requires EntryOk(s, k) && (k in s.promises ==> CellOk(s, s.promises[k]))
    ensures Locked(Resolve(s, k, input), k, ByJob(|s.heap|, input))
    ensures Unsettled(s, k) && k in s.promises ==> Resolve(s, k, input).promises[k] == s.promises[k]
  {
  }

  lemma RejectLocks<K, V>(s: State<K, V>, k: K, reason: Reason)
    requires EntryOk(s, k) && (k in s.promises ==> CellOk(s, s.promises[k]))
    ensures Locked(Reject(s, k, reason), k, Ended(Rejected(reason)))
    ensures Unsettled(s, k) && k in s.promises ==> Reject(s, k, reason).promises[k] == s.promises[k]
  {
  }

  lemma SettleLocks<K, V>(s: State<K, V>, settle: Event<K, V>, k: K)
    requires Inv(s) && Unsettled(s, k)
    requires (settle.DoResolve? || settle.DoReject?) && settle.key == k
    ensures Locked(Step(s, settle), k, TargetOf(s, settle))
    ensures k in s.promises ==> Step(s, settle).promises[k] == s.promises[k]
  {
    KeyCells(s, k);
    if settle.DoReject? {
      RejectLocks(s, k, settle.reason);
    } else {
      ResolveLocks(s, k, settle.input);
    }
  }

  lemma LockedStep<K, V>(s: State<K, V>, e: Event<K, V>, k: K, target: Target<V>)
    requires Inv(s) && Locked(s, k, target) && Enabled(s, e) && Neutral(s, e, k)
    ensures Locked(Step(s, e), k, target) && Step(s, e).promises[k] == s.promises[k]
    ensures e == DoGet(k) ==> Get(s, k).1 == s.promises[k]
  {
    if e != DoGet(k) {
      NeutralStep(s, e, k);
      FollowingStays(s, e, k);
    }
  }

  /** A job never ends up following. */
  lemma FollowingStays<K, V>(s: State<K, V>, e: Event<K, V>, k: K)
    requires Inv(s) && Enabled(s, e)
    ensures forall j: Pid :: j < |Step(s, e).heap| && Step(s, e).heap[j].origin.Job? ==>
      !Step(s, e).heap[j].fate.Following?
  {
    StepKeepsInv(s, e);
    forall j: Pid | j < |Step(s, e).heap| && Step(s, e).heap[j].origin.Job?
      ensures !Step(s, e).heap[j].fate.Following?
    {
      assert CellOk(Step(s, e), j);
    }
  }

  lemma {:induction false} LockedRun<K, V>(s: State<K, V>, es: seq<Event<K, V>>, k: K, target: Target<V>)
    requires Inv(s) && Locked(s, k, target) && ValidRun(s, es) && NeutralRun(s, es, k)
    ensures Locked(After(s, es), k, target) && After(s, es).promises[k] == s.promises[k]
    ensures forall p :: p in Answers(s, es, k) ==> p == s.promises[k]
    decreases |es|
  {
    if es != [] {
      StepKeepsInv(s, es[0]);
      LockedStep(s, es[0], k, target);
      LockedRun(Step(s, es[0]), es[1..], k, target);
    }
  }

  /** Arrival-order independence: if `k` is settled once, every get(k) of the
      run, before or after, is answered with one and the same promise. It ends
      with the rejection, or with the outcome of the job, and for a plain value
      that can only be the value. */
  lemma ArrivalOrderIrrelevant<K, V>(s: State<K, V>, before: seq<Event<K, V>>, settle: Event<K, V>,
                                     after: seq<Event<K, V>>, k: K)
    requires Inv(s) && Unsettled(s, k)
    requires ValidRun(s, before) && NeutralRun(s, before, k)
    requires (settle.DoResolve? || settle.DoReject?) && settle.key == k
    requires ValidRun(Step(After(s, before), settle), after)
    requires NeutralRun(Step(After(s, before), settle), after, k)
    ensures var settled := Step(After(s, before), settle);
      var t := After(settled, after);
      && k in t.promises && t.promises[k] < |t.heap|
      && (forall p :: p in Answers(s, before, k) || p in Answers(settled, after, k) ==> p == t.promises[k])
      && var end := End(t.heap, t.promises[k]);
         && (settle.DoReject? ==> end == Some(Rejected(settle.reason)))
         && (settle.DoResolve? && NoJob(t, k) ==> end.Some?)
         && (settle.DoResolve? && settle.input.Plain? && end.Some? ==> end.value == Fulfilled(settle.input.value))
  {
    UnsettledRun(s, before, k);
    var s1 := After(s, before);
    SettleLocks(s1, settle, k);
    StepKeepsInv(s1, settle);
    var target := TargetOf(s1, settle);
    LockedRun(Step(s1, settle), after, k, target);
    LockedEnds(After(Step(s1, settle), after), k, target);
  }

  lemma LockedEnds<K, V>(s: State<K, V>, k: K, target: Target<V>)
    requires Locked(s, k, target)
    ensures target.Ended? ==> End(s.heap, s.promises[k]) == Some(target.outcome)
    ensures target.ByJob? && NoJob(s, k) ==> End(s.heap, s.promises[k]).Some?
    ensures target.ByJob? && target.input.Plain? && End(s.heap, s.promises[k]).Some? ==>
      End(s.heap, s.promises[k]).value == Fulfilled(target.input.value)
  {
    if target.ByJob? {
      assert Running(s, target.job) <==> s.heap[target.job].fate.Open?;
    }
  }

  lemma InitUnsettled<K, V>(hasTimeout: bool, k: K)
    ensures Inv(Init<K, V>(hasTimeout)) && Unsettled(Init<K, V>(hasTimeout), k)
  {
  }

  /** It applies to every key from the start: in a run that settles `k` once, all
      its calls of get(k) are answered with one promise. */
  lemma SettledOnceFromStart<K, V>(hasTimeout: bool, before: seq<Event<K, V>>, settle: Event<K, V>,
                                   after: seq<Event<K, V>>, k: K)
    requires var s := Init<K, V>(hasTimeout); ValidRun(s, before) && NeutralRun(s, before, k)
    requires (settle.DoResolve? || settle.DoReject?) && settle.key == k
    requires var settled := Step(After(Init<K, V>(hasTimeout), before), settle);
      ValidRun(settled, after) && NeutralRun(settled, after, k)
    ensures var s := Init<K, V>(hasTimeout);
      var settled := Step(After(s, before), settle);
      var t := After(settled, after);
      && k in t.promises && t.promises[k] < |t.heap|
      && (forall p :: p in Answers(s, before, k) || p in Answers(settled, after, k) ==> p == t.promises[k])
      && var end := End(t.heap, t.promises[k]);
         && (settle.DoReject? ==> end == Some(Rejected(settle.reason)))
         && (settle.DoResolve? && NoJob(t, k) ==> end.Some?)
         && (settle.DoResolve? && settle.input.Plain? && end.Some? ==> end.value == Fulfilled(settle.input.value))
  {
    InitUnsettled<K, V>(hasTimeout, k);
    ArrivalOrderIrrelevant(Init<K, V>(hasTimeout), before, settle, after, k);
  }
}
