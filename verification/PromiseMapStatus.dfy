/** When the recorded status of a key is the state of its promise. */
module PromiseMapStatus {
  import opened Wrappers
  import opened Promises
  import opened PromiseMapModel
  import opened PromiseMapProperties

  ghost predicate Running<K, V>(s: State<K, V>, j: Pid) {
    j < |s.heap| && s.heap[j].origin.Job? && s.heap[j].fate.Open?
  }

  /** The promise of the key of `j` is `j` or follows it. */
  ghost predicate Leads<K, V>(s: State<K, V>, j: Pid)
    requires j < |s.heap| && s.heap[j].origin.Job?
  {
    var k := s.heap[j].origin.key;
    && k in s.promises && s.promises[k] < |s.heap|
    && (s.promises[k] == j || s.heap[s.promises[k]].fate == Following(j))
  }

  ghost function Expected<V>(end: Option<Outcome<V>>): Status {
    match end
    case None => Pending
    case Some(outcome) => StatusOf(outcome)
  }

  ghost predicate Agrees<K, V>(s: State<K, V>, k: K) {
    k in s.data ==>
      && k in s.promises && s.promises[k] < |s.heap|
      && s.data[k].status == Expected(End(s.heap, s.promises[k]))
  }

  ghost predicate InStep<K, V>(s: State<K, V>) {
    && (forall k {:trigger Agrees(s, k)} :: k in s.data ==> Agrees(s, k))
    && (forall j: Pid {:trigger Running(s, j)} :: Running(s, j) ==> Leads(s, j))
  }

  ghost predicate NoJob<K, V>(s: State<K, V>, k: K) {
    forall j: Pid {:trigger Running(s, j)} :: Running(s, j) ==> s.heap[j].origin.key != k
  }

  /** Nobody settles, deletes, expires or clears a key while a job for it
      runs. */
  ghost predicate Calm<K, V>(s: State<K, V>, e: Event<K, V>)
    requires Enabled(s, e)
  {
    match e
    case DoResolve(k, _) => NoJob(s, k)
    case DoReject(k, _) => NoJob(s, k)
    case Delete(k) => NoJob(s, k)
    case Fire(t) => NoJob(s, s.timers[t].key)
    case ClearAll(_) => forall j: Pid {:trigger Running(s, j)} :: !Running(s, j)
    case _ => true
  }

  lemma TouchedKeepsInStep<K, V>(s: State<K, V>, t: State<K, V>, k: K)
    requires Inv(s) && InStep(s) && OnlyTouches(s, t, k)
    requires Agrees(t, k)
    requires forall j: Pid {:trigger Running(t, j)} :: Running(t, j) ==>
      if t.heap[j].origin.key == k then Leads(t, j) else j < |s.heap|
    ensures InStep(t)
  {
    forall l | l in t.data
      ensures Agrees(t, l)
    {
      if l != k {
        assert Agrees(s, l) && EntryOk(s, l) && CellOk(s, s.promises[l]);
        SameEnd(s, t, k, l);
      }
    }
    forall j: Pid | Running(t, j)
      ensures Leads(t, j)
    {
      if t.heap[j].origin.key != k {
        assert Running(s, j) && Leads(s, j) && EntryOk(s, s.heap[j].origin.key);
      }
    }
  }

  /** The promise of another key ends as it did. */
  lemma SameEnd<K, V>(s: State<K, V>, t: State<K, V>, k: K, l: K)
    requires Inv(s) && OnlyTouches(s, t, k) && l != k && l in s.promises
    ensures l in t.promises && t.promises[l] == s.promises[l] < |s.heap|
    ensures End(t.heap, s.promises[l]) == End(s.heap, s.promises[l])
  {
    assert EntryOk(s, l) && CellOk(s, s.promises[l]);
    if s.heap[s.promises[l]].fate.Following? {
      assert t.heap[s.heap[s.promises[l]].fate.job].origin == s.heap[s.heap[s.promises[l]].fate.job].origin;
    }
  }

  lemma ResolvedAgrees<K, V>(s: State<K, V>, k: K, input: Input<V>)
    requires Inv(s)
    ensures var t := ResolveEntry(s, k, input);
      && Agrees(t, k) && |t.heap| == |s.heap| + 1
      && t.heap[|s.heap|].origin == Job(k, input) && Leads(t, |s.heap|)
  {
    KeyCells(s, k);
  }

  lemma ResolveInStep<K, V>(s: State<K, V>, k: K, input: Input<V>)
    requires Inv(s) && InStep(s) && NoJob(s, k)
    ensures InStep(ResolveEntry(s, k, input))
  {
    var t := ResolveEntry(s, k, input);
    ResolvedAgrees(s, k, input);
    ResolveTouches(s, k, input);
    forall j: Pid | Running(t, j)
      ensures if t.heap[j].origin.key == k then Leads(t, j) else j < |s.heap|
    {
      assert j < |s.heap| ==> Running(s, j);
    }
    TouchedKeepsInStep(s, t, k);
  }

  lemma RejectedAgrees<K, V>(s: State<K, V>, k: K, reason: Reason)
    requires Inv(s)
    ensures Agrees(RejectEntry(s, k, reason), k)
  {
    KeyCells(s, k);
  }

  lemma RejectInStep<K, V>(s: State<K, V>, k: K, reason: Reason)
    requires Inv(s) && InStep(s) && NoJob(s, k)
    ensures InStep(RejectEntry(s, k, reason))
  {
    var t := RejectEntry(s, k, reason);
    RejectedAgrees(s, k, reason);
    RejectTouches(s, k, reason);
    forall j: Pid | Running(t, j)
      ensures t.heap[j].origin.key != k && j < |s.heap|
    {
      assert j < |s.heap| && Running(s, j);
    }
    TouchedKeepsInStep(s, t, k);
  }

  lemma SetTimeoutInStep<K, V>(s: State<K, V>, k: K)
    requires InStep(s)
    ensures InStep(SetTimeout(s, k))
  {
    var t := SetTimeout(s, k);
    forall l | l in t.data
      ensures Agrees(t, l)
    {
      assert Agrees(s, l);
    }
    forall j: Pid | Running(t, j)
      ensures Leads(t, j)
    {
      assert Running(s, j);
    }
  }

  /** A key whose resolvers are stored has no job. */
  lemma StoredHasNoJob<K, V>(s: State<K, V>, k: K)
    requires Inv(s) && InStep(s) && k in s.data && s.data[k].functions.Some?
    ensures NoJob(s, k)
  {
    assert EntryOk(s, k);
    forall j: Pid | Running(s, j)
      ensures s.heap[j].origin.key != k
    {
      assert Leads(s, j);
    }
  }

  lemma {:induction false} RejectEachInStep<K, V>(s: State<K, V>, keys: seq<K>, reason: Reason)
    requires Inv(s) && InStep(s)
    ensures InStep(RejectEach(s, keys, reason))
    decreases |keys|
  {
    if keys != [] {
      var k := keys[0];
      if Rejectable(s, k) {
        StoredHasNoJob(s, k);
        RejectInStep(s, k, reason);
        SetTimeoutInStep(RejectEntry(s, k, reason), k);
        RejectKeepsInv(s, k, reason);
      }
      RejectEachInStep(if Rejectable(s, k) then Reject(s, k, reason) else s, keys[1..], reason);
    }
  }

  lemma DeleteInStep<K, V>(s: State<K, V>, k: K, reason: Reason)
    requires Inv(s) && InStep(s) && NoJob(s, k)
    ensures InStep(DoDelete(s, k, reason))
  {
    var t := DoDelete(s, k, reason);
    KeyCells(s, k);
    DoDeleteTouches(s, k, reason);
    forall j: Pid | Running(t, j)
      ensures t.heap[j].origin.key != k && j < |s.heap|
    {
      assert Running(s, j);
    }
    TouchedKeepsInStep(s, t, k);
  }

  lemma FinishInStep<K, V>(s: State<K, V>, j: Pid, outcome: Outcome<V>)
    requires Inv(s) && InStep(s) && Enabled(s, JobDone(j, outcome))
    ensures InStep(FinishJob(s, j, s.heap[j].origin.key, outcome))
  {
    var k := s.heap[j].origin.key;
    var t := FinishJob(s, j, k, outcome);
    assert Running(s, j) && Leads(s, j) && EntryOk(s, k) && CellOk(s, j);
    FinishJobTouches(s, j, outcome);
    forall i: Pid | Running(t, i)
      ensures t.heap[i].origin.key != k && i < |s.heap|
    {
      assert Running(s, i) && Leads(s, i);
    }
    TouchedKeepsInStep(s, t, k);
  }

  lemma GetInStep<K, V>(s: State<K, V>, k: K)
    requires Inv(s) && InStep(s)
    ensures InStep(Get(s, k).0)
  {
    var t := Get(s, k).0;
    KeyCells(s, k);
    if k !in s.promises {
      forall j: Pid | Running(t, j)
        ensures t.heap[j].origin.key != k && j < |s.heap|
      {
        assert j < |s.heap| && Running(s, j);
      }
      TouchedKeepsInStep(s, t, k);
    }
  }

  lemma ClearInStep<K, V>(s: State<K, V>, order: seq<K>)
    requires Inv(s) && OrderOf(s, order) && forall j: Pid {:trigger Running(s, j)} :: !Running(s, j)
    ensures InStep(Clear(s, order))
  {
    var t := Clear(s, order);
    ClearEachLength(s.heap, s.data, order);
    forall j: Pid
      ensures !Running(t, j)
    {
      if j < |s.heap| {
        ClearedCell(s, order, j);
        assert !Running(s, j);
      }
    }
  }

  lemma TickInStep<K, V>(s: State<K, V>, now: nat)
    requires InStep(s)
    ensures InStep(s.(now := now))
  {
    var t := s.(now := now);
    assert forall k :: k in s.data && Agrees(s, k) ==> Agrees(t, k);
    assert forall j: Pid :: Running(t, j) ==> Running(s, j);
  }

  lemma DoInStep<K, V>(s: State<K, V>, e: Event<K, V>)
    requires Inv(s) && InStep(s) && Enabled(s, e) && Calm(s, e)
    ensures InStep(Do(s, e))
  {
    match e
    case DoGet(k) => GetInStep(s, k);
    case DoResolve(k, input) =>
      ResolveInStep(s, k, input);
      SetTimeoutInStep(ResolveEntry(s, k, input), k);
    case DoReject(k, reason) =>
      RejectInStep(s, k, reason);
      SetTimeoutInStep(RejectEntry(s, k, reason), k);
    case JobDone(j, outcome) => FinishInStep(s, j, outcome);
    case Fire(t) => FireInStep(s, t);
    case Delete(k) => DeleteInStep(s, k, Deleted);
    case RejectAll(order, reason) => RejectEachInStep(s, order, reason);
    case ClearAll(order) => ClearInStep(s, order);
  }

  lemma FireInStep<K, V>(s: State<K, V>, t: Tid)
    requires Inv(s) && InStep(s) && t in s.timers && NoJob(s, s.timers[t].key)
    ensures InStep(Do(s, Fire(t)))
  {
    var k := s.timers[t].key;
    var u := Do(s, Fire(t));
    KeyCells(s, k);
    forall j: Pid | Running(u, j)
      ensures u.heap[j].origin.key != k && j < |s.heap|
    {
      assert Running(s, j);
    }
    TouchedKeepsInStep(s, u, k);
  }

  ghost predicate CalmRun<K, V>(s: State<K, V>, es: seq<Event<K, V>>)
    requires ValidRun(s, es)
    decreases |es|
  {
    es == [] || (Calm(s, es[0]) && CalmRun(Step(s, es[0]), es[1..]))
  }

  lemma {:induction false} RunInStep<K, V>(s: State<K, V>, es: seq<Event<K, V>>)
    requires Inv(s) && InStep(s) && ValidRun(s, es) && CalmRun(s, es)
    ensures Inv(After(s, es)) && InStep(After(s, es))
    decreases |es|
  {
    if es != [] {
      StepKeepsInv(s, es[0]);
      DoInStep(s, es[0]);
      TickInStep(Do(s, es[0]), s.now + 1);
      RunInStep(Step(s, es[0]), es[1..]);
    }
  }

  /** Status agreement, in every state of every calm run; stored resolvers
      imply that the status is pending. */
  lemma StatusAgreement<K, V>(hasTimeout: bool, es: seq<Event<K, V>>, k: K)
    requires ValidRun(Init<K, V>(hasTimeout), es) && CalmRun(Init<K, V>(hasTimeout), es)
    requires k in After(Init<K, V>(hasTimeout), es).data
    ensures var s := After(Init<K, V>(hasTimeout), es);
      && k in s.promises && s.promises[k] < |s.heap|
      && (s.data[k].status == Pending <==> End(s.heap, s.promises[k]) == None)
      && (s.data[k].status == HasFulfilled <==>
            End(s.heap, s.promises[k]).Some? && End(s.heap, s.promises[k]).value.Fulfilled?)
      && (s.data[k].functions.Some? ==> s.data[k].status == Pending)
  {
    InitInv<K, V>(hasTimeout);
    RunInStep(Init<K, V>(hasTimeout), es);
    var s := After(Init<K, V>(hasTimeout), es);
    assert Agrees(s, k);
    KeyCells(s, k);
  }

  /** Without calm, exactly when the end of a job keeps the agreement at its
      key: the key still has a promise, and that promise is led by the job or
      has already ended the same way. */
  lemma FinishAgreesIff<K, V>(s: State<K, V>, j: Pid, outcome: Outcome<V>)
    requires Inv(s) && Enabled(s, JobDone(j, outcome)) && Agrees(s, s.heap[j].origin.key)
    ensures Agrees(FinishJob(s, j, s.heap[j].origin.key, outcome), s.heap[j].origin.key)
       <==> && s.heap[j].origin.key in s.promises
            && (Leads(s, j)
                || (s.heap[j].origin.key in s.data && s.data[s.heap[j].origin.key].status == StatusOf(outcome)))
  {
    var k := s.heap[j].origin.key;
    KeyCells(s, k);
  }
}
