/** Exactly in which runs the recorded status of a key is the state of its
    promise, and in which the two maps have the same keys. */
module PromiseMapAgreement {
  import opened Wrappers
  import opened Promises
  import opened PromiseMapModel
  import opened PromiseMapProperties
  import opened PromiseMapStatus

  lemma AgreesElsewhere<K, V>(s: State<K, V>, t: State<K, V>, l: K, k: K)
    requires Inv(s) && OnlyTouches(s, t, l) && l != k && Agrees(s, k)
    ensures Agrees(t, k)
  {
    if k in t.data {
      SameEnd(s, t, l, k);
    }
  }

  lemma ResolveKeepsAgrees<K, V>(s: State<K, V>, l: K, input: Input<V>, k: K)
    requires Inv(s) && Agrees(s, k)
    ensures Agrees(Resolve(s, l, input), k)
  {
    ResolveTouches(s, l, input);
    if l == k {
      ResolvedAgrees(s, l, input);
    } else {
      AgreesElsewhere(s, ResolveEntry(s, l, input), l, k);
    }
    TimeoutKeepsAgrees(ResolveEntry(s, l, input), l, k);
  }

  lemma RejectKeepsAgrees<K, V>(s: State<K, V>, l: K, reason: Reason, k: K)
    requires Inv(s) && Agrees(s, k)
    ensures Agrees(Reject(s, l, reason), k)
  {
    RejectTouches(s, l, reason);
    if l == k {
      RejectedAgrees(s, l, reason);
    } else {
      AgreesElsewhere(s, RejectEntry(s, l, reason), l, k);
    }
    TimeoutKeepsAgrees(RejectEntry(s, l, reason), l, k);
  }

  lemma TimeoutKeepsAgrees<K, V>(s: State<K, V>, l: K, k: K)
    requires Agrees(s, k)
    ensures Agrees(SetTimeout(s, l), k)
  {
  }

  lemma {:induction false} RejectEachKeepsAgrees<K, V>(s: State<K, V>, keys: seq<K>, reason: Reason, k: K)
    requires Inv(s) && Agrees(s, k)
    ensures Agrees(RejectEach(s, keys, reason), k)
    decreases |keys|
  {
    if keys != [] {
      RejectKeepsInv(s, keys[0], reason);
      RejectKeepsAgrees(s, keys[0], reason, k);
      RejectEachKeepsAgrees(if Rejectable(s, keys[0]) then Reject(s, keys[0], reason) else s, keys[1..], reason, k);
    }
  }

  lemma GetKeepsAgrees<K, V>(s: State<K, V>, l: K, k: K)
    requires Inv(s) && Agrees(s, k)
    ensures Agrees(Get(s, l).0, k)
  {
    KeyCells(s, k);
    if k in s.data && k != l {
      assert CellOk(s, s.promises[k]);
    }
  }

  lemma DeleteKeepsAgrees<K, V>(s: State<K, V>, l: K, reason: Reason, k: K)
    requires Inv(s) && Agrees(s, k)
    ensures Agrees(DoDelete(s, l, reason), k)
  {
    DoDeleteTouches(s, l, reason);
    if l != k {
      AgreesElsewhere(s, DoDelete(s, l, reason), l, k);
    }
  }

  lemma FireKeepsAgrees<K, V>(s: State<K, V>, t: Tid, k: K)
    requires Inv(s) && t in s.timers && Agrees(s, k)
    ensures Agrees(Do(s, Fire(t)), k)
  {
    var l := s.timers[t].key;
    KeyCells(s, l);
    if l != k {
      AgreesElsewhere(s, Do(s, Fire(t)), l, k);
    }
  }

  ghost predicate Finishes<K, V>(s: State<K, V>, e: Event<K, V>, k: K)
    requires Enabled(s, e)
  {
    e.JobDone? && s.heap[e.job].origin.key == k
  }

  /** Only the end of a job of the key itself can break the agreement. */
  lemma StepKeepsAgrees<K, V>(s: State<K, V>, e: Event<K, V>, k: K)
    requires Inv(s) && Enabled(s, e) && Agrees(s, k) && !Finishes(s, e, k)
    ensures Agrees(Do(s, e), k)
  {
    match e
    case DoGet(l) => GetKeepsAgrees(s, l, k);
    case DoResolve(l, input) => ResolveKeepsAgrees(s, l, input, k);
    case DoReject(l, reason) => RejectKeepsAgrees(s, l, reason, k);
    case JobDone(j, outcome) =>
      FinishJobTouches(s, j, outcome);
      AgreesElsewhere(s, Do(s, e), s.heap[j].origin.key, k);
    case Fire(t) => FireKeepsAgrees(s, t, k);
    case Delete(l) => DeleteKeepsAgrees(s, l, Deleted, k);
    case RejectAll(order, reason) => RejectEachKeepsAgrees(s, order, reason, k);
    case ClearAll(order) =>
  }

  /** When a job of the key ends, the key has a promise that the job leads or that
      has already ended the same way. */
  ghost predicate EndsInTime<K, V>(s: State<K, V>, j: Pid, outcome: Outcome<V>)
    requires Enabled(s, JobDone(j, outcome))
  {
    var k := s.heap[j].origin.key;
    k in s.promises && (Leads(s, j) || (k in s.data && s.data[k].status == StatusOf(outcome)))
  }

  ghost predicate JobsEndInTime<K, V>(s: State<K, V>, es: seq<Event<K, V>>, k: K)
    requires ValidRun(s, es)
    decreases |es|
  {
    es == []
    || ((Finishes(s, es[0], k) ==> EndsInTime(s, es[0].job, es[0].outcome))
        && JobsEndInTime(Step(s, es[0]), es[1..], k))
  }

  /** The status of the key is right in every state of the run. */
  ghost predicate AlwaysAgrees<K, V>(s: State<K, V>, es: seq<Event<K, V>>, k: K)
    requires ValidRun(s, es)
    decreases |es|
  {
    Agrees(s, k) && (es == [] || AlwaysAgrees(Step(s, es[0]), es[1..], k))
  }

  lemma AgreesStepIff<K, V>(s: State<K, V>, e: Event<K, V>, k: K)
    requires Inv(s) && Enabled(s, e) && Agrees(s, k)
    ensures Agrees(Step(s, e), k) <==> (Finishes(s, e, k) ==> EndsInTime(s, e.job, e.outcome))
  {
    if Finishes(s, e, k) {
      FinishAgreesIff(s, e.job, e.outcome);
    } else {
      StepKeepsAgrees(s, e, k);
    }
    assert Agrees(Step(s, e), k) <==> Agrees(Do(s, e), k);
  }

  lemma {:induction false} AlwaysAgreesIff<K, V>(s: State<K, V>, es: seq<Event<K, V>>, k: K)
    requires Inv(s) && ValidRun(s, es) && Agrees(s, k)
    ensures AlwaysAgrees(s, es, k) <==> JobsEndInTime(s, es, k)
    decreases |es|
  {
    if es != [] {
      var t := Step(s, es[0]);
      StepKeepsInv(s, es[0]);
      AgreesStepIff(s, es[0], k);
      if Agrees(t, k) {
        AlwaysAgreesIff(t, es[1..], k);
      }
    }
  }

  /** Over every run: the status of a key is always right if and only if each of
      its jobs ends in time. */
  lemma StatusAlwaysRightIff<K, V>(hasTimeout: bool, es: seq<Event<K, V>>, k: K)
    requires ValidRun(Init<K, V>(hasTimeout), es)
    ensures AlwaysAgrees(Init<K, V>(hasTimeout), es, k) <==> JobsEndInTime(Init<K, V>(hasTimeout), es, k)
  {
    InitInv<K, V>(hasTimeout);
    AlwaysAgreesIff(Init<K, V>(hasTimeout), es, k);
  }

  // ---------------------------------------------------------------------------
  // The key sets.

  ghost predicate AlwaysSameKeys<K, V>(s: State<K, V>, es: seq<Event<K, V>>)
    requires ValidRun(s, es)
    decreases |es|
  {
    s.promises.Keys == s.data.Keys && (es == [] || AlwaysSameKeys(Step(s, es[0]), es[1..]))
  }

  /** Whenever a job ends, its key still has a promise. */
  ghost predicate JobsEndWithTheirKey<K, V>(s: State<K, V>, es: seq<Event<K, V>>)
    requires ValidRun(s, es)
    decreases |es|
  {
    es == []
    || ((es[0].JobDone? ==> s.heap[es[0].job].origin.key in s.promises)
        && JobsEndWithTheirKey(Step(s, es[0]), es[1..]))
  }

  lemma {:induction false} AlwaysSameKeysIff<K, V>(s: State<K, V>, es: seq<Event<K, V>>)
    requires Inv(s) && ValidRun(s, es) && s.promises.Keys == s.data.Keys
    ensures AlwaysSameKeys(s, es) <==> JobsEndWithTheirKey(s, es)
    decreases |es|
  {
    if es != [] {
      var t := Step(s, es[0]);
      StepKeepsInv(s, es[0]);
      KeySetsPartIff(s, es[0]);
      if t.promises.Keys == t.data.Keys {
        AlwaysSameKeysIff(t, es[1..]);
      }
    }
  }

  /** Over every run: the two maps always have the same keys if and only if no job
      ends after its key was removed. */
  lemma KeySetsAlwaysEqualIff<K, V>(hasTimeout: bool, es: seq<Event<K, V>>)
    requires ValidRun(Init<K, V>(hasTimeout), es)
    ensures AlwaysSameKeys(Init<K, V>(hasTimeout), es) <==> JobsEndWithTheirKey(Init<K, V>(hasTimeout), es)
  {
    InitInv<K, V>(hasTimeout);
    AlwaysSameKeysIff(Init<K, V>(hasTimeout), es);
  }

  // ---------------------------------------------------------------------------
  // Runs that go wrong.

  /** A job that ends after its key was deleted makes the key sets differ. */
  lemma LateJobPartsKeySets<K, V>(hasTimeout: bool, k: K, outcome: Outcome<V>)
    ensures var es := [DoResolve(k, Later), Delete(k), JobDone(0, outcome)];
      && ValidRun(Init<K, V>(hasTimeout), es)
      && var s := After(Init<K, V>(hasTimeout), es);
         k in s.data && k !in s.promises
  {
    var s := Step(Step(Init<K, V>(hasTimeout), DoResolve(k, Later)), Delete(k));
    assert |s.heap| == 1 && s.heap[0] == Cell(Job(k, Later), Open, 0);
    ThreeSteps(Init<K, V>(hasTimeout), DoResolve(k, Later), Delete(k), JobDone(0, outcome));
  }

  /** A job that ends after its key was rejected overwrites the status. */
  lemma LateJobOverwritesStatus<K, V>(hasTimeout: bool, k: K, reason: Reason, v: V)
    ensures var es := [DoResolve(k, Later), DoReject(k, reason), JobDone(0, Fulfilled(v))];
      && ValidRun(Init<K, V>(hasTimeout), es)
      && var s := After(Init<K, V>(hasTimeout), es);
         && k in s.data && s.data[k].status == HasFulfilled
         && k in s.promises && s.promises[k] < |s.heap|
         && End(s.heap, s.promises[k]) == Some(Rejected(reason))
  {
    var s := Step(Step(Init<K, V>(hasTimeout), DoResolve(k, Later)), DoReject(k, reason));
    assert s.heap == [Cell(Job(k, Later), Open, 0), Cell(Immediate, Settled(Rejected(reason)), 0)];
    assert s.promises == map[k := 1];
    ThreeSteps(Init<K, V>(hasTimeout), DoResolve(k, Later), DoReject(k, reason), JobDone(0, Fulfilled(v)));
  }
}
