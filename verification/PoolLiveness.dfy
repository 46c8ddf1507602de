/** When waiting calls can still be served, and waiting `destroyAll()` calls can
    still go on. */
module PoolLiveness {
  import opened PoolModel
  import opened PoolProperties

  /** A pool whose every slot was destroyed, dropped or lost to a failed
      create(), with the cap reached. */
  ghost predicate Dead(s: Pool) {
    && s.core.count == s.core.max && s.creating == {}
    && forall r :: r in s.place ==> s.place[r].Destroyed? || s.place[r].Dropped?
  }

  lemma DeadStep(s: Pool, e: Event)
    requires Inv(s) && Dead(s) && Enabled(s, e)
    ensures var t := Step(s, e);
      && Dead(t) && t.served == s.served
      && t.core.waiting == (if e == Get then s.core.waiting + [s.calls] else s.core.waiting)
      && t.calls == (if e == Get then s.calls + 1 else s.calls)
  {
    Nonempty(s.core.unused);
    assert s.core.unused == [] && s.core.inUse == {};
  }

  /** `destroyAll()` never frees a slot and neither does a failed create(): once
      the pool is dead, every later get() waits for ever. */
  lemma {:induction false} DeadPoolStarvesEveryone(s: Pool, es: seq<Event>)
    requires Inv(s) && Dead(s) && ValidRun(s, es)
    ensures var t := After(s, es);
      && Dead(t) && t.served == s.served
      && s.core.waiting <= t.core.waiting
      && |t.core.waiting| - |s.core.waiting| == t.calls - s.calls
    decreases |es|
  {
    if es != [] {
      StepKeepsInv(s, es[0]);
      DeadStep(s, es[0]);
      DeadPoolStarvesEveryone(Step(s, es[0]), es[1..]);
    }
  }

  // ---------------------------------------------------------------------------
  // A pool that is not dead.

  lemma {:induction false} RunAppend(s: Pool, es: seq<Event>, fs: seq<Event>)
    requires ValidRun(s, es) && ValidRun(After(s, es), fs)
    ensures ValidRun(s, es + fs) && After(s, es + fs) == After(After(s, es), fs)
    decreases |es|
  {
    if es == [] {
      assert es + fs == fs;
    } else {
      assert (es + fs)[1..] == es[1..] + fs;
      RunAppend(Step(s, es[0]), es[1..], fs);
    }
  }

  /** There is always another resource. */
  lemma {:induction false} FreshResource(used: set<Resource>) returns (r: Resource)
    ensures r !in used && forall q :: q in used ==> q.id < r.id
    decreases used
  {
    if used == {} {
      r := Resource(0);
    } else {
      var q :| q in used;
      var p := FreshResource(used - {q});
      r := Resource(if p.id <= q.id then q.id + 1 else p.id);
      assert forall x :: x in used ==> x == q || x in used - {q};
    }
  }

  ghost predicate SomebodyHas(s: Pool) {
    exists r :: r in s.place && Engaged(s.place[r])
  }

  /** `t` is `s` with its first waiting call served. */
  ghost predicate ServedOne(s: Pool, t: Pool)
    requires s.core.waiting != []
  {
    && t.served == s.served + [s.core.waiting[0]] && t.core.waiting == s.core.waiting[1..]
    && t.awaiting == s.awaiting && t.ready == s.ready
    && SomebodyHas(t)
  }

  lemma ServeFromHolder(s: Pool, r: Resource)
    requires Inv(s) && s.core.waiting != [] && r in s.place && s.place[r].Held?
    ensures ServedOne(s, Step(s, GiveBack(r)))
  {
    assert Step(s, GiveBack(r)).place[r].Transit?;
  }

  lemma ServeFromTransit(s: Pool, r: Resource) returns (es: seq<Event>)
    requires Inv(s) && s.core.waiting != [] && r in s.place && Engaged(s.place[r])
    ensures ValidRun(s, es) && Inv(After(s, es)) && ServedOne(s, After(s, es))
  {
    var t := s;
    if s.place[r].Transit? {
      t := Step(s, Deliver(r));
      StepKeepsInv(s, Deliver(r));
    }
    StepKeepsInv(t, GiveBack(r));
    ServeFromHolder(t, r);
    RunCons(t, GiveBack(r), []);
    es := [GiveBack(r)] + [];
    if s.place[r].Transit? {
      RunCons(s, Deliver(r), es);
      es := [Deliver(r)] + es;
    }
  }

  /** A pool that is not dead serves the first waiting call in some run without
      further get() calls. */
  lemma ServeOne(s: Pool) returns (es: seq<Event>)
    requires Inv(s) && s.core.waiting != [] && !Dead(s)
    ensures ValidRun(s, es) && Inv(After(s, es)) && ServedOne(s, After(s, es))
  {
    if r :| r in s.place && Engaged(s.place[r]) {
      es := ServeFromTransit(s, r);
    } else {
      assert forall r :: r in s.place ==> !s.place[r].Idle?;
      var c :| c in s.creating;
      var r := FreshResource(s.place.Keys);
      var t := Step(s, CreateDone(c, r));
      StepKeepsInv(s, CreateDone(c, r));
      es := ServeFromTransit(t, r);
      RunCons(s, CreateDone(c, r), es);
      es := [CreateDone(c, r)] + es;
    }
  }

  /** `t` is `s` with all its waiting calls served. */
  ghost predicate ServedAll(s: Pool, t: Pool) {
    && t.core.waiting == [] && t.served == s.served + s.core.waiting
    && t.awaiting == s.awaiting && t.ready == s.ready
    && (s.core.waiting != [] || SomebodyHas(s) ==> SomebodyHas(t))
  }

  lemma ServedOneThenAll(s: Pool, t: Pool, u: Pool)
    requires s.core.waiting != [] && ServedOne(s, t) && ServedAll(t, u)
    ensures ServedAll(s, u)
  {
    assert s.core.waiting == [s.core.waiting[0]] + t.core.waiting;
    assert s.served + s.core.waiting == t.served + t.core.waiting;
  }

  /** And so it serves all of them. */
  lemma {:induction false} ServeAll(s: Pool) returns (es: seq<Event>)
    requires Inv(s) && (s.core.waiting != [] ==> !Dead(s))
    ensures ValidRun(s, es) && Inv(After(s, es)) && ServedAll(s, After(s, es))
    decreases |s.core.waiting|
  {
    es := [];
    if s.core.waiting != [] {
      es := ServeOne(s);
      var t := After(s, es);
      SomebodyIsAlive(t);
      var fs := ServeAll(t);
      ServedOneThenAll(s, t, After(t, fs));
      RunAppend(s, es, fs);
      es := es + fs;
    }
  }

  lemma SomebodyIsAlive(s: Pool)
    requires SomebodyHas(s)
    ensures !Dead(s)
  {
  }

  /** Exactly when a pool can serve no waiting call any more. */
  lemma DeadIff(s: Pool)
    requires Inv(s) && s.core.waiting != []
    ensures Dead(s) <==> forall es :: ValidRun(s, es) ==> After(s, es).served == s.served
  {
    if Dead(s) {
      forall es | ValidRun(s, es)
        ensures After(s, es).served == s.served
      {
        DeadPoolStarvesEveryone(s, es);
      }
    } else {
      var es := ServesSome(s);
    }
  }

  lemma ServesSome(s: Pool) returns (es: seq<Event>)
    requires Inv(s) && s.core.waiting != [] && !Dead(s)
    ensures ValidRun(s, es) && After(s, es).served != s.served
  {
    es := ServeAll(s);
    var t := After(s, es);
    assert t.served == s.served + s.core.waiting;
    assert |t.served| > |s.served|;
  }

  /** For every cap, failed creations alone make a pool dead: `max` calls of
      get(), each of whose create() fails. */
  lemma {:induction false} FailuresKill(max: nat, n: nat) returns (es: seq<Event>)
    requires n <= max
    ensures ValidRun(Init(max), es)
    ensures var t := After(Init(max), es);
      t == Init(max).(core := Init(max).core.(count := n), calls := n, failed := n)
    ensures n == max ==> Dead(After(Init(max), es))
  {
    es := [];
    if n > 0 {
      es := FailuresKill(max, n - 1);
      var s := After(Init(max), es);
      var t := Step(s, Get);
      assert t.creating == {n - 1};
      assert Step(t, CreateFailed(n - 1)).creating == {};
      RunCons(t, CreateFailed(n - 1), []);
      RunCons(s, Get, [CreateFailed(n - 1)] + []);
      RunAppend(Init(max), es, [Get] + ([CreateFailed(n - 1)] + []));
      es := es + ([Get] + ([CreateFailed(n - 1)] + []));
    }
  }

  /** So does a complete `destroyAll()` of a full pool. */
  lemma DestroyAllKills(s: Pool)
    requires Inv(s) && AllDestroyed(s) && s.core.count == s.core.max
    ensures Dead(s)
  {
    AllDestroyedMeans(s);
  }

  // ---------------------------------------------------------------------------
  // Waiting destroyAll() calls.

  /** A `destroyAll()` waits only while somebody has a resource. */
  ghost predicate AwaitsSomebody(s: Pool) {
    s.awaiting != {} ==> SomebodyHas(s)
  }

  lemma StepKeepsAwaits(s: Pool, e: Event)
    requires Inv(s) && AwaitsSomebody(s) && Enabled(s, e)
    ensures AwaitsSomebody(Step(s, e))
  {
    if Step(s, e).awaiting != {} {
      assert s.awaiting != {} || SomebodyHas(s) by {
        if s.awaiting == {} {
          var r :| r in s.core.inUse;
        }
      }
      if e.GiveBack? && e.resource in s.core.inUse {
        ReturnLeavesSomebody(s, e.resource);
      } else if !e.GiveBack? {
        var r :| r in s.place && Engaged(s.place[r]);
        HeldAcrossStep(s, e, r);
      }
    }
  }

  lemma ReturnLeavesSomebody(s: Pool, r: Resource)
    requires Inv(s) && r in s.core.inUse
    ensures var t := Step(s, GiveBack(r));
      SomebodyHas(t) || t.awaiting == {}
  {
    var t := Step(s, GiveBack(r));
    if s.core.waiting != [] {
      assert t.place[r].Transit?;
    } else if s.core.inUse - {r} != {} {
      var q :| q in s.core.inUse - {r};
      HeldAcrossStep(s, GiveBack(r), q);
    }
  }

  lemma {:induction false} RunKeepsAwaits(s: Pool, es: seq<Event>)
    requires Inv(s) && AwaitsSomebody(s) && ValidRun(s, es)
    ensures Inv(After(s, es)) && AwaitsSomebody(After(s, es))
    decreases |es|
  {
    if es != [] {
      StepKeepsInv(s, es[0]);
      StepKeepsAwaits(s, es[0]);
      RunKeepsAwaits(Step(s, es[0]), es[1..]);
    }
  }

  /** Give back what is held until the pool is empty. */
  lemma {:induction false} GiveBackAll(s: Pool) returns (es: seq<Event>)
    requires Inv(s) && s.core.waiting == [] && s.core.inUse != {}
    ensures ValidRun(s, es) && s.awaiting <= After(s, es).ready
    decreases |s.core.inUse|
  {
    var r :| r in s.core.inUse;
    var t := Step(s, GiveBack(r));
    StepKeepsInv(s, GiveBack(r));
    es := [];
    if t.core.inUse != {} {
      es := GiveBackAll(t);
    }
    RunCons(s, GiveBack(r), es);
    es := [GiveBack(r)] + es;
  }

  /** No `destroyAll()` is stranded: from every state of every run, each one that
      waits can still be woken. */
  lemma WaitingDestroyAllCanGoOn(max: nat, before: seq<Event>, d: nat) returns (es: seq<Event>)
    requires ValidRun(Init(max), before) && d in After(Init(max), before).awaiting
    ensures ValidRun(After(Init(max), before), es) && d in After(After(Init(max), before), es).ready
  {
    InitInv(max);
    RunKeepsAwaits(Init(max), before);
    var s := After(Init(max), before);
    SomebodyIsAlive(s);
    es := ServeAll(s);
    var t := After(s, es);
    var r :| r in t.place && Engaged(t.place[r]);
    var fs: seq<Event>;
    if t.core.inUse != {} {
      fs := GiveBackAll(t);
    } else {
      var u := Step(t, Deliver(r));
      StepKeepsInv(t, Deliver(r));
      fs := GiveBackAll(u);
      RunCons(t, Deliver(r), fs);
      fs := [Deliver(r)] + fs;
    }
    RunAppend(s, es, fs);
    es := es + fs;
  }
}
