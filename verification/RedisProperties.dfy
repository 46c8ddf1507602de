/** What every interleaving keeps, and what those keep in which GETs come after
    the message handler is attached. */
module RedisProperties {
  import opened Wrappers
  import opened Promises
  import M = PromiseMapModel
  import P = PromiseMapProperties
  import S = PromiseMapStatus
  import A = PromiseMapArrival
  import opened RedisModel

  lemma InitInv()
    ensures Inv(Init())
  {
    M.InitInv<TaskId, Payload>(true);
  }

  /** The step of the promise map that a step makes, if it makes one. */
  ghost function MapEvent(s: Redis, e: Event): Option<M.Event<TaskId, Payload>>
    requires Enabled(s, e)
  {
    match e
    case StartGet(task) => if task in s.results.promises then Some(M.DoGet(task)) else None
    case Reply(g) =>
      var Answered(task, raw) := s.getters[g];
      if raw.Some? && raw.value.success then None else Some(M.DoGet(task))
    case Deliver =>
      if Handles(s) then Some(M.DoResolve(s.channel[0].task, M.Plain(s.channel[0].payload))) else None
    case Finish(j) => Some(M.JobDone(j, Fulfilled(s.results.heap[j].origin.input.value)))
    case _ => None
  }

  lemma MapStep(s: Redis, e: Event)
    requires M.Inv(s.results) && Enabled(s, e)
    ensures M.Inv(Step(s, e).results)
    ensures match MapEvent(s, e)
      case None => Step(s, e).results == s.results
      case Some(m) => M.Enabled(s.results, m) && Step(s, e).results == M.Step(s.results, m)
  {
    if MapEvent(s, e).Some? {
      M.StepKeepsInv(s.results, MapEvent(s, e).value);
    }
  }

  ghost predicate Settles(s: Redis, e: Event, task: TaskId)
    requires Enabled(s, e)
  {
    e.Deliver? && Handles(s) && s.channel[0].task == task
  }

  /** What a step keeps of a task that it does not settle. */
  lemma TaskKept(s: Redis, e: Event, task: TaskId)
    requires M.Inv(s.results) && Enabled(s, e) && !Settles(s, e, task)
    ensures var t := Step(s, e);
      && (A.Unsettled(s.results, task) ==> A.Unsettled(t.results, task))
      && (Held(s, task) ==> Held(t, task))
      && ((A.Unsettled(s.results, task) || Held(s, task)) && task in s.results.promises ==>
            task in t.results.promises && t.results.promises[task] == s.results.promises[task])
      && (task in t.results.promises ==> task in s.results.promises || MapEvent(s, e) == Some(M.DoGet(task)))
  {
    MapStep(s, e);
    if MapEvent(s, e).Some? {
      var m := MapEvent(s, e).value;
      if m != M.DoGet(task) {
        A.NeutralStep(s.results, m, task);
      }
      if A.Unsettled(s.results, task) {
        A.UnsettledStep(s.results, m, task);
      }
      HeldKept(s, e, m, task);
    }
  }

  lemma HeldKept(s: Redis, e: Event, m: M.Event<TaskId, Payload>, task: TaskId)
    requires M.Inv(s.results) && Enabled(s, e) && MapEvent(s, e) == Some(m) && M.Enabled(s.results, m)
    requires A.Neutral(s.results, m, task) && Step(s, e).results == M.Step(s.results, m)
    ensures Held(s, task) ==>
      && Held(Step(s, e), task)
      && Step(s, e).results.promises[task] == s.results.promises[task]
  {
    if Held(s, task) {
      var j: M.Pid :| A.Locked(s.results, task, A.ByJob(j, M.Plain(s.store[task])));
      A.LockedStep(s.results, m, task, A.ByJob(j, M.Plain(s.store[task])));
    }
  }

  /** A message that is handled settles its task with the stored result. */
  lemma TaskSettled(s: Redis)
    requires BaseInv(s) && Enabled(s, Deliver) && Handles(s)
    ensures var t := Step(s, Deliver);
      var task := s.channel[0].task;
      && Held(t, task)
      && (task in s.results.promises ==> t.results.promises[task] == s.results.promises[task])
  {
    A.SettleLocks(s.results, MapEvent(s, Deliver).value, s.channel[0].task);
  }

  /** A held result is settled. */
  lemma HeldIsSettled(s: Redis, task: TaskId)
    ensures !(Held(s, task) && A.Unsettled(s.results, task))
  {
  }

  /** What a step keeps of any task. */
  lemma PromiseKept(s: Redis, e: Event, task: TaskId)
    requires BaseInv(s) && Enabled(s, e)
    ensures var t := Step(s, e);
      && TaskOk(t, task)
      && (task in s.store ==> task in t.store && t.store[task] == s.store[task])
      && (task in s.results.promises ==>
            task in t.results.promises && t.results.promises[task] == s.results.promises[task])
  {
    assert TaskOk(s, task);
    if Settles(s, e, task) {
      TaskSettled(s);
    } else {
      TaskKept(s, e, task);
    }
  }

  lemma ChannelKept(s: Redis, e: Event)
    requires BaseInv(s) && Enabled(s, e)
    ensures ChannelOk(Step(s, e))
  {
    var t := Step(s, e);
    forall i | 0 <= i < |t.channel|
      ensures t.channel[i].task in t.store && t.store[t.channel[i].task] == t.channel[i].payload
      ensures A.Unsettled(t.results, t.channel[i].task)
    {
      assert TaskOk(s, t.channel[i].task);
      assert e.Deliver? ==> t.channel[i] == s.channel[i + 1];
      TaskKept(s, e, t.channel[i].task);
    }
    assert e.Deliver? ==> forall i :: 0 <= i < |t.channel| ==> t.channel[i] == s.channel[i + 1];
  }

  lemma GetterStays(s: Redis, t: Redis, g: Getter)
    requires GetterOk(s, g)
    requires g.task in s.store ==> g.task in t.store && t.store[g.task] == s.store[g.task]
    requires g.task in s.results.promises ==>
      g.task in t.results.promises && t.results.promises[g.task] == s.results.promises[g.task]
    ensures GetterOk(t, g)
  {
  }

  ghost predicate Moves(s: Redis, e: Event, g: nat) {
    g == |s.getters| || e in {ServeGet(g), Reply(g), Wake(g)} || (e == Acquire && [g] <= s.queue)
  }

  /** A getter that listens got there by its own GET or found the promise. */
  lemma GetterMoves(s: Redis, e: Event, g: nat)
    requires BaseInv(s) && Enabled(s, e) && g < |Step(s, e).getters| && Moves(s, e, g)
    ensures GetterOk(Step(s, e), Step(s, e).getters[g])
  {
    if g < |s.getters| {
      assert GetterOk(s, s.getters[g]);
    }
    if e == Wake(g) {
      WakeIsRight(s, g);
    }
  }

  lemma GetterKept(s: Redis, e: Event, g: nat)
    requires BaseInv(s) && Enabled(s, e) && g < |Step(s, e).getters|
    ensures GetterOk(Step(s, e), Step(s, e).getters[g])
  {
    if Moves(s, e, g) {
      GetterMoves(s, e, g);
    } else {
      PromiseKept(s, e, s.getters[g].task);
      GetterStays(s, Step(s, e), s.getters[g]);
    }
  }

  /** A getter that wakes up gets the stored result. */
  lemma WakeIsRight(s: Redis, g: nat)
    requires BaseInv(s) && Enabled(s, Wake(g))
    ensures s.getters[g].task in s.store
    ensures M.End(s.results.heap, s.getters[g].promise).value.value == s.store[s.getters[g].task]
  {
    var Listening(task, p, _) := s.getters[g];
    assert GetterOk(s, s.getters[g]) && TaskOk(s, task);
    var j: M.Pid :| A.Locked(s.results, task, A.ByJob(j, M.Plain(s.store[task])));
    A.LockedEnds(s.results, task, A.ByJob(j, M.Plain(s.store[task])));
  }

  lemma StepKeepsBaseInv(s: Redis, e: Event)
    requires BaseInv(s) && Enabled(s, e)
    ensures BaseInv(Step(s, e))
  {
    var t := Step(s, e);
    MapStep(s, e);
    ChannelKept(s, e);
    forall task
      ensures TaskOk(t, task)
    {
      PromiseKept(s, e, task);
    }
    forall g | 0 <= g < |t.getters|
      ensures GetterOk(t, t.getters[g])
    {
      GetterKept(s, e, g);
    }
  }

  // ---------------------------------------------------------------------------
  // Where each result is.

  lemma ChannelStep(s: Redis, e: Event, task: TaskId)
    requires (ChannelOk(s) || !InChannel(s, task)) && Enabled(s, e)
    ensures var t := Step(s, e);
      InChannel(t, task) <==>
        match e
        case Publish(published, _) => InChannel(s, task) || (published == task && s.link != Unsubscribed)
        case Deliver => InChannel(s, task) && s.channel[0].task != task
        case _ => InChannel(s, task)
  {
    var t := Step(s, e);
    match e
    case Publish(published, _) =>
      if s.link != Unsubscribed {
        assert t.channel[|s.channel|].task == published;
        assert forall i :: 0 <= i < |s.channel| ==> t.channel[i] == s.channel[i];
      }
    case Deliver =>
      assert forall i :: 0 <= i < |t.channel| ==> t.channel[i] == s.channel[i + 1];
      if i :| 0 <= i < |s.channel| && s.channel[i].task == task && s.channel[0].task != task {
        assert t.channel[i - 1].task == task;
      }
    case _ =>
  }

  /** A result is lost by the steps that lose it, and only by them. */
  lemma FateStep(s: Redis, e: Event, task: TaskId, lost: bool)
    requires BaseInv(s) && Fate(s, task, lost) && Enabled(s, e)
    ensures Fate(Step(s, e), task, lost || Loses(s, e, task))
  {
    assert TaskOk(s, task);
    ChannelStep(s, e, task);
    if Settles(s, e, task) {
      TaskSettled(s);
    } else {
      TaskKept(s, e, task);
    }
  }

  lemma {:induction false} RunFate(s: Redis, es: seq<Event>, task: TaskId, lost: bool)
    requires BaseInv(s) && Fate(s, task, lost) && ValidRun(s, es)
    ensures BaseInv(After(s, es)) && Fate(After(s, es), task, lost || Lost(s, es, task))
    decreases |es|
  {
    if es != [] {
      StepKeepsBaseInv(s, es[0]);
      FateStep(s, es[0], task, lost);
      RunFate(Step(s, es[0]), es[1..], task, lost || Loses(s, es[0], task));
    }
  }

  /** In every state of every run, a stored result is in one of three places: it
      was lost and nobody has settled its task, or it is under way, or the map
      holds it. */
  lemma EveryResultHasAPlace(es: seq<Event>, task: TaskId)
    requires ValidRun(Init(), es) && task in After(Init(), es).store
    ensures var s := After(Init(), es);
      && (Lost(Init(), es, task) ==> A.Unsettled(s.results, task) && !InChannel(s, task) && !Held(s, task))
      && (InChannel(s, task) ==> !Held(s, task) && !Lost(Init(), es, task))
      && (Lost(Init(), es, task) || InChannel(s, task) || Held(s, task))
  {
    InitInv();
    RunFate(Init(), es, task, false);
    var s := After(Init(), es);
    HeldIsSettled(s, task);
    assert InChannel(s, task) ==> A.Unsettled(s.results, task);
  }

  // ---------------------------------------------------------------------------
  // GETs after the handler is attached.

  lemma WatchedKept(s: Redis, e: Event, task: TaskId)
    requires BaseInv(s) && Enabled(s, e) && Watched(s, task)
    ensures Watched(Step(s, e), task)
  {
    if Good(Step(s, e), task) {
      assert Good(s, task) by {
        PromiseKept(s, e, task);
      }
      FateStep(s, e, task, false);
    }
  }

  lemma StepKeepsInv(s: Redis, e: Event)
    requires Inv(s) && Enabled(s, e) && (e.ServeGet? ==> s.link == Attached)
    ensures Inv(Step(s, e))
  {
    var t := Step(s, e);
    StepKeepsBaseInv(s, e);
    forall task | task in t.results.promises
      ensures Watched(t, task)
    {
      NewPromiseWatched(s, e, task);
      WatchedKept(s, e, task);
    }
    forall g | 0 <= g < |t.getters| && Waits(t.getters[g])
      ensures Watched(t, t.getters[g].task)
    {
      if e != ServeGet(g) {
        WatchedKept(s, e, t.getters[g].task);
      }
    }
  }

  /** A promise is made for a task that is watched already. */
  lemma NewPromiseWatched(s: Redis, e: Event, task: TaskId)
    requires Inv(s) && Enabled(s, e) && task in Step(s, e).results.promises
    ensures Watched(s, task)
  {
    assert TaskOk(s, task);
    if task !in s.results.promises {
      if Settles(s, e, task) {
        assert InChannel(s, task);
      } else {
        TaskKept(s, e, task);
        if e.Reply? {
          assert GetterOk(s, s.getters[e.getter]);
        }
      }
    }
  }

  lemma {:induction false} RunKeepsInv(s: Redis, es: seq<Event>)
    requires Inv(s) && ValidRun(s, es) && GetsAfterAttach(s, es)
    ensures Inv(After(s, es))
    decreases |es|
  {
    if es != [] {
      StepKeepsInv(s, es[0]);
      RunKeepsInv(Step(s, es[0]), es[1..]);
    }
  }
}
