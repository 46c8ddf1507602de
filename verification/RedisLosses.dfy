/** How results are lost, and what becomes of those who wait for them. */
module RedisLosses {
  import opened Wrappers
  import opened Promises
  import M = PromiseMapModel
  import A = PromiseMapArrival
  import opened RedisModel
  import opened RedisProperties
  import opened RedisDelivery

  /** A listener whose result was published, but neither is under way nor was
      handled. */
  ghost predicate Missed(s: Redis, g: nat) {
    && g < |s.getters| && s.getters[g].Listening?
    && var Listening(task, p, _) := s.getters[g];
       && task in s.store && !InChannel(s, task)
       && task in s.results.promises && s.results.promises[task] == p
       && A.Unsettled(s.results, task)
  }

  /** In every state of every run, a listener has missed its result exactly if a
      step lost it. */
  lemma MissedIffLost(es: seq<Event>, g: nat)
    requires ValidRun(Init(), es) && g < |After(Init(), es).getters|
    requires var s := After(Init(), es); s.getters[g].Listening? && s.getters[g].task in s.store
    ensures Missed(After(Init(), es), g) <==> Lost(Init(), es, After(Init(), es).getters[g].task)
  {
    var s := After(Init(), es);
    var task := s.getters[g].task;
    InitInv();
    RunFate(Init(), es, task, false);
    EveryResultHasAPlace(es, task);
    HeldIsSettled(s, task);
    assert GetterOk(s, s.getters[g]);
  }

  // ---------------------------------------------------------------------------
  // The steps that make a getter miss its result.

  /** The message of a listener arrives. */
  lemma ListenerMissesMessageIff(s: Redis, g: nat)
    requires BaseInv(s) && s.channel != []
    requires g < |s.getters| && s.getters[g].Listening? && s.getters[g].task == s.channel[0].task
    ensures Missed(StepDeliver(s), g) <==> !(s.link == Attached && IsUuid(s.channel[0].task))
  {
    var task := s.channel[0].task;
    FateStep(s, Deliver, task, false);
    StepKeepsBaseInv(s, Deliver);
    HeldIsSettled(StepDeliver(s), task);
    assert GetterOk(StepDeliver(s), s.getters[g]);
  }

  /** The result of a listener is published. */
  lemma ListenerMissesPublishIff(s: Redis, g: nat, payload: Payload)
    requires BaseInv(s) && g < |s.getters| && s.getters[g].Listening? && s.getters[g].task !in s.store
    ensures var t := Step(s, Publish(s.getters[g].task, payload));
      Missed(t, g) <==> s.link == Unsubscribed
  {
    var e := Publish(s.getters[g].task, payload);
    ChannelStep(s, e, s.getters[g].task);
    assert GetterOk(s, s.getters[g]) && TaskOk(s, s.getters[g].task);
  }

  /** A getter whose GET found nothing begins to listen. */
  lemma ReplyListens(s: Redis, g: nat)
    requires BaseInv(s) && g < |s.getters| && s.getters[g].Answered? && s.getters[g].raw == None
    ensures var t := StepReply(s, g);
      var task := s.getters[g].task;
      && BaseInv(t) && t.store == s.store && t.channel == s.channel && t.getters[g].Listening?
      && t.getters[g].task == task
      && (A.Unsettled(t.results, task) <==> A.Unsettled(s.results, task))
  {
    var task := s.getters[g].task;
    StepKeepsBaseInv(s, Reply(g));
    TaskKept(s, Reply(g), task);
    HeldIsSettled(StepReply(s, g), task);
    assert TaskOk(s, task);
  }

  /** The message arrives between GET and reply. */
  lemma DroppedMessageIsMissedIff(s: Redis, g: nat)
    requires M.Inv(s.results) && ChannelOk(s) && s.channel != []
    requires g < |s.getters| && s.getters[g] == Answered(s.channel[0].task, None)
    ensures Enabled(StepDeliver(s), Reply(g))
    ensures Missed(StepReply(StepDeliver(s), g), g) <==> !(s.link == Attached && IsUuid(s.channel[0].task))
  {
    var t := StepDeliver(s);
    var task := s.channel[0].task;
    var u := StepReply(t, g);
    assert !InChannel(t, task) by {
      assert forall i :: 0 <= i < |t.channel| ==> t.channel[i] == s.channel[i + 1];
    }
    if s.link == Attached && IsUuid(task) {
      var e: M.Event<TaskId, Payload> := M.DoResolve(task, M.Plain(s.channel[0].payload));
      A.SettleLocks(s.results, e, task);
    } else {
      A.UnsettledStep(s.results, M.DoGet(task), task);
    }
  }

  /** The result is published between GET and reply. */
  lemma AnsweredMissesPublishIff(s: Redis, g: nat, payload: Payload)
    requires BaseInv(s) && g < |s.getters| && s.getters[g].Answered? && s.getters[g].raw == None
    requires s.getters[g].task !in s.store
    ensures var t := Step(s, Publish(s.getters[g].task, payload));
      Enabled(t, Reply(g)) && (Missed(StepReply(t, g), g) <==> s.link == Unsubscribed)
  {
    var e := Publish(s.getters[g].task, payload);
    var t := Step(s, e);
    StepKeepsBaseInv(s, e);
    ChannelStep(s, e, s.getters[g].task);
    assert TaskOk(s, s.getters[g].task);
    ReplyListens(t, g);
    assert GetterOk(StepReply(t, g), StepReply(t, g).getters[g]);
  }

  // ---------------------------------------------------------------------------
  // After that.

  lemma MissedStaysMissed(s: Redis, e: Event, g: nat)
    requires M.Inv(s.results) && Missed(s, g) && Enabled(s, e)
    ensures M.Inv(Step(s, e).results) && Missed(Step(s, e), g) && Step(s, e).getters[g] == s.getters[g]
  {
    var task := s.getters[g].task;
    MapStep(s, e);
    ChannelStep(s, e, task);
    assert e.Deliver? ==> s.channel[0].task != task;
    TaskKept(s, e, task);
    assert e.Wake? ==> e.getter != g;
  }

  /** Whoever asks next for the task of a missed result misses it too, though it
      is in the store. */
  lemma MissedPoisons(s: Redis, g: nat)
    requires M.Inv(s.results) && Missed(s, g)
    ensures Missed(Step(s, StartGet(s.getters[g].task)), |s.getters|)
  {
    MissedStaysMissed(s, StartGet(s.getters[g].task), g);
  }

  lemma MissedStep(s: Redis, e: Event, g: nat, h: nat)
    requires M.Inv(s.results) && Missed(s, g) && Enabled(s, e)
    requires |s.getters| <= h < |Step(s, e).getters| && Step(s, e).getters[h].task == s.getters[g].task
    ensures Missed(Step(s, e), h)
  {
    assert e == StartGet(s.getters[g].task) && h == |s.getters|;
    MissedPoisons(s, g);
  }

  lemma {:induction false} GettersGrow(s: Redis, es: seq<Event>)
    requires ValidRun(s, es)
    ensures |s.getters| <= |After(s, es).getters|
    ensures forall h :: 0 <= h < |s.getters| ==> After(s, es).getters[h].task == s.getters[h].task
    decreases |es|
  {
    if es != [] {
      GettersGrow(Step(s, es[0]), es[1..]);
    }
  }

  /** A missed result is missed for ever, whatever happens next, by the getter
      that missed it and by everybody who asks for the task afterwards. */
  lemma {:induction false} MissedForEver(s: Redis, es: seq<Event>, g: nat, h: nat)
    requires M.Inv(s.results) && Missed(s, g) && ValidRun(s, es)
    requires h == g || (|s.getters| <= h < |After(s, es).getters| && After(s, es).getters[h].task == s.getters[g].task)
    ensures Missed(After(s, es), h)
    ensures h == g ==> After(s, es).getters[g] == s.getters[g]
    decreases |es|
  {
    if es != [] {
      var t := Step(s, es[0]);
      MissedStaysMissed(s, es[0], g);
      GettersGrow(t, es[1..]);
      if h != g && h < |t.getters| {
        MissedStep(s, es[0], g, h);
        MissedForEver(t, es[1..], h, h);
      } else {
        MissedForEver(t, es[1..], g, h);
      }
    }
  }

  // ---------------------------------------------------------------------------
  // Runs that lose a result.

  /** The states of a run, one after the other. */
  ghost predicate Trace(es: seq<Event>, states: seq<Redis>) {
    && |states| == |es| + 1
    && forall i :: 0 <= i < |es| ==> Enabled(states[i], es[i]) && states[i + 1] == Step(states[i], es[i])
  }

  lemma {:induction false} TraceIsRun(es: seq<Event>, states: seq<Redis>)
    requires Trace(es, states)
    ensures ValidRun(states[0], es) && After(states[0], es) == states[|es|]
    decreases |es|
  {
    if es != [] {
      TraceIsRun(es[1..], states[1..]);
    }
  }

  lemma {:induction false} RunAppend(s: Redis, es: seq<Event>, fs: seq<Event>)
    requires ValidRun(s, es) && ValidRun(After(s, es), fs)
    ensures ValidRun(s, es + fs) && After(s, es + fs) == After(After(s, es), fs)
    decreases |es|
  {
    if es == [] {
      assert es + fs == fs;
    } else {
      assert (es + fs)[1..] == es[1..] + fs;
      RunAppend(Step(s, es[0]), es[1..], fs);
    }
  }

  /** The first getter asks Redis for the task. */
  function Ask(task: TaskId): seq<Event> {
    [StartGet(task), Acquire, ServeGet(0)]
  }

  /** Its GET found nothing. */
  ghost function Answering(s: Redis, task: TaskId): Redis {
    s.(getters := [Answered(task, None)], holder := Some(0))
  }

  lemma AskInVain(s: Redis, task: TaskId)
    requires s == Init().(link := s.link, store := s.store) && task !in s.store
    ensures ValidRun(s, Ask(task)) && After(s, Ask(task)) == Answering(s, task)
  {
    var s1 := Step(s, StartGet(task));
    var s2 := Step(s1, Acquire);
    TraceIsRun(Ask(task), [s, s1, s2, Step(s2, ServeGet(0))]);
  }

  /** For every task: its result is published before PSUBSCRIBE took effect. */
  lemma PublishedTooEarly(task: TaskId, payload: Payload)
    ensures var es := Ask(task) + [Publish(task, payload), Reply(0)];
      ValidRun(Init(), es) && Missed(After(Init(), es), 0)
  {
    var s := Answering(Init(), task);
    var s1 := Step(s, Publish(task, payload));
    AskInVain(Init(), task);
    TraceIsRun([Publish(task, payload), Reply(0)], [s, s1, Step(s1, Reply(0))]);
    RunAppend(Init(), Ask(task), [Publish(task, payload), Reply(0)]);
  }

  /** Publish and deliver the result while the link is as it is, then reply. */
  function Drop(task: TaskId, payload: Payload): seq<Event> {
    [Publish(task, payload), Deliver, Reply(0)]
  }

  lemma DropMisses(link: Link, task: TaskId, payload: Payload)
    requires link != Unsubscribed && !(link == Attached && IsUuid(task))
    ensures var s := Answering(Init().(link := link), task);
      ValidRun(s, Drop(task, payload)) && Missed(After(s, Drop(task, payload)), 0)
  {
    var s := Answering(Init().(link := link), task);
    var s1 := Step(s, Publish(task, payload));
    var s2 := Step(s1, Deliver);
    TraceIsRun(Drop(task, payload), [s, s1, s2, Step(s2, Reply(0))]);
  }

  /** For every task: its message arrives before the handler is attached. */
  lemma DeliveredTooEarly(task: TaskId, payload: Payload)
    ensures var es := Ask(task) + ([PSubscribe] + Drop(task, payload));
      ValidRun(Init(), es) && Missed(After(Init(), es), 0)
  {
    var s := Answering(Init(), task);
    AskInVain(Init(), task);
    assert Step(s, PSubscribe) == Answering(Init().(link := Subscribed), task);
    DropMisses(Subscribed, task, payload);
    TraceIsRun([PSubscribe], [s, Step(s, PSubscribe)]);
    RunAppend(s, [PSubscribe], Drop(task, payload));
    RunAppend(Init(), Ask(task), [PSubscribe] + Drop(task, payload));
  }

  /** For every task that is no UUID: even when its GET comes after the handler
      is attached. */
  lemma NotAUuid(task: TaskId, payload: Payload)
    requires !IsUuid(task)
    ensures var es := [PSubscribe, Attach] + (Ask(task) + Drop(task, payload));
      ValidRun(Init(), es) && Missed(After(Init(), es), 0)
  {
    var s := Init().(link := Attached);
    TraceIsRun([PSubscribe, Attach], [Init(), Init().(link := Subscribed), s]);
    AskInVain(s, task);
    DropMisses(Attached, task, payload);
    RunAppend(s, Ask(task), Drop(task, payload));
    RunAppend(Init(), [PSubscribe, Attach], Ask(task) + Drop(task, payload));
  }

  /** One getter listens, another queues, and nothing can move. */
  lemma StandsStill(s: Redis, task: TaskId, other: TaskId)
    requires s.link == Attached && s.channel == [] && s.getters == [Listening(task, 0, true), Queued(other)]
    requires s.holder == Some(0) && s.results.heap == [M.Cell(M.Waiter(task), M.Open, 0)]
    ensures Drained(s)
  {
  }

  lemma QueueBehind(s: Redis, task: TaskId, other: TaskId)
    requires s == Init().(link := Attached, store := s.store) && task != other
    ensures var t := Answering(s, task);
      && ValidRun(t, [Reply(0), StartGet(other)])
      && var u := After(t, [Reply(0), StartGet(other)]);
         Drained(u) && u.store == s.store && |u.getters| == 2 && u.getters[1] == Queued(other)
  {
    var t := Answering(s, task);
    var t1 := Step(t, Reply(0));
    var t2 := Step(t1, StartGet(other));
    StandsStill(t2, task, other);
    TraceIsRun([Reply(0), StartGet(other)], [t, t1, t2]);
  }

  /** One getter without a result is enough to keep another from a result that
      is in the store, in a drained state. */
  lemma BlockedForGood(task: TaskId, other: TaskId, payload: Payload)
    requires task != other
    ensures var es := [Publish(other, payload), PSubscribe, Attach] + (Ask(task) + [Reply(0), StartGet(other)]);
      && ValidRun(Init(), es) && Drained(After(Init(), es))
      && |After(Init(), es).getters| == 2 && After(Init(), es).getters[1] == Queued(other)
      && other in After(Init(), es).store
  {
    var s1 := Init().(store := map[other := payload]);
    var s := s1.(link := Attached);
    TraceIsRun([Publish(other, payload), PSubscribe, Attach], [Init(), s1, s1.(link := Subscribed), s]);
    AskInVain(s, task);
    QueueBehind(s, task, other);
    RunAppend(s, Ask(task), [Reply(0), StartGet(other)]);
    RunAppend(Init(), [Publish(other, payload), PSubscribe, Attach], Ask(task) + [Reply(0), StartGet(other)]);
  }
}
