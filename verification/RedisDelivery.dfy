/** Delivery of results: safety in every state, who has a result once the steps
    drain, termination of the draining, and the one client connection. */
module RedisDelivery {
  import opened Wrappers
  import opened Promises
  import M = PromiseMapModel
  import S = PromiseMapStatus
  import A = PromiseMapArrival
  import opened RedisModel
  import opened RedisProperties

  /** No lost result. At every moment of every run, a getter of a published
      result has it, or has a GET to come or a reply that carries it, or the
      message is undelivered or held under its task. */
  lemma NoLostResult(es: seq<Event>, g: nat)
    requires ValidRun(Init(), es) && GetsAfterAttach(Init(), es)
    requires var s := After(Init(), es);
      g < |s.getters| && s.getters[g].task in s.store && Good(s, s.getters[g].task)
    ensures var s := After(Init(), es);
      var task := s.getters[g].task;
      match s.getters[g]
      case Queued(_) => true
      case Asked(_) => true
      case Answered(_, Some(v)) => v == s.store[task] && v.success
      case Answered(_, None) => InChannel(s, task) || Held(s, task)
      case Listening(_, p, _) =>
        && task in s.results.promises && p == s.results.promises[task]
        && (InChannel(s, task) || Held(s, task))
      case Done(_, v) => v == s.store[task]
  {
    InitInv();
    RunKeepsInv(Init(), es);
    var s := After(Init(), es);
    assert GetterOk(s, s.getters[g]) && TaskOk(s, s.getters[g].task);
  }

  // ---------------------------------------------------------------------------
  // The client connection.

  predicate Holds(g: Getter) {
    g.Asked? || g.Answered? || (g.Listening? && g.holds)
  }

  /** The queue lists exactly the queued getters, and `holder` is the only one
      with the connection. */
  ghost predicate ConnectionOk(s: Redis) {
    OnlyQueued(s) && AllQueued(s) && OneHolds(s)
  }

  ghost predicate OnlyQueued(s: Redis) {
    && (forall i :: 0 <= i < |s.queue| ==> s.queue[i] < |s.getters| && s.getters[s.queue[i]].Queued?)
    && (forall i, j :: 0 <= i < j < |s.queue| ==> s.queue[i] != s.queue[j])
  }

  ghost predicate AllQueued(s: Redis) {
    forall g :: 0 <= g < |s.getters| && s.getters[g].Queued? ==> g in s.queue
  }

  ghost predicate OneHolds(s: Redis) {
    && (forall g :: 0 <= g < |s.getters| ==> (Holds(s.getters[g]) <==> s.holder == Some(g)))
    && (s.holder.Some? ==> s.holder.value < |s.getters|)
  }

  /** `t` is `s` with a new getter, which listens without the connection or goes
      to the end of the queue. */
  ghost predicate Starts(s: Redis, t: Redis, g: Getter) {
    && t.getters == s.getters + [g] && t.holder == s.holder && !Holds(g)
    && t.queue == if g.Queued? then s.queue + [|s.getters|] else s.queue
  }

  lemma StartKeepsOnlyQueued(s: Redis, t: Redis, g: Getter)
    requires OnlyQueued(s) && Starts(s, t, g)
    ensures OnlyQueued(t)
  {
    assert forall h :: 0 <= h < |s.getters| ==> t.getters[h] == s.getters[h];
    assert forall i :: 0 <= i < |s.queue| ==> t.queue[i] == s.queue[i];
  }

  lemma StartKeepsAllQueued(s: Redis, t: Redis, g: Getter)
    requires AllQueued(s) && Starts(s, t, g)
    ensures AllQueued(t)
  {
    assert forall h :: 0 <= h < |s.getters| ==> t.getters[h] == s.getters[h];
    assert forall h :: h in s.queue ==> h in t.queue;
    assert g.Queued? ==> t.queue[|s.queue|] == |s.getters|;
  }

  lemma StartKeepsOneHolds(s: Redis, t: Redis, g: Getter)
    requires OneHolds(s) && Starts(s, t, g)
    ensures OneHolds(t)
  {
    assert forall h :: 0 <= h < |s.getters| ==> t.getters[h] == s.getters[h];
  }

  lemma StartKeepsConnection(s: Redis, t: Redis, g: Getter)
    requires ConnectionOk(s) && Starts(s, t, g)
    ensures ConnectionOk(t)
  {
    StartKeepsOnlyQueued(s, t, g);
    StartKeepsAllQueued(s, t, g);
    StartKeepsOneHolds(s, t, g);
  }

  lemma AcquireKeepsOnlyQueued(s: Redis)
    requires OnlyQueued(s) && Enabled(s, Acquire)
    ensures OnlyQueued(Step(s, Acquire))
  {
    var t := Step(s, Acquire);
    assert forall i :: 0 <= i < |t.queue| ==> t.queue[i] == s.queue[i + 1];
  }

  lemma AcquireKeepsAllQueued(s: Redis)
    requires AllQueued(s) && Enabled(s, Acquire)
    ensures AllQueued(Step(s, Acquire))
  {
    var t := Step(s, Acquire);
    assert s.queue == [s.queue[0]] + t.queue;
  }

  lemma AcquireKeepsConnection(s: Redis)
    requires ConnectionOk(s) && Enabled(s, Acquire)
    ensures ConnectionOk(Step(s, Acquire))
  {
    AcquireKeepsOnlyQueued(s);
    AcquireKeepsAllQueued(s);
  }

  /** A getter that does not queue goes on, keeping or freeing the connection. */
  lemma MoveKeepsConnection(s: Redis, t: Redis, g: nat)
    requires ConnectionOk(s) && g < |s.getters| && !s.getters[g].Queued?
    requires |t.getters| == |s.getters| && t.getters == s.getters[g := t.getters[g]] && !t.getters[g].Queued?
    requires t.queue == s.queue
    requires t.holder == if Holds(s.getters[g]) && !Holds(t.getters[g]) then None else s.holder
    requires Holds(t.getters[g]) ==> Holds(s.getters[g])
    ensures ConnectionOk(t)
  {
  }

  lemma StepKeepsConnection(s: Redis, e: Event)
    requires ConnectionOk(s) && Enabled(s, e)
    ensures ConnectionOk(Step(s, e))
  {
    match e
    case StartGet(_) => StartKeepsConnection(s, Step(s, e), Step(s, e).getters[|s.getters|]);
    case Acquire => AcquireKeepsConnection(s);
    case ServeGet(g) => MoveKeepsConnection(s, Step(s, e), g);
    case Reply(g) => MoveKeepsConnection(s, Step(s, e), g);
    case Wake(g) => MoveKeepsConnection(s, Step(s, e), g);
    case _ =>
  }

  lemma {:induction false} RunKeepsConnection(s: Redis, es: seq<Event>)
    requires ConnectionOk(s) && ValidRun(s, es)
    ensures ConnectionOk(After(s, es))
    decreases |es|
  {
    if es != [] {
      StepKeepsConnection(s, es[0]);
      RunKeepsConnection(Step(s, es[0]), es[1..]);
    }
  }

  // ---------------------------------------------------------------------------
  // Draining.

  /** The system has no step of its own left. */
  ghost predicate Drained(s: Redis) {
    forall e {:trigger Enabled(s, e)} :: Internal(e) ==> !Enabled(s, e)
  }

  /** A listener whose result is under way or held is never stuck: its message
      can be delivered, a job can finish, or it can wake up. */
  lemma ListenerCanMove(s: Redis, g: nat)
    requires BaseInv(s) && g < |s.getters| && s.getters[g].Listening?
    requires s.getters[g].task in s.store && (InChannel(s, s.getters[g].task) || Held(s, s.getters[g].task))
    ensures Enabled(s, Deliver) || Enabled(s, Wake(g)) || exists j: M.Pid :: Enabled(s, Finish(j))
  {
    var Listening(task, p, _) := s.getters[g];
    assert GetterOk(s, s.getters[g]);
    if !InChannel(s, task) {
      var j: M.Pid :| A.Locked(s.results, task, A.ByJob(j, M.Plain(s.store[task])));
      if s.results.heap[j].fate.Open? {
        assert Enabled(s, Finish(j));
      } else {
        A.LockedEnds(s.results, task, A.ByJob(j, M.Plain(s.store[task])));
      }
    }
  }

  /** Once drained, a getter that is not done queues for the connection or
      listens for a task without a result or with a lost one. */
  lemma DrainedGetter(s: Redis, g: nat, lost: bool)
    requires BaseInv(s) && Drained(s) && g < |s.getters| && Fate(s, s.getters[g].task, lost)
    ensures match s.getters[g]
      case Queued(_) => true
      case Listening(task, _, _) => task in s.store ==> lost
      case Done(task, v) => task in s.store && s.store[task] == v
      case _ => false
  {
    assert GetterOk(s, s.getters[g]);
    assert !Enabled(s, ServeGet(g)) && !Enabled(s, Reply(g)) && !Enabled(s, Deliver) && !Enabled(s, Wake(g));
    assert forall j: M.Pid :: !Enabled(s, Finish(j));
    if s.getters[g].Listening? && s.getters[g].task in s.store && !lost {
      ListenerCanMove(s, g);
    }
  }

  /** Once drained, who queues does so behind a listener. */
  lemma DrainedQueue(s: Redis, g: nat)
    requires BaseInv(s) && ConnectionOk(s) && Drained(s) && g < |s.getters| && s.getters[g].Queued?
    ensures s.holder.Some? && s.holder.value < |s.getters| && s.getters[s.holder.value].Listening?
  {
    assert !Enabled(s, Acquire);
    assert s.queue != [] && s.getters[s.queue[0]].Queued?;
    var h := s.holder.value;
    assert Holds(s.getters[h]) && !Enabled(s, ServeGet(h)) && !Enabled(s, Reply(h));
  }

  /** The getter queues behind a holder that listens in vain. */
  ghost predicate Blocked(s: Redis, es: seq<Event>, g: nat)
    requires ValidRun(s, es)
  {
    var t := After(s, es);
    && g < |t.getters| && t.getters[g].Queued?
    && t.holder.Some? && t.holder.value < |t.getters| && t.getters[t.holder.value].Listening?
    && var task := t.getters[t.holder.value].task;
       task !in t.store || Lost(s, es, task)
  }

  /** Delivery, for every run whatsoever: once the steps have drained, a getter
      of a published result has it exactly if it is not listening for a result
      that was lost and not blocked. */
  lemma DrainedDoneIff(es: seq<Event>, g: nat)
    requires ValidRun(Init(), es) && Drained(After(Init(), es)) && g < |After(Init(), es).getters|
    requires After(Init(), es).getters[g].task in After(Init(), es).store
    ensures var s := After(Init(), es);
      var task := s.getters[g].task;
      s.getters[g] == Done(task, s.store[task])
      <==> !(s.getters[g].Listening? && Lost(Init(), es, task)) && !Blocked(Init(), es, g)
  {
    var s := After(Init(), es);
    InitInv();
    RunFate(Init(), es, s.getters[g].task, false);
    RunKeepsConnection(Init(), es);
    DrainedGetter(s, g, Lost(Init(), es, s.getters[g].task));
    if s.getters[g].Queued? {
      DrainedQueue(s, g);
      var task := s.getters[s.holder.value].task;
      RunFate(Init(), es, task, false);
      DrainedGetter(s, s.holder.value, Lost(Init(), es, task));
    }
  }

  /** A listener of a run with GETs after the handler is attached does not listen
      for a lost success. */
  lemma NotLost(es: seq<Event>, g: nat)
    requires ValidRun(Init(), es) && GetsAfterAttach(Init(), es) && g < |After(Init(), es).getters|
    requires var s := After(Init(), es); var getter := s.getters[g];
      getter.Listening? && getter.task in s.store && Good(s, getter.task)
    ensures !Lost(Init(), es, After(Init(), es).getters[g].task)
  {
    NoLostResult(es, g);
    EveryResultHasAPlace(es, After(Init(), es).getters[g].task);
  }

  /** The holder of the connection listens for a task that has no successful
      result. */
  ghost predicate HolderUnanswered(s: Redis) {
    && s.holder.Some? && s.holder.value < |s.getters| && s.getters[s.holder.value].Listening?
    && var task := s.getters[s.holder.value].task;
       !(task in s.store && Good(s, task))
  }

  /** With GETs after the handler is attached, a getter of a successful result
      has it exactly if it does not queue behind an unanswered one. */
  lemma DrainedServesIff(es: seq<Event>, g: nat)
    requires ValidRun(Init(), es) && GetsAfterAttach(Init(), es) && Drained(After(Init(), es))
    requires g < |After(Init(), es).getters|
    requires var s := After(Init(), es); s.getters[g].task in s.store && Good(s, s.getters[g].task)
    ensures var s := After(Init(), es);
      s.getters[g] == Done(s.getters[g].task, s.store[s.getters[g].task])
      <==> !(s.getters[g].Queued? && HolderUnanswered(s))
  {
    var s := After(Init(), es);
    DrainedDoneIff(es, g);
    if s.getters[g].Listening? {
      NotLost(es, g);
    }
    if Blocked(Init(), es, g) && !HolderUnanswered(s) {
      NotLost(es, s.holder.value);
    }
  }

  /** So every getter has its result if every task that is waited for has a
      successful one. */
  lemma DrainedServesEveryone(es: seq<Event>, g: nat)
    requires ValidRun(Init(), es) && GetsAfterAttach(Init(), es) && Drained(After(Init(), es))
    requires var s := After(Init(), es);
      forall h :: 0 <= h < |s.getters| ==> s.getters[h].task in s.store && Good(s, s.getters[h].task)
    requires g < |After(Init(), es).getters|
    ensures var s := After(Init(), es);
      s.getters[g] == Done(s.getters[g].task, s.store[s.getters[g].task])
  {
    DrainedServesIff(es, g);
  }

  // ---------------------------------------------------------------------------
  // The draining ends.

  function Rank(g: Getter): nat {
    match g
    case Queued(_) => 4
    case Asked(_) => 3
    case Answered(_, _) => 2
    case Listening(_, _, _) => 1
    case Done(_, _) => 0
  }

  function Ranks(gs: seq<Getter>): nat {
    if gs == [] then 0 else Rank(gs[0]) + Ranks(gs[1..])
  }

  lemma {:induction false} RanksUpdate(gs: seq<Getter>, i: nat, g: Getter)
    requires i < |gs|
    ensures Ranks(gs[i := g]) + Rank(gs[i]) == Ranks(gs) + Rank(g)
  {
    if i == 0 {
      assert gs[0 := g][1..] == gs[1..];
    } else {
      assert gs[i := g][1..] == gs[1..][i - 1 := g];
      RanksUpdate(gs[1..], i - 1, g);
    }
  }

  type Cell = M.Cell<TaskId, Payload>

  ghost function OpenJobs(heap: seq<Cell>): nat {
    if heap == [] then 0
    else (if heap[0].origin.Job? && heap[0].fate.Open? then 1 else 0) + OpenJobs(heap[1..])
  }

  lemma {:induction false} OpenJobsAppend(heap: seq<Cell>, c: Cell)
    ensures OpenJobs(heap + [c]) == OpenJobs(heap) + if c.origin.Job? && c.fate.Open? then 1 else 0
  {
    if heap != [] {
      assert (heap + [c])[1..] == heap[1..] + [c];
      OpenJobsAppend(heap[1..], c);
    }
  }

  lemma {:induction false} OpenJobsUpdate(heap: seq<Cell>, i: nat, c: Cell)
    requires i < |heap|
    ensures OpenJobs(heap[i := c]) + (if heap[i].origin.Job? && heap[i].fate.Open? then 1 else 0)
         == OpenJobs(heap) + if c.origin.Job? && c.fate.Open? then 1 else 0
  {
    if i == 0 {
      assert heap[0 := c][1..] == heap[1..];
    } else {
      assert heap[i := c][1..] == heap[1..][i - 1 := c];
      OpenJobsUpdate(heap[1..], i - 1, c);
    }
  }

  ghost function Measure(s: Redis): nat {
    (match s.link case Unsubscribed => 2 case Subscribed => 1 case Attached => 0)
    + 2 * |s.channel| + OpenJobs(s.results.heap) + Ranks(s.getters)
  }

  /** Every step of the system itself brings it nearer to the end, so draining
      always terminates. */
  lemma DrainingTerminates(s: Redis, e: Event)
    requires BaseInv(s) && Enabled(s, e) && Internal(e)
    ensures Measure(Step(s, e)) < Measure(s)
  {
    match e
    case PSubscribe =>
    case Attach =>
    case Acquire => RanksUpdate(s.getters, s.queue[0], Asked(s.getters[s.queue[0]].task));
    case ServeGet(g) => RanksUpdate(s.getters, g, Step(s, e).getters[g]);
    case Reply(g) => ReplyMeasure(s, g);
    case Deliver => DeliverOpensOne(s);
    case Finish(j) => FinishMeasure(s, j);
    case Wake(g) => RanksUpdate(s.getters, g, Step(s, e).getters[g]);
  }

  lemma ReplyMeasure(s: Redis, g: nat)
    requires Enabled(s, Reply(g))
    ensures Measure(StepReply(s, g)) < Measure(s)
  {
    var t := StepReply(s, g);
    RanksUpdate(s.getters, g, t.getters[g]);
    OpenJobsAppend(s.results.heap, M.Cell(M.Waiter(s.getters[g].task), M.Open, 0));
  }

  lemma FinishMeasure(s: Redis, j: M.Pid)
    requires Enabled(s, Finish(j))
    ensures Measure(Step(s, Finish(j))) < Measure(s)
  {
    OpenJobsUpdate(s.results.heap, j, Step(s, Finish(j)).results.heap[j]);
  }

  lemma DeliverOpensOne(s: Redis)
    requires BaseInv(s) && Enabled(s, Deliver)
    ensures OpenJobs(StepDeliver(s).results.heap) <= OpenJobs(s.results.heap) + 1
  {
    var Message(task, payload) := s.channel[0];
    var heap := s.results.heap;
    var job := M.Cell(M.Job(task, M.Plain(payload)), M.Open, 0);
    OpenJobsAppend(heap, job);
    M.KeyCells(s.results, task);
    if task in s.results.data && s.results.data[task].functions.Some? {
      var p := s.results.data[task].functions.value;
      var waiter := (heap + [job])[p];
      OpenJobsUpdate(heap + [job], p, waiter.(fate := M.Following(|heap|), calls := waiter.calls + 1));
    }
  }

  // ---------------------------------------------------------------------------
  // Blocking.

  lemma BlockedStep(s: Redis, e: Event, g: nat, h: nat)
    requires BaseInv(s) && ConnectionOk(s) && Enabled(s, e)
    requires g < |s.getters| && s.getters[g].Listening? && s.getters[g].holds && s.getters[g].task !in s.store
    requires h < |s.getters| && s.getters[h].Queued?
    requires e.Publish? ==> e.task != s.getters[g].task
    ensures var t := Step(s, e);
      && |s.getters| <= |t.getters| && t.getters[h] == s.getters[h] && t.getters[g] == s.getters[g]
      && s.getters[g].task !in t.store
  {
    if e.Wake? {
      WakeIsRight(s, e.getter);
    }
  }

  /** One unanswered getter holds the only client connection, so until its
      result is published no other queued getter runs its GET, published or
      not. */
  lemma {:induction false} UnansweredGetterBlocksOthers(s: Redis, es: seq<Event>, g: nat, h: nat)
    requires BaseInv(s) && ConnectionOk(s) && ValidRun(s, es)
    requires g < |s.getters| && s.getters[g].Listening? && s.getters[g].holds && s.getters[g].task !in s.store
    requires h < |s.getters| && s.getters[h].Queued?
    requires forall i :: 0 <= i < |es| && es[i].Publish? ==> es[i].task != s.getters[g].task
    ensures |s.getters| <= |After(s, es).getters|
    ensures After(s, es).getters[h] == s.getters[h] && After(s, es).getters[g] == s.getters[g]
    decreases |es|
  {
    if es != [] {
      StepKeepsBaseInv(s, es[0]);
      StepKeepsConnection(s, es[0]);
      BlockedStep(s, es[0], g, h);
      UnansweredGetterBlocksOthers(Step(s, es[0]), es[1..], g, h);
    }
  }
}
