/** What each step of the protocol does, case by case, and the orders that whole
    runs keep: of messages, of calls for the connection, and of a GET behind the
    result that it reads. */
module RedisLaws {
  import opened Wrappers
  import opened Promises
  import M = PromiseMapModel
  import A = PromiseMapArrival
  import L = PromiseMapLaws
  import opened RedisModel
  import opened RedisProperties

  /** Only the getter `g` changed. */
  ghost predicate OnlyGetter(s: Redis, t: Redis, g: nat) {
    |t.getters| == |s.getters| && forall h :: 0 <= h < |s.getters| && h != g ==> t.getters[h] == s.getters[h]
  }

  /** A worker stores its result and publishes it in one step, which only the
      subscription hears of. */
  lemma PublishCases(s: Redis, task: TaskId, payload: Payload)
    requires Enabled(s, Publish(task, payload))
    ensures var t := Step(s, Publish(task, payload));
      && task !in s.store && t.store == s.store[task := payload]
      && t.channel == (if s.link == Unsubscribed then s.channel else s.channel + [Message(task, payload)])
      && t.results == s.results && t.getters == s.getters && t.queue == s.queue && t.holder == s.holder
  {
  }

  /** A call listens at once, without the connection, if and only if the map has
      its task; otherwise it queues behind all others. */
  lemma StartCases(s: Redis, task: TaskId)
    requires BaseInv(s)
    ensures var t := Step(s, StartGet(task));
      && |t.getters| == |s.getters| + 1 && s.getters <= t.getters
      && t.holder == s.holder && t.store == s.store && t.channel == s.channel && t.link == s.link
      && t.results.promises == s.results.promises && t.results.heap == s.results.heap
      && if task in s.results.promises
         then t.getters[|s.getters|] == Listening(task, s.results.promises[task], false) && t.queue == s.queue
         else t.getters[|s.getters|] == Queued(task) && t.queue == s.queue + [|s.getters|]
  {
  }

  /** The first in the queue gets the free connection. */
  lemma AcquireCases(s: Redis)
    requires Enabled(s, Acquire)
    ensures var t, g := Step(s, Acquire), s.queue[0];
      && s.holder == None && t.holder == Some(g) && s.queue == [g] + t.queue
      && OnlyGetter(s, t, g) && t.getters[g] == Asked(s.getters[g].task)
      && t.results == s.results && t.store == s.store && t.channel == s.channel
  {
  }

  /** GET answers with what is stored at that moment. */
  lemma ServeCases(s: Redis, g: nat)
    requires Enabled(s, ServeGet(g))
    ensures var t, task := Step(s, ServeGet(g)), s.getters[g].task;
      && OnlyGetter(s, t, g) && t.getters[g].Answered? && t.getters[g].task == task
      && (t.getters[g].raw.Some? <==> task in s.store)
      && (task in s.store ==> t.getters[g].raw.value == s.store[task])
      && t.results == s.results && t.holder == s.holder && t.queue == s.queue && t.store == s.store
  {
  }

  /** A successful reply ends the call and frees the connection; otherwise the call
      keeps it and listens to the promise of its task. */
  lemma ReplyCases(s: Redis, g: nat)
    requires BaseInv(s) && Enabled(s, Reply(g))
    ensures var t := Step(s, Reply(g));
      OnlyGetter(s, t, g) && t.queue == s.queue && t.store == s.store && t.channel == s.channel
    ensures var raw := s.getters[g].raw;
      raw.Some? && raw.value.success ==>
        var t := Step(s, Reply(g));
        t.getters[g] == Done(s.getters[g].task, raw.value) && t.holder == None && t.results == s.results
    ensures var raw := s.getters[g].raw;
      !(raw.Some? && raw.value.success) ==>
        var t, task := Step(s, Reply(g)), s.getters[g].task;
        && task in t.results.promises
        && t.getters[g] == Listening(task, t.results.promises[task], true) && t.holder == s.holder
        && (task in s.results.promises ==> t.results.promises == s.results.promises)
  {
  }

  /** A handled message decides how the promise of its task ends, for whoever
      listens and for every later call; a dropped one changes nothing. */
  lemma DeliverCases(s: Redis)
    requires BaseInv(s) && Enabled(s, Deliver)
    ensures var t := Step(s, Deliver);
      && s.channel == [s.channel[0]] + t.channel
      && t.getters == s.getters && t.queue == s.queue && t.holder == s.holder && t.store == s.store
    ensures !(s.link == Attached && IsUuid(s.channel[0].task)) ==> Step(s, Deliver).results == s.results
    ensures s.link == Attached && IsUuid(s.channel[0].task) ==>
      var t, task := Step(s, Deliver), s.channel[0].task;
      && A.Locked(t.results, task, A.ByJob(|s.results.heap|, M.Plain(s.channel[0].payload)))
      && (task in s.results.promises ==> t.results.promises[task] == s.results.promises[task])
  {
    if Handles(s) {
      TaskSettled(s);
      L.LatestSettlementDecides(s.results, MapEvent(s, Deliver).value, s.channel[0].task);
    }
  }

  /** A getter wakes with the value of its promise, and frees the connection if it
      kept it. */
  lemma WakeCases(s: Redis, g: nat)
    requires BaseInv(s) && Enabled(s, Wake(g))
    ensures var t, getter := Step(s, Wake(g)), s.getters[g];
      && OnlyGetter(s, t, g) && t.queue == s.queue && t.results == s.results && t.store == s.store
      && getter.task in s.store && t.getters[g] == Done(getter.task, s.store[getter.task])
      && t.holder == (if getter.holds then None else s.holder)
  {
    WakeIsRight(s, g);
  }

  // ---------------------------------------------------------------------------
  // Orders.

  /** Through a buffer: what was in it and what goes in come out in order. */
  lemma Through<T>(before: seq<T>, added: seq<T>, taken: seq<T>, between: seq<T>,
                   later: seq<T>, out: seq<T>, end: seq<T>)
    requires before + added == taken + between && between + later == out + end
    ensures before + (added + later) == (taken + out) + end
  {
    assert before + (added + later) == (before + added) + later;
    assert taken + (between + later) == (taken + between) + later;
  }

  /** What a step publishes to the subscription, and what it delivers. */
  ghost function SentBy(s: Redis, e: Event): seq<Message> {
    if e.Publish? && s.link != Unsubscribed then [Message(e.task, e.payload)] else []
  }

  ghost function DeliveredBy(s: Redis, e: Event): seq<Message>
    requires Enabled(s, e)
  {
    if e.Deliver? then [s.channel[0]] else []
  }

  ghost function Sent(s: Redis, es: seq<Event>): seq<Message>
    requires ValidRun(s, es)
    decreases |es|
  {
    if es == [] then [] else SentBy(s, es[0]) + Sent(Step(s, es[0]), es[1..])
  }

  ghost function Delivered(s: Redis, es: seq<Event>): seq<Message>
    requires ValidRun(s, es)
    decreases |es|
  {
    if es == [] then [] else DeliveredBy(s, es[0]) + Delivered(Step(s, es[0]), es[1..])
  }

  lemma MessageStep(s: Redis, e: Event)
    requires Enabled(s, e)
    ensures s.channel + SentBy(s, e) == DeliveredBy(s, e) + Step(s, e).channel
  {
  }

  /** Messages arrive in the order in which they were published, none twice and
      none before it was sent. */
  lemma {:induction false} MessagesInOrder(s: Redis, es: seq<Event>)
    requires ValidRun(s, es)
    ensures s.channel + Sent(s, es) == Delivered(s, es) + After(s, es).channel
    decreases |es|
  {
    if es != [] {
      var e, t := es[0], Step(s, es[0]);
      MessageStep(s, e);
      MessagesInOrder(t, es[1..]);
      Through(s.channel, SentBy(s, e), DeliveredBy(s, e), t.channel,
              Sent(t, es[1..]), Delivered(t, es[1..]), After(s, es).channel);
    }
  }

  /** The call that a step makes queue for the connection, and the one that it
      gives it to. */
  ghost function QueuedBy(s: Redis, e: Event): seq<nat> {
    if e.StartGet? && e.task !in s.results.promises then [|s.getters|] else []
  }

  ghost function AcquiredBy(s: Redis, e: Event): seq<nat>
    requires Enabled(s, e)
  {
    if e.Acquire? then [s.queue[0]] else []
  }

  ghost function Queueing(s: Redis, es: seq<Event>): seq<nat>
    requires ValidRun(s, es)
    decreases |es|
  {
    if es == [] then [] else QueuedBy(s, es[0]) + Queueing(Step(s, es[0]), es[1..])
  }

  ghost function Acquiring(s: Redis, es: seq<Event>): seq<nat>
    requires ValidRun(s, es)
    decreases |es|
  {
    if es == [] then [] else AcquiredBy(s, es[0]) + Acquiring(Step(s, es[0]), es[1..])
  }

  lemma QueueStep(s: Redis, e: Event)
    requires Enabled(s, e)
    ensures s.queue + QueuedBy(s, e) == AcquiredBy(s, e) + Step(s, e).queue
  {
  }

  /** The connection goes round in call order. */
  lemma {:induction false} ConnectionInOrder(s: Redis, es: seq<Event>)
    requires ValidRun(s, es)
    ensures s.queue + Queueing(s, es) == Acquiring(s, es) + After(s, es).queue
    decreases |es|
  {
    if es != [] {
      var e, t := es[0], Step(s, es[0]);
      QueueStep(s, e);
      ConnectionInOrder(t, es[1..]);
      Through(s.queue, QueuedBy(s, e), AcquiredBy(s, e), t.queue,
              Queueing(t, es[1..]), Acquiring(t, es[1..]), After(s, es).queue);
    }
  }

  /** The getter has not asked yet, or has the stored result as its answer. */
  ghost predicate SeesResult(s: Redis, g: nat, task: TaskId, payload: Payload) {
    && task in s.store && s.store[task] == payload
    && g < |s.getters|
    && s.getters[g] in {Queued(task), Asked(task), Answered(task, Some(payload)), Done(task, payload)}
  }

  lemma SeesResultStep(s: Redis, e: Event, g: nat, task: TaskId, payload: Payload)
    requires BaseInv(s) && Enabled(s, e) && payload.success && SeesResult(s, g, task, payload)
    ensures SeesResult(Step(s, e), g, task, payload)
  {
  }

  /** A GET that runs after a success was stored answers its call: the getter
      never has to listen, whatever became of the message. */
  lemma {:induction false} LateGetSeesResult(s: Redis, es: seq<Event>, g: nat)
    requires BaseInv(s) && ValidRun(s, es) && g < |s.getters| && (s.getters[g].Queued? || s.getters[g].Asked?)
    requires s.getters[g].task in s.store && s.store[s.getters[g].task].success
    ensures SeesResult(After(s, es), g, s.getters[g].task, s.store[s.getters[g].task])
  {
    SeesResultRun(s, es, g, s.getters[g].task, s.store[s.getters[g].task]);
  }

  lemma {:induction false} SeesResultRun(s: Redis, es: seq<Event>, g: nat, task: TaskId, payload: Payload)
    requires BaseInv(s) && ValidRun(s, es) && payload.success && SeesResult(s, g, task, payload)
    ensures SeesResult(After(s, es), g, task, payload)
    decreases |es|
  {
    if es != [] {
      StepKeepsBaseInv(s, es[0]);
      SeesResultStep(s, es[0], g, task, payload);
      SeesResultRun(Step(s, es[0]), es[1..], g, task, payload);
    }
  }
}
