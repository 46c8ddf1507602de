/** The result delivery of src/redis/backend.ts: a worker sets and publishes a
    result, and getters race GET on the store against the subscription that
    feeds the promise map. */
module RedisModel {
  import opened Wrappers
  import opened Promises
  import M = PromiseMapModel
  import A = PromiseMapArrival

  type TaskId = string

  /** A stored result; `success` is whether its status is Success. */
  datatype Payload = Payload(success: bool, body: nat)

  /** `Subscribed`: PSUBSCRIBE took effect, but the "pmessage" handler is not
      attached yet and what arrives is dropped. */
  datatype Link = Unsubscribed | Subscribed | Attached

  /** A call of `get`. `holds` says that it keeps the client connection, because
      it listens inside `pool.use`. */
  datatype Getter =
    | Queued(task: TaskId)
    | Asked(task: TaskId)
    | Answered(task: TaskId, raw: Option<Payload>)
    | Listening(task: TaskId, promise: M.Pid, holds: bool)
    | Done(task: TaskId, result: Payload)

  datatype Message = Message(task: TaskId, payload: Payload)

  type Results = M.State<TaskId, Payload>

  /** The pool has two connections and the subscriber keeps one, so one call at
      a time can GET: `holder`, and then `queue` in order. */
  datatype Redis = Redis(
    store: map<TaskId, Payload>,
    channel: seq<Message>,
    link: Link,
    results: Results,
    getters: seq<Getter>,
    queue: seq<nat>,
    holder: Option<nat>)

  ghost function Init(): Redis {
    Redis(map[], [], Unsubscribed, M.Init(true), [], [], None)
  }

  predicate IsHex(c: char) {
    '0' <= c <= '9' || 'a' <= c <= 'f' || 'A' <= c <= 'F'
  }

  /** The id part of `UUID_REGEX`. */
  predicate IsUuid(id: TaskId) {
    |id| == 36 && forall i :: 0 <= i < 36 ==> if i in {8, 13, 18, 23} then id[i] == '-' else IsHex(id[i])
  }

  datatype Event =
    | Publish(task: TaskId, payload: Payload)
    | StartGet(task: TaskId)
    | PSubscribe
    | Attach
    | Acquire
    | ServeGet(getter: nat)
    | Reply(getter: nat)
    | Deliver
    | Finish(job: M.Pid)
    | Wake(getter: nat)

  /** The steps that the system takes by itself. */
  predicate Internal(e: Event) {
    !e.Publish? && !e.StartGet?
  }

  ghost predicate Enabled(s: Redis, e: Event) {
    match e
    case Publish(task, _) => task !in s.store
    case StartGet(_) => true
    case PSubscribe => s.link == Unsubscribed
    case Attach => s.link == Subscribed
    case Acquire => s.holder == None && s.queue != [] && s.queue[0] < |s.getters| && s.getters[s.queue[0]].Queued?
    case ServeGet(g) => g < |s.getters| && s.getters[g].Asked?
    case Reply(g) => g < |s.getters| && s.getters[g].Answered?
    case Deliver => s.channel != []
    case Finish(j) => Plain(s.results, j) && s.results.heap[j].fate.Open?
    case Wake(g) =>
      && g < |s.getters| && s.getters[g].Listening? && s.getters[g].promise < |s.results.heap|
      && M.End(s.results.heap, s.getters[g].promise).Some?
      && M.End(s.results.heap, s.getters[g].promise).value.Fulfilled?
  }

  /** `onMessage` only ever resolves with the message itself. */
  ghost predicate Plain(results: Results, j: M.Pid) {
    j < |results.heap| && results.heap[j].origin.Job? && results.heap[j].origin.input.Plain?
  }

  ghost function Step(s: Redis, e: Event): Redis
    requires Enabled(s, e)
  {
    match e
    case Publish(task, payload) =>
      s.(store := s.store[task := payload],
         channel := if s.link == Unsubscribed then s.channel else s.channel + [Message(task, payload)])
    case StartGet(task) => StepStart(s, task)
    case PSubscribe => s.(link := Subscribed)
    case Attach => s.(link := Attached)
    case Acquire =>
      var g := s.queue[0];
      s.(holder := Some(g), queue := s.queue[1..], getters := s.getters[g := Asked(s.getters[g].task)])
    case ServeGet(g) =>
      var task := s.getters[g].task;
      s.(getters := s.getters[g := Answered(task, if task in s.store then Some(s.store[task]) else None)])
    case Reply(g) => StepReply(s, g)
    case Deliver => StepDeliver(s)
    case Finish(j) =>
      s.(results := M.Step(s.results, M.JobDone(j, Fulfilled(s.results.heap[j].origin.input.value))))
    case Wake(g) =>
      var Listening(task, p, holds) := s.getters[g];
      s.(getters := s.getters[g := Done(task, M.End(s.results.heap, p).value.value)],
         holder := if holds then None else s.holder)
  }

  /** `get` up to its first await: listen at once if the map has the task. */
  ghost function StepStart(s: Redis, task: TaskId): Redis {
    if task in s.results.promises then
      s.(results := M.Step(s.results, M.DoGet(task)),
         getters := s.getters + [Listening(task, s.results.promises[task], false)])
    else s.(getters := s.getters + [Queued(task)], queue := s.queue + [|s.getters|])
  }

  /** The reply to GET: take a successful result, listen otherwise. */
  ghost function StepReply(s: Redis, g: nat): Redis
    requires Enabled(s, Reply(g))
  {
    var Answered(task, raw) := s.getters[g];
    if raw.Some? && raw.value.success then
      s.(getters := s.getters[g := Done(task, raw.value)], holder := None)
    else
      s.(results := M.Step(s.results, M.DoGet(task)),
         getters := s.getters[g := Listening(task, M.Get(s.results, task).1, true)])
  }

  /** The next message will be handled. */
  ghost predicate Handles(s: Redis)
    requires s.channel != []
  {
    s.link == Attached && IsUuid(s.channel[0].task)
  }

  /** A message reaches the client: dropped without a handler, an error in
      `onMessage` if the channel is not that of a UUID. */
  ghost function StepDeliver(s: Redis): Redis
    requires Enabled(s, Deliver)
  {
    var Message(task, payload) := s.channel[0];
    var t := s.(channel := s.channel[1..]);
    if Handles(s) then
      t.(results := M.Step(s.results, M.DoResolve(task, M.Plain(payload))))
    else t
  }

  ghost predicate ValidRun(s: Redis, es: seq<Event>)
    decreases |es|
  {
    es == [] || (Enabled(s, es[0]) && ValidRun(Step(s, es[0]), es[1..]))
  }

  ghost function After(s: Redis, es: seq<Event>): Redis
    requires ValidRun(s, es)
    decreases |es|
  {
    if es == [] then s else After(Step(s, es[0]), es[1..])
  }

  /** No GET runs before the message handler is attached. */
  ghost predicate GetsAfterAttach(s: Redis, es: seq<Event>)
    requires ValidRun(s, es)
    decreases |es|
  {
    es == [] || ((es[0].ServeGet? ==> s.link == Attached) && GetsAfterAttach(Step(s, es[0]), es[1..]))
  }

  // ---------------------------------------------------------------------------
  // The invariant.

  ghost predicate InChannel(s: Redis, task: TaskId) {
    exists i :: 0 <= i < |s.channel| && s.channel[i].task == task
  }

  /** The map has a promise for the task that a job for its result leads. */
  ghost predicate Held(s: Redis, task: TaskId) {
    task in s.store && exists j: M.Pid :: A.Locked(s.results, task, A.ByJob(j, M.Plain(s.store[task])))
  }

  /** What was published is still to come, or already there. */
  ghost predicate OnItsWay(s: Redis, task: TaskId) {
    task !in s.store || InChannel(s, task) || Held(s, task)
  }

  /** Tasks the protocol is for: their channel is recognised and their result,
      once there is one, is a success. */
  ghost predicate Good(s: Redis, task: TaskId) {
    IsUuid(task) && (task in s.store ==> s.store[task].success)
  }

  ghost predicate GetterOk(s: Redis, g: Getter) {
    match g
    case Answered(task, Some(v)) => task in s.store && s.store[task] == v
    case Listening(task, p, _) => task in s.results.promises && s.results.promises[task] == p
    case Done(task, v) => task in s.store && s.store[task] == v
    case _ => true
  }

  ghost predicate TaskOk(s: Redis, task: TaskId) {
    && (A.Unsettled(s.results, task) || Held(s, task))
    && (task !in s.store ==> A.Unsettled(s.results, task))
  }

  /** Each message is the stored result of its task, which was not delivered
      before. */
  ghost predicate ChannelOk(s: Redis) {
    && (forall i :: 0 <= i < |s.channel| ==>
          && s.channel[i].task in s.store && s.store[s.channel[i].task] == s.channel[i].payload
          && A.Unsettled(s.results, s.channel[i].task))
    && (forall i, j :: 0 <= i < j < |s.channel| ==> s.channel[i].task != s.channel[j].task)
  }

  /** What every run keeps. */
  ghost predicate BaseInv(s: Redis) {
    && M.Inv(s.results)
    && ChannelOk(s)
    && (forall task {:trigger TaskOk(s, task)} :: TaskOk(s, task))
    && (forall g {:trigger s.getters[g]} :: 0 <= g < |s.getters| ==> GetterOk(s, s.getters[g]))
  }

  ghost predicate Watched(s: Redis, task: TaskId) {
    s.link == Attached && (Good(s, task) ==> OnItsWay(s, task))
  }

  /** Who has to be on the watch for a result. */
  ghost predicate Waits(g: Getter) {
    g.Answered? && g.raw == None
  }

  /** What runs keep in which GETs come after the message handler is attached. */
  ghost predicate Inv(s: Redis) {
    && BaseInv(s)
    && (forall task :: task in s.results.promises ==> Watched(s, task))
    && (forall g {:trigger s.getters[g]} :: 0 <= g < |s.getters| && s.getters[g].Answered? ==> s.link == Attached)
    && (forall g {:trigger s.getters[g]} :: 0 <= g < |s.getters| && Waits(s.getters[g]) ==>
          Watched(s, s.getters[g].task))
  }

  // ---------------------------------------------------------------------------
  // Losing a result.

  /** The step loses the result of the task: it is published before anybody has
      subscribed, or its message is dropped. */
  ghost predicate Loses(s: Redis, e: Event, task: TaskId)
    requires Enabled(s, e)
  {
    match e
    case Publish(published, _) => published == task && s.link == Unsubscribed
    case Deliver => s.channel[0].task == task && !Handles(s)
    case _ => false
  }

  /** A step of the run does. */
  ghost predicate Lost(s: Redis, es: seq<Event>, task: TaskId)
    requires ValidRun(s, es)
    decreases |es|
  {
    es != [] && (Loses(s, es[0], task) || Lost(Step(s, es[0]), es[1..], task))
  }

  /** Where a result is, given whether it was lost. */
  ghost predicate Fate(s: Redis, task: TaskId, lost: bool) {
    if task !in s.store then !lost
    else if lost then A.Unsettled(s.results, task) && !InChannel(s, task)
    else InChannel(s, task) || Held(s, task)
  }
}
