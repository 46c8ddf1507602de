/** The allocator of src/containers/resource_pool.ts as a state machine. A step
    is one synchronous stretch of the source between two awaits; any enabled
    step may come next. */
module PoolModel {
  /** The identity of a resource handed out by the `create` callback. */
  datatype Resource = Resource(id: nat)

  /** A call of `get()`, numbered in call order. */
  type Call = nat

  /** The fields of the pool. `waiting` lists the calls whose promise is in the
      `PromiseQueue`. */
  datatype Core = Core(max: nat, count: nat, unused: seq<Resource>, inUse: set<Resource>, waiting: seq<Call>)

  datatype Acquired = Unused(resource: Resource) | Create | Wait

  /** The synchronous part of `getResource()`. */
  function GetResource(c: Core, call: Call): (Core, Acquired) {
    if c.unused != [] then (c.(unused := c.unused[1..]), Unused(c.unused[0]))
    else if c.count < c.max then (c.(count := c.count + 1), Create)
    else (c.(waiting := c.waiting + [call]), Wait)
  }

  datatype Returned = NotOwned | Handed | Kept(empty: bool)

  /** `return(resource)`: throw, hand to the first waiter, or keep. */
  function Return(c: Core, r: Resource): (Core, Returned) {
    if r !in c.inUse then (c, NotOwned)
    else
      var removed := c.(inUse := c.inUse - {r});
      if c.waiting != [] then (removed.(waiting := c.waiting[1..]), Handed)
      else (removed.(unused := c.unused + [r]), Kept(removed.inUse == {}))
  }

  /** Where a created resource is: in the hand-off to a caller whose
      continuation has not run, with a caller, in `unused`, passed to `destroy`,
      or left out because an earlier call of `destroy` threw. */
  datatype Place = Transit(call: Call) | Held(call: Call) | Idle | Destroyed | Dropped

  datatype Pool = Pool(
    core: Core,
    calls: nat,                    // get() calls so far; the next call's number
    creating: set<Call>,           // calls whose create() has not settled
    failed: nat,                   // create() calls that failed
    place: map<Resource, Place>,   // every created resource
    destroyed: seq<Resource>,      // destroy() calls, in order
    blocked: seq<Call>,            // calls that had to wait, in get() order
    served: seq<Call>,             // calls served from the queue, in hand-off order
    awaiting: set<nat>,            // destroyAll() calls listening for "empty"
    ready: set<nat>,               // destroyAll() calls whose event was emitted
    destroyers: nat)               // destroyAll() calls so far

  function Init(max: nat): Pool {
    Pool(Core(max, 0, [], {}, []), 0, {}, 0, map[], [], [], [], {}, {}, 0)
  }

  /** `throwsAt` is the index of the first resource whose `destroy` throws
      synchronously; a value past the end means that none does. */
  datatype Event =
    | Get
    | CreateDone(call: Call, resource: Resource)
    | CreateFailed(call: Call)
    | Deliver(resource: Resource)
    | GiveBack(resource: Resource)
    | DestroyAll(throwsAt: nat)
    | Continue(destroyer: nat, throwsAt: nat)

  ghost predicate Enabled(s: Pool, e: Event) {
    match e
    case Get => true
    case CreateDone(c, r) => c in s.creating && r !in s.place
    case CreateFailed(c) => c in s.creating
    case Deliver(r) => r in s.place && s.place[r].Transit?
    case GiveBack(_) => true
    case DestroyAll(_) => true
    case Continue(d, _) => d in s.ready
  }

  ghost function Step(s: Pool, e: Event): Pool
    requires Enabled(s, e)
  {
    match e
    case Get => StepGet(s)
    case CreateDone(c, r) => s.(creating := s.creating - {c}, place := s.place[r := Transit(c)])
    case CreateFailed(c) => s.(creating := s.creating - {c}, failed := s.failed + 1)
    case Deliver(r) =>
      s.(core := s.core.(inUse := s.core.inUse + {r}), place := s.place[r := Held(s.place[r].call)])
    case GiveBack(r) => StepReturn(s, r)
    case DestroyAll(n) =>
      var started := s.(destroyers := s.destroyers + 1);
      if s.core.inUse != {} then started.(awaiting := s.awaiting + {s.destroyers})
      else Flush(started, n)
    case Continue(d, n) => Flush(s.(ready := s.ready - {d}), n)
  }

  ghost function StepGet(s: Pool): Pool {
    var (core, acquired) := GetResource(s.core, s.calls);
    var t := s.(core := core, calls := s.calls + 1);
    match acquired
    case Unused(r) => t.(place := s.place[r := Transit(s.calls)])
    case Create => t.(creating := s.creating + {s.calls})
    case Wait => t.(blocked := s.blocked + [s.calls])
  }

  ghost function StepReturn(s: Pool, r: Resource): Pool {
    var (core, returned) := Return(s.core, r);
    match returned
    case NotOwned => s
    case Handed =>
      var c := s.core.waiting[0];
      s.(core := core, place := s.place[r := Transit(c)], served := s.served + [c])
    case Kept(false) => s.(core := core, place := s.place[r := Idle])
    case Kept(true) =>
      s.(core := core, place := s.place[r := Idle], ready := s.ready + s.awaiting, awaiting := {})
  }

  /** The rest of `destroyAll()`: copy `unused`, empty it, destroy the copy. */
  ghost function Flush(s: Pool, throwsAt: nat): Pool {
    var unused := s.core.unused;
    var reached := if throwsAt < |unused| then throwsAt + 1 else |unused|;
    s.(core := s.core.(unused := []),
       destroyed := s.destroyed + unused[..reached],
       place := map r | r in s.place ::
         if r in unused[..reached] then Destroyed else if r in unused then Dropped else s.place[r])
  }

  ghost predicate ValidRun(s: Pool, es: seq<Event>)
    decreases |es|
  {
    es == [] || (Enabled(s, es[0]) && ValidRun(Step(s, es[0]), es[1..]))
  }

  ghost function After(s: Pool, es: seq<Event>): Pool
    requires ValidRun(s, es)
    decreases |es|
  {
    if es == [] then s else After(Step(s, es[0]), es[1..])
  }

  lemma RunCons(s: Pool, e: Event, es: seq<Event>)
    requires Enabled(s, e) && ValidRun(Step(s, e), es)
    ensures ValidRun(s, [e] + es) && After(s, [e] + es) == After(Step(s, e), es)
  {
    assert ([e] + es)[1..] == es;
  }

  // ---------------------------------------------------------------------------
  // The invariant.

  ghost predicate Distinct<T>(s: seq<T>) {
    forall i, j :: 0 <= i < j < |s| ==> s[i] != s[j]
  }

  ghost predicate Increasing(s: seq<nat>) {
    forall i, j :: 0 <= i < j < |s| ==> s[i] < s[j]
  }

  /** The fields say where each resource is. */
  ghost predicate LedgerAgrees(s: Pool) {
    && (forall r :: r in s.core.inUse <==> r in s.place && s.place[r].Held?)
    && (forall r :: r in s.core.unused <==> r in s.place && s.place[r].Idle?)
    && (forall r :: r in s.destroyed <==> r in s.place && s.place[r].Destroyed?)
    && Distinct(s.core.unused) && Distinct(s.destroyed)
  }

  ghost predicate Engaged(p: Place) {
    p.Transit? || p.Held?
  }

  /** The waiting calls are exactly the latest calls of get(). */
  ghost predicate QueueIsLatest(s: Pool) {
    && |s.core.waiting| <= s.calls
    && forall i :: 0 <= i < |s.core.waiting| ==> s.core.waiting[i] == s.calls - |s.core.waiting| + i
  }

  /** A call that creates or has a resource came before every waiting call, and
      has one thing only. */
  ghost predicate CallsAgree(s: Pool) {
    && (forall c :: c in s.creating ==> c < s.calls - |s.core.waiting|)
    && (forall r :: r in s.place && Engaged(s.place[r]) ==>
          s.place[r].call < s.calls - |s.core.waiting| && s.place[r].call !in s.creating)
    && (forall r, q :: r in s.place && q in s.place && r != q && Engaged(s.place[r]) && Engaged(s.place[q]) ==>
          s.place[r].call != s.place[q].call)
  }

  ghost predicate Counted(s: Pool) {
    && s.core.count == |s.creating| + s.failed + |s.place|
    && s.core.count <= s.core.max
  }

  ghost predicate NothingIdleWhileWaiting(s: Pool) {
    s.core.waiting != [] ==> s.core.unused == [] && s.core.count == s.core.max
  }

  ghost predicate History(s: Pool) {
    && s.blocked == s.served + s.core.waiting
    && Increasing(s.blocked)
    && (forall i :: 0 <= i < |s.blocked| ==> s.blocked[i] < s.calls)
    && (forall d :: d in s.awaiting || d in s.ready ==> d < s.destroyers)
    && s.awaiting !! s.ready
  }

  ghost predicate Inv(s: Pool) {
    && LedgerAgrees(s) && QueueIsLatest(s) && CallsAgree(s) && Counted(s)
    && NothingIdleWhileWaiting(s) && History(s)
  }

  lemma InitInv(max: nat)
    ensures Inv(Init(max))
  {
  }

  lemma GetKeepsLedger(s: Pool)
    requires Inv(s)
    ensures LedgerAgrees(StepGet(s))
  {
    if s.core.unused != [] {
      assert s.core.unused == [s.core.unused[0]] + s.core.unused[1..];
    }
  }

  lemma GetKeepsCalls(s: Pool)
    requires CallsAgree(s) && LedgerAgrees(s) && NothingIdleWhileWaiting(s)
    ensures CallsAgree(StepGet(s))
  {
    if s.core.unused != [] {
      assert s.core.unused[0] in s.core.unused;
    }
  }

  lemma GetKeepsCount(s: Pool)
    requires LedgerAgrees(s) && CallsAgree(s) && Counted(s) && NothingIdleWhileWaiting(s)
    ensures Counted(StepGet(s)) && NothingIdleWhileWaiting(StepGet(s))
  {
    if s.core.unused != [] {
      var r := s.core.unused[0];
      assert r in s.core.unused && s.place[r := Transit(s.calls)].Keys == s.place.Keys;
    }
  }

  lemma GetKeepsQueue(s: Pool)
    requires QueueIsLatest(s) && NothingIdleWhileWaiting(s) && History(s)
    ensures QueueIsLatest(StepGet(s)) && History(StepGet(s))
  {
  }

  lemma GetKeepsInv(s: Pool)
    requires Inv(s)
    ensures Inv(StepGet(s))
  {
    GetKeepsLedger(s);
    GetKeepsCalls(s);
    GetKeepsCount(s);
    GetKeepsQueue(s);
  }

  lemma ReturnKeepsLedger(s: Pool, r: Resource)
    requires Inv(s)
    ensures LedgerAgrees(StepReturn(s, r))
  {
    if r in s.core.inUse && s.core.waiting == [] {
      assert forall q :: q in s.core.unused + [r] <==> q in s.core.unused || q == r;
    }
  }

  lemma ReturnKeepsCount(s: Pool, r: Resource)
    requires Inv(s)
    ensures Counted(StepReturn(s, r)) && NothingIdleWhileWaiting(StepReturn(s, r))
  {
    if r in s.core.inUse {
      assert forall p {:trigger s.place[r := p]} :: s.place[r := p].Keys == s.place.Keys;
    }
  }

  lemma ReturnKeepsQueue(s: Pool, r: Resource)
    requires Inv(s)
    ensures QueueIsLatest(StepReturn(s, r)) && History(StepReturn(s, r))
  {
    if r in s.core.inUse && s.core.waiting != [] {
      assert s.core.waiting == [s.core.waiting[0]] + s.core.waiting[1..];
    }
  }

  lemma ReturnKeepsInv(s: Pool, r: Resource)
    requires Inv(s)
    ensures Inv(StepReturn(s, r))
  {
    ReturnKeepsLedger(s, r);
    ReturnKeepsCount(s, r);
    ReturnKeepsQueue(s, r);
  }

  lemma FlushKeepsLedger(s: Pool, throwsAt: nat)
    requires Inv(s)
    ensures LedgerAgrees(Flush(s, throwsAt))
  {
    var unused := s.core.unused;
    var t := Flush(s, throwsAt);
    forall j | 0 <= j < |unused|
      ensures unused[j] !in s.destroyed
    {
      assert unused[j] in unused;
    }
  }

  lemma FlushKeepsInv(s: Pool, throwsAt: nat)
    requires Inv(s)
    ensures Inv(Flush(s, throwsAt))
  {
    FlushKeepsLedger(s, throwsAt);
    assert Flush(s, throwsAt).place.Keys == s.place.Keys;
  }

  lemma CreateDoneKeepsInv(s: Pool, c: Call, r: Resource)
    requires Inv(s) && Enabled(s, CreateDone(c, r))
    ensures Inv(Step(s, CreateDone(c, r)))
  {
    assert s.place[r := Transit(c)].Keys == s.place.Keys + {r};
  }

  lemma DeliverKeepsInv(s: Pool, r: Resource)
    requires Inv(s) && Enabled(s, Deliver(r))
    ensures Inv(Step(s, Deliver(r)))
  {
    assert s.place[r := Held(s.place[r].call)].Keys == s.place.Keys;
  }

  lemma CreateFailedKeepsInv(s: Pool, c: Call)
    requires Inv(s) && Enabled(s, CreateFailed(c))
    ensures Inv(Step(s, CreateFailed(c)))
  {
  }

  lemma DestroyAllKeepsInv(s: Pool, throwsAt: nat)
    requires Inv(s)
    ensures Inv(Step(s, DestroyAll(throwsAt)))
  {
    if s.core.inUse == {} {
      FlushKeepsInv(s.(destroyers := s.destroyers + 1), throwsAt);
    }
  }

  lemma StepKeepsInv(s: Pool, e: Event)
    requires Inv(s) && Enabled(s, e)
    ensures Inv(Step(s, e))
  {
    match e
    case Get => GetKeepsInv(s);
    case CreateDone(c, r) => CreateDoneKeepsInv(s, c, r);
    case CreateFailed(c) => CreateFailedKeepsInv(s, c);
    case Deliver(r) => DeliverKeepsInv(s, r);
    case GiveBack(r) => ReturnKeepsInv(s, r);
    case DestroyAll(n) => DestroyAllKeepsInv(s, n);
    case Continue(d, n) => FlushKeepsInv(s.(ready := s.ready - {d}), n);
  }

  lemma {:induction false} RunKeepsInv(s: Pool, es: seq<Event>)
    requires Inv(s) && ValidRun(s, es)
    ensures Inv(After(s, es))
    decreases |es|
  {
    if es != [] {
      StepKeepsInv(s, es[0]);
      RunKeepsInv(Step(s, es[0]), es[1..]);
    }
  }
}
