/** `use(f)` of src/containers/resource_pool.ts on top of the pool: get a
    resource, run the callback, and give the resource back in the then-handler
    or the catch-handler of `returnAfter`. */
module UseModel {
  import opened Promises
  import opened PoolModel
  import opened PoolProperties

  /** What a callback ends with; values are opaque. */
  type Result = Outcome<nat>

  /** Where a call of `use` is. `Handling` holds the settlement that the next
      handler of the promise chain will see. */
  datatype Phase =
    | Getting
    | GetFailed
    | Running(resource: Resource)
    | Handling(resource: Resource, seen: Result)
    | Finished(end: Result)

  datatype Uses = Uses(
    pool: Pool,
    phase: map<Call, Phase>,      // the calls of get() made by use()
    produced: map<Call, Result>,  // what each callback ended with
    returned: map<Call, nat>)     // effective return() calls of each use

  datatype UseEvent =
    | Start
    | Invoke(call: Call, resource: Resource)
    | Settle(call: Call, result: Result)
    | Handler(call: Call)
    | Other(event: Event)

  function UseInit(max: nat): Uses {
    Uses(Init(max), map[], map[], map[])
  }

  /** Nobody but the handlers gives back a resource that a call of `use` has or
      is about to get; everything else may happen in between. */
  ghost predicate UseEnabled(u: Uses, e: UseEvent) {
    match e
    case Start => true
    case Invoke(c, r) =>
      c in u.phase && u.phase[c].Getting? && r in u.pool.place && u.pool.place[r] == Held(c)
    case Settle(c, _) => c in u.phase && u.phase[c].Running?
    case Handler(c) => c in u.phase && u.phase[c].Handling?
    case Other(e) =>
      && Enabled(u.pool, e)
      && (e.GiveBack? && e.resource in u.pool.place && Engaged(u.pool.place[e.resource]) ==>
            u.pool.place[e.resource].call !in u.phase)
  }

  ghost function UseStep(u: Uses, e: UseEvent): Uses
    requires UseEnabled(u, e)
  {
    match e
    case Start =>
      var c := u.pool.calls;
      u.(pool := Step(u.pool, Get), phase := u.phase[c := Getting], returned := u.returned[c := 0])
    case Invoke(c, r) => u.(phase := u.phase[c := Running(r)])
    case Settle(c, result) =>
      u.(phase := u.phase[c := Handling(u.phase[c].resource, result)], produced := u.produced[c := result])
    case Handler(c) => StepHandler(u, c)
    case Other(e) =>
      var pool := Step(u.pool, e);
      if e.CreateFailed? && e.call in u.phase && u.phase[e.call].Getting?
      then u.(pool := pool, phase := u.phase[e.call := GetFailed])
      else u.(pool := pool)
  }

  /** One handler runs: the then-handler when the promise it is attached to
      fulfilled, the catch-handler otherwise. A then-handler whose return()
      throws leaves that error to the catch-handler. */
  ghost function StepHandler(u: Uses, c: Call): Uses
    requires UseEnabled(u, Handler(c))
  {
    var Handling(r, seen) := u.phase[c];
    var v := u.(pool := StepReturn(u.pool, r));
    if r in u.pool.core.inUse then
      v.(phase := u.phase[c := Finished(seen)],
         returned := u.returned[c := (if c in u.returned then u.returned[c] else 0) + 1])
    else if seen.Fulfilled? then v.(phase := u.phase[c := Handling(r, Rejected(NotInPool))])
    else v.(phase := u.phase[c := Finished(Rejected(NotInPool))])
  }

  ghost predicate UseValidRun(u: Uses, es: seq<UseEvent>)
    decreases |es|
  {
    es == [] || (UseEnabled(u, es[0]) && UseValidRun(UseStep(u, es[0]), es[1..]))
  }

  ghost function UseAfter(u: Uses, es: seq<UseEvent>): Uses
    requires UseValidRun(u, es)
    decreases |es|
  {
    if es == [] then u else UseAfter(UseStep(u, es[0]), es[1..])
  }

  /** Each use has given its resource back exactly once if it is finished and
      not at all before, and it ends as its callback did. */
  ghost predicate ReturnedOnce(u: Uses) {
    forall c :: c in u.phase ==>
      && c in u.returned
      && match u.phase[c]
         case Finished(end) => u.returned[c] == 1 && c in u.produced && end == u.produced[c]
         case Handling(_, seen) => u.returned[c] == 0 && c in u.produced && seen == u.produced[c]
         case _ => u.returned[c] == 0
  }

  /** A use whose callback was started still holds its resource. */
  ghost predicate StillHeld(u: Uses) {
    forall c :: c in u.phase && (u.phase[c].Running? || u.phase[c].Handling?) ==>
      u.phase[c].resource in u.pool.place && u.pool.place[u.phase[c].resource] == Held(c)
  }

  ghost predicate UseInv(u: Uses) {
    && Inv(u.pool) && ReturnedOnce(u) && StillHeld(u)
    && forall c :: c in u.phase ==> c < u.pool.calls
  }

  lemma OtherKeepsHeld(u: Uses, e: Event)
    requires UseInv(u) && UseEnabled(u, Other(e))
    ensures StillHeld(UseStep(u, Other(e)))
  {
    var v := UseStep(u, Other(e));
    forall c | c in v.phase && (v.phase[c].Running? || v.phase[c].Handling?)
      ensures v.phase[c].resource in v.pool.place && v.pool.place[v.phase[c].resource] == Held(c)
    {
      var r := u.phase[c].resource;
      assert r in u.pool.place && u.pool.place[r] == Held(c);
      HeldAcrossStep(u.pool, e, r);
    }
  }

  lemma HandlerKeepsHeld(u: Uses, c: Call)
    requires UseInv(u) && UseEnabled(u, Handler(c))
    ensures StillHeld(StepHandler(u, c))
  {
    var v := StepHandler(u, c);
    var r := u.phase[c].resource;
    assert r in u.pool.core.inUse;
    forall d | d in v.phase && (v.phase[d].Running? || v.phase[d].Handling?)
      ensures v.phase[d].resource in v.pool.place && v.pool.place[v.phase[d].resource] == Held(d)
    {
      assert d != c && u.pool.place[u.phase[d].resource] == Held(d);
      HeldAcrossStep(u.pool, GiveBack(r), u.phase[d].resource);
    }
  }

  lemma CallsNeverDrop(s: Pool, e: Event)
    requires Enabled(s, e)
    ensures s.calls <= Step(s, e).calls
  {
  }

  lemma StartKeepsInv(u: Uses)
    requires UseInv(u)
    ensures UseInv(UseStep(u, Start))
  {
    var v := UseStep(u, Other(Get));
    StepKeepsInv(u.pool, Get);
    OtherKeepsHeld(u, Get);
    assert v.pool == UseStep(u, Start).pool && v.phase == u.phase;
    assert UseStep(u, Start).pool.calls == u.pool.calls + 1;
  }

  lemma HandlerKeepsInv(u: Uses, c: Call)
    requires UseInv(u) && UseEnabled(u, Handler(c))
    ensures UseInv(UseStep(u, Handler(c)))
  {
    var r := u.phase[c].resource;
    StepKeepsInv(u.pool, GiveBack(r));
    CallsNeverDrop(u.pool, GiveBack(r));
    HandlerKeepsHeld(u, c);
    assert r in u.pool.core.inUse;
  }

  lemma OtherKeepsReturned(u: Uses, e: Event)
    requires ReturnedOnce(u) && UseEnabled(u, Other(e))
    ensures ReturnedOnce(UseStep(u, Other(e)))
    ensures UseStep(u, Other(e)).phase.Keys == u.phase.Keys && UseStep(u, Other(e)).pool == Step(u.pool, e)
  {
  }

  lemma OtherKeepsInv(u: Uses, e: Event)
    requires UseInv(u) && UseEnabled(u, Other(e))
    ensures UseInv(UseStep(u, Other(e)))
  {
    StepKeepsInv(u.pool, e);
    CallsNeverDrop(u.pool, e);
    OtherKeepsHeld(u, e);
    OtherKeepsReturned(u, e);
    assert forall c :: c in u.phase.Keys ==> c < u.pool.calls;
  }

  lemma UseStepKeepsInv(u: Uses, e: UseEvent)
    requires UseInv(u) && UseEnabled(u, e)
    ensures UseInv(UseStep(u, e))
  {
    match e
    case Start => StartKeepsInv(u);
    case Handler(c) => HandlerKeepsInv(u, c);
    case Other(e) => OtherKeepsInv(u, e);
    case _ =>
  }

  lemma {:induction false} UseRunKeepsInv(u: Uses, es: seq<UseEvent>)
    requires UseInv(u) && UseValidRun(u, es)
    ensures UseInv(UseAfter(u, es))
    decreases |es|
  {
    if es != [] {
      UseStepKeepsInv(u, es[0]);
      UseRunKeepsInv(UseStep(u, es[0]), es[1..]);
    }
  }

  /** In every run each use gives its resource back exactly once, whether its
      callback fulfils, rejects or throws, and passes on the callback's value or
      reason unchanged. */
  lemma UseReturnsExactlyOnce(max: nat, es: seq<UseEvent>, c: Call)
    requires UseValidRun(UseInit(max), es) && c in UseAfter(UseInit(max), es).phase
    ensures var u := UseAfter(UseInit(max), es);
      && c in u.returned && u.returned[c] == (if u.phase[c].Finished? then 1 else 0)
      && (u.phase[c].Finished? ==> c in u.produced && u.phase[c].end == u.produced[c])
      && (u.phase[c].Running? || u.phase[c].Handling? ==>
            u.phase[c].resource in u.pool.place && u.pool.place[u.phase[c].resource] == Held(c))
  {
    InitInv(max);
    UseRunKeepsInv(UseInit(max), es);
  }

  /** A handler finishes its use with what the callback produced, and the caller
      has the resource no more. */
  lemma HandlerFinishes(u: Uses, c: Call)
    requires UseInv(u) && UseEnabled(u, Handler(c))
    ensures var v := UseStep(u, Handler(c));
      && c in u.produced && v.phase[c] == Finished(u.produced[c])
      && u.phase[c].resource in v.pool.place && v.pool.place[u.phase[c].resource] != Held(c)
      && u.phase[c].resource !in v.pool.core.inUse
  {
    assert u.phase[c].resource in u.pool.core.inUse;
    assert u.pool.core.waiting != [] ==> u.pool.core.waiting[0] in u.pool.core.waiting;
  }

  /** If somebody else gave the resource back, the use ends with the error of
      return(), whatever its callback produced, and the pool does not change. */
  lemma ForeignReturnEndsInError(u: Uses, c: Call)
    requires c in u.phase && u.phase[c].Handling? && u.phase[c].resource !in u.pool.core.inUse
    ensures var v := UseStep(u, Handler(c));
      && v.pool == u.pool && v.returned == u.returned
      && (u.phase[c].seen.Rejected? ==> v.phase[c] == Finished(Rejected(NotInPool)))
      && (u.phase[c].seen.Fulfilled? ==>
            && UseEnabled(v, Handler(c))
            && var w := UseStep(v, Handler(c));
               w.phase[c] == Finished(Rejected(NotInPool)) && w.pool == u.pool && w.returned == u.returned)
  {
  }

  /** A use whose create() fails ends there. */
  lemma CreateFailsUse(u: Uses, c: Call)
    requires UseInv(u) && c in u.phase && u.phase[c].Getting? && c in u.pool.creating
    ensures UseEnabled(u, Other(CreateFailed(c)))
    ensures UseStep(u, Other(CreateFailed(c))).phase == u.phase[c := GetFailed]
  {
  }

  lemma FailedStep(u: Uses, e: UseEvent, c: Call)
    requires UseInv(u) && UseEnabled(u, e) && c in u.phase && u.phase[c] == GetFailed
    ensures c in UseStep(u, e).phase && UseStep(u, e).phase[c] == GetFailed
    ensures e.Invoke? ==> e.call != c
  {
    assert c < u.pool.calls;
  }

  /** Its callback never runs, and it returns nothing. */
  lemma {:induction false} FailedUseStaysFailed(u: Uses, es: seq<UseEvent>, c: Call)
    requires UseInv(u) && UseValidRun(u, es) && c in u.phase && u.phase[c] == GetFailed
    ensures var v := UseAfter(u, es);
      c in v.phase && v.phase[c] == GetFailed && c in v.returned && v.returned[c] == 0
    ensures forall i :: 0 <= i < |es| && es[i].Invoke? ==> es[i].call != c
    decreases |es|
  {
    if es != [] {
      UseStepKeepsInv(u, es[0]);
      FailedStep(u, es[0], c);
      FailedUseStaysFailed(UseStep(u, es[0]), es[1..], c);
      assert forall i :: 0 < i < |es| ==> es[i] == es[1..][i - 1];
    }
  }
}
