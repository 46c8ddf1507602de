/** What every run of the pool keeps: conservation, queue order, exclusive
    ownership, and when `destroyAll()` is complete. */
module PoolProperties {
  import opened PoolModel

  ghost function InTransit(s: Pool): set<Resource> {
    set r | r in s.place && s.place[r].Transit?
  }

  ghost function DroppedOnes(s: Pool): set<Resource> {
    set r | r in s.place && s.place[r].Dropped?
  }

  ghost function SetOf<T>(s: seq<T>): set<T> {
    set x | x in s
  }

  lemma {:induction false} DistinctSize<T>(s: seq<T>)
    requires Distinct(s)
    ensures |SetOf(s)| == |s|
  {
    if s != [] {
      DistinctSize(s[1..]);
      assert SetOf(s) == {s[0]} + SetOf(s[1..]);
    }
  }

  lemma UnionSize<T>(a: set<T>, b: set<T>, c: set<T>, d: set<T>, e: set<T>)
    requires a !! b !! c !! d !! e
    ensures |a + b + c + d + e| == |a| + |b| + |c| + |d| + |e|
  {
  }

  lemma LedgerDisjoint(s: Pool)
    requires LedgerAgrees(s)
    ensures InTransit(s) !! s.core.inUse !! SetOf(s.core.unused) !! SetOf(s.destroyed) !! DroppedOnes(s)
    ensures s.place.Keys
         == InTransit(s) + s.core.inUse + SetOf(s.core.unused) + SetOf(s.destroyed) + DroppedOnes(s)
  {
  }

  lemma LedgerSize(s: Pool)
    requires LedgerAgrees(s)
    ensures |s.place| == |InTransit(s)| + |s.core.inUse| + |s.core.unused| + |s.destroyed| + |DroppedOnes(s)|
    ensures InTransit(s) !! s.core.inUse !! SetOf(s.core.unused) !! SetOf(s.destroyed) !! DroppedOnes(s)
  {
    LedgerDisjoint(s);
    DistinctSize(s.core.unused);
    DistinctSize(s.destroyed);
    UnionSize(InTransit(s), s.core.inUse, SetOf(s.core.unused), SetOf(s.destroyed), DroppedOnes(s));
  }

  /** Conservation, in every state of every run. */
  lemma Conservation(max: nat, es: seq<Event>)
    requires ValidRun(Init(max), es)
    ensures var s := After(Init(max), es);
      && s.core.count == |s.creating| + |InTransit(s)| + |s.core.inUse| + |s.core.unused|
                         + |s.destroyed| + s.failed + |DroppedOnes(s)|
      && InTransit(s) !! s.core.inUse !! SetOf(s.core.unused) !! SetOf(s.destroyed) !! DroppedOnes(s)
      && s.core.count <= max
  {
    InitInv(max);
    RunKeepsInv(Init(max), es);
    LedgerSize(After(Init(max), es));
    MaxIsFixed(Init(max), es);
  }

  lemma {:induction false} MaxIsFixed(s: Pool, es: seq<Event>)
    requires ValidRun(s, es)
    ensures After(s, es).core.max == s.core.max
    decreases |es|
  {
    if es != [] {
      MaxIsFixed(Step(s, es[0]), es[1..]);
    }
  }

  /** `numInUse()` counts the resources in creation, in hand-off and in use
      exactly when no create() failed and nothing has gone to destroy(). */
  lemma NumInUseExactIff(s: Pool)
    requires Inv(s)
    ensures s.core.count - |s.core.unused| == |s.creating| + |InTransit(s)| + |s.core.inUse|
       <==> s.failed == 0 && s.destroyed == [] && DroppedOnes(s) == {}
  {
    LedgerSize(s);
  }

  // ---------------------------------------------------------------------------
  // Waiting.

  /** No lost wake-up: somebody waits only when nothing is idle and the cap is
      reached. Queue order: the calls served from the queue are the blocked calls
      in get() order, the rest still waits. */
  lemma WaitingDiscipline(max: nat, es: seq<Event>)
    requires ValidRun(Init(max), es)
    ensures var s := After(Init(max), es);
      && (s.core.waiting != [] ==> s.core.unused == [] && s.core.count == max)
      && Increasing(s.blocked)
      && |s.served| + |s.core.waiting| == |s.blocked|
      && (forall i :: 0 <= i < |s.served| ==> s.served[i] == s.blocked[i])
      && (forall i :: 0 <= i < |s.core.waiting| ==> s.core.waiting[i] == s.blocked[|s.served| + i])
  {
    InitInv(max);
    RunKeepsInv(Init(max), es);
    MaxIsFixed(Init(max), es);
  }

  ghost predicate HasOrCreates(s: Pool, c: Call) {
    c in s.creating || exists r :: r in s.place && Engaged(s.place[r]) && s.place[r].call == c
  }

  lemma {:induction false} CallsGrow(s: Pool, es: seq<Event>)
    requires ValidRun(s, es)
    ensures s.calls <= After(s, es).calls
    decreases |es|
  {
    if es != [] {
      CallsGrow(Step(s, es[0]), es[1..]);
    }
  }

  /** No barging: a get() made while `c` waits waits behind `c`; it has and
      creates nothing as long as `c` is not served. */
  lemma NoBarging(s: Pool, es: seq<Event>, c: Call, later: Call)
    requires Inv(s) && ValidRun(s, es)
    requires c in s.core.waiting && s.calls <= later < After(s, es).calls
    requires c in After(s, es).core.waiting
    ensures later in After(s, es).core.waiting && !HasOrCreates(After(s, es), later)
  {
    var t := After(s, es);
    RunKeepsInv(s, es);
    var i :| 0 <= i < |t.core.waiting| && t.core.waiting[i] == c;
    assert c < s.calls;
    assert t.core.waiting[i + (later - c)] == later;
  }

  // ---------------------------------------------------------------------------
  // Idle resources.

  ghost predicate Before(s: seq<Resource>, r: Resource, q: Resource) {
    exists i, j :: 0 <= i < j < |s| && s[i] == r && s[j] == q
  }

  lemma NotIdleStays(s: Pool, e: Event, r: Resource)
    requires LedgerAgrees(s) && Enabled(s, e) && e != GiveBack(r)
    requires r in s.place && !s.place[r].Idle?
    ensures r in Step(s, e).place && !Step(s, e).place[r].Idle?
  {
  }

  lemma {:induction false} NeverIdleAgain(s: Pool, es: seq<Event>, r: Resource)
    requires Inv(s) && ValidRun(s, es) && GiveBack(r) !in es
    requires r in s.place && !s.place[r].Idle?
    ensures r !in After(s, es).core.unused
    decreases |es|
  {
    if es != [] {
      StepKeepsInv(s, es[0]);
      NotIdleStays(s, es[0], r);
      NeverIdleAgain(Step(s, es[0]), es[1..], r);
    }
  }

  lemma OrderKept(s: Pool, e: Event, r: Resource, q: Resource)
    requires LedgerAgrees(s) && Enabled(s, e) && Before(s.core.unused, r, q)
    ensures var t := Step(s, e);
      r in t.place && (Before(t.core.unused, r, q) || !t.place[r].Idle?)
  {
    var unused, left := s.core.unused, Step(s, e).core.unused;
    var i, j :| 0 <= i < j < |unused| && unused[i] == r && unused[j] == q;
    assert r in unused;
    if left == unused[1..] && 0 < i {
      assert left[i - 1] == r && left[j - 1] == q;
    } else if unused <= left {
      assert left[i] == r && left[j] == q;
    }
  }

  /** Idle resources are reused oldest first: as long as the one returned earlier
      is idle without having been taken in between, so is every later one, still
      behind it. */
  lemma {:induction false} OldestIdleFirst(s: Pool, es: seq<Event>, r: Resource, q: Resource)
    requires Inv(s) && ValidRun(s, es) && GiveBack(r) !in es
    requires Before(s.core.unused, r, q) && r in After(s, es).core.unused
    ensures Before(After(s, es).core.unused, r, q)
    decreases |es|
  {
    if es != [] {
      StepKeepsInv(s, es[0]);
      OrderKept(s, es[0], r, q);
      if Before(Step(s, es[0]).core.unused, r, q) {
        OldestIdleFirst(Step(s, es[0]), es[1..], r, q);
      } else {
        NeverIdleAgain(Step(s, es[0]), es[1..], r);
      }
    }
  }

  // ---------------------------------------------------------------------------
  // Ownership.

  lemma HeldAcrossStep(s: Pool, e: Event, r: Resource)
    requires Inv(s) && Enabled(s, e) && e != GiveBack(r)
    requires r in s.place && Engaged(s.place[r])
    ensures var t := Step(s, e);
      && r in t.place && Engaged(t.place[r]) && t.place[r].call == s.place[r].call
      && (s.place[r].Held? ==> t.place[r].Held?)
  {
    if e == Get {
      Nonempty(s.core.unused);
    }
  }

  lemma Nonempty<T>(s: seq<T>)
    ensures s == [] || s[0] in s
  {
  }

  /** Exclusive ownership: from the moment a resource is on its way to a caller
      until that resource is given back, nobody else has it and it is not passed
      to destroy(). */
  lemma {:induction false} HeldUntilReturned(s: Pool, es: seq<Event>, r: Resource)
    requires Inv(s) && ValidRun(s, es)
    requires r in s.place && Engaged(s.place[r]) && GiveBack(r) !in es
    ensures var t := After(s, es);
      && r in t.place && Engaged(t.place[r]) && t.place[r].call == s.place[r].call
      && (s.place[r].Held? ==> t.place[r].Held?)
      && r !in t.core.unused && r !in t.destroyed
    decreases |es|
  {
    if es != [] {
      StepKeepsInv(s, es[0]);
      HeldAcrossStep(s, es[0], r);
      HeldUntilReturned(Step(s, es[0]), es[1..], r);
    }
  }

  /** Whatever a step passes to destroy() was idle, and nothing is ever passed
      twice. */
  lemma DestroyedOnceFromIdle(s: Pool, e: Event)
    requires Inv(s) && Enabled(s, e)
    ensures var t := Step(s, e);
      && Distinct(t.destroyed)
      && s.destroyed <= t.destroyed
      && forall i :: |s.destroyed| <= i < |t.destroyed| ==>
           t.destroyed[i] in s.place && s.place[t.destroyed[i]].Idle?
  {
    StepKeepsInv(s, e);
    match e
    case DestroyAll(n) => FlushTakesUnused(s.(destroyers := s.destroyers + 1), n);
    case Continue(d, n) => FlushTakesUnused(s.(ready := s.ready - {d}), n);
    case _ =>
  }

  lemma FlushTakesUnused(s: Pool, n: nat)
    requires LedgerAgrees(s)
    ensures var t := Flush(s, n);
      && s.destroyed <= t.destroyed
      && forall i :: |s.destroyed| <= i < |t.destroyed| ==>
           t.destroyed[i] in s.place && s.place[t.destroyed[i]].Idle?
  {
    var t := Flush(s, n);
    forall i | |s.destroyed| <= i < |t.destroyed|
      ensures t.destroyed[i] in s.core.unused
    {
      assert t.destroyed[i] == s.core.unused[i - |s.destroyed|];
    }
  }

  // ---------------------------------------------------------------------------
  // destroyAll().

  /** Nothing is in flight, and nothing was lost before. */
  ghost predicate Quiet(s: Pool) {
    && s.core.waiting == [] && s.creating == {} && s.failed == 0
    && forall r :: r in s.place ==> !s.place[r].Transit? && !s.place[r].Dropped?
  }

  /** No get() is made and no call of destroy() throws synchronously. */
  ghost predicate Peaceful(s: Pool, es: seq<Event>)
    requires ValidRun(s, es)
    decreases |es|
  {
    es == [] || (GentleStep(s, es[0]) && Peaceful(Step(s, es[0]), es[1..]))
  }

  ghost predicate GentleStep(s: Pool, e: Event) {
    match e
    case Get => false
    case DestroyAll(n) => |s.core.unused| <= n
    case Continue(_, n) => |s.core.unused| <= n
    case _ => true
  }

  ghost predicate AllDestroyed(s: Pool) {
    && (forall r :: r in s.place ==> r in s.destroyed)
    && |s.destroyed| == s.core.count
    && Distinct(s.destroyed)
  }

  lemma GentleStepKeepsQuiet(s: Pool, e: Event, d: nat)
    requires Inv(s) && Quiet(s) && Enabled(s, e) && GentleStep(s, e)
    requires d in s.ready ==> s.core.inUse == {}
    ensures Quiet(Step(s, e))
    ensures d in Step(s, e).ready && d < s.destroyers ==> Step(s, e).core.inUse == {}
  {
  }

  lemma {:induction false} PeacefulRunKeepsQuiet(s: Pool, es: seq<Event>, d: nat)
    requires Inv(s) && Quiet(s) && ValidRun(s, es) && Peaceful(s, es)
    requires d < s.destroyers && (d in s.ready ==> s.core.inUse == {})
    ensures var t := After(s, es); Quiet(t) && Inv(t) && (d in t.ready ==> t.core.inUse == {})
    decreases |es|
  {
    if es != [] {
      StepKeepsInv(s, es[0]);
      GentleStepKeepsQuiet(s, es[0], d);
      PeacefulRunKeepsQuiet(Step(s, es[0]), es[1..], d);
    }
  }

  /** From a quiet state, without further get() calls, a `destroyAll()` that has
      to wait finds at its continuation every resource idle or already
      destroyed, and leaves every resource destroyed exactly once, whatever
      other `destroyAll()` calls overlap it. */
  lemma DestroyAllCompletes(s: Pool, n: nat, es: seq<Event>, m: nat)
    requires Inv(s) && Quiet(s) && s.core.inUse != {}
    requires ValidRun(Step(s, DestroyAll(n)), es) && Peaceful(Step(s, DestroyAll(n)), es)
    requires s.destroyers in After(Step(s, DestroyAll(n)), es).ready
    requires |After(Step(s, DestroyAll(n)), es).core.unused| <= m
    ensures var u := After(Step(s, DestroyAll(n)), es);
      && (forall r :: r in u.place ==> r in u.core.unused || r in u.destroyed)
      && AllDestroyed(Step(u, Continue(s.destroyers, m)))
  {
    StepKeepsInv(s, DestroyAll(n));
    PeacefulRunKeepsQuiet(Step(s, DestroyAll(n)), es, s.destroyers);
    QuietFlush(After(Step(s, DestroyAll(n)), es), s.destroyers, m);
  }

  lemma QuietFlush(u: Pool, d: nat, n: nat)
    requires Inv(u) && Quiet(u) && u.core.inUse == {} && |u.core.unused| <= n && d in u.ready
    ensures forall r :: r in u.place ==> r in u.core.unused || r in u.destroyed
    ensures AllDestroyed(Step(u, Continue(d, n)))
  {
    assert forall r :: r in u.place ==> u.place[r].Idle? || u.place[r].Destroyed?;
    FlushIsCompleteIff(u.(ready := u.ready - {d}), n);
  }

  /** The same for a `destroyAll()` that finds nothing in use. */
  lemma DestroyAllAtOnce(s: Pool, n: nat)
    requires Inv(s) && Quiet(s) && s.core.inUse == {} && |s.core.unused| <= n
    ensures AllDestroyed(Step(s, DestroyAll(n)))
  {
    assert forall r :: r in s.place ==> s.place[r].Idle? || s.place[r].Destroyed?;
    FlushIsCompleteIff(s.(destroyers := s.destroyers + 1), n);
  }

  lemma AllDestroyedMeans(s: Pool)
    requires Inv(s)
    ensures AllDestroyed(s)
       <==> s.creating == {} && s.failed == 0 && forall r :: r in s.place ==> s.place[r].Destroyed?
  {
    DistinctSize(s.destroyed);
    assert SetOf(s.destroyed) <= s.place.Keys;
    if forall r :: r in s.place ==> s.place[r].Destroyed? {
      assert SetOf(s.destroyed) == s.place.Keys;
    }
  }

  lemma FlushDestroysAllIff(s: Pool, n: nat)
    requires Inv(s)
    ensures (forall r :: r in s.place ==> Flush(s, n).place[r].Destroyed?)
       <==> |s.core.unused| <= n + 1 && forall r :: r in s.place ==> s.place[r].Idle? || s.place[r].Destroyed?
  {
    var unused := s.core.unused;
    if n + 1 < |unused| {
      assert unused[n + 1] in unused && unused[n + 1] !in unused[..n + 1];
    } else {
      assert |unused| <= n + 1 ==> unused[..if n < |unused| then n + 1 else |unused|] == unused;
    }
  }

  /** Exactly when the second half of `destroyAll()` leaves every slot of the
      pool destroyed: nothing is being created, nothing failed, everything else
      is idle or destroyed, and only the last call of destroy() may throw. */
  lemma FlushIsCompleteIff(s: Pool, n: nat)
    requires Inv(s)
    ensures AllDestroyed(Flush(s, n))
       <==> && s.creating == {} && s.failed == 0 && |s.core.unused| <= n + 1
            && forall r :: r in s.place ==> s.place[r].Idle? || s.place[r].Destroyed?
  {
    var t := Flush(s, n);
    FlushKeepsInv(s, n);
    AllDestroyedMeans(t);
    FlushDestroysAllIff(s, n);
    assert t.place.Keys == s.place.Keys;
  }

  /** Without the condition it fails: a resource in hand-off is not in `inUse`,
      so `destroyAll()` does not wait for it and does not destroy it. */
  lemma DestroyAllMissesHandOff()
    ensures var r := Resource(0);
      var es := [Get, CreateDone(0, r), DestroyAll(0)];
      && ValidRun(Init(2), es)
      && var s := After(Init(2), es);
         s.awaiting == {} && s.destroyed == [] && r in s.place && s.place[r].Transit?
  {
    var r := Resource(0);
    var s1 := Step(Init(2), Get);
    var s2 := Step(s1, CreateDone(0, r));
    RunCons(s2, DestroyAll(0), []);
    RunCons(s1, CreateDone(0, r), [DestroyAll(0)]);
    RunCons(Init(2), Get, [CreateDone(0, r), DestroyAll(0)]);
    assert [Get] + [CreateDone(0, r), DestroyAll(0)] == [Get, CreateDone(0, r), DestroyAll(0)];
    assert [CreateDone(0, r)] + [DestroyAll(0)] == [CreateDone(0, r), DestroyAll(0)];
  }
}
