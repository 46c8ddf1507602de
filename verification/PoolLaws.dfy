/** What each step of the pool does, case by case, and what that means for whole
    runs: resources are reused before one is created, and a `destroyAll()` goes
    on only after a moment at which nothing was in use. */
module PoolLaws {
  import opened PoolModel
  import opened PoolProperties

  /** All resources but `r` are where they were. */
  ghost predicate OnlyMoves(s: Pool, t: Pool, r: Resource) {
    && (forall q :: q in s.place && q != r ==> q in t.place && t.place[q] == s.place[q])
    && (forall q :: q in t.place && q != r ==> q in s.place)
  }

  /** get() reuses the oldest idle resource; without one it creates a resource
      below the cap, and at the cap it waits behind everybody else. */
  lemma GetCases(s: Pool)
    requires Inv(s)
    ensures var t := Step(s, Get);
      && t.core.max == s.core.max && t.core.inUse == s.core.inUse && t.calls == s.calls + 1
      && t.failed == s.failed && t.destroyed == s.destroyed && t.served == s.served
    ensures s.core.unused != [] ==>
      var t, r := Step(s, Get), s.core.unused[0];
      && t.core.count == s.core.count && t.creating == s.creating && t.core.waiting == s.core.waiting
      && s.core.unused == [r] + t.core.unused
      && r in t.place && t.place[r] == Transit(s.calls) && OnlyMoves(s, t, r)
    ensures s.core.unused == [] && s.core.count < s.core.max ==>
      var t := Step(s, Get);
      && t.core.count == s.core.count + 1 && t.creating == s.creating + {s.calls} && s.calls !in s.creating
      && t.core.waiting == s.core.waiting && t.core.unused == [] && t.place == s.place
    ensures s.core.unused == [] && s.core.count == s.core.max ==>
      var t := Step(s, Get);
      && t.core.count == s.core.count && t.creating == s.creating && t.core.unused == [] && t.place == s.place
      && t.core.waiting == s.core.waiting + [s.calls]
  {
  }

  /** A slot is taken only by a get() that finds nothing idle below the cap, and
      none is ever given back. */
  lemma CreatesOnlyWhenNothingIdle(s: Pool, e: Event)
    requires Inv(s) && Enabled(s, e)
    ensures var t := Step(s, e);
      && s.core.count <= t.core.count
      && (s.core.count < t.core.count <==> e == Get && s.core.unused == [] && s.core.count < s.core.max)
      && (s.core.count < t.core.count ==> t.core.count == s.core.count + 1 && t.core.unused == [])
  {
  }

  /** What `numInUse()` says. */
  function InUse(s: Pool): int {
    s.core.count - |s.core.unused|
  }

  function Max(a: int, b: int): int {
    if a < b then b else a
  }

  /** The most that `numInUse()` says in any state of the run. */
  ghost function Peak(s: Pool, es: seq<Event>): int
    requires ValidRun(s, es)
    decreases |es|
  {
    if es == [] then InUse(s) else Max(InUse(s), Peak(Step(s, es[0]), es[1..]))
  }

  lemma PeakIsOver(s: Pool, es: seq<Event>)
    requires ValidRun(s, es)
    ensures InUse(s) <= Peak(s, es)
  {
  }

  lemma {:induction false} OwnedFollowsPeak(s: Pool, es: seq<Event>)
    requires Inv(s) && ValidRun(s, es)
    ensures After(s, es).core.count == Max(s.core.count, Peak(s, es))
    decreases |es|
  {
    if es != [] {
      var t := Step(s, es[0]);
      StepKeepsInv(s, es[0]);
      CreatesOnlyWhenNothingIdle(s, es[0]);
      PeakIsOver(t, es[1..]);
      OwnedFollowsPeak(t, es[1..]);
    }
  }

  /** In every run, the pool owns exactly as many resources as were in use at
      once at most: none is created while an idle one could serve. */
  lemma OwnedIsPeakInUse(max: nat, es: seq<Event>)
    requires ValidRun(Init(max), es)
    ensures After(Init(max), es).core.count == Peak(Init(max), es)
  {
    InitInv(max);
    PeakIsOver(Init(max), es);
    OwnedFollowsPeak(Init(max), es);
  }

  /** The end of a creation, and the continuation of get(). */
  lemma HandOverCases(s: Pool, c: Call, r: Resource)
    requires Inv(s)
    ensures Enabled(s, CreateDone(c, r)) ==>
      var t := Step(s, CreateDone(c, r));
      && t.core == s.core && t.creating == s.creating - {c} && r !in s.place
      && r in t.place && t.place[r] == Transit(c) && OnlyMoves(s, t, r)
    ensures Enabled(s, CreateFailed(c)) ==>
      var t := Step(s, CreateFailed(c));
      && t.core == s.core && t.creating == s.creating - {c} && t.failed == s.failed + 1 && t.place == s.place
    ensures Enabled(s, Deliver(r)) ==>
      var t := Step(s, Deliver(r));
      && t.core == s.core.(inUse := s.core.inUse + {r})
      && r in t.place && t.place[r] == Held(s.place[r].call) && OnlyMoves(s, t, r)
  {
  }

  /** return(): nothing for a resource that is not in use; otherwise it goes to
      the call that waits longest, or behind the idle ones. */
  lemma ReturnCases(s: Pool, r: Resource)
    requires Inv(s)
    ensures r !in s.core.inUse ==> Step(s, GiveBack(r)) == s
    ensures r in s.core.inUse ==>
      var t := Step(s, GiveBack(r));
      && t.core.inUse == s.core.inUse - {r} && r in t.place && OnlyMoves(s, t, r)
      && t.core.count == s.core.count && t.creating == s.creating && t.destroyed == s.destroyed
    ensures r in s.core.inUse && s.core.waiting != [] ==>
      var t := Step(s, GiveBack(r));
      && t.place[r] == Transit(s.core.waiting[0]) && s.core.waiting == [s.core.waiting[0]] + t.core.waiting
      && t.core.unused == s.core.unused && t.awaiting == s.awaiting && t.ready == s.ready
    ensures r in s.core.inUse && s.core.waiting == [] ==>
      var t := Step(s, GiveBack(r));
      && t.place[r] == Idle && t.core.unused == s.core.unused + [r] && t.core.waiting == []
      && (if s.core.inUse == {r} then t.awaiting == {} && t.ready == s.ready + s.awaiting
          else t.awaiting == s.awaiting && t.ready == s.ready)
  {
  }

  /** destroyAll() waits if and only if something is in use; until then nothing
      happens to any resource. */
  lemma DestroyAllCases(s: Pool, n: nat)
    requires Inv(s)
    ensures s.core.inUse != {} ==>
      var t := Step(s, DestroyAll(n));
      && s.destroyers in t.awaiting && s.destroyers !in t.ready
      && t.core == s.core && t.place == s.place && t.destroyed == s.destroyed
    ensures s.core.inUse == {} ==>
      FlushedTo(s, Step(s, DestroyAll(n)), n) && Step(s, DestroyAll(n)).awaiting == s.awaiting
    ensures forall d :: d in s.ready ==>
      FlushedTo(s, Step(s, Continue(d, n)), n) && Step(s, Continue(d, n)).ready == s.ready - {d}
  {
    forall d | d in s.ready
      ensures FlushedTo(s, Step(s, Continue(d, n)), n) && Step(s, Continue(d, n)).ready == s.ready - {d}
    {
      FlushedAsSaid(s, s.(ready := s.ready - {d}), n);
    }
    FlushedAsSaid(s, s.(destroyers := s.destroyers + 1), n);
  }

  /** The idle resources went to destroy() oldest first, up to and with the one
      at which it throws; none is idle any more, and nothing else moved. */
  ghost predicate FlushedTo(s: Pool, t: Pool, n: nat) {
    && t.core == s.core.(unused := [])
    && s.destroyed <= t.destroyed
    && |t.destroyed| - |s.destroyed| == (if |s.core.unused| <= n + 1 then |s.core.unused| else n + 1)
    && (forall i :: 0 <= i < |t.destroyed| - |s.destroyed| ==>
          t.destroyed[|s.destroyed| + i] == s.core.unused[i])
    && t.place.Keys == s.place.Keys
    && (forall r :: r in s.place && !s.place[r].Idle? ==> t.place[r] == s.place[r])
    && (forall i :: 0 <= i < |s.core.unused| ==>
          s.core.unused[i] in t.place
          && t.place[s.core.unused[i]] == if i <= n then Destroyed else Dropped)
  }

  lemma FlushedAsSaid(s: Pool, u: Pool, n: nat)
    requires Inv(s) && u.core == s.core && u.place == s.place && u.destroyed == s.destroyed
    ensures FlushedTo(s, Flush(u, n), n)
  {
    var unused, t := s.core.unused, Flush(u, n);
    var reached := if n < |unused| then n + 1 else |unused|;
    forall i | 0 <= i < |unused|
      ensures unused[i] in t.place && t.place[unused[i]] == if i <= n then Destroyed else Dropped
    {
      assert unused[i] in unused;
      if i < reached {
        assert unused[..reached][i] == unused[i];
      }
    }
    assert forall r :: r in unused[..reached] ==> r in unused;
  }

  // ---------------------------------------------------------------------------
  // When destroyAll() goes on.

  ghost predicate AlwaysInUse(s: Pool, es: seq<Event>)
    requires ValidRun(s, es)
    decreases |es|
  {
    s.core.inUse != {} && (es == [] || AlwaysInUse(Step(s, es[0]), es[1..]))
  }

  /** A waiting destroyAll() is woken only by the return that leaves nothing in
      use. */
  lemma WokenOnlyWhenEmpty(s: Pool, e: Event, d: nat)
    requires Inv(s) && d in s.awaiting && Enabled(s, e)
    ensures var t := Step(s, e);
      && (d in t.awaiting || d in t.ready)
      && (d in t.ready ==> e.GiveBack? && s.core.inUse == {e.resource} && t.core.inUse == {})
  {
    if e.GiveBack? {
      ReturnCases(s, e.resource);
    }
  }

  /** So it does not go on in a run throughout which something is in use. */
  lemma {:induction false} WaitsWhileInUse(s: Pool, es: seq<Event>, d: nat)
    requires Inv(s) && d in s.awaiting && ValidRun(s, es) && AlwaysInUse(s, es)
    ensures d in After(s, es).awaiting
    ensures forall i :: 0 <= i < |es| && es[i].Continue? ==> es[i].destroyer != d
    decreases |es|
  {
    if es != [] {
      var t := Step(s, es[0]);
      StepKeepsInv(s, es[0]);
      WokenOnlyWhenEmpty(s, es[0], d);
      assert t.core.inUse != {};
      WaitsWhileInUse(t, es[1..], d);
      assert forall i :: 0 < i < |es| ==> es[i] == es[1..][i - 1];
    }
  }
}
