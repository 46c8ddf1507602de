/** The FIFO queue of pending promises of src/containers/promise_queue.ts,
    built on the linked list. */
module PromiseQueues {
  import opened Wrappers
  import opened Promises
  import opened Lists

  class PromiseQueue<T> {
    var queue: List<Deferred<T>>
    ghost var pushed: seq<Deferred<T>>    // every promise ever pushed, in push order
    ghost var dequeued: seq<Deferred<T>>  // every promise ever settled here, in that order
    ghost var Repr: set<object>

    /** Dequeuing has followed push order so far: what was dequeued and then
        what waits is what was pushed, and exactly the waiting are unsettled. */
    ghost predicate Valid()
      reads this, Repr
      ensures Valid() ==> this in Repr
    {
      && this in Repr
      && queue in Repr && queue.Repr <= Repr && this !in queue.Repr
      && queue.Valid()
      && pushed == dequeued + queue.contents
      && Distinct(queue.contents)
      && (forall d :: d in queue.contents ==> d in Repr && d !in queue.Repr && d.outcome == None)
      && (forall d :: d in dequeued ==> d in Repr && d !in queue.Repr && d.outcome != None)
    }

    static ghost predicate Distinct(s: seq<Deferred<T>>) {
      forall i, j :: 0 <= i < j < |s| ==> s[i] != s[j]
    }

    constructor ()
      ensures Valid() && fresh(Repr) && pushed == dequeued == queue.contents == []
    {
      queue := new List<Deferred<T>>();
      pushed, dequeued := [], [];
      new;
      Repr := {this} + queue.Repr;
    }

    /** `id` stands for the identity of the promise created here. */
    method Push(id: nat) returns (promise: Deferred<T>)
      requires Valid()
      modifies Repr
      ensures Valid() && fresh(Repr - old(Repr)) && queue == old(queue)
      ensures fresh(promise) && promise.id == id
      ensures pushed == old(pushed) + [promise] && dequeued == old(dequeued)
      ensures queue.contents == old(queue.contents) + [promise]
      ensures forall d :: d in dequeued ==> d.outcome == old(d.outcome)
    {
      promise := new Deferred<T>(id);
      var _ := queue.Push([promise]);
      assert forall d :: d in old(queue.contents) || d in dequeued ==> d !in queue.Repr && d.outcome == old(d.outcome);
      pushed := pushed + [promise];
      Repr := Repr + queue.Repr + {promise};
    }

    method ResolveAll(value: T) returns (n: nat)
      requires Valid()
      modifies Repr
      ensures Valid() && Repr == old(Repr) && queue == old(queue)
      ensures n == |old(queue.contents)|
      ensures SettledAll(old(queue.contents), old(dequeued), Fulfilled(value))
      ensures pushed == old(pushed)
      ensures forall d :: d in old(dequeued) ==> d.outcome == old(d.outcome)
    {
      n := InvokeWhile(Fulfilled(value));
    }

    method RejectAll(reason: Reason) returns (n: nat)
      requires Valid()
      modifies Repr
      ensures Valid() && Repr == old(Repr) && queue == old(queue)
      ensures n == |old(queue.contents)|
      ensures SettledAll(old(queue.contents), old(dequeued), Rejected(reason))
      ensures pushed == old(pushed)
      ensures forall d :: d in old(dequeued) ==> d.outcome == old(d.outcome)
    {
      n := InvokeWhile(Rejected(reason));
    }

    /** Nothing waits any more; the promises that did were dequeued in queue
        order and all ended with `outcome`. */
    ghost predicate SettledAll(waiting: seq<Deferred<T>>, before: seq<Deferred<T>>, outcome: Outcome<T>)
      reads this, queue, waiting
    {
      && queue.contents == []
      && dequeued == before + waiting
      && forall d :: d in waiting ==> d.outcome == Some(outcome)
    }

    method ResolveOne(value: T) returns (settled: bool)
      requires Valid()
      modifies Repr
      ensures Valid() && Repr == old(Repr) && queue == old(queue) && pushed == old(pushed)
      ensures settled <==> old(queue.contents) != []
      ensures SettledFirst(old(queue.contents), old(dequeued), Fulfilled(value))
      ensures forall d :: d in old(dequeued) ==> d.outcome == old(d.outcome)
    {
      settled := SettleOne(Fulfilled(value));
    }

    method RejectOne(reason: Reason) returns (settled: bool)
      requires Valid()
      modifies Repr
      ensures Valid() && Repr == old(Repr) && queue == old(queue) && pushed == old(pushed)
      ensures settled <==> old(queue.contents) != []
      ensures SettledFirst(old(queue.contents), old(dequeued), Rejected(reason))
      ensures forall d :: d in old(dequeued) ==> d.outcome == old(d.outcome)
    {
      settled := SettleOne(Rejected(reason));
    }

    /** The first of `waiting`, if there is one, was dequeued with `outcome`. */
    ghost predicate SettledFirst(waiting: seq<Deferred<T>>, before: seq<Deferred<T>>, outcome: Outcome<T>)
      reads this, queue, waiting
    {
      if waiting == [] then queue.contents == [] && dequeued == before
      else
        && queue.contents == waiting[1..]
        && dequeued == before + [waiting[0]]
        && waiting[0].outcome == Some(outcome)
    }

    /** `argument` carries both the method name and the argument of the
        source's `settleOne(method, argument)`. */
    method SettleOne(argument: Outcome<T>) returns (settled: bool)
      requires Valid()
      modifies Repr
      ensures Valid() && Repr == old(Repr) && queue == old(queue) && pushed == old(pushed)
      ensures settled <==> old(queue.contents) != []
      ensures SettledFirst(old(queue.contents), old(dequeued), argument)
      ensures forall d :: d in old(dequeued) ==> d.outcome == old(d.outcome)
    {
      var maybeHead := queue.Shift();
      if maybeHead == None {
        return false;
      }
      var toSettle := maybeHead.value;
      assert toSettle == old(queue.contents)[0] && toSettle !in dequeued;
      match argument {
        case Rejected(reason) => toSettle.Reject(reason);
        case Fulfilled(value) => toSettle.Resolve(value);
      }
      assert forall d :: d in queue.contents ==> d != toSettle;
      assert pushed == (dequeued + [toSettle]) + queue.contents;
      dequeued := dequeued + [toSettle];
      settled := true;
    }

    /** `invokeWhile(() => this.settleOne(...))`: the queue length is the
        measure that makes it stop. */
    method InvokeWhile(argument: Outcome<T>) returns (numTrue: nat)
      requires Valid()
      modifies Repr
      ensures Valid() && Repr == old(Repr) && queue == old(queue) && pushed == old(pushed)
      ensures numTrue == |old(queue.contents)|
      ensures SettledAll(old(queue.contents), old(dequeued), argument)
      ensures forall d :: d in old(dequeued) ==> d.outcome == old(d.outcome)
    {
      ghost var waiting, before := queue.contents, dequeued;
      assert pushed == before + waiting;
      numTrue := 0;
      while true
        invariant Valid() && Repr == old(Repr) && queue == old(queue) && pushed == old(pushed)
        invariant numTrue == |dequeued| - |before| && before <= dequeued
        invariant forall i :: |before| <= i < |dequeued| ==> dequeued[i].outcome == Some(argument)
        invariant forall i :: 0 <= i < |before| ==> before[i].outcome == old(before[i].outcome)
        decreases |queue.contents|
      {
        ghost var was := dequeued;
        var more := SettleOne(argument);
        if !more {
          break;
        }
        assert was == dequeued[..|was|] && |dequeued| == |was| + 1;
        assert forall i :: 0 <= i < |was| ==> was[i] in was;
        numTrue := numTrue + 1;
      }
      assert dequeued == before + waiting;
      assert forall i :: 0 <= i < |waiting| ==> waiting[i] == dequeued[|before| + i];
    }
  }
}
