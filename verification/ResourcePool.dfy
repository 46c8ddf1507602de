/** The class of src/containers/resource_pool.ts. Each method is one synchronous
    stretch and refines the matching function of the state machine. */
module ResourcePools {
  import opened Wrappers
  import opened Promises
  import opened Lists
  import opened PromiseQueues
  import opened PoolModel

  ghost function Ids(s: seq<Deferred<Resource>>): seq<Call> {
    seq(|s|, i requires 0 <= i < |s| => s[i].id)
  }

  class ResourcePool {
    const maxResources: nat
    var resourceCount: nat
    var inUse: set<Resource>
    var unused: List<Resource>
    var waiting: PromiseQueue<Resource>
    var listeners: set<nat>  // destroyAll() calls registered once on "empty"
    ghost var core: Core  // the abstract value of the fields
    ghost var Repr: set<object>

    ghost predicate Valid()
      reads this, Repr
      ensures Valid() ==> this in Repr
    {
      && this in Repr
      && unused in Repr && unused.Repr <= Repr && this !in unused.Repr && unused.Valid()
      && waiting in Repr && waiting.Repr <= Repr && this !in waiting.Repr && waiting.Valid()
      && unused.Repr !! waiting.Repr
      && core == Core(maxResources, resourceCount, unused.contents, inUse, Ids(waiting.queue.contents))
    }

    constructor (maxResources: nat)
      ensures Valid() && fresh(Repr)
      ensures core == Init(maxResources).core && listeners == {}
    {
      this.maxResources := maxResources;
      resourceCount, inUse, listeners := 0, {}, {};
      var list := new List<Resource>();
      var queue := new PromiseQueue<Resource>();
      unused, waiting := list, queue;
      Repr := {this} + list.Repr + queue.Repr;
      core := Init(maxResources).core;
      new;
      assert Ids(waiting.queue.contents) == [];
    }

    method NumInUse() returns (n: int)
      requires Valid()
      ensures n == core.count - |core.unused|
    {
      var length := unused.Length();
      n := resourceCount - length;
    }

    /** `getResource()` up to its first await. `call` numbers the call of get()
        that makes it. */
    method GetResource(call: Call) returns (acquired: Acquired)
      requires Valid()
      modifies Repr
      ensures Valid() && fresh(Repr - old(Repr))
      ensures (core, acquired) == PoolModel.GetResource(old(core), call)
      ensures old(core).unused != [] ==>
        && acquired == Unused(old(core).unused[0])
        && core == old(core).(unused := old(core).unused[1..])
      ensures old(core).unused == [] && old(core).count < maxResources ==>
        acquired == Create && core == old(core).(count := old(core).count + 1)
      ensures old(core).unused == [] && old(core).count >= maxResources ==>
        acquired == Wait && core == old(core).(waiting := old(core).waiting + [call])
      ensures listeners == old(listeners)
    {
      var maybeUnused := unused.Shift();
      assert waiting.Valid() && waiting.queue.contents == old(waiting.queue.contents);
      if maybeUnused.Some? {
        acquired := Unused(maybeUnused.value);
        core := core.(unused := unused.contents);
      } else if resourceCount < maxResources {
        resourceCount := resourceCount + 1;
        core := core.(count := resourceCount);
        acquired := Create;
      } else {
        PushWaiting(call);
        acquired := Wait;
      }
    }

    /** `this.waiting.push()`. */
    method PushWaiting(call: Call)
      requires Valid()
      modifies Repr
      ensures Valid() && fresh(Repr - old(Repr)) && listeners == old(listeners)
      ensures core == old(core).(waiting := old(core).waiting + [call])
    {
      ghost var before := waiting.queue.contents;
      var promise := waiting.Push(call);
      Repr := Repr + waiting.Repr;
      assert Ids(before + [promise]) == Ids(before) + [call];
      core := core.(waiting := core.waiting + [call]);
    }

    /** The continuation of `get()` after the await. */
    method Deliver(resource: Resource)
      requires Valid()
      modifies this`inUse, this`core
      ensures Valid()
      ensures core == old(core).(inUse := old(inUse) + {resource})
    {
      inUse := inUse + {resource};
      core := core.(inUse := inUse);
    }

    /** `NotOwned` stands for the thrown error. `emitted` are the calls whose
        "empty" event fires. */
    method Return(resource: Resource) returns (returned: Returned, emitted: set<nat>)
      requires Valid()
      modifies Repr
      ensures Valid() && fresh(Repr - old(Repr))
      ensures (core, returned) == PoolModel.Return(old(core), resource)
      ensures resource !in old(core).inUse ==> returned == NotOwned && core == old(core)
      ensures resource in old(core).inUse && old(core).waiting != [] ==>
        && returned == Handed
        && core == old(core).(inUse := old(core).inUse - {resource}, waiting := old(core).waiting[1..])
      ensures resource in old(core).inUse && old(core).waiting == [] ==>
        && returned == Kept(old(core).inUse == {resource})
        && core == old(core).(inUse := old(core).inUse - {resource}, unused := old(core).unused + [resource])
      ensures returned == Handed ==>
        old(waiting.queue.contents)[0].outcome == Some(Fulfilled(resource))
      ensures emitted == (if returned == Kept(true) then old(listeners) else {})
      ensures listeners == old(listeners) - emitted
    {
      emitted := {};
      var deleted := DeleteInUse(resource);
      if !deleted {
        return NotOwned, {};
      }
      returned, emitted := HandOrKeep(resource);
    }

    /** The rest of `return()` for a resource of the pool. */
    method HandOrKeep(resource: Resource) returns (returned: Returned, emitted: set<nat>)
      requires Valid()
      modifies Repr
      ensures Valid() && fresh(Repr - old(Repr))
      ensures old(core).waiting != [] ==>
        && returned == Handed && core == old(core).(waiting := old(core).waiting[1..])
        && old(waiting.queue.contents)[0].outcome == Some(Fulfilled(resource))
      ensures old(core).waiting == [] ==>
        returned == Kept(old(inUse) == {}) && core == old(core).(unused := old(core).unused + [resource])
      ensures emitted == (if returned == Kept(true) then old(listeners) else {})
      ensures listeners == old(listeners) - emitted
    {
      var settled := ServeWaiter(resource);
      if settled {
        return Handed, {};
      }
      returned := Kept(inUse == {});
      emitted := Keep(resource);
    }

    /** `this.inUse.delete(resource)`. */
    method DeleteInUse(resource: Resource) returns (deleted: bool)
      requires Valid()
      modifies this`inUse, this`core
      ensures Valid() && Repr == old(Repr) && deleted == (resource in old(inUse))
      ensures core == if deleted then old(core).(inUse := old(inUse) - {resource}) else old(core)
    {
      deleted := resource in inUse;
      if deleted {
        inUse := inUse - {resource};
        core := core.(inUse := inUse);
      }
    }

    /** `this.waiting.resolveOne(resource)`. */
    method ServeWaiter(resource: Resource) returns (settled: bool)
      requires Valid()
      modifies Repr
      ensures Valid() && Repr == old(Repr) && listeners == old(listeners)
      ensures settled <==> old(core).waiting != []
      ensures core == if settled then old(core).(waiting := old(core).waiting[1..]) else old(core)
      ensures settled ==> old(waiting.queue.contents)[0].outcome == Some(Fulfilled(resource))
    {
      ghost var before := waiting.queue.contents;
      settled := waiting.ResolveOne(resource);
      assert settled ==> Ids(before[1..]) == Ids(before)[1..];
      if settled {
        core := core.(waiting := core.waiting[1..]);
      }
    }

    /** The end of `return()`: emit "empty" if nothing is in use any more, then
        `this.unused.push(resource)`. */
    method Keep(resource: Resource) returns (emitted: set<nat>)
      requires Valid()
      modifies Repr
      ensures Valid() && fresh(Repr - old(Repr))
      ensures core == old(core).(unused := old(core).unused + [resource])
      ensures emitted == (if old(inUse) == {} then old(listeners) else {})
      ensures listeners == old(listeners) - emitted
    {
      emitted := {};
      if inUse == {} {
        emitted := Emit();
      }
      PushUnused(resource);
    }

    /** `this.emptyEmitter.emit("empty")`: whoever listens does so once. */
    method Emit() returns (emitted: set<nat>)
      requires Valid()
      modifies this`listeners
      ensures Valid() && emitted == old(listeners) && listeners == {}
    {
      emitted, listeners := listeners, {};
    }

    /** `this.unused.push(resource)`. */
    method PushUnused(resource: Resource)
      requires Valid()
      modifies Repr
      ensures Valid() && fresh(Repr - old(Repr)) && listeners == old(listeners)
      ensures core == old(core).(unused := old(core).unused + [resource])
    {
      var _ := unused.Push([resource]);
      assert waiting.Valid() && waiting.queue.contents == old(waiting.queue.contents);
      Repr := Repr + unused.Repr;
      core := core.(unused := unused.contents);
    }

    /** `destroyAll()` up to its await, if it has one: `None` means that it
        registered for "empty" and waits. */
    method DestroyAll(id: nat) returns (connections: Option<seq<Resource>>)
      requires Valid()
      modifies Repr
      ensures Valid() && fresh(Repr - old(Repr))
      ensures old(inUse) != {} ==>
        connections == None && core == old(core) && listeners == old(listeners) + {id}
      ensures old(inUse) == {} ==>
        && connections == Some(old(core).unused) && core == old(core).(unused := [])
        && listeners == old(listeners)
    {
      if inUse != {} {
        listeners := listeners + {id};
        return None;
      }
      var taken := TakeUnused();
      connections := Some(taken);
    }

    /** The rest of `destroyAll()`; the result is what goes to destroy(), in
        this order. */
    method TakeUnused() returns (connections: seq<Resource>)
      requires Valid()
      modifies Repr
      ensures Valid() && fresh(Repr - old(Repr))
      ensures connections == old(core).unused
      ensures core == old(core).(unused := []) && listeners == old(listeners)
    {
      connections := unused.Iterate();
      unused := new List<Resource>();
      Repr := Repr + unused.Repr;
      core := core.(unused := []);
    }

    /** The two handlers of `returnAfter`, run one after the other. The
        settlement passes through exactly when the resource is in use. */
    method ReturnAfter(settled: Outcome<nat>, resource: Resource) returns (end: Outcome<nat>)
      requires Valid()
      modifies Repr
      ensures Valid() && fresh(Repr - old(Repr))
      ensures core == PoolModel.Return(old(core), resource).0
      ensures end == if resource in old(inUse) then settled else Rejected(NotInPool)
    {
      end := settled;
      if end.Fulfilled? {
        var returned, _ := Return(resource);
        if returned != NotOwned {
          return;
        }
        end := Rejected(NotInPool);
      }
      var returned, _ := Return(resource);
      if returned == NotOwned {
        end := Rejected(NotInPool);
      }
    }
  }

}
