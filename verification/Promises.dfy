/** What a promise can end as, and the resolver pair of
    src/promise_functions.ts as an object whose calls change a promise. */
module Promises {
  import opened Wrappers

  /** Rejection reasons: the errors the containers create themselves, and
      whatever a caller passes in. */
  datatype Reason = Deleted | TimedOut | Cleared | NotInPool | Given(code: nat)

  datatype Outcome<+V> = Fulfilled(value: V) | Rejected(reason: Reason)

  /** A pending promise together with its `{ reject, resolve }` pair. Only the
      first call of either function has an effect. */
  class Deferred<T> {
    const id: nat
    var outcome: Option<Outcome<T>>

    constructor (id: nat)
      ensures this.id == id && outcome == None
    {
      this.id := id;
      outcome := None;
    }

    method Resolve(value: T)
      modifies this
      ensures outcome == if old(outcome).None? then Some(Fulfilled(value)) else old(outcome)
    {
      if outcome.None? {
        outcome := Some(Fulfilled(value));
      }
    }

    method Reject(reason: Reason)
      modifies this
      ensures outcome == if old(outcome).None? then Some(Rejected(reason)) else old(outcome)
    {
      if outcome.None? {
        outcome := Some(Rejected(reason));
      }
    }
  }
}
