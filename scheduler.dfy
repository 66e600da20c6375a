/**
 * The microtask batch scheduler. The runtime has two copies of it,
 * `batchScheduler` (src/superstate/supState.ts) and `batchUpdates`
 * (src/superstate/supGlobal.ts), which differ only in field names; both are
 * this class. `scheduled` is `scheduled` / `pending`, `callbacks` is
 * `callbacks` / `queue`.
 *
 * The microtask that `Promise.resolve().then` arranges is not modelled as
 * such: its first three steps are `BeginFlush`, and the owner of the
 * scheduler then runs the returned snapshot in order. The ghost counter
 * `armed` counts microtasks that have been arranged and have not yet run.
 */
module Scheduler {
  import opened Collections

  class BatchScheduler<C(==)> {
    var scheduled: bool
    var callbacks: seq<C>
    ghost var armed: nat

    /**
     * At most one flush is pending, exactly when the flag is set, and the
     * flag is set exactly when callbacks are waiting.
     */
    ghost predicate Valid()
      reads this
    {
      && NoDup(callbacks)
      && armed == (if scheduled then 1 else 0)
      && (scheduled <==> callbacks != [])
    }

    constructor ()
      ensures Valid() && !scheduled && callbacks == [] && armed == 0
    {
      scheduled := false;
      callbacks := [];
      armed := 0;
    }

    /**
     * `schedule(callback)`: the callback always joins the set; a flush is
     * arranged only by the call that finds no flush pending.
     */
    method Schedule(cb: C)
      requires Valid()
      modifies this
      ensures Valid()
      ensures callbacks == Add(old(callbacks), cb)
      ensures scheduled
      ensures armed == old(armed) + (if old(scheduled) then 0 else 1)
    {
      callbacks := Add(callbacks, cb);
      if !scheduled {
        scheduled := true;
        armed := armed + 1;
      }
    }

    /**
     * The arranged microtask starts: it clears the flag, then takes a
     * snapshot of the callbacks and empties the set. The caller runs the
     * snapshot, which is every waiting callback once, in insertion order.
     */
    method BeginFlush() returns (batch: seq<C>)
      requires Valid() && armed > 0
      modifies this
      ensures Valid()
      ensures batch == old(callbacks) && batch != [] && NoDup(batch)
      ensures !scheduled && callbacks == [] && armed == old(armed) - 1
    {
      scheduled := false;
      batch := callbacks;
      callbacks := [];
      armed := armed - 1;
    }
  }
}
