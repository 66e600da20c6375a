/**
 * The per-instance variant (src/superstate/supState.ts): a `ReactiveState`
 * cell holds its applied value and its listeners; writes that differ from
 * the applied value are queued in the `GlobalStore`, whose batch thunk,
 * scheduled once per cycle on the batch scheduler, applies every queued value
 * and then calls every store subscriber once.
 *
 * Listeners and store subscribers are opaque ids; calling one appends to a
 * ghost trace: a cell's `notified`, and the store's `events`, which records
 * each cell update and each subscriber call of a batch in the order they happen.
 */
module Reactive {
  import opened Collections
  import opened Values
  import opened Equality
  import opened Scheduler

  type ListenerId = nat
  type SubscriberId = nat

  /** The one callback this variant hands the scheduler: the store's batch thunk. */
  datatype StoreBatch = StoreBatch

  /** A listener was called, and this was the cell's value when it ran. */
  datatype Notification = Notification(listener: ListenerId, seen: Value)

  /** What one `forEach` over `listeners` records when every call sees `v`. */
  function Notify(listeners: seq<ListenerId>, v: Value): (r: seq<Notification>)
    ensures |r| == |listeners|
    ensures forall k :: 0 <= k < |r| ==> r[k] == Notification(listeners[k], v)
  {
    if listeners == [] then []
    else Notify(listeners[..|listeners| - 1], v) + [Notification(listeners[|listeners| - 1], v)]
  }

  /**
   * One step of a batch as the store sees it: a cell finished `_applyUpdate`
   * with a value (its listeners ran inside that step), or a store subscriber
   * was called.
   */
  datatype BatchEvent = Applied(state: ReactiveState, value: Value) | Called(subscriber: SubscriberId)

  /** The events of applying the pending map: one per cell, in insertion order. */
  ghost function AppliedEvents(order: seq<ReactiveState>, vals: map<ReactiveState, Value>): seq<BatchEvent>
    requires forall k :: 0 <= k < |order| ==> order[k] in vals
  {
    seq(|order|, k requires 0 <= k < |order| => Applied(order[k], vals[order[k]]))
  }

  /** The events of notifying the store subscribers: one per subscriber, in set order. */
  ghost function CalledEvents(subs: seq<SubscriberId>): seq<BatchEvent> {
    seq(|subs|, k requires 0 <= k < |subs| => Called(subs[k]))
  }

  /**
   * In the trace of one batch every cell update comes before every
   * subscriber call; each pending cell is applied once, with its pending
   * value, and each subscriber is called once.
   */
  lemma BatchOrder(order: seq<ReactiveState>, vals: map<ReactiveState, Value>, subs: seq<SubscriberId>)
    requires NoDup(order) && NoDup(subs) && Elems(order) == vals.Keys
    ensures var b := AppliedEvents(order, vals) + CalledEvents(subs);
      && (forall i, j :: 0 <= i < |b| && 0 <= j < |b| && b[i].Applied? && b[j].Called? ==> i < j)
      && (forall s :: s in vals ==> Applied(s, vals[s]) in b)
      && (forall e :: e in b && e.Applied? ==> e.state in vals && e.value == vals[e.state])
      && (forall s :: s in subs <==> Called(s) in b)
      && NoDup(b)
  {
    var b := AppliedEvents(order, vals) + CalledEvents(subs);
    forall s | s in vals
      ensures Applied(s, vals[s]) in b
    {
      assert s in Elems(order);
      var k :| 0 <= k < |order| && order[k] == s;
      assert b[k] == Applied(s, vals[s]);
    }
    forall s | s in subs
      ensures Called(s) in b
    {
      var k :| 0 <= k < |subs| && subs[k] == s;
      assert b[|order| + k] == Called(s);
    }
  }

  /**
   * The setter's test. Cells whose initial value was an object compare with
   * `isEqual`, all others with `===`; the choice never changes afterwards.
   */
  predicate ChangeDetected(isObject: bool, current: Value, newValue: Value) {
    if isObject then !IsEqual(current, newValue) else !StrictEq(current, newValue)
  }

  /**
   * What the setter's test means on values JavaScript can build: a cell
   * created with an object sees a change exactly when the values are not
   * deeply equal, any other cell exactly when they are not `===`.
   */
  lemma ChangeDetectedIsDeepInequality(isObject: bool, current: Value, newValue: Value)
    requires WellFormed(current) && WellFormed(newValue)
    ensures ChangeDetected(isObject, current, newValue) <==>
      if isObject then !Equivalent(current, newValue) else !StrictEq(current, newValue)
  {
    IsEqualIsDeepEquality(current, newValue);
  }

  /** Writing back the very value a cell holds is a no-op, whichever test it uses. */
  lemma IdenticalWriteIsNoOp(isObject: bool, current: Value, newValue: Value)
    requires StrictEq(current, newValue)
    ensures !ChangeDetected(isObject, current, newValue)
  {
  }

  /** In a cell created with an object, a structurally identical fresh object is a no-op. */
  lemma CopyWriteIsNoOpInObjectCell(current: Value, newValue: Value)
    requires WellFormed(current) && IsCopy(current, newValue)
    ensures !ChangeDetected(true, current, newValue)
  {
    CopyIsEqual(current, newValue);
  }

  /**
   * In a cell created with a primitive (`null` included) a fresh object is a
   * change even when it is a copy of the current object value.
   */
  lemma CopyWriteIsChangeInPrimitiveCell(current: Value, newValue: Value)
    requires current.Obj? && newValue.Obj? && current.ref != newValue.ref
    ensures ChangeDetected(false, current, newValue)
  {
  }

  class ReactiveState {
    var value: Value                  // `_value`: the applied value
    var listeners: seq<ListenerId>
    const isObject: bool
    ghost var notified: seq<Notification>

    ghost predicate Valid()
      reads this
    {
      NoDup(listeners)
    }

    /** `new ReactiveState(initialValue, forceRender)`. */
    constructor (initialValue: Value)
      ensures Valid() && value == initialValue && listeners == [] && notified == []
      ensures isObject == (initialValue != Null && TypeofObject(initialValue))
    {
      value := initialValue;
      listeners := [];
      isObject := initialValue != Null && TypeofObject(initialValue);
      notified := [];
    }

    /** The `value` getter: the applied value, never a pending one. */
    method Get() returns (v: Value)
      ensures v == value
    {
      v := value;
    }

    /**
     * The `value` setter. A write that the cell's test finds different from
     * the applied value is registered with the store; the cell itself does
     * not change.
     */
    method SetValue(store: GlobalStore, newValue: Value)
      requires store.Valid()
      modifies store, store.sched
      ensures store.Valid() && unchanged(this)
      ensures !ChangeDetected(isObject, value, newValue) ==> unchanged(store, store.sched)
      ensures ChangeDetected(isObject, value, newValue) ==>
        && store.pendingOrder == Add(old(store.pendingOrder), this)
        && store.pendingValues == old(store.pendingValues)[this := newValue]
        && store.sched.armed == old(store.sched.armed) + (if old(store.batchUpdateScheduled) then 0 else 1)
        && store.subscribers == old(store.subscribers)
        && store.events == old(store.events)
    {
      var equal := if isObject then IsEqual(value, newValue) else StrictEq(value, newValue);
      if !equal {
        store.RegisterUpdate(this, newValue);
      }
    }

    /** `_applyUpdate(newValue)`: assign, then call every listener once, in order. */
    method ApplyUpdate(newValue: Value)
      modifies this`value, this`notified
      ensures value == newValue
      ensures notified == old(notified) + Notify(listeners, newValue)
    {
      value := newValue;
      var i := 0;
      while i < |listeners|
        invariant 0 <= i <= |listeners|
        invariant value == newValue
        invariant notified == old(notified) + Notify(listeners[..i], value)
      {
        assert listeners[..i + 1][..i] == listeners[..i];
        notified := notified + [Notification(listeners[i], value)];
        i := i + 1;
      }
      assert listeners[..i] == listeners;
    }

    /** `subscribe(listener)`: subscribing the same listener twice keeps one copy. */
    method Subscribe(listener: ListenerId)
      requires Valid()
      modifies this`listeners
      ensures Valid() && listeners == Add(old(listeners), listener)
    {
      listeners := Add(listeners, listener);
    }

    /** The function `subscribe` returns: removes that listener, says whether it was there. */
    method Unsubscribe(listener: ListenerId) returns (removed: bool)
      requires Valid()
      modifies this`listeners
      ensures Valid() && listeners == Delete(old(listeners), listener)
      ensures removed == (listener in old(listeners))
    {
      removed := listener in listeners;
      listeners := Delete(listeners, listener);
    }
  }

  class GlobalStore {
    var subscribers: seq<SubscriberId>
    var pendingOrder: seq<ReactiveState>             // the keys of `pendingUpdates`, in insertion order
    var pendingValues: map<ReactiveState, Value>     // the latest value written to each of them
    var batchUpdateScheduled: bool
    const sched: BatchScheduler<StoreBatch>          // the module's `batchScheduler`
    ghost var events: seq<BatchEvent>

    /** The pending map and the two sets are well formed. */
    ghost predicate Inner()
      reads this
    {
      && NoDup(subscribers)
      && NoDup(pendingOrder)
      && Elems(pendingOrder) == pendingValues.Keys
    }

    /**
     * Updates are pending exactly when the batch thunk is scheduled, and then
     * it is the only callback waiting in the scheduler.
     */
    ghost predicate Valid()
      reads this, sched
    {
      && Inner()
      && sched.Valid()
      && (batchUpdateScheduled <==> pendingOrder != [])
      && sched.callbacks == (if batchUpdateScheduled then [StoreBatch] else [])
    }

    /** `new GlobalStore()`, together with the scheduler the module creates. */
    constructor ()
      ensures Valid() && fresh(sched) && sched.armed == 0
      ensures subscribers == [] && pendingOrder == [] && pendingValues == map[]
      ensures events == []
    {
      subscribers := [];
      pendingOrder := [];
      pendingValues := map[];
      batchUpdateScheduled := false;
      sched := new BatchScheduler();
      events := [];
    }

    /** `subscribe(subscriber)`: idempotent for the same subscriber. */
    method Subscribe(sub: SubscriberId)
      requires Valid()
      modifies this`subscribers
      ensures Valid() && subscribers == Add(old(subscribers), sub)
    {
      subscribers := Add(subscribers, sub);
    }

    /** The function `subscribe` returns: removes that subscriber, says whether it was there. */
    method Unsubscribe(sub: SubscriberId) returns (removed: bool)
      requires Valid()
      modifies this`subscribers
      ensures Valid() && subscribers == Delete(old(subscribers), sub)
      ensures removed == (sub in old(subscribers))
    {
      removed := sub in subscribers;
      subscribers := Delete(subscribers, sub);
    }

    /**
     * `registerUpdate(state, newValue)`: the latest value for a cell replaces
     * an earlier pending one in place; the batch thunk is scheduled only by
     * the first update of a cycle.
     */
    method RegisterUpdate(state: ReactiveState, newValue: Value)
      requires Valid()
      modifies this, sched
      ensures Valid() && batchUpdateScheduled
      ensures pendingOrder == Add(old(pendingOrder), state)
      ensures pendingValues == old(pendingValues)[state := newValue]
      ensures old(batchUpdateScheduled) ==> unchanged(sched)
      ensures sched.armed == old(sched.armed) + (if old(batchUpdateScheduled) then 0 else 1)
      ensures subscribers == old(subscribers) && events == old(events)
    {
      ElemsAdd(pendingOrder, state);
      pendingOrder := Add(pendingOrder, state);
      pendingValues := pendingValues[state := newValue];
      if !batchUpdateScheduled {
        batchUpdateScheduled := true;
        sched.Schedule(StoreBatch);
      }
    }

    /**
     * The batch thunk: clear the flag, apply every pending value to its cell
     * in insertion order, empty the pending map, then call every subscriber
     * once. The trace gets the `Applied` events of the whole `forEach` when it
     * ends, and then one `Called` event per subscriber, so every update
     * precedes every subscriber call (`BatchOrder`).
     */
    method RunBatch()
      requires Inner()
      modifies this`batchUpdateScheduled, this`pendingOrder, this`pendingValues, this`events
      modifies pendingValues.Keys
      ensures Inner() && !batchUpdateScheduled && pendingOrder == [] && pendingValues == map[]
      ensures forall s :: s in old(pendingOrder) ==>
        && s.value == old(pendingValues)[s]
        && s.notified == old(s.notified) + Notify(s.listeners, s.value)
        && s.listeners == old(s.listeners)
      ensures events == old(events) + AppliedEvents(old(pendingOrder), old(pendingValues)) + CalledEvents(subscribers)
    {
      batchUpdateScheduled := false;
      ApplyPending(pendingOrder, pendingValues);
      events := events + AppliedEvents(pendingOrder, pendingValues);
      pendingOrder, pendingValues := [], map[];
      NotifySubscribers();
    }

    /** `pendingUpdates.forEach((value, state) => state._applyUpdate(value))`. */
    static method ApplyPending(order: seq<ReactiveState>, vals: map<ReactiveState, Value>)
      requires NoDup(order) && Elems(order) == vals.Keys
      modifies vals.Keys
      ensures forall s :: s in order ==>
        && s.value == vals[s]
        && s.notified == old(s.notified) + Notify(s.listeners, s.value)
        && s.listeners == old(s.listeners)
    {
      var i := 0;
      while i < |order|
        invariant 0 <= i <= |order|
        invariant forall k :: 0 <= k < |order| ==> order[k] in vals && order[k].listeners == old(order[k].listeners)
        invariant forall k :: 0 <= k < i ==>
          order[k].value == vals[order[k]] &&
          order[k].notified == old(order[k].notified) + Notify(order[k].listeners, vals[order[k]])
        invariant forall k :: i <= k < |order| ==> order[k].notified == old(order[k].notified)
      {
        var s := order[i];
        s.ApplyUpdate(vals[s]);
        i := i + 1;
      }
      forall s | s in order
        ensures s.value == vals[s] && s.notified == old(s.notified) + Notify(s.listeners, s.value)
      {
        var k :| 0 <= k < |order| && order[k] == s;
      }
    }

    /** `subscribers.forEach((sub) => sub())`. */
    method NotifySubscribers()
      modifies this`events
      ensures events == old(events) + CalledEvents(subscribers)
    {
      var j := 0;
      while j < |subscribers|
        invariant 0 <= j <= |subscribers|
        invariant events == old(events) + CalledEvents(subscribers[..j])
      {
        assert CalledEvents(subscribers[..j + 1]) == CalledEvents(subscribers[..j]) + [Called(subscribers[j])];
        events := events + [Called(subscribers[j])];
        j := j + 1;
      }
      assert subscribers[..j] == subscribers;
    }

    /**
     * The microtask the scheduler arranged: it takes the waiting batch thunk
     * from the scheduler and runs it.
     */
    method RunMicrotask()
      requires Valid() && sched.armed > 0
      modifies this, sched, pendingValues.Keys
      ensures Valid() && sched.armed == 0 && !sched.scheduled
      ensures !batchUpdateScheduled && pendingOrder == [] && pendingValues == map[]
      ensures forall s :: s in old(pendingOrder) ==>
        && s.value == old(pendingValues)[s]
        && s.notified == old(s.notified) + Notify(s.listeners, s.value)
        && s.listeners == old(s.listeners)
      ensures subscribers == old(subscribers)
      ensures events == old(events) + AppliedEvents(old(pendingOrder), old(pendingValues)) + CalledEvents(subscribers)
    {
      var batch := sched.BeginFlush();
      assert batch == [StoreBatch];
      var i := 0;
      while i < |batch|
        invariant 0 <= i <= |batch| == 1
        invariant sched.Valid() && sched.callbacks == [] && sched.armed == 0 && !sched.scheduled
        invariant subscribers == old(subscribers)
        invariant i == 0 ==>
          && pendingOrder == old(pendingOrder) && pendingValues == old(pendingValues)
          && events == old(events) && Inner()
          && forall s :: s in old(pendingOrder) ==> s.notified == old(s.notified) && s.listeners == old(s.listeners)
        invariant i == 1 ==>
          && Inner() && !batchUpdateScheduled && pendingOrder == [] && pendingValues == map[]
          && events == old(events) + AppliedEvents(old(pendingOrder), old(pendingValues)) + CalledEvents(subscribers)
          && forall s :: s in old(pendingOrder) ==>
            && s.value == old(pendingValues)[s]
            && s.notified == old(s.notified) + Notify(s.listeners, s.value)
            && s.listeners == old(s.listeners)
      {
        match batch[i]
        case StoreBatch => RunBatch();
        i := i + 1;
      }
    }
  }

  /** A fresh store and a fresh cell holding `initial` with one listener, nothing pending. */
  method SubscribedCell(initial: Value, listener: ListenerId) returns (store: GlobalStore, cell: ReactiveState)
    ensures fresh(store) && fresh(store.sched) && fresh(cell)
    ensures store.Valid() && store.pendingOrder == [] && store.sched.armed == 0
    ensures cell.value == initial && cell.listeners == [listener] && cell.notified == []
    ensures cell.isObject == (initial != Null && TypeofObject(initial))
  {
    store := new GlobalStore();
    cell := new ReactiveState(initial);
    cell.Subscribe(listener);
  }

  /** The first write of `CoalescingScenario`: the cell becomes the one pending entry. */
  method FirstWrite(store: GlobalStore, cell: ReactiveState, v: Value)
    requires store.Valid() && store.pendingOrder == [] && store.sched.armed == 0
    requires ChangeDetected(cell.isObject, cell.value, v)
    modifies store, store.sched
    ensures store.Valid() && store.sched.armed == 1
    ensures store.pendingOrder == [cell] && store.pendingValues == map[cell := v]
    ensures store.subscribers == old(store.subscribers) && store.events == old(store.events)
    ensures unchanged(cell)
  {
    cell.SetValue(store, v);
    assert Add([], cell) == [cell];
  }

  /** A later write to the pending cell replaces its pending value and arranges nothing. */
  method Rewrite(store: GlobalStore, cell: ReactiveState, v: Value)
    requires store.Valid() && store.pendingOrder == [cell] && store.sched.armed == 1
    requires ChangeDetected(cell.isObject, cell.value, v)
    modifies store, store.sched
    ensures store.Valid() && store.sched.armed == 1
    ensures store.pendingOrder == [cell] && store.pendingValues == map[cell := v]
    ensures store.subscribers == old(store.subscribers) && store.events == old(store.events)
    ensures unchanged(cell)
  {
    assert store.pendingValues.Keys == {cell};
    cell.SetValue(store, v);
    assert Add([cell], cell) == [cell];
  }

  /** The flush of a batch that holds one cell: the cell takes its pending value and notifies its listeners. */
  method FlushSingle(store: GlobalStore, cell: ReactiveState)
    requires store.Valid() && store.pendingOrder == [cell] && store.sched.armed == 1
    modifies store, store.sched, cell
    ensures store.Valid() && store.sched.armed == 0 && store.pendingOrder == []
    ensures cell.value == old(store.pendingValues[cell]) && cell.listeners == old(cell.listeners)
    ensures cell.notified == old(cell.notified) + Notify(cell.listeners, cell.value)
  {
    assert store.pendingValues.Keys == {cell};
    store.RunMicrotask();
    assert cell in old(store.pendingOrder);
  }

  /**
   * Three writes to one cell before the microtask runs: one flush, every
   * listener called once, and the last value applied.
   */
  method CoalescingScenario() returns (final: Value, ghost calls: seq<Notification>, ghost flushes: nat)
    ensures final == Num(3)
    ensures calls == [Notification(7, Num(3))]
    ensures flushes == 1
  {
    var store, cell := SubscribedCell(Num(0), 7);
    FirstWrite(store, cell, Num(1));
    Rewrite(store, cell, Num(2));
    Rewrite(store, cell, Num(3));
    flushes := store.sched.armed;
    FlushSingle(store, cell);
    assert Notify([7], Num(3)) == [Notification(7, Num(3))];
    final := cell.Get();
    calls := cell.notified;
  }

  /**
   * Writes are compared with the applied value, not the pending one: from
   * 1, writing 2 and then 1 again before the flush drops the second write,
   * and the flush applies 2.
   */
  method RevertingWriteScenario() returns (final: Value)
    ensures final == Num(2)
  {
    var store, cell := SubscribedCell(Num(1), 1);
    FirstWrite(store, cell, Num(2));
    assert !ChangeDetected(cell.isObject, cell.value, Num(1));
    cell.SetValue(store, Num(1));
    FlushSingle(store, cell);
    final := cell.Get();
  }

  /**
   * A fresh copy of the current object is dropped by a cell created with an
   * object and queued by a cell created with `null`.
   */
  method EqualityModeScenario() returns (objectCellQueued: bool, nullCellQueued: bool)
    ensures !objectCellQueued && nullCellQueued
  {
    var original := Obj(1, [Prop("x", Num(1))]);
    var copy := Obj(2, [Prop("x", Num(1))]);
    var store := new GlobalStore();
    var objectCell := new ReactiveState(original);
    assert objectCell.isObject;
    assert WellFormed(original) && IsCopy(original, copy) by {
      assert Keys(original.props) == ["x"];
    }
    CopyWriteIsNoOpInObjectCell(original, copy);
    objectCell.SetValue(store, copy);
    assert store.pendingOrder == [];
    objectCellQueued := objectCell in store.pendingOrder;

    var nullCell := new ReactiveState(Null);
    FirstWrite(store, nullCell, original);
    FlushSingle(store, nullCell);
    nullCell.SetValue(store, copy);
    assert store.pendingOrder == [nullCell];
    nullCellQueued := nullCell in store.pendingOrder;
  }

  /** Adding to the key order adds exactly that key to its element set. */
  lemma ElemsAdd<T>(s: seq<T>, x: T)
    ensures Elems(Add(s, x)) == Elems(s) + {x}
  {
  }
}
