# superstate: batched reactive state, modelled in Dafny

The runtime has two variants of one idea: state cells whose writes are
batched and whose listeners are notified after the batch. Each variant has
its own microtask batch scheduler.

- **Per-instance cells** (`src/superstate/supState.ts`), modelled in module `Reactive`.
  - A `ReactiveState` holds its applied value and a set of listeners.
  - Its setter compares the new value with the applied one. The comparison is `isEqual` when the initial value was an object and `===` otherwise.
  - A write that differs is queued in the `GlobalStore`. The store keeps one pending value per cell, the latest written, and schedules its batch thunk once per cycle.
  - The thunk applies every pending value, in the order the cells were first queued. Each cell first assigns its value, then calls its listeners. The thunk then empties the queue and calls every store subscriber once.
- **Keyed registry** (`src/superstate/supGlobal.ts`), modelled in module `Registry`.
  - `globalState` hands out tokens `state_0`, `state_1`, … and stores each token's initial value.
  - The handler's setter schedules a fresh thunk for every write that is `!==` the applied value. When it runs, the thunk writes the store entry and calls the token's subscribers as they are at that moment.
  - `subscribe` creates the token's callback set on demand. The function it returns removes the callback and drops the set once it is empty.
- **Shared parts.**
  - `Scheduler.BatchScheduler` is the batch scheduler. Both `batchScheduler` and `batchUpdates` are instances of it.
  - `Equality` is `isEqual`.
  - `Values` holds the JavaScript values.
  - `Tokens` holds the token strings.
  - `Collections` holds JavaScript `Set` as a duplicate-free sequence in insertion order.

Modelling choices:
- The microtask that `Promise.resolve().then` arranges is an explicit step, `RunMicrotask`. Its first part, `BatchScheduler.BeginFlush`, resets the flag, takes the snapshot and empties the set. The owner then runs the snapshot in order. The ghost counter `armed` counts microtasks that have been arranged but have not yet run.
- Listeners, subscribers and callbacks are opaque numbers. Calling one appends it to a ghost trace:
  - a cell's `notified`, which also records the value the listener could see;
  - the store's `events`, which records each cell update and each store subscriber call of a batch in the order they happen;
  - the registry's `calls`.
- Objects carry a reference id, so `===` compares them by identity and `isEqual` by structure.
- Every write in the keyed registry creates a new closure. `WriteThunk.serial` stands for that closure's identity.

Three behaviours of the code are easy to miss:
- **A write is compared with the applied value**, never with a pending one, by both setters. A write that reverts a pending one is therefore dropped. In a cell holding 1, writing 2 and then 1 before the flush ends at 2 (`RevertingWriteScenario`).
- **`store` is never deleted from.** The last unsubscribe drops only the token's `subscriptions` entry, and an old token keeps working (`BatchScenario`, `stillStored`).
- **A throwing callback aborts the rest of the flush.** Nothing catches it. Exceptions are not modelled (see below).

## Model

| member | source | states |
|---|---|---|
| Collections.Add | src/superstate/supState.ts:9 | `Set.add`: the element is present afterwards and nothing else is added. An element already present leaves the set unchanged in place; otherwise it is appended at the end. No duplicates are introduced. |
| Collections.Delete | src/superstate/supState.ts:49 | `Set.delete`: exactly that element is gone and every other element stays. A duplicate-free set that held it shrinks by one; a set without it is unchanged. |
| Collections.DeleteKeepsOrder | src/superstate/supState.ts:49 | In a duplicate-free set, deleting the element at position `i` gives exactly the set without that position: the others keep their order. |
| Collections.DeleteUndoesAdd | src/superstate/supState.ts:115-118 | Unsubscribing a listener that was not subscribed before returns the set to exactly what it was. |
| Collections.AddIdempotent | src/superstate/supState.ts:115-116 | Subscribing the same listener twice gives the same set as subscribing it once. |
| Collections.NoDupCardinality | src/superstate/supState.ts:43 | A duplicate-free sequence has as many distinct elements as positions, so the sequence really is a set. |
| Collections.SameLengthSubsetIsEqualSet | src/superstate/supState.ts:35-37 | Two duplicate-free key lists of equal length, the first contained in the second, hold the same keys. This is the counting argument behind `isEqual`'s length check. |
| Values.StrictEqIsEquivalence | src/superstate/supState.ts:26 | `Values.StrictEq`, the model of `===`, is reflexive, symmetric and transitive, and compares anything but two objects by value. |
| Values.TruthyObjectIsObj | src/superstate/supState.ts:28 | `Values.Falsy` and `Values.TypeofObject` model `!v` and `typeof v`. Their guard lets a value through exactly when it is an object: `null` is falsy and every object is truthy. |
| Values.IndexOf | src/superstate/supState.ts:37 | `b[key]` finds the first property whose key is `key`. |
| Equality.PrimitivesCompareStrictly | src/superstate/supState.ts:26-30 | With a primitive or `null` on either side, `isEqual` is exactly `===`. |
| Equality.KeyCountMismatchIsUnequal | src/superstate/supState.ts:35 | Distinct objects with different numbers of own keys are never equal. |
| Equality.IsEqualIsDeepEquality | src/superstate/supState.ts:25-38 | `Equality.IsEqual` is `isEqual` as written. On values without repeated keys, `isEqual` holds exactly when the operands are identical, or are objects with the same key set whose values under each key are deeply equal, in any key order. Both directions are proved. |
| Equality.EquivalentSymmetric | src/superstate/supState.ts:25-38 | The order-independent deep equality is symmetric. |
| Equality.IsEqualSymmetric | src/superstate/supState.ts:25-38 | `isEqual(a, b)` and `isEqual(b, a)` agree on values without repeated keys, although the code only walks `a`'s keys. |
| Equality.CopyIsEquivalent | src/superstate/supState.ts:25-38 | A fresh structural copy of a value is well formed and deeply equal to it. |
| Equality.CopyIsEqual | src/superstate/supState.ts:25-38 | `isEqual` holds between a value and a fresh structural copy of it, even though the references differ. |
| Scheduler.BatchScheduler.constructor | src/superstate/supState.ts:4-6 | The scheduler starts with no callbacks, the flag clear and no flush arranged. |
| Scheduler.BatchScheduler.Schedule | src/superstate/supState.ts:8-14 | The callback always joins the set, at most once. A flush is arranged only when none is pending, so at most one is ever pending. |
| Scheduler.BatchScheduler.BeginFlush | src/superstate/supState.ts:14-18 | The flush resets the flag and returns every waiting callback once, in insertion order. The set is empty afterwards. The same class is the copy at src/superstate/supGlobal.ts:7-23. |
| Reactive.Notify | src/superstate/supState.ts:108 | One notification per listener, in set order, each recording the value given. |
| Reactive.ChangeDetectedIsDeepInequality | src/superstate/supState.ts:95-97 | `Reactive.ChangeDetected` is the setter's test. On values without repeated keys, a cell created with an object sees a change exactly when the values are not deeply equal, and any other cell exactly when they are not `===`. |
| Reactive.IdenticalWriteIsNoOp | src/superstate/supState.ts:95-99 | Writing the identical value is never a change, whichever comparison the cell uses. |
| Reactive.CopyWriteIsNoOpInObjectCell | src/superstate/supState.ts:95-96 | In a cell created with an object, writing a fresh structural copy of the current value is not a change. |
| Reactive.CopyWriteIsChangeInPrimitiveCell | src/superstate/supState.ts:86-97 | In a cell created with a primitive or `null`, writing a different object reference is a change, even when it is a copy. |
| Reactive.ReactiveState.constructor | src/superstate/supState.ts:83-87 | A cell starts with the initial value and no listeners. It uses `isEqual` exactly when the initial value is a non-null object. |
| Reactive.ReactiveState.Get | src/superstate/supState.ts:89-91 | Reading returns the applied value. |
| Reactive.ReactiveState.SetValue | src/superstate/supState.ts:93-103 | A write never changes the cell itself. A write that is not a change leaves the store and the scheduler untouched. A change makes the cell the store's pending entry with this value and arranges a flush only if none was pending. |
| Reactive.ReactiveState.ApplyUpdate | src/superstate/supState.ts:106-109 | The value is assigned first. Then every listener is called once, in order, and each sees the new value. |
| Reactive.ReactiveState.Subscribe | src/superstate/supState.ts:115-116 | The listener is added once; existing listeners are kept. |
| Reactive.ReactiveState.Unsubscribe | src/superstate/supState.ts:117 | Exactly that listener is removed. The result says whether it was subscribed. |
| Reactive.GlobalStore.constructor | src/superstate/supState.ts:42-45 | The store starts with no subscribers, no pending updates and no flush arranged. |
| Reactive.GlobalStore.Subscribe | src/superstate/supState.ts:47-48 | The subscriber is added once; existing subscribers are kept. |
| Reactive.GlobalStore.Unsubscribe | src/superstate/supState.ts:49 | Exactly that subscriber is removed. The result says whether it was subscribed. |
| Reactive.GlobalStore.RegisterUpdate | src/superstate/supState.ts:52-57 | The cell has one pending entry holding the latest value, kept at its first position. The batch thunk is scheduled only by the first update of a cycle. Subscribers stay untouched. |
| Reactive.GlobalStore.RunBatch | src/superstate/supState.ts:57-68 | The flag is cleared. Every pending cell takes its latest pending value and notifies its listeners with it. The pending map ends empty. The store's trace gains one `Applied` event per pending cell, in insertion order, then one `Called` event per store subscriber. |
| Reactive.BatchOrder | src/superstate/supState.ts:58-67 | In one batch's trace every cell update comes before every subscriber call. Each pending cell appears once, with its pending value, and each store subscriber is called exactly once. |
| Reactive.GlobalStore.ApplyPending | src/superstate/supState.ts:61-63 | Every cell of the pending map takes its pending value and notifies its own listeners once. |
| Reactive.GlobalStore.NotifySubscribers | src/superstate/supState.ts:67 | Each store subscriber is called once, in order, and the call is recorded in the store's trace. |
| Reactive.GlobalStore.RunMicrotask | src/superstate/supState.ts:14-68 | The arranged microtask runs the store's batch thunk, which is the only callback waiting. Afterwards nothing is pending and no flush is arranged. The cells and the trace change as `RunBatch` says. |
| Reactive.FirstWrite | src/superstate/supState.ts:52-57 | The first change of a cycle makes the cell the only pending entry and arranges one flush. |
| Reactive.Rewrite | src/superstate/supState.ts:53-55 | A later change to the pending cell replaces its pending value and arranges nothing more. |
| Reactive.FlushSingle | src/superstate/supState.ts:57-64 | Flushing a one-cell batch gives the cell its pending value and notifies its listeners with it. |
| Reactive.CoalescingScenario | src/superstate/supState.ts:52-68 | Three writes of 1, 2 and 3 to a cell holding 0 arrange one flush. The flush applies 3 and notifies the listener once, with 3. |
| Reactive.RevertingWriteScenario | src/superstate/supState.ts:93-103 | In a cell holding 1, writing 2 and then 1 before the flush ends at 2, because the second write is compared with the applied value. |
| Reactive.EqualityModeScenario | src/superstate/supState.ts:86-102 | A fresh copy of the current object is dropped by a cell created with an object and queued by a cell created with `null`. |
| Tokens.Decimal | src/superstate/supGlobal.ts:29 | The rendering of the counter is never empty. |
| Tokens.ParseDecimalOfDecimal | src/superstate/supGlobal.ts:29 | Parsing the decimal rendering gives back the number. |
| Tokens.TokenIndexOfToken | src/superstate/supGlobal.ts:29 | The counter value can be read back from its token. |
| Tokens.DecimalIsCanonical | src/superstate/supGlobal.ts:29 | `${n}` renders decimal digits only, with a leading `0` only for zero. |
| Tokens.TokenFormat | src/superstate/supGlobal.ts:29 | `Tokens.Token` models the template: every token is `state_` followed by the counter in canonical decimal. |
| Tokens.TokenInjective | src/superstate/supGlobal.ts:29 | Two tokens are equal exactly when they come from the same counter value. |
| Registry.IssuedNext | src/superstate/supGlobal.ts:29-32 | The next token has never been issued, and issuing it adds exactly that token. |
| Registry.EntryIffSubscribed | src/superstate/supGlobal.ts:49-50 | `Registry.SubscribersOf` models `subscriptions.get(id)` and the `if (subs)` test. While entries are never empty, a token has an entry exactly when it has subscribers; with no entry nobody is called. |
| Registry.LastWriteWins | src/superstate/supGlobal.ts:45-46 | After a batch, a token holds the value of the last thunk that wrote it. |
| Registry.UnwrittenTokenUnchanged | src/superstate/supGlobal.ts:45-46 | A token that no thunk of the batch wrote keeps its entry. |
| Registry.UnsubscribedNotCalled | src/superstate/supGlobal.ts:49-70 | A callback that no thunk finds subscribed when it runs is not called. |
| Registry.CalledOncePerThunk | src/superstate/supGlobal.ts:18-51 | A callback is called exactly once for each thunk of the batch that finds it subscribed. |
| Registry.Registry.constructor | src/superstate/supGlobal.ts:2-9 | The module starts with an empty store, no subscriptions, counter 0 and an idle scheduler. |
| Registry.Registry.GlobalState | src/superstate/supGlobal.ts:29-32 | The call receives `state_<counter>`, which no earlier call received. The counter advances by one. The store gains exactly that entry, holding the initial value. |
| Registry.Registry.Get | src/superstate/supGlobal.ts:36-38 | Reading returns the token's stored, applied value. |
| Registry.Registry.SetValue | src/superstate/supGlobal.ts:40-55 | A write `===` to the applied value changes nothing. Any other write queues its own fresh thunk behind the earlier ones and arranges a flush only if none was pending. The store never changes synchronously. |
| Registry.Registry.Subscribe | src/superstate/supGlobal.ts:58-63 | An empty set is created for the token if it has none. The callback is then added once. |
| Registry.Registry.Unsubscribe | src/superstate/supGlobal.ts:66-74 | Exactly that callback is removed. The token's entry is dropped when the set becomes empty. Without an entry nothing changes. The store is never touched. |
| Registry.Registry.RunMicrotask | src/superstate/supGlobal.ts:16-20 | The flush runs every queued thunk once, in write order. The store ends as the writes applied in that order; the callbacks called are those each thunk finds when it runs. |
| Registry.Registry.RunThunks | src/superstate/supGlobal.ts:20 | The snapshot's thunks run in order; keys are kept and the writes and calls accumulate. |
| Registry.Registry.RunThunk | src/superstate/supGlobal.ts:45-53 | One thunk sets the entry and then calls the token's current subscribers, in order. |
| Registry.TokenScenario | src/superstate/supGlobal.ts:29 | The first two `globalState` calls receive `state_0` and `state_1`. |
| Registry.TwoWritesOutcome | src/superstate/supGlobal.ts:45-53 | Two thunks writing 1 and then 2, with one subscriber, leave 2 stored and call that subscriber twice. |
| Registry.BatchScenario | src/superstate/supGlobal.ts:40-74 | Callback 1 unsubscribes after two writes and before the flush. Only callback 2 runs, once per thunk, and the last write is applied. After the last subscriber leaves, the token's store entry is still there. |

## Left out

- The React bindings (the `supState` hook, `forceRenderFn` and `forceRender`, `useValue`) are UI glue and are not modelled.
- The JavaScript event loop is not modelled. `RunMicrotask` is the step at which an arranged microtask runs, and the ghost `armed` counter says whether one is arranged.
- The generated `.d.ts` type declarations contain no logic.
- Listeners, subscribers and callbacks are opaque ids that only append to a trace:
  - Re-entrant writes from inside a callback are not modelled.
  - So neither is the scheduler receiving new callbacks while it flushes.
  - So neither is a `Set` being changed during its own `forEach`.
- Exceptions thrown by callbacks are not modelled. The code has no failure isolation, so a throw would abort the rest of a flush.
- Numbers are mathematical integers: NaN, -0, fractions and `undefined` are not represented. Arrays and other containers are plain keyed objects.
- Cyclic object graphs cannot be built in an inductive datatype, so `isEqual` on cycles is not modelled.
- Object identity is a reference id carried by the value. Mutation of an object after it was written is not modelled.
- The registry's handler object is not a value of its own. The registry methods take the token the handler closes over.
- The order in which listeners of different cells are called relative to each other is not recorded: each cell has its own trace. The store's trace gives the order of the cell updates, which is the pending map's insertion order, and places them before the subscriber calls.
- Reactive.GlobalStore.RunBatch: the `Applied` events of the `forEach` over the pending map are added to the trace together, once the loop has finished, rather than one by one inside it. Nothing else is recorded in between, so the trace is the same.
- Registry.Registry.GlobalState: `idCounter` is treated as an unbounded integer. In the code it is a JavaScript number: `idCounter++` stops advancing at 2^53, after which tokens repeat, and from 10^21 on `${n}` switches to exponent form. The uniqueness of tokens (`Tokens.TokenInjective`, `Registry.IssuedNext`) therefore holds in the code only for fewer than 2^53 calls.
- Registry.Registry.RunThunk: the thunk iterates the token's live callback set. Because callbacks cannot change it, the model reads the set once. That is the same set.
- Reactive.ReactiveState.SetValue: the single global `globalStore` is passed in as a parameter rather than being a module constant.
