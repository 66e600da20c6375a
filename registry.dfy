/**
 * The keyed variant (src/superstate/supGlobal.ts): a process-wide `store`
 * from token to applied value, a `subscriptions` map from token to its set
 * of callbacks, the `idCounter` that makes tokens, and the `batchUpdates`
 * scheduler. The per-token handler `globalState` returns is modelled by the
 * registry methods that take the token: `Get`, `SetValue`, `Subscribe` and
 * `Unsubscribe`.
 *
 * Every differing write creates its own thunk closure; `WriteThunk.serial`
 * stands for that closure's identity, so the scheduler's set never merges
 * two writes. Callbacks are opaque ids; running one appends it to the ghost
 * trace `calls`.
 */
module Registry {
  import opened Collections
  import opened Values
  import opened Tokens
  import opened Scheduler

  type CallbackId = nat

  /** The closure `() => { store.set(id, newValue); ...notify... }` of one write. */
  datatype WriteThunk = WriteThunk(serial: nat, id: string, newValue: Value)

  /** `subscriptions.get(id)`, with a missing entry read as nobody. */
  function SubscribersOf(subs: map<string, seq<CallbackId>>, id: string): seq<CallbackId> {
    if id in subs then subs[id] else []
  }

  /**
   * While every entry is non-empty, as unsubscribing keeps them, `if (subs)`
   * finds an entry exactly when the token has subscribers.
   */
  lemma EntryIffSubscribed(subs: map<string, seq<CallbackId>>, id: string)
    requires forall k :: k in subs ==> subs[k] != []
    ensures id in subs <==> SubscribersOf(subs, id) != []
    ensures id !in subs ==> forall cb :: cb !in SubscribersOf(subs, id)
  {
  }

  /** The store once the thunks `ts` have run, in order. */
  function ApplyWrites(store: map<string, Value>, ts: seq<WriteThunk>): map<string, Value>
    decreases |ts|
  {
    if ts == [] then store
    else ApplyWrites(store, ts[..|ts| - 1])[ts[|ts| - 1].id := ts[|ts| - 1].newValue]
  }

  /** The callbacks the thunks `ts` call, in order, each looking its subscribers up as it runs. */
  function Fanout(subs: map<string, seq<CallbackId>>, ts: seq<WriteThunk>): seq<CallbackId>
    decreases |ts|
  {
    if ts == [] then []
    else Fanout(subs, ts[..|ts| - 1]) + SubscribersOf(subs, ts[|ts| - 1].id)
  }

  /** How many of the thunks `ts` find `cb` among their token's subscribers. */
  function Reaching(subs: map<string, seq<CallbackId>>, ts: seq<WriteThunk>, cb: CallbackId): nat
    decreases |ts|
  {
    if ts == [] then 0
    else Reaching(subs, ts[..|ts| - 1], cb) + (if cb in SubscribersOf(subs, ts[|ts| - 1].id) then 1 else 0)
  }

  /** The tokens the first `n` calls of `globalState` handed out. */
  ghost function Issued(n: nat): set<string> {
    set k | 0 <= k < n :: Token(k)
  }

  /** The next token is new, and issuing it adds exactly it. */
  lemma IssuedNext(n: nat)
    ensures Token(n) !in Issued(n)
    ensures Issued(n + 1) == Issued(n) + {Token(n)}
  {
    forall k | 0 <= k < n
      ensures Token(k) != Token(n)
    {
      TokenInjective(k, n);
    }
  }

  /** After a batch, a token holds the value of the last thunk that wrote it. */
  lemma {:induction false} LastWriteWins(store: map<string, Value>, ts: seq<WriteThunk>, k: nat)
    requires k < |ts|
    requires forall j :: k < j < |ts| ==> ts[j].id != ts[k].id
    ensures ts[k].id in ApplyWrites(store, ts)
    ensures ApplyWrites(store, ts)[ts[k].id] == ts[k].newValue
    decreases |ts|
  {
    var last := |ts| - 1;
    if k < last {
      var init := ts[..last];
      assert forall j :: k < j < |init| ==> init[j] == ts[j];
      LastWriteWins(store, init, k);
    }
  }

  /** A token no thunk of the batch wrote keeps its entry as it was. */
  lemma {:induction false} UnwrittenTokenUnchanged(store: map<string, Value>, ts: seq<WriteThunk>, id: string)
    requires forall j :: 0 <= j < |ts| ==> ts[j].id != id
    ensures id in ApplyWrites(store, ts) <==> id in store
    ensures id in store ==> ApplyWrites(store, ts)[id] == store[id]
    decreases |ts|
  {
    if ts != [] {
      var init := ts[..|ts| - 1];
      assert forall j :: 0 <= j < |init| ==> init[j] == ts[j];
      UnwrittenTokenUnchanged(store, init, id);
    }
  }

  /** A callback no thunk finds subscribed is not called by the batch. */
  lemma {:induction false} UnsubscribedNotCalled(subs: map<string, seq<CallbackId>>, ts: seq<WriteThunk>, cb: CallbackId)
    requires forall j :: 0 <= j < |ts| ==> cb !in SubscribersOf(subs, ts[j].id)
    ensures cb !in Fanout(subs, ts)
    decreases |ts|
  {
    if ts != [] {
      var init := ts[..|ts| - 1];
      assert forall j :: 0 <= j < |init| ==> init[j] == ts[j];
      UnsubscribedNotCalled(subs, init, cb);
    }
  }

  /** A callback is called once for each thunk that finds it subscribed, and never more. */
  lemma {:induction false} CalledOncePerThunk(subs: map<string, seq<CallbackId>>, ts: seq<WriteThunk>, cb: CallbackId)
    requires forall id :: id in subs ==> NoDup(subs[id])
    ensures multiset(Fanout(subs, ts))[cb] == Reaching(subs, ts, cb)
    decreases |ts|
  {
    if ts != [] {
      var init := ts[..|ts| - 1];
      CalledOncePerThunk(subs, init, cb);
      NoDupMultiplicity(SubscribersOf(subs, ts[|ts| - 1].id), cb);
    }
  }

  /** In a duplicate-free sequence an element occurs once or not at all. */
  lemma {:induction false} NoDupMultiplicity<T>(s: seq<T>, x: T)
    requires NoDup(s)
    ensures multiset(s)[x] == if x in s then 1 else 0
  {
    if s != [] {
      assert s == [s[0]] + s[1..];
      NoDupMultiplicity(s[1..], x);
    }
  }

  /** Running one more thunk extends the batch's store and call trace by that thunk's effect. */
  lemma BatchStep(store: map<string, Value>, subs: map<string, seq<CallbackId>>, ts: seq<WriteThunk>, i: nat)
    requires i < |ts|
    ensures ApplyWrites(store, ts[..i + 1]) == ApplyWrites(store, ts[..i])[ts[i].id := ts[i].newValue]
    ensures Fanout(subs, ts[..i + 1]) == Fanout(subs, ts[..i]) + SubscribersOf(subs, ts[i].id)
  {
    assert ts[..i + 1][..i] == ts[..i];
  }

  class Registry {
    var store: map<string, Value>
    var subscriptions: map<string, seq<CallbackId>>
    var idCounter: nat
    var thunkCount: nat                    // write closures created so far
    const batch: BatchScheduler<WriteThunk>  // `batchUpdates`
    ghost var calls: seq<CallbackId>

    /**
     * The store holds exactly the issued tokens; a token has a subscriptions
     * entry only while it has subscribers; every queued thunk is a distinct
     * closure writing an issued token.
     */
    ghost predicate Valid()
      reads this, batch
    {
      && batch.Valid()
      && store.Keys == Issued(idCounter)
      && subscriptions.Keys <= store.Keys
      && (forall id :: id in subscriptions ==> subscriptions[id] != [] && NoDup(subscriptions[id]))
      && (forall k :: 0 <= k < |batch.callbacks| ==>
            batch.callbacks[k].serial < thunkCount && batch.callbacks[k].id in store)
    }

    /** The module's initial state. */
    constructor ()
      ensures Valid() && fresh(batch) && batch.armed == 0
      ensures store == map[] && subscriptions == map[] && idCounter == 0 && thunkCount == 0 && calls == []
    {
      store := map[];
      subscriptions := map[];
      idCounter := 0;
      thunkCount := 0;
      batch := new BatchScheduler();
      calls := [];
    }

    /**
     * `globalState(initialValue)`: takes the token `state_<idCounter>`,
     * advances the counter and stores the initial value under the token,
     * which no earlier call has had.
     */
    method GlobalState(initialValue: Value) returns (id: string)
      requires Valid()
      modifies this`store, this`idCounter
      ensures Valid()
      ensures id == Token(old(idCounter)) && id !in old(store)
      ensures idCounter == old(idCounter) + 1
      ensures store == old(store)[id := initialValue]
    {
      id := Token(idCounter);
      IssuedNext(idCounter);
      idCounter := idCounter + 1;
      store := store[id := initialValue];
    }

    /** The handler's `value` getter: the applied value of the token. */
    method Get(id: string) returns (v: Value)
      requires Valid() && id in store
      ensures v == store[id]
    {
      v := store[id];
    }

    /**
     * The handler's `value` setter: a write that is `!==` the applied value
     * schedules a fresh thunk of its own; the store itself does not change.
     */
    method SetValue(id: string, newValue: Value)
      requires Valid() && id in store
      modifies this`thunkCount, batch
      ensures Valid()
      ensures StrictEq(newValue, store[id]) ==> unchanged(this, batch)
      ensures !StrictEq(newValue, store[id]) ==>
        && batch.callbacks == old(batch.callbacks) + [WriteThunk(old(thunkCount), id, newValue)]
        && batch.armed == old(batch.armed) + (if old(batch.scheduled) then 0 else 1)
        && thunkCount == old(thunkCount) + 1
    {
      var currentValue := store[id];
      if !StrictEq(newValue, currentValue) {
        var thunk := WriteThunk(thunkCount, id, newValue);
        assert thunk !in batch.callbacks;
        thunkCount := thunkCount + 1;
        batch.Schedule(thunk);
        assert batch.callbacks[..|old(batch.callbacks)|] == old(batch.callbacks);
        assert batch.callbacks == old(batch.callbacks) + [thunk];
      }
    }

    /** The handler's `subscribe(callback)`: makes the token's set if missing, then adds. */
    method Subscribe(id: string, cb: CallbackId)
      requires Valid() && id in store
      modifies this`subscriptions
      ensures Valid()
      ensures subscriptions == old(subscriptions)[id := Add(SubscribersOf(old(subscriptions), id), cb)]
    {
      if id !in subscriptions {
        subscriptions := subscriptions[id := []];
      }
      subscriptions := subscriptions[id := Add(subscriptions[id], cb)];
    }

    /**
     * The function `subscribe` returns: removes the callback from the
     * token's set and drops the entry once the set is empty; with no entry
     * it does nothing. The store is never touched.
     */
    method Unsubscribe(id: string, cb: CallbackId)
      requires Valid()
      modifies this`subscriptions
      ensures Valid()
      ensures cb !in SubscribersOf(subscriptions, id)
      ensures id !in old(subscriptions) ==> subscriptions == old(subscriptions)
      ensures id in old(subscriptions) ==>
        var rest := Delete(old(subscriptions)[id], cb);
        subscriptions == if rest == [] then old(subscriptions) - {id} else old(subscriptions)[id := rest]
    {
      if id in subscriptions {
        var subs := Delete(subscriptions[id], cb);
        if |subs| == 0 {
          subscriptions := subscriptions - {id};
        } else {
          subscriptions := subscriptions[id := subs];
        }
      }
    }

    /** The microtask: take the queued thunks and run each once, in the order written. */
    method RunMicrotask()
      requires Valid() && batch.armed > 0
      modifies this`store, this`calls, batch
      ensures Valid() && batch.callbacks == [] && !batch.scheduled && batch.armed == 0
      ensures store == ApplyWrites(old(store), old(batch.callbacks))
      ensures calls == old(calls) + Fanout(subscriptions, old(batch.callbacks))
    {
      var thunks := batch.BeginFlush();
      RunThunks(thunks);
    }

    /** The snapshot's thunks, each once, in order. */
    method RunThunks(thunks: seq<WriteThunk>)
      requires forall k :: 0 <= k < |thunks| ==> thunks[k].id in store
      modifies this`store, this`calls
      ensures store.Keys == old(store).Keys
      ensures store == ApplyWrites(old(store), thunks)
      ensures calls == old(calls) + Fanout(subscriptions, thunks)
    {
      var i := 0;
      while i < |thunks|
        invariant 0 <= i <= |thunks|
        invariant store.Keys == old(store).Keys
        invariant store == ApplyWrites(old(store), thunks[..i])
        invariant calls == old(calls) + Fanout(subscriptions, thunks[..i])
      {
        BatchStep(old(store), subscriptions, thunks, i);
        RunThunk(thunks[i]);
        i := i + 1;
      }
      assert thunks[..i] == thunks;
    }

    /** One write thunk: set the entry, then call the token's subscribers as found now. */
    method RunThunk(t: WriteThunk)
      modifies this`store, this`calls
      ensures store == old(store)[t.id := t.newValue]
      ensures calls == old(calls) + SubscribersOf(subscriptions, t.id)
    {
      store := store[t.id := t.newValue];
      if t.id in subscriptions {
        var subs := subscriptions[t.id];
        var j := 0;
        while j < |subs|
          invariant 0 <= j <= |subs|
          invariant store == old(store)[t.id := t.newValue]
          invariant calls == old(calls) + subs[..j]
        {
          assert subs[..j + 1] == subs[..j] + [subs[j]];
          calls := calls + [subs[j]];
          j := j + 1;
        }
        assert subs[..j] == subs;
      }
    }
  }
  /** Two `globalState` calls get `state_0` and `state_1`. */
  method TokenScenario() returns (first: string, second: string)
    ensures first == "state_0" && second == "state_1"
  {
    var r := new Registry();
    first := r.GlobalState(Num(0));
    second := r.GlobalState(Null);
    assert Decimal(0) == "0" && Decimal(1) == "1";
  }

  /** The batch of `BatchScenario`, computed from the specification functions. */
  lemma TwoWritesOutcome(id: string, ts: seq<WriteThunk>, subs: map<string, seq<CallbackId>>)
    requires ts == [WriteThunk(0, id, Num(1)), WriteThunk(1, id, Num(2))]
    requires subs == map[id := [2]]
    ensures id in ApplyWrites(map[id := Num(0)], ts) && ApplyWrites(map[id := Num(0)], ts)[id] == Num(2)
    ensures Fanout(subs, ts) == [2, 2]
  {
    LastWriteWins(map[id := Num(0)], ts, 1);
    assert ts[..1][..0] == [];
    assert Fanout(subs, ts[..1]) == [2];
  }

  /** A fresh registry holding one token with the applied value 0. */
  method OneToken() returns (r: Registry, id: string)
    ensures r.Valid() && r.batch.armed == 0 && r.batch.callbacks == [] && !r.batch.scheduled
    ensures r.store == map[id := Num(0)] && r.subscriptions == map[]
    ensures r.thunkCount == 0 && r.calls == [] && fresh(r) && fresh(r.batch)
  {
    r := new Registry();
    id := r.GlobalState(Num(0));
  }

  /** The set-up of `BatchScenario`: one token with callbacks 1 and 2, nothing queued. */
  method SubscribeTwo() returns (r: Registry, id: string)
    ensures r.Valid() && r.batch.armed == 0 && r.batch.callbacks == [] && !r.batch.scheduled
    ensures r.store == map[id := Num(0)] && r.subscriptions == map[id := [1, 2]]
    ensures r.thunkCount == 0 && r.calls == [] && fresh(r) && fresh(r.batch)
  {
    r, id := OneToken();
    r.Subscribe(id, 1);
    assert Add([], 1) == [1];
    r.Subscribe(id, 2);
    assert Add([1], 2) == [1, 2];
  }

  /** The writes of `BatchScenario`: two thunks, then callback 1 leaves. */
  method WriteTwice(r: Registry, id: string)
    requires r.Valid() && r.batch.armed == 0 && r.batch.callbacks == [] && !r.batch.scheduled
    requires r.store == map[id := Num(0)] && r.subscriptions == map[id := [1, 2]] && r.thunkCount == 0
    modifies r, r.batch
    ensures r.Valid() && r.batch.armed == 1
    ensures r.batch.callbacks == [WriteThunk(0, id, Num(1)), WriteThunk(1, id, Num(2))]
    ensures r.store == old(r.store) && r.subscriptions == map[id := [2]] && r.calls == old(r.calls)
  {
    r.SetValue(id, Num(1));
    assert r.batch.callbacks == [WriteThunk(0, id, Num(1))] && r.thunkCount == 1 && r.batch.armed == 1;
    r.SetValue(id, Num(2));
    assert r.batch.callbacks == [WriteThunk(0, id, Num(1)), WriteThunk(1, id, Num(2))];
    r.Unsubscribe(id, 1);
  }

  /**
   * Two differing writes make two thunks; callback 1 unsubscribes before the
   * flush, so only callback 2 runs, once per thunk, and the last write is
   * applied. Dropping the last subscriber leaves the store entry in place.
   */
  method BatchScenario() returns (final: Value, stillStored: bool, ghost called: seq<CallbackId>)
    ensures final == Num(2) && stillStored
    ensures called == [2, 2]
  {
    var r, id := SubscribeTwo();
    WriteTwice(r, id);
    ghost var ts, subs := r.batch.callbacks, r.subscriptions;
    r.RunMicrotask();
    TwoWritesOutcome(id, ts, subs);
    final := r.Get(id);
    called := r.calls;
    r.Unsubscribe(id, 2);
    stillStored := id in r.store;
  }
}
