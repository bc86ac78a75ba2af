/**
 * The `AsyncRegistry` class of npm_package/src/shared/async-registry.ts: its four maps and its
 * watcher set are fields that the methods update in place, and every method is proved to leave the
 * fields exactly as the matching function of `RegistrySpec` says.
 */
module AsyncRegistries {
  import opened Wrappers
  import opened Seqs
  import opened RegistrySpec

  class AsyncRegistry {
    var items: map<Key, Item>
    var order: seq<Key>
    var errors: map<Key, InitError>
    var callbacks: map<Key, seq<Waiter>>
    var errorCallbacks: map<Key, seq<ErrorHandler>>
    var watchers: seq<Watcher>
    /** Every callback the registry has invoked, in order. */
    var calls: seq<Call>

    /** The fields as one value. */
    function State(): RegistryState
      reads this
    {
      RegistryState(items, order, errors, callbacks, errorCallbacks, watchers, calls)
    }

    ghost predicate Valid()
      reads this`items, this`order, this`watchers
    {
      Consistent(items, order, watchers)
    }

    constructor ()
      ensures Valid() && State() == Empty()
    {
      items, order, errors := map[], [], map[];
      callbacks, errorCallbacks := map[], map[];
      watchers, calls := [], [];
    }

    /** `execute(id, onSuccess, onError)`. */
    method Execute(id: Key, onSuccess: Waiter, onError: Option<ErrorHandler>)
      requires Valid()
      modifies this`calls, this`callbacks, this`errorCallbacks
      ensures Valid()
      ensures State() == RegistrySpec.Execute(old(State()), id, onSuccess, onError)
    {
      var item := if id in items then Some(items[id]) else None;
      var error := if id in errors then Some(errors[id]) else None;
      if error.Some? && onError.Some? {
        calls := calls + [Rejected(onError.value, error.value)];
      }
      if item.Some? {
        calls := calls + [Resolved(onSuccess, item.value)];
        return;
      }
      if onError.Some? {
        OnError(id, onError.value);
      }
      Enqueue(id, onSuccess);
    }

    /** The end of `execute`: `onSuccess` joins the end of the queue of `id`, created when missing. */
    method Enqueue(id: Key, w: Waiter)
      modifies this`callbacks
      ensures callbacks == old(callbacks)[id := Queue(old(callbacks), id) + [w]]
    {
      if id !in callbacks {
        callbacks := callbacks[id := []];
      }
      callbacks := callbacks[id := callbacks[id] + [w]];
    }

    /** `register(id, item)`. */
    method Register(id: Key, item: Item) returns (r: Outcome<RegistryError>)
      requires Valid()
      modifies this`items, this`order, this`errors, this`errorCallbacks, this`callbacks, this`calls
      decreases if |items| == 0 then 1 else 0
      ensures Valid()
      ensures (r, State()) == RegistrySpec.Register(old(State()), id, item)
    {
      if id in items {
        return Fail(AlreadyRegistered(id));
      }
      Insert(id, item);
      ghost var s := State();
      if |items| == 1 {
        r := Register(NullKey, item);
        if r.Fail? {
          return;
        }
        s := State();
      }
      NotifyWatchers();
      NotifySteps(s, State());
      r := Pass;
    }

    /** The body of `register` from `resetErrors(id)` to the deletion of the resolved waiters. */
    method Insert(id: Key, item: Item)
      requires Valid() && id !in items
      modifies this`items, this`order, this`errors, this`errorCallbacks, this`callbacks, this`calls
      ensures Valid()
      ensures State() == RegistrySpec.Insert(old(State()), id, item)
    {
      ghost var s0 := State();
      ResetErrors(id);
      ghost var s1 := State();
      items := items[id := item];
      order := order + [id];
      ResolveQueue(id, item);
      InsertSteps(s0, s1, State(), id, item);
    }

    /** The waiters of `id` called with `item` in queue order, then their queue deleted. */
    method ResolveQueue(id: Key, item: Item)
      modifies this`calls, this`callbacks
      ensures calls == old(calls) + ResolveCalls(Queue(old(callbacks), id), item)
      ensures callbacks == old(callbacks) - {id}
    {
      if id in callbacks {
        ResolveWaiters(callbacks[id], item);
        callbacks := callbacks - {id};
      } else {
        assert callbacks == callbacks - {id};
        assert calls == calls + ResolveCalls([], item);
      }
    }

    /** `onError(id, callback)`. */
    method OnError(id: Key, h: ErrorHandler)
      requires Valid()
      modifies this`calls, this`errorCallbacks
      ensures Valid()
      ensures State() == RegistrySpec.OnError(old(State()), id, h)
    {
      if id in errors {
        calls := calls + [Rejected(h, errors[id])];
        return;
      }
      if id !in errorCallbacks {
        errorCallbacks := errorCallbacks[id := []];
      }
      errorCallbacks := errorCallbacks[id := errorCallbacks[id] + [h]];
    }

    /** `resetErrors(id)`. */
    method ResetErrors(id: Key)
      modifies this`errors, this`errorCallbacks
      ensures State() == RegistrySpec.ResetErrors(old(State()), id)
    {
      if NullKey in errors && id in errors && errors[NullKey] == errors[id] {
        errors := errors - {NullKey};
      }
      errors := errors - {id};
      errorCallbacks := errorCallbacks - {id};
    }

    /** `error(id, e)`. */
    method Error(id: Key, e: InitError)
      requires Valid()
      modifies this
      ensures Valid()
      ensures State() == RecordError(old(State()), id, e)
    {
      var pending := if id in errorCallbacks then Some(errorCallbacks[id]) else None;
      errors := errors[id := e];
      if pending.Some? {
        RejectHandlers(pending.value, e);
        errorCallbacks := errorCallbacks - {id};
      }
      if |errors| == 1 && |items| == 0 {
        errors := errors[NullKey := e];
      }
    }

    /** `unregister(id)`. */
    method Unregister(id: Key) returns (r: Outcome<RegistryError>)
      requires Valid()
      modifies this
      decreases if id.NullKey? then 0 else 1
      ensures Valid()
      ensures (r, State()) == RegistrySpec.Unregister(old(State()), id)
    {
      if id !in items {
        return Fail(NotRegistered(id));
      }
      if IsTruthy(id) && NullKey in items && items[NullKey] == items[id] {
        r := Unregister(NullKey);
        if r.Fail? {
          return;
        }
      }
      Drop(id);
      r := Pass;
    }

    /** The end of `unregister(id)`, after the `null` alias is handled. */
    method Drop(id: Key)
      requires Valid()
      modifies this`items, this`order, this`callbacks, this`calls
      ensures Valid()
      ensures State() == RegistrySpec.Drop(old(State()), id)
    {
      items := items - {id};
      order := Without(order, id);
      callbacks := callbacks - {id};
      NotifyWatchers();
    }

    /** `getItems()`. */
    function GetItems(): (r: seq<Item>)
      requires Valid()
      reads this
      ensures r == RegistrySpec.GetItems(State())
    {
      RegistrySpec.GetItems(State())
    }

    /** `hasItem(id)`. */
    predicate HasItem(id: Key)
      reads this
      ensures HasItem(id) <==> RegistrySpec.HasItem(State(), id)
    {
      id in items
    }

    /** `waitFor(id)`, the promise being the token `promise`. */
    method WaitFor(id: Key, promise: nat)
      requires Valid()
      modifies this`calls, this`callbacks, this`errorCallbacks
      ensures Valid()
      ensures State() == RegistrySpec.WaitFor(old(State()), id, promise)
    {
      Execute(id, Waiter(promise), Some(ErrorHandler(promise)));
    }

    /**
     * `destroyAll()`; `rejected` says whether one of the `destroy()` promises rejects, which the model
     * takes as a parameter since destroying is the item's own business.
     */
    method DestroyAll(rejected: bool) returns (r: Outcome<RegistryError>)
      requires Valid()
      modifies this
      ensures Valid()
      ensures (r, State()) == RegistrySpec.DestroyAll(old(State()), rejected)
    {
      var distinct := DistinctItems();
      DestroyEach(distinct);
      items := map[];
      order := [];
      callbacks := map[];
      if rejected {
        return Fail(DestroyRejected);
      }
      NotifyWatchers();
      r := Pass;
    }

    /** `watch(w)`; the unwatch function it returns is `Unwatch(w)`. */
    method Watch(w: Watcher)
      requires Valid()
      modifies this
      ensures Valid()
      ensures State() == RegistrySpec.Watch(old(State()), w)
    {
      if w !in watchers {
        watchers := watchers + [w];
      }
      calls := calls + [Notified(w, items)];
    }

    /** `unwatch(w)`. */
    method Unwatch(w: Watcher)
      requires Valid()
      modifies this
      ensures Valid()
      ensures State() == RegistrySpec.Unwatch(old(State()), w)
    {
      watchers := Without(watchers, w);
    }

    /** `Array.from(new Set(this.items.values()))`: the items, each once, by first occurrence. */
    method DistinctItems() returns (distinct: seq<Item>)
      requires Valid()
      ensures distinct == Dedup(RegistrySpec.GetItems(State()))
    {
      var values := RegistrySpec.GetItems(State());
      distinct := [];
      var i := 0;
      while i < |values|
        invariant 0 <= i <= |values|
        invariant distinct == Dedup(values[..i])
      {
        assert values[..i + 1][..i] == values[..i];
        if values[i] !in distinct {
          distinct := distinct + [values[i]];
        }
        i := i + 1;
      }
      assert values[..i] == values;
    }

    /** `callbacksForItem.forEach(callback => callback(item))`. */
    method ResolveWaiters(q: seq<Waiter>, item: Item)
      modifies this`calls
      ensures calls == old(calls) + ResolveCalls(q, item)
    {
      var i := 0;
      while i < |q|
        invariant 0 <= i <= |q|
        invariant calls == old(calls) + ResolveCalls(q[..i], item)
      {
        calls := calls + [Resolved(q[i], item)];
        i := i + 1;
      }
      assert q[..i] == q;
    }

    /** `errorCallbacksForItem.forEach(callback => callback(error))`. */
    method RejectHandlers(hs: seq<ErrorHandler>, e: InitError)
      modifies this`calls
      ensures calls == old(calls) + RejectCalls(hs, e)
    {
      var i := 0;
      while i < |hs|
        invariant 0 <= i <= |hs|
        invariant calls == old(calls) + RejectCalls(hs[..i], e)
      {
        calls := calls + [Rejected(hs[i], e)];
        i := i + 1;
      }
      assert hs[..i] == hs;
    }

    /** The `map(item => item.destroy())` of `destroyAll`. */
    method DestroyEach(xs: seq<Item>)
      modifies this`calls
      ensures calls == old(calls) + DestroyCalls(xs)
    {
      var i := 0;
      while i < |xs|
        invariant 0 <= i <= |xs|
        invariant calls == old(calls) + DestroyCalls(xs[..i])
      {
        calls := calls + [DestroyCalled(xs[i])];
        i := i + 1;
      }
      assert xs[..i] == xs;
    }

    /** `notifyWatchers()`: each watcher gets the same copy of the items. */
    method NotifyWatchers()
      modifies this`calls
      ensures calls == old(calls) + NotifyCalls(watchers, items)
    {
      var snapshot := items;
      var i := 0;
      while i < |watchers|
        invariant 0 <= i <= |watchers|
        invariant calls == old(calls) + NotifyCalls(watchers[..i], snapshot)
      {
        calls := calls + [Notified(watchers[i], snapshot)];
        i := i + 1;
      }
      assert watchers[..i] == watchers;
    }
  }
}
