/**
 * What npm_package/src/shared/async-registry.ts promises about its registry, proved of the functions
 * of `RegistrySpec` (and so, through their contracts, of the methods of `AsyncRegistry`).
 */
module RegistryProperties {
  import opened Wrappers
  import opened Seqs
  import opened RegistrySpec

  /** Registering a fresh id into a non-empty registry resolves exactly that id's waiters, in queue order, then notifies. */
  lemma RegisterResolvesQueuedWaiters(s: RegistryState, id: Key, item: Item)
    requires id !in s.items && |s.items| > 0
    ensures Register(s, id, item).0 == Pass
    ensures Register(s, id, item).1.calls ==
              s.calls + ResolveCalls(Queue(s.callbacks, id), item) + NotifyCalls(s.watchers, s.items[id := item])
    ensures Register(s, id, item).1.callbacks == s.callbacks - {id}
  {
  }

  /**
   * The first registration under a real id also fills the `null` alias: the waiters of the id are
   * resolved, then those of `null`, and the watchers are notified twice (by the inner and the outer
   * call), both times with the map holding both keys.
   */
  lemma FirstRegisterAliasesNull(s: RegistryState, name: string, item: Item)
    requires |s.items| == 0
    ensures var r := Register(s, Id(name), item);
      var m := map[Id(name) := item, NullKey := item];
      && r.0 == Pass
      && r.1.items == m
      && r.1.calls == s.calls + ResolveCalls(Queue(s.callbacks, Id(name)), item)
                      + ResolveCalls(Queue(s.callbacks, NullKey), item)
                      + NotifyCalls(s.watchers, m) + NotifyCalls(s.watchers, m)
      && Id(name) !in r.1.callbacks && NullKey !in r.1.callbacks && NullKey !in r.1.errors
  {
    assert s.items == map[];
    var s3 := Insert(s, Id(name), item);
    assert s3.items == map[Id(name) := item];
    var s4 := Insert(s3, NullKey, item);
    assert |s4.items| == 2;
    assert Register(s3, NullKey, item) == (Pass, Notify(s4));
    assert Register(s, Id(name), item) == (Pass, Notify(Notify(s4)));
    assert Queue(s3.callbacks, NullKey) == Queue(s.callbacks, NullKey);
  }

  /**
   * `register(null, x)` on an empty registry stores `x` under `null`, resolves the waiters of `null`,
   * and then throws from its own recursive call, so no watcher is notified.
   */
  lemma RegisterNullOnEmptyThrows(s: RegistryState, item: Item)
    requires |s.items| == 0
    ensures var r := Register(s, NullKey, item);
      && r.0 == Fail(AlreadyRegistered(NullKey))
      && r.1.items == map[NullKey := item]
      && r.1.calls == s.calls + ResolveCalls(Queue(s.callbacks, NullKey), item)
  {
    assert s.items == map[];
    var s3 := Insert(s, NullKey, item);
    assert s3.items == map[NullKey := item];
    assert Register(s3, NullKey, item) == (Fail(AlreadyRegistered(NullKey)), s3);
    assert Register(s, NullKey, item) == (Fail(AlreadyRegistered(NullKey)), s3);
  }

  /**
   * What `register` throws: the text names the id it was called with, `null` written out as in a
   * template literal; `register(null, x)` on an empty registry throws it from its recursive call.
   */
  lemma RegisterThrownMessage(s: RegistryState, id: Key, x: Item)
    ensures Register(s, id, x).0.Fail? ==>
              Message(Register(s, id, x).0.error) == "Item with ID \"" + KeyText(id) + "\" is already registered."
    ensures |s.items| == 0 ==>
              Register(s, NullKey, x).0.Fail? &&
              Message(Register(s, NullKey, x).0.error) == "Item with ID \"null\" is already registered."
  {
    var q := "Item with ID \"null";
    assert "Item with ID \"" + KeyText(NullKey) == q;
    assert q + "\" is already registered." == "Item with ID \"null\" is already registered.";
  }

  /** What `unregister` throws: the text names the id it was called with, `null` written out. */
  lemma UnregisterThrownMessage(s: RegistryState, id: Key)
    ensures Unregister(s, id).0.Fail? ==>
              Message(Unregister(s, id).0.error) == "Item with ID \"" + KeyText(id) + "\" is not registered."
    ensures NullKey !in s.items ==>
              Unregister(s, NullKey).0.Fail? &&
              Message(Unregister(s, NullKey).0.error) == "Item with ID \"null\" is not registered."
  {
    assert "Item with ID \"" + KeyText(NullKey) + "\" is not registered." == "Item with ID \"null\" is not registered.";
  }

  /** Registering an id twice throws on the second call and changes nothing. */
  lemma NoDoubleRegistration(s: RegistryState, id: Key, x: Item, y: Item)
    requires Register(s, id, x).0.Pass?
    ensures var s1 := Register(s, id, x).1;
      Register(s1, id, y) == (Fail(AlreadyRegistered(id)), s1)
  {
  }

  /**
   * `resetErrors(id)` drops the error and the pending error callbacks of `id`, drops the `null`
   * error exactly when it is the very error of `id` (or `id` is `null`), and keeps every other entry.
   */
  lemma ResetErrorsEffect(s: RegistryState, id: Key)
    ensures var r := ResetErrors(s, id);
      && id !in r.errors && id !in r.errorCallbacks
      && (id != NullKey ==>
            (NullKey in r.errors <==> NullKey in s.errors && !(id in s.errors && s.errors[id] == s.errors[NullKey])))
      && (forall k :: k != id && k != NullKey ==> (k in r.errors <==> k in s.errors))
      && (forall k :: k in r.errors ==> r.errors[k] == s.errors[k])
      && (forall k :: k != id ==> (k in r.errorCallbacks <==> k in s.errorCallbacks))
      && (forall k :: k in r.errorCallbacks ==> r.errorCallbacks[k] == s.errorCallbacks[k])
      && r.items == s.items && r.callbacks == s.callbacks && r.calls == s.calls
  {
  }

  /** A successful registration clears the stale error and the pending error callbacks of the id. */
  lemma RegisterClearsError(s: RegistryState, id: Key, item: Item)
    requires Register(s, id, item).0.Pass?
    ensures id !in Register(s, id, item).1.errors && id !in Register(s, id, item).1.errorCallbacks
  {
    var s3 := Insert(s, id, item);
    assert id !in s3.errors && id !in s3.errorCallbacks;
    if |s3.items| == 1 {
      assert NullKey !in s3.items;
      var s4 := Insert(s3, NullKey, item);
      assert Register(s3, NullKey, item) == (Pass, Notify(s4));
      assert id !in s4.errors && id !in s4.errorCallbacks;
    } else {
      assert Register(s, id, item) == (Pass, Notify(s3));
    }
  }

  /** `execute` on a present item calls `onSuccess` with it at once and queues nothing. */
  lemma ExecutePresent(s: RegistryState, id: Key, w: Waiter, h: Option<ErrorHandler>)
    requires id in s.items
    ensures var r := Execute(s, id, w, h);
      && r.calls == s.calls + (if id in s.errors && h.Some? then [Rejected(h.value, s.errors[id])] else [])
                    + [Resolved(w, s.items[id])]
      && r.callbacks == s.callbacks && r.errorCallbacks == s.errorCallbacks && r.items == s.items
  {
  }

  /** `execute` on an absent item appends the waiter at the end of that id's queue, other queues untouched. */
  lemma ExecuteAbsentQueues(s: RegistryState, id: Key, w: Waiter, h: Option<ErrorHandler>)
    requires id !in s.items
    ensures var r := Execute(s, id, w, h);
      && id in r.callbacks && r.callbacks[id] == Queue(s.callbacks, id) + [w]
      && (forall k :: k != id ==> (k in r.callbacks <==> k in s.callbacks))
      && (forall k :: k != id && k in r.callbacks ==> r.callbacks[k] == s.callbacks[k])
      && r.items == s.items
      && (h.None? ==> r.calls == s.calls && r.errorCallbacks == s.errorCallbacks)
      && (h.Some? && id !in s.errors ==>
            r.calls == s.calls && r.errorCallbacks == s.errorCallbacks[id := Queue(s.errorCallbacks, id) + [h.value]])
  {
    var s1 := if id in s.errors && h.Some? then s.(calls := s.calls + [Rejected(h.value, s.errors[id])]) else s;
    var s2 := if h.Some? then OnError(s1, id, h.value) else s1;
    assert s2.callbacks == s.callbacks && s2.items == s.items;
    assert Execute(s, id, w, h) == s2.(callbacks := s.callbacks[id := Queue(s.callbacks, id) + [w]]);
  }

  /** With an error already recorded and no item, `onError` runs twice and the waiter still queues. */
  lemma ExecuteReportsRecordedErrorTwice(s: RegistryState, id: Key, w: Waiter, h: ErrorHandler)
    requires id !in s.items && id in s.errors
    ensures var r := Execute(s, id, w, Some(h));
      && r.calls == s.calls + [Rejected(h, s.errors[id]), Rejected(h, s.errors[id])]
      && r.errorCallbacks == s.errorCallbacks
      && r.callbacks[id] == Queue(s.callbacks, id) + [w]
  {
  }

  /** The error of `id` becomes the only recorded one exactly when no other id has an error. */
  lemma SoleError(errors: map<Key, InitError>, id: Key, e: InitError)
    ensures |errors[id := e]| == 1 <==> (forall k :: k in errors ==> k == id)
  {
    var m := errors[id := e];
    if forall k :: k in errors ==> k == id {
      assert m.Keys == {id};
    } else {
      var k :| k in errors && k != id;
      assert {k, id} <= m.Keys;
      assert |{k, id}| == 2;
      SubsetCard({k, id}, m.Keys);
    }
  }

  lemma SubsetCard<T>(a: set<T>, b: set<T>)
    requires a <= b
    ensures |a| <= |b|
  {
    assert b == a + (b - a);
  }

  /**
   * `error(id, e)` records `e`, runs and drops the pending error callbacks of `id` in order, and
   * mirrors `e` under `null` exactly when no other id has an error and no item exists; the error
   * callbacks queued under `null` do not run when it is mirrored.
   */
  lemma RecordErrorEffect(s: RegistryState, id: Key, e: InitError)
    ensures var r := RecordError(s, id, e);
      && id in r.errors && r.errors[id] == e && id !in r.errorCallbacks
      && r.calls == s.calls + RejectCalls(Queue(s.errorCallbacks, id), e)
      && (id != NullKey ==> (NullKey in r.errorCallbacks <==> NullKey in s.errorCallbacks))
      && r.items == s.items && r.callbacks == s.callbacks
  {
    var s1 := s.(errors := s.errors[id := e]);
    var s2 :=
      if id in s.errorCallbacks
      then s1.(calls := s1.calls + RejectCalls(s.errorCallbacks[id], e), errorCallbacks := s1.errorCallbacks - {id})
      else s1;
    assert s2.calls == s.calls + RejectCalls(Queue(s.errorCallbacks, id), e);
    assert RecordError(s, id, e).calls == s2.calls;
  }

  /** `error(id, e)` mirrors `e` under `null` exactly when no other id has an error and no item exists. */
  lemma RecordErrorMirrorsNull(s: RegistryState, id: Key, e: InitError)
    ensures var r := RecordError(s, id, e);
      var mirrored := (forall k :: k in s.errors ==> k == id) && |s.items| == 0;
      r.errors == (if mirrored then s.errors[id := e][NullKey := e] else s.errors[id := e])
  {
    SoleError(s.errors, id, e);
    var s1 := s.(errors := s.errors[id := e]);
    var s2 :=
      if id in s.errorCallbacks
      then s1.(calls := s1.calls + RejectCalls(s.errorCallbacks[id], e), errorCallbacks := s1.errorCallbacks - {id})
      else s1;
    assert s2.errors == s.errors[id := e] && s2.items == s.items;
  }

  /** The values `getItems()` lists are exactly the registered items. */
  lemma GetItemsValues(s: RegistryState)
    requires Valid(s)
    ensures forall x :: x in GetItems(s) <==> x in s.items.Values
  {
    var g := GetItems(s);
    forall x | x in s.items.Values
      ensures x in g
    {
      var k :| k in s.items && s.items[k] == x;
      var i :| 0 <= i < |s.order| && s.order[i] == k;
      assert g[i] == x;
    }
  }

  /**
   * `hasItem(id)` holds exactly when waiting for `id` resolves at once: otherwise the wait only queues,
   * or reports a recorded error.
   */
  lemma HasItemExactlyWhenWaitResolves(s: RegistryState, id: Key, promise: nat)
    ensures var c := WaitFor(s, id, promise).calls;
      HasItem(s, id) <==> |c| > |s.calls| && c[|c| - 1].Resolved?
  {
    if !HasItem(s, id) {
      var h := ErrorHandler(promise);
      var s1 := if id in s.errors then s.(calls := s.calls + [Rejected(h, s.errors[id])]) else s;
      var s2 := OnError(s1, id, h);
      assert WaitFor(s, id, promise).calls == s2.calls;
    }
  }

  /**
   * `destroyAll()` calls `destroy()` once per distinct instance (aliases included once), empties the
   * items and the waiters, keeps the errors, and then notifies the watchers with the empty map.
   */
  lemma DestroyAllOncePerInstance(s: RegistryState, rejected: bool)
    requires Valid(s)
    ensures var r := DestroyAll(s, rejected);
      exists destroyed: seq<Item> ::
        && Distinct(destroyed)
        && (forall x :: x in destroyed <==> x in s.items.Values)
        && r.1.calls == s.calls + DestroyCalls(destroyed) + (if rejected then [] else NotifyCalls(s.watchers, map[]))
        && r.1.items == map[] && r.1.callbacks == map[]
        && r.1.errors == s.errors && r.1.errorCallbacks == s.errorCallbacks
        && r.0 == (if rejected then Fail(DestroyRejected) else Pass)
  {
    GetItemsValues(s);
    var d := Dedup(GetItems(s));
    assert forall x :: x in d <==> x in GetItems(s);
  }

  /** `watch(w)` calls `w` at once with a copy of the current items. */
  lemma WatchCallsImmediately(s: RegistryState, w: Watcher)
    ensures var r := Watch(s, w);
      r.calls == s.calls + [Notified(w, s.items)] && w in r.watchers && r.items == s.items
  {
  }

  /**
   * `notifyWatchers()` calls every watcher once, in insertion order, with the same copy of the items,
   * and changes nothing but the call log.
   */
  lemma NotifyReachesEveryWatcher(s: RegistryState)
    ensures var r := Notify(s);
      && r == s.(calls := r.calls)
      && |r.calls| == |s.calls| + |s.watchers| && r.calls[..|s.calls|] == s.calls
      && forall i :: 0 <= i < |s.watchers| ==> r.calls[|s.calls| + i] == Notified(s.watchers[i], s.items)
  {
  }

  /** After `unwatch(w)`, the next notification does not reach `w` but reaches every other watcher. */
  lemma UnwatchStopsNotifications(s: RegistryState, w: Watcher)
    ensures var u := Unwatch(s, w);
      var added := Notify(u).calls[|s.calls|..];
      && (forall i :: 0 <= i < |added| ==> added[i].Notified? && added[i].watcher != w)
      && (forall v :: v in s.watchers && v != w ==> Notified(v, s.items) in added)
  {
    var u := Unwatch(s, w);
    var added := Notify(u).calls[|s.calls|..];
    assert added == NotifyCalls(u.watchers, s.items);
    forall v | v in s.watchers && v != w
      ensures Notified(v, s.items) in added
    {
      var i :| 0 <= i < |s.watchers| && s.watchers[i] == v;
      var j :| 0 <= j < |u.watchers| && u.watchers[j] == v;
      assert added[j] == Notified(v, s.items);
    }
  }

  /** `execute(id, w)` for each waiter of `ws` in turn, without error callbacks. */
  function ExecuteEach(s: RegistryState, id: Key, ws: seq<Waiter>): RegistryState
    decreases |ws|
  {
    if ws == [] then s else ExecuteEach(Execute(s, id, ws[0], None), id, ws[1..])
  }

  /** Waiters added while `id` is absent queue up in call order and invoke nothing. */
  lemma {:induction false} ExecuteEachQueues(s: RegistryState, id: Key, ws: seq<Waiter>)
    requires id !in s.items
    decreases |ws|
    ensures var r := ExecuteEach(s, id, ws);
      && Queue(r.callbacks, id) == Queue(s.callbacks, id) + ws
      && r.items == s.items && r.calls == s.calls && r.errors == s.errors && r.watchers == s.watchers
      && (forall k :: k != id ==> Queue(r.callbacks, k) == Queue(s.callbacks, k))
  {
    if ws != [] {
      var s1 := Execute(s, id, ws[0], None);
      ExecuteEachQueues(s1, id, ws[1..]);
      assert Queue(s.callbacks, id) + ws == (Queue(s.callbacks, id) + [ws[0]]) + ws[1..];
    }
  }

  /**
   * FIFO: waiters that asked for `id` before it existed are all resolved with the registered item,
   * in the order they asked, by the one `register(id, x)`.
   */
  lemma RegisterResolvesInCallOrder(s: RegistryState, id: Key, ws: seq<Waiter>, item: Item)
    requires id !in s.items && id !in s.callbacks && |s.items| > 0
    ensures var r := Register(ExecuteEach(s, id, ws), id, item);
      && r.0 == Pass
      && r.1.calls == s.calls + ResolveCalls(ws, item) + NotifyCalls(s.watchers, s.items[id := item])
  {
    var e := ExecuteEach(s, id, ws);
    ExecuteEachQueues(s, id, ws);
    RegisterResolvesQueuedWaiters(e, id, item);
  }

  /**
   * FIFO from an empty registry: waiters that asked for `id` before anything was registered are
   * resolved in the order they asked, then those of `null`, and the watchers are notified twice.
   */
  lemma RegisterResolvesInCallOrderFromEmpty(s: RegistryState, name: string, ws: seq<Waiter>, item: Item)
    requires |s.items| == 0 && Id(name) !in s.callbacks
    ensures var r := Register(ExecuteEach(s, Id(name), ws), Id(name), item);
      var m := map[Id(name) := item, NullKey := item];
      && r.0 == Pass
      && r.1.calls == s.calls + ResolveCalls(ws, item) + ResolveCalls(Queue(s.callbacks, NullKey), item)
                      + NotifyCalls(s.watchers, m) + NotifyCalls(s.watchers, m)
  {
    var e := ExecuteEach(s, Id(name), ws);
    ExecuteEachQueues(s, Id(name), ws);
    assert Queue(s.callbacks, Id(name)) == [];
    assert Queue(e.callbacks, Id(name)) == ws;
    assert Queue(e.callbacks, NullKey) == Queue(s.callbacks, NullKey);
    assert e.calls == s.calls && e.watchers == s.watchers && |e.items| == 0;
    FirstRegisterAliasesNull(e, name, item);
  }

  /**
   * The alias scenario: after the first-ever registration of `x` under a non-empty id, `null` is
   * registered, waiting for `null` resolves with `x` at once, and unregistering the id removes `null`.
   */
  lemma AliasScenario(s: RegistryState, name: string, x: Item, promise: nat)
    requires |s.items| == 0 && name != ""
    ensures var s1 := Register(s, Id(name), x).1;
      && HasItem(s1, NullKey)
      && WaitFor(s1, NullKey, promise).calls == s1.calls + [Resolved(Waiter(promise), x)]
      && Unregister(s1, Id(name)).0 == Pass
      && Unregister(s1, Id(name)).1.items == map[]
  {
    FirstRegisterAliasesNull(s, name, x);
    var s1 := Register(s, Id(name), x).1;
    ExecutePresent(s1, NullKey, Waiter(promise), Some(ErrorHandler(promise)));
    assert Aliased(s1, Id(name));
    UnregisterEffect(s1, Id(name));
    assert s1.items - {Id(name)} - {NullKey} == map[];
  }

  /** Unregistering the empty-string id keeps the `null` alias, since `""` is falsy. */
  lemma EmptyIdKeepsAlias(x: Item)
    ensures var s1 := Register(Empty(), Id(""), x).1;
      && Unregister(s1, Id("")).0 == Pass
      && Unregister(s1, Id("")).1.items == map[NullKey := x]
  {
    FirstRegisterAliasesNull(Empty(), "", x);
    var s1 := Register(Empty(), Id(""), x).1;
    assert s1.items == map[Id("") := x, NullKey := x];
    assert !Aliased(s1, Id(""));
    assert s1.items - {Id("")} == map[NullKey := x];
  }

  /** After `error(id, e)` and then `register(id, x)`, waiting for `id` resolves with `x` and is not rejected. */
  lemma ErrorClearedBySuccess(s: RegistryState, id: Key, e: InitError, x: Item, promise: nat)
    requires id !in s.items && id != NullKey
    ensures var s1 := RecordError(s, id, e);
      var s2 := Register(s1, id, x).1;
      && Register(s1, id, x).0 == Pass
      && WaitFor(s2, id, promise).calls == s2.calls + [Resolved(Waiter(promise), x)]
  {
    var s1 := RecordError(s, id, e);
    RegisterClearsError(s1, id, x);
  }
}
