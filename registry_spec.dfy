/**
 * The keyed asynchronous registry of npm_package/src/shared/async-registry.ts, as functions over the
 * registry's state. Every callback the registry is handed (a waiter's `onSuccess`, an `onError`, a
 * watcher) is an opaque token; invoking one appends a `Call` to the state's `calls` log, so the log
 * records which callbacks ran, with what, and in which order. Callbacks do not call back into the
 * registry in this model.
 */
module RegistrySpec {
  import opened Wrappers
  import opened Seqs

  /** A registry key: a `RegistryId` (a string) or `null`, the alias of the first registered item. */
  datatype Key = NullKey | Id(name: string)

  /** JavaScript truthiness of a key: `null` and the empty string are falsy. */
  predicate IsTruthy(k: Key) {
    k.Id? && k.name != ""
  }

  /** The text a key becomes inside a template literal. */
  function KeyText(k: Key): string {
    if k.NullKey? then "null" else k.name
  }

  /** A registered instance; two items are the same object exactly when they are equal. */
  datatype Item = Item(ref: nat)

  /** An `Error` object recorded for an id; compared by identity like `===`. */
  datatype InitError = InitError(ref: nat)

  /** An `onSuccess` callback queued until its id is registered. */
  datatype Waiter = Waiter(ref: nat)

  /** An `onError` callback. */
  datatype ErrorHandler = ErrorHandler(ref: nat)

  /** A watcher function observing the registry. */
  datatype Watcher = Watcher(ref: nat)

  /** One invocation made by the registry. */
  datatype Call =
    | Resolved(waiter: Waiter, item: Item)
    | Rejected(handler: ErrorHandler, error: InitError)
    | Notified(watcher: Watcher, snapshot: map<Key, Item>)
    | DestroyCalled(item: Item)

  /** What the registry throws. */
  datatype RegistryError =
    | AlreadyRegistered(id: Key)
    | NotRegistered(id: Key)
    | DestroyRejected

  /** The text of the thrown `Error`. */
  function Message(e: RegistryError): string {
    match e
    case AlreadyRegistered(id) => "Item with ID \"" + KeyText(id) + "\" is already registered."
    case NotRegistered(id) => "Item with ID \"" + KeyText(id) + "\" is not registered."
    case DestroyRejected => "destroy() rejected"
  }

  /**
   * The registry's fields. `order` is the insertion order of the keys of `items` (a JavaScript `Map`
   * iterates in that order); `watchers` is the watcher `Set` in insertion order.
   */
  datatype RegistryState = RegistryState(
    items: map<Key, Item>,
    order: seq<Key>,
    errors: map<Key, InitError>,
    callbacks: map<Key, seq<Waiter>>,
    errorCallbacks: map<Key, seq<ErrorHandler>>,
    watchers: seq<Watcher>,
    calls: seq<Call>)

  /** The consistency every operation keeps. */
  ghost predicate Valid(s: RegistryState) {
    Consistent(s.items, s.order, s.watchers)
  }

  /** `order` lists each key of `items` once, and no watcher is in the set twice. */
  ghost predicate Consistent(items: map<Key, Item>, order: seq<Key>, watchers: seq<Watcher>) {
    && Distinct(order)
    && (forall k :: k in items <==> k in order)
    && Distinct(watchers)
  }

  /** A freshly constructed registry. */
  function Empty(): (s: RegistryState)
    ensures Valid(s)
  {
    RegistryState(map[], [], map[], map[], map[], [], [])
  }

  /** The queue stored under `id`, or the empty queue. */
  function Queue<V>(m: map<Key, seq<V>>, id: Key): seq<V> {
    if id in m then m[id] else []
  }

  function ResolveCalls(ws: seq<Waiter>, item: Item): seq<Call> {
    seq(|ws|, i requires 0 <= i < |ws| => Resolved(ws[i], item))
  }

  function RejectCalls(hs: seq<ErrorHandler>, e: InitError): seq<Call> {
    seq(|hs|, i requires 0 <= i < |hs| => Rejected(hs[i], e))
  }

  function NotifyCalls(ws: seq<Watcher>, snapshot: map<Key, Item>): seq<Call> {
    seq(|ws|, i requires 0 <= i < |ws| => Notified(ws[i], snapshot))
  }

  function DestroyCalls(xs: seq<Item>): seq<Call> {
    seq(|xs|, i requires 0 <= i < |xs| => DestroyCalled(xs[i]))
  }

  /** `notifyWatchers`: every watcher, in insertion order, receives a copy of the items. */
  function Notify(s: RegistryState): (r: RegistryState) {
    s.(calls := s.calls + NotifyCalls(s.watchers, s.items))
  }

  /** `resetErrors(id)`. */
  function ResetErrors(s: RegistryState, id: Key): (r: RegistryState)
    ensures r.items == s.items && r.order == s.order && r.watchers == s.watchers && r.calls == s.calls
    ensures r.callbacks == s.callbacks && r.errorCallbacks == s.errorCallbacks - {id}
    ensures id !in r.errors && forall k :: k in r.errors ==> k in s.errors && r.errors[k] == s.errors[k]
    ensures Valid(s) ==> Valid(r)
  {
    var errors :=
      if NullKey in s.errors && id in s.errors && s.errors[NullKey] == s.errors[id]
      then s.errors - {NullKey}
      else s.errors;
    s.(errors := errors - {id}, errorCallbacks := s.errorCallbacks - {id})
  }

  /**
   * The part of `register(id, item)` before the `null` alias: errors of `id` reset, the item stored,
   * the waiters of `id` resolved in queue order and dropped.
   */
  function Insert(s: RegistryState, id: Key, item: Item): (r: RegistryState)
    requires id !in s.items
    ensures r.items == s.items[id := item] && |r.items| == |s.items| + 1
    ensures r.calls == s.calls + ResolveCalls(Queue(s.callbacks, id), item)
    ensures r.callbacks == s.callbacks - {id}
    ensures r.errors == ResetErrors(s, id).errors && r.errorCallbacks == s.errorCallbacks - {id}
    ensures r.watchers == s.watchers && r.order == s.order + [id]
  {
    var waiting := Queue(s.callbacks, id);
    RegistryState(s.items[id := item], s.order + [id], ResetErrors(s, id).errors, s.callbacks - {id},
                  s.errorCallbacks - {id}, s.watchers, s.calls + ResolveCalls(waiting, item))
  }

  /**
   * The steps of `register` up to the alias, one field at a time: the errors reset, then the item
   * stored, then the waiters resolved and dropped, give `Insert`, and keep the registry consistent.
   */
  lemma InsertSteps(s0: RegistryState, s1: RegistryState, t: RegistryState, id: Key, item: Item)
    requires id !in s0.items && s1 == ResetErrors(s0, id)
    requires t.items == s1.items[id := item] && t.order == s1.order + [id] && t.watchers == s1.watchers
    requires t.errors == s1.errors && t.errorCallbacks == s1.errorCallbacks
    requires t.calls == s1.calls + ResolveCalls(Queue(s1.callbacks, id), item) && t.callbacks == s1.callbacks - {id}
    ensures t == Insert(s0, id, item)
    ensures Valid(s0) ==> Valid(t)
  {
    SameFields(t, Insert(s0, id, item));
    InsertKeepsValid(s0, id, item);
  }

  /** Calling every watcher with the items, and changing nothing else, is `Notify`. */
  lemma NotifySteps(s: RegistryState, t: RegistryState)
    requires t.calls == s.calls + NotifyCalls(s.watchers, s.items)
    requires t.items == s.items && t.order == s.order && t.errors == s.errors && t.callbacks == s.callbacks
    requires t.errorCallbacks == s.errorCallbacks && t.watchers == s.watchers
    ensures t == Notify(s)
  {
  }

  /** Two registry states with the same fields are the same state. */
  lemma SameFields(a: RegistryState, b: RegistryState)
    requires a.items == b.items && a.order == b.order && a.errors == b.errors && a.callbacks == b.callbacks
    requires a.errorCallbacks == b.errorCallbacks && a.watchers == b.watchers && a.calls == b.calls
    ensures a == b
  {
  }

  /** Storing a key that is not yet there keeps the keys and the insertion order in step. */
  lemma InsertKeepsValid(s: RegistryState, id: Key, item: Item)
    requires id !in s.items
    ensures Valid(s) ==> Valid(Insert(s, id, item))
  {
    if Valid(s) {
      var r := Insert(s, id, item);
      assert id !in s.order;
      forall k
        ensures k in r.items <==> k in r.order
      {
        assert k in r.order <==> k in s.order || k == id;
      }
    }
  }

  /**
   * `register(id, item)`: the error when `id` is taken; otherwise `Insert`, then the item is also
   * registered under `null` when it is the only one (a recursive call that throws when `id` was `null`
   * itself), and the watchers are notified.
   */
  function Register(s: RegistryState, id: Key, item: Item): (r: (Outcome<RegistryError>, RegistryState))
    decreases if |s.items| == 0 then 1 else 0
    ensures r.0.Fail? <==> id in s.items || (id == NullKey && |s.items| == 0)
    ensures r.0.Fail? ==> r.0.error == AlreadyRegistered(id)
    ensures id in s.items ==> r.1 == s
    ensures id !in s.items ==>
              r.1.items == (if |s.items| == 0 then map[id := item, NullKey := item] else s.items[id := item])
    ensures Valid(s) ==> Valid(r.1)
  {
    if id in s.items then (Fail(AlreadyRegistered(id)), s)
    else
      var s3 := Insert(s, id, item);
      InsertKeepsValid(s, id, item);
      if |s3.items| == 1 then
        var (o, s4) := Register(s3, NullKey, item);
        if o.Fail? then (o, s4) else (Pass, Notify(s4))
      else
        (Pass, Notify(s3))
  }

  /**
   * `unregister(id)`: the error when `id` is absent; otherwise, for a truthy id holding the same
   * object as `null`, `null` is unregistered first; then the item and the waiters of `id` are dropped
   * and the watchers are notified.
   */
  function Unregister(s: RegistryState, id: Key): (r: (Outcome<RegistryError>, RegistryState))
    decreases if id.NullKey? then 0 else 1
    ensures r.0.Fail? <==> id !in s.items
    ensures r.0.Fail? ==> r.0.error == NotRegistered(id) && r.1 == s
    ensures r.1.items.Keys <= s.items.Keys && r.1.watchers == s.watchers
    ensures Valid(s) ==> Valid(r.1)
  {
    if id !in s.items then (Fail(NotRegistered(id)), s)
    else if Aliased(s, id) then
      var (o, s1) := Unregister(s, NullKey);
      if o.Fail? then (o, s1) else (Pass, Drop(s1, id))
    else
      (Pass, Drop(s, id))
  }

  /**
   * A successful `unregister(id)` drops `id`, and `null` too when it aliased `id`'s item, from the
   * items and the waiting lists, and leaves the errors and the watchers alone.
   */
  lemma UnregisterEffect(s: RegistryState, id: Key)
    requires id in s.items
    ensures var r := Unregister(s, id);
      && r.0 == Pass
      && r.1.items == s.items - {id} - (if Aliased(s, id) then {NullKey} else {})
      && r.1.callbacks == s.callbacks - {id} - (if Aliased(s, id) then {NullKey} else {})
      && r.1.errors == s.errors && r.1.errorCallbacks == s.errorCallbacks
  {
    if Aliased(s, id) {
      var s1 := Drop(s, NullKey);
      assert Unregister(s, NullKey) == (Pass, s1);
      assert Unregister(s, id) == (Pass, Drop(s1, id));
      RemoveTwice(s.items, NullKey, id);
      RemoveTwice(s.callbacks, NullKey, id);
    } else {
      assert Unregister(s, id) == (Pass, Drop(s, id));
    }
  }

  /** Removing two keys from a map in either order gives the same map. */
  lemma RemoveTwice<V>(m: map<Key, V>, a: Key, b: Key)
    ensures m - {a} - {b} == m - {b} - {a}
  {
    assert (m - {a} - {b}).Keys == (m - {b} - {a}).Keys;
  }

  /** The end of `unregister(id)`: the item and the waiters of `id` dropped, then the watchers notified. */
  function Drop(s: RegistryState, id: Key): (r: RegistryState)
    ensures r.items == s.items - {id} && r.callbacks == s.callbacks - {id}
    ensures r.errors == s.errors && r.errorCallbacks == s.errorCallbacks && r.watchers == s.watchers
    ensures Valid(s) ==> Valid(r)
  {
    Notify(s.(items := s.items - {id}, order := Without(s.order, id), callbacks := s.callbacks - {id}))
  }

  /** The guard of the recursive call in `unregister`: a truthy id sharing its object with `null`. */
  predicate Aliased(s: RegistryState, id: Key) {
    IsTruthy(id) && id in s.items && NullKey in s.items && s.items[NullKey] == s.items[id]
  }

  /** `onError(id, handler)`: runs at once on a recorded error, otherwise queued. */
  function OnError(s: RegistryState, id: Key, h: ErrorHandler): (r: RegistryState)
    ensures Valid(s) ==> Valid(r)
  {
    if id in s.errors then s.(calls := s.calls + [Rejected(h, s.errors[id])])
    else s.(errorCallbacks := s.errorCallbacks[id := Queue(s.errorCallbacks, id) + [h]])
  }

  /**
   * `execute(id, onSuccess, onError)`: a recorded error is reported to `onError` first; a present item
   * goes to `onSuccess` at once; otherwise `onError` is attached through `onError(...)` and `onSuccess`
   * joins the end of the queue of `id`.
   */
  function Execute(s: RegistryState, id: Key, onSuccess: Waiter, onError: Option<ErrorHandler>): (r: RegistryState)
    ensures Valid(s) ==> Valid(r)
  {
    var s1 :=
      if id in s.errors && onError.Some?
      then s.(calls := s.calls + [Rejected(onError.value, s.errors[id])])
      else s;
    if id in s.items then
      s1.(calls := s1.calls + [Resolved(onSuccess, s.items[id])])
    else
      var s2 := if onError.Some? then OnError(s1, id, onError.value) else s1;
      s2.(callbacks := s2.callbacks[id := Queue(s2.callbacks, id) + [onSuccess]])
  }

  /** `waitFor(id)`: `execute` with the promise's `resolve` and `reject`, both tokens of `promise`. */
  function WaitFor(s: RegistryState, id: Key, promise: nat): (r: RegistryState)
    ensures Valid(s) ==> Valid(r)
  {
    Execute(s, id, Waiter(promise), Some(ErrorHandler(promise)))
  }

  /**
   * `error(id, e)`: the error is recorded, the queued error callbacks of `id` run and are dropped, and
   * the error is mirrored under `null` when it is then the only recorded error and no item exists.
   */
  function RecordError(s: RegistryState, id: Key, e: InitError): (r: RegistryState)
    ensures Valid(s) ==> Valid(r)
  {
    var s1 := s.(errors := s.errors[id := e]);
    var s2 :=
      if id in s.errorCallbacks
      then s1.(calls := s1.calls + RejectCalls(s.errorCallbacks[id], e), errorCallbacks := s1.errorCallbacks - {id})
      else s1;
    if |s2.errors| == 1 && |s2.items| == 0 then s2.(errors := s2.errors[NullKey := e]) else s2
  }

  /** `getItems()`: the values of the items in insertion order. */
  function GetItems(s: RegistryState): (r: seq<Item>)
    requires Valid(s)
    ensures |r| == |s.order|
    ensures forall i :: 0 <= i < |r| ==> r[i] in s.items.Values
  {
    seq(|s.order|, i requires 0 <= i < |s.order| => s.items[s.order[i]])
  }

  /** `hasItem(id)`. */
  predicate HasItem(s: RegistryState, id: Key) {
    id in s.items
  }

  /**
   * `destroyAll()`: `destroy()` on each distinct item, the items and waiters cleared before the
   * destroys are awaited, then the watchers notified; when a `destroy()` promise rejects, the
   * rejection propagates and the watchers are not notified.
   */
  function DestroyAll(s: RegistryState, rejected: bool): (r: (Outcome<RegistryError>, RegistryState))
    requires Valid(s)
    ensures Valid(r.1)
  {
    var s1 := s.(
      calls := s.calls + DestroyCalls(Dedup(GetItems(s))),
      items := map[],
      order := [],
      callbacks := map[]);
    if rejected then (Fail(DestroyRejected), s1) else (Pass, Notify(s1))
  }

  /** `watch(w)`: `w` joins the watcher set and is called at once with a copy of the items. */
  function Watch(s: RegistryState, w: Watcher): (r: RegistryState)
    ensures Valid(s) ==> Valid(r)
  {
    s.(
      watchers := if w in s.watchers then s.watchers else s.watchers + [w],
      calls := s.calls + [Notified(w, s.items)])
  }

  /** `unwatch(w)`, also the function `watch` returns. */
  function Unwatch(s: RegistryState, w: Watcher): (r: RegistryState)
    ensures Valid(s) ==> Valid(r)
  {
    s.(watchers := Without(s.watchers, w))
  }
}
