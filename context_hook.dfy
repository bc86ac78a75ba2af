/**
 * `ContextComponentHook`, npm_package/src/hooks/context/context.ts: it creates a context watchdog,
 * registers it under `contextId` unless the hook is being destroyed, and on destruction tears it down
 * and unregisters it. The context itself is an opaque handle (a registry `Item`).
 */
module ContextHooks {
  import opened Wrappers
  import opened Hooks
  import opened RegistrySpec
  import opened AsyncRegistries

  /** A value of the watchdog configuration. */
  datatype ConfigValue = Number(n: int) | Other(ref: nat)

  /** `{ crashNumberLimit: 10, ...watchdogConfig }`. */
  function WatchdogConfig(watchdogConfig: map<string, ConfigValue>): (r: map<string, ConfigValue>)
    ensures r.Keys == watchdogConfig.Keys + {"crashNumberLimit"}
    ensures forall k :: k in watchdogConfig ==> r[k] == watchdogConfig[k]
    ensures "crashNumberLimit" !in watchdogConfig ==> r["crashNumberLimit"] == Number(10)
  {
    map["crashNumberLimit" := Number(10)] + watchdogConfig
  }

  /** How `contextPromise` settled: with the created context watchdog, or rejected by `instance.create`. */
  datatype ContextPromise = ContextCreated(context: Item) | ContextCreationRejected

  /**
   * Why `mounted()` or `destroyed()` rejects: the context's creation rejected, or its `destroy()`
   * rejected.
   */
  datatype ContextError = ContextCreateRejected | ContextDestroyRejected

  /** `ContextComponentHook`: the base hook and the fields this subclass adds. */
  class ContextComponentHook {
    const hook: ClassHook
    const contextId: string
    /** `contextPromise`, by how it settles; `None` is `null`. */
    var contextPromise: Option<ContextPromise>
    /** Whether `element.style.display` was set to `none`. */
    var hidden: bool
    /** The contexts whose `destroy()` was called, in order. */
    var destroyCalls: seq<Item>

    constructor (hook: ClassHook, contextId: string)
      ensures this.hook == hook && this.contextId == contextId
      ensures contextPromise == None && !hidden && destroyCalls == []
    {
      this.hook := hook;
      this.contextId := contextId;
      contextPromise := None;
      hidden := false;
      destroyCalls := [];
    }

    /** `mounted()` once the context is created: registered under `contextId` unless being destroyed. */
    method Mounted(context: Item, contexts: AsyncRegistry) returns (r: Outcome<RegistryError>)
      requires contexts.Valid()
      modifies this`contextPromise, contexts
      ensures contexts.Valid() && contextPromise == Some(ContextCreated(context))
      ensures hook.IsBeingDestroyed() ==> r == Pass && contexts.State() == old(contexts.State())
      ensures !hook.IsBeingDestroyed() ==>
                (r, contexts.State()) == Register(old(contexts.State()), Id(contextId), context)
    {
      contextPromise := Some(ContextCreated(context));
      if hook.IsBeingDestroyed() {
        return Pass;
      }
      r := contexts.Register(Id(contextId), context);
    }

    /**
     * `mounted()` when `instance.create` rejects: the promise stays rejected, nothing is registered,
     * and `mounted()` itself rejects.
     */
    method MountFailed() returns (r: Outcome<ContextError>)
      modifies this`contextPromise
      ensures contextPromise == Some(ContextCreationRejected) && r == Fail(ContextCreateRejected)
    {
      contextPromise := Some(ContextCreationRejected);
      r := Fail(ContextCreateRejected);
    }

    /**
     * `destroyed()`: the element is hidden and the promise awaited. A rejected creation rejects
     * `destroyed()` with nothing destroyed; a created context is destroyed (`fails` being whether that
     * rejects). In every case the promise is then cleared and `contextId` is unregistered only if it
     * is registered.
     */
    method Destroyed(fails: bool, contexts: AsyncRegistry) returns (r: Outcome<ContextError>)
      requires contexts.Valid()
      modifies this`hidden, this`contextPromise, this`destroyCalls, contexts
      ensures contexts.Valid() && hidden && contextPromise == None
      ensures old(contextPromise).None? ==> r == Pass && destroyCalls == old(destroyCalls)
      ensures old(contextPromise) == Some(ContextCreationRejected) ==>
                r == Fail(ContextCreateRejected) && destroyCalls == old(destroyCalls)
      ensures old(contextPromise).Some? && old(contextPromise).value.ContextCreated? ==>
                destroyCalls == old(destroyCalls) + [old(contextPromise).value.context]
                && r == (if fails then Fail(ContextDestroyRejected) else Pass)
      ensures Id(contextId) in old(contexts.items) ==>
                contexts.State() == Unregister(old(contexts.State()), Id(contextId)).1
      ensures Id(contextId) !in old(contexts.items) ==> contexts.State() == old(contexts.State())
    {
      hidden := true;
      r := Pass;
      if contextPromise == Some(ContextCreationRejected) {
        r := Fail(ContextCreateRejected);
      } else if contextPromise.Some? {
        destroyCalls := destroyCalls + [contextPromise.value.context];
        if fails {
          r := Fail(ContextDestroyRejected);
        }
      }
      contextPromise := None;
      if contexts.HasItem(Id(contextId)) {
        var _ := contexts.Unregister(Id(contextId));
      }
    }
  }
}
