/**
 * The lifecycle of a class-based Livewire hook, npm_package/src/hooks/hook.ts: the `ClassHook` base
 * class with its four states and its last-in-first-out before-destroy callbacks, and the per-name
 * registration that creates one hook per component, runs its cleanup and forwards commits.
 *
 * The concrete hook's own `mounted()`, `destroyed()` and `afterCommitSynced()` are not visible here;
 * each call to one of them, like each before-destroy callback, is recorded in the hook's `log` together
 * with the state the hook was in at that moment.
 */
module Hooks {
  import opened Wrappers
  import opened Seqs

  /** `ClassHookState`. */
  datatype HookState = Mounting | Mounted | Destroying | Destroyed

  /** A callback handed to `onBeforeDestroy`. */
  datatype Callback = Callback(ref: nat)

  /** A call the hook machinery makes on a hook, with the hook's state when it is made. */
  datatype HookEvent =
    | MountedCalled(at: HookState)
    | BeforeDestroyRan(callback: Callback, at: HookState)
    | DestroyedCalled(at: HookState)
    | AfterCommitSyncedCalled(at: HookState)

  /** `isBeingDestroyed()` on a state: `['destroyed', 'destroying'].includes(state)`. */
  predicate BeingDestroyed(st: HookState) {
    st in {Destroyed, Destroying}
  }

  /** A hook is being destroyed exactly when it is neither mounting nor mounted. */
  lemma BeingDestroyedExactly(st: HookState)
    ensures BeingDestroyed(st) <==> st != Mounting && st != Mounted
    ensures BeingDestroyed(st) <==> st == Destroying || st == Destroyed
  {
    assert st in {Destroyed, Destroying} <==> st == Destroyed || st == Destroying;
  }

  /** The log entries of running `cbs` in that order while in state `at`. */
  function RunEvents(cbs: seq<Callback>, at: HookState): (r: seq<HookEvent>)
    ensures |r| == |cbs|
  {
    seq(|cbs|, i requires 0 <= i < |cbs| => BeforeDestroyRan(cbs[i], at))
  }

  /**
   * Running the before-destroy callbacks in reverse registration order: the first one called is the
   * last one registered, and so on.
   */
  lemma LastRegisteredRunsFirst(cbs: seq<Callback>, at: HookState)
    ensures var r := RunEvents(Reversed(cbs), at);
      && |r| == |cbs|
      && forall i :: 0 <= i < |cbs| ==> r[i] == BeforeDestroyRan(cbs[|cbs| - 1 - i], at)
  {
  }

  /** `ClassHook`. */
  class ClassHook {
    var state: HookState
    /** `_beforeDestroyCallbacks`. */
    var beforeDestroy: seq<Callback>
    /** The calls made on this hook so far. */
    var log: seq<HookEvent>

    /** A new hook is mounting and has no callbacks. */
    constructor ()
      ensures state == Mounting && beforeDestroy == [] && log == []
    {
      state := Mounting;
      beforeDestroy := [];
      log := [];
    }

    /** `isBeingDestroyed()`. */
    predicate IsBeingDestroyed()
      reads this
    {
      BeingDestroyed(state)
    }

    /** `onBeforeDestroy(callback)`: pushed at the end of the list. */
    method OnBeforeDestroy(cb: Callback)
      modifies this`beforeDestroy
      ensures beforeDestroy == old(beforeDestroy) + [cb]
    {
      beforeDestroy := beforeDestroy + [cb];
    }

    /**
     * `_runBeforeDestroyCallbacks()`: the list is reversed in place, each callback is called in the
     * new order, and the list is emptied, so a second run calls nothing.
     */
    method RunBeforeDestroyCallbacks()
      modifies this`beforeDestroy, this`log
      ensures log == old(log) + RunEvents(Reversed(old(beforeDestroy)), state)
      ensures beforeDestroy == []
    {
      beforeDestroy := Reversed(beforeDestroy);
      var i := 0;
      while i < |beforeDestroy|
        invariant 0 <= i <= |beforeDestroy|
        invariant beforeDestroy == Reversed(old(beforeDestroy))
        invariant log == old(log) + RunEvents(beforeDestroy[..i], state)
      {
        log := log + [BeforeDestroyRan(beforeDestroy[i], state)];
        i := i + 1;
      }
      assert beforeDestroy[..i] == beforeDestroy;
      beforeDestroy := [];
    }

    /** The concrete hook's `mounted()` is called. */
    method CallMounted()
      modifies this`log
      ensures log == old(log) + [MountedCalled(state)]
    {
      log := log + [MountedCalled(state)];
    }

    /** The concrete hook's `destroyed()` is called. */
    method CallDestroyed()
      modifies this`log
      ensures log == old(log) + [DestroyedCalled(state)]
    {
      log := log + [DestroyedCalled(state)];
    }

    /** The concrete hook's `afterCommitSynced()` is called. */
    method CallAfterCommitSynced()
      modifies this`log
      ensures log == old(log) + [AfterCommitSyncedCalled(state)]
    {
      log := log + [AfterCommitSyncedCalled(state)];
    }
  }

  /** The parts of a Livewire component the registration looks at. */
  datatype Component = Component(name: string, id: string)

  /**
   * `registerLivewireComponentHook(name, Hook)`: the hooks created so far, by component id. The
   * `component.init` handler is split at its `await`: `ComponentInit` runs up to `instance.mounted()`,
   * `MountSettled` is what follows once that promise settles, and the `cleanup` callback is `Cleanup`.
   */
  class HookRegistration {
    const name: string
    /** `hookInstances`. */
    var instances: map<string, ClassHook>

    constructor (name: string)
      ensures this.name == name && instances == map[]
    {
      this.name := name;
      instances := map[];
    }

    /**
     * The `component.init` handler up to its `await`: a component of another name is ignored;
     * otherwise a new mounting hook is stored under the component id and its `mounted()` is called.
     */
    method ComponentInit(c: Component) returns (r: Option<ClassHook>)
      modifies this`instances
      ensures c.name != name ==> r == None && instances == old(instances)
      ensures c.name == name ==> r.Some? && fresh(r.value) && instances == old(instances)[c.id := r.value]
      ensures c.name == name ==> r.value.state == Mounting && r.value.beforeDestroy == []
      ensures c.name == name ==> r.value.log == [MountedCalled(Mounting)]
    {
      if c.name != name {
        return None;
      }
      var instance := new ClassHook();
      instances := instances[c.id := instance];
      instance.CallMounted();
      r := Some(instance);
    }

    /**
     * After `await instance.mounted()`: when the promise resolves the state becomes `mounted`, whatever
     * it was meanwhile; when it rejects the handler stops at the `await` and the state stays as it was.
     */
    method MountSettled<E>(instance: ClassHook, settled: Outcome<E>)
      modifies instance`state
      ensures settled.Pass? ==> instance.state == Mounted
      ensures settled.Fail? ==> instance.state == old(instance.state)
    {
      if settled.Pass? {
        instance.state := Mounted;
      }
    }

    /**
     * The cleanup callback: the hook is marked `destroying`, its before-destroy callbacks run last
     * first and its `destroyed()` is called; `settled` is how that promise ends. When it resolves the
     * hook is marked `destroyed` and its entry is deleted; when it rejects the callback stops at the
     * `await`, so the hook stays `destroying` and keeps its entry.
     */
    method Cleanup<E>(c: Component, instance: ClassHook, settled: Outcome<E>)
      modifies this`instances, instance
      ensures instance.log == old(instance.log) + RunEvents(Reversed(old(instance.beforeDestroy)), Destroying)
                              + [DestroyedCalled(Destroying)]
      ensures instance.beforeDestroy == []
      ensures settled.Pass? ==> instance.state == Destroyed && instances == old(instances) - {c.id}
      ensures settled.Fail? ==> instance.state == Destroying && instances == old(instances)
    {
      instance.state := Destroying;
      instance.RunBeforeDestroyCallbacks();
      instance.CallDestroyed();
      if settled.Fail? {
        return;
      }
      instance.state := Destroyed;
      instances := instances - {c.id};
    }

    /** Whether the `succeed` callback of a commit on `c` calls `afterCommitSynced()`. */
    predicate ForwardsCommit(c: Component)
      reads this, instances.Values
    {
      c.name == name && c.id in instances && instances[c.id].state == Mounted
    }

    /**
     * The `commit` handler with its `succeed` callback: for a component of this name whose hook exists
     * and is exactly `mounted`, `afterCommitSynced()` is called on it; otherwise nothing happens.
     */
    method CommitSucceeded(c: Component)
      modifies instances.Values
      ensures ForwardsCommit(c) ==>
                instances[c.id].log == old(instances[c.id].log) + [AfterCommitSyncedCalled(Mounted)]
      ensures forall h :: h in instances.Values && (!ForwardsCommit(c) || h != instances[c.id]) ==>
                h.log == old(h.log)
      ensures forall h :: h in instances.Values ==> h.state == old(h.state) && h.beforeDestroy == old(h.beforeDestroy)
    {
      if c.name != name {
        return;
      }
      if c.id in instances && instances[c.id].state == Mounted {
        instances[c.id].CallAfterCommitSynced();
      }
    }
  }
}
