# ckeditor5-livewire, modelled in Dafny

This project models the coordination core of ckeditor5-livewire, the package that binds CKEditor 5 editors to Livewire components, and proves properties of that model.

On the client side it covers:

- the keyed asynchronous registry. Editors and contexts are registered in it, waited for and unregistered. It models the `null` alias of the first item, FIFO waiter queues, recorded initialization errors and watchers.
- the Livewire hook lifecycle: the `mounting` / `mounted` / `destroying` / `destroyed` states, before-destroy callbacks run last-first, and the per-component-name instance map.
- the lifecycle decisions of the editor and context hooks: the initial-content merge, the single-root collapse, the watchdog and context choice, the teardown dispatch, and the nearest context ancestor walk.
- the content-sync rule of the `LivewireSync` plugin.
- the editable discovery folds.
- the Vite externalize plugin.

On the PHP side it covers:

- editor-type parsing;
- language normalisation;
- the CKBox CDN bundle;
- the `mount` parameter handling of the UI-part and editable components;
- the root add/remove logic of the dynamic multi-root playground demo.

The Dafny form follows the code's own form. Code that updates state in place becomes a class whose methods are proved against specification functions of the old state:

- the registry's maps and watcher set;
- the hook's state and callback list;
- the hook registration's instance map;
- the Vite configuration object;
- the PHP components' properties;
- the demo's roots.

The loops that fire queued callbacks, walk the ancestor chain or build the CKBox script list are `while`/`for` loops with invariants. Pure expressions (the folds, `resolveId`, `fromString`, `normalize`) are functions, with lemmas for the properties the code promises.

Callbacks, editors, contexts and watchdogs are opaque tokens. What happens to them is recorded in a call log, or in a field of the object that owns them. The shared modules are:

- `Wrappers`: `Option`, `Result` and `Outcome`;
- `Seqs`: ordered-key and sequence helpers;
- `Folds`: the `filter`/`reduce`/`find` folds.

## Model

| member | source | states |
|---|---|---|
| RegistrySpec.Empty | npm_package/src/shared/async-registry.ts:13-33 | a new registry has no items, errors, queues or watchers, and is consistent |
| RegistrySpec.ResetErrors | npm_package/src/shared/async-registry.ts:137-149 | the error and the error callbacks of the id are gone; every remaining error is unchanged; items, queues, watchers and calls are untouched |
| RegistrySpec.Insert | npm_package/src/shared/async-registry.ts:94-100 | a fresh id gets the item (one more entry, appended to the insertion order); its waiters are resolved in queue order and dropped; its errors and error callbacks are reset |
| RegistrySpec.InsertKeepsValid | npm_package/src/shared/async-registry.ts:13 | storing a fresh key keeps the insertion order in step with the keys of the map |
| RegistrySpec.Register | npm_package/src/shared/async-registry.ts:86-108 | fails with the already-registered error exactly when the id is taken, or when it is `null` on an empty registry (its recursive call finds `null` taken); a taken id changes nothing; otherwise the item is stored, and on an empty registry also under `null`; consistency is kept |
| RegistrySpec.Unregister | npm_package/src/shared/async-registry.ts:177-192 | fails exactly when the id is absent, with the not-registered error and no change; never adds a key; watchers untouched; consistency kept |
| RegistrySpec.UnregisterEffect | npm_package/src/shared/async-registry.ts:184-189 | a present id is removed from the items and waiting lists, and `null` too when a truthy id shared its object with it; errors untouched |
| RegistrySpec.Drop | npm_package/src/shared/async-registry.ts:188-191 | the item and the waiters of the id are removed; errors, error callbacks and watchers are kept; consistency kept |
| RegistrySpec.OnError | npm_package/src/shared/async-registry.ts:116-130 | registering an error callback keeps the registry consistent |
| RegistrySpec.Execute | npm_package/src/shared/async-registry.ts:44-78 | `execute` keeps the registry consistent |
| RegistrySpec.WaitFor | npm_package/src/shared/async-registry.ts:220-224 | `waitFor` keeps the registry consistent |
| RegistrySpec.RecordError | npm_package/src/shared/async-registry.ts:157-170 | `error` keeps the registry consistent |
| RegistrySpec.DestroyAll | npm_package/src/shared/async-registry.ts:230-243 | the registry is consistent after `destroyAll` |
| RegistrySpec.Watch | npm_package/src/shared/async-registry.ts:251-258 | `watch` keeps the watcher set free of duplicates |
| RegistrySpec.Unwatch | npm_package/src/shared/async-registry.ts:265-267 | `unwatch` keeps the watcher set free of duplicates |
| AsyncRegistries.AsyncRegistry.constructor | npm_package/src/shared/async-registry.ts:13-33 | the fields start as the empty registry |
| AsyncRegistries.AsyncRegistry.Execute | npm_package/src/shared/async-registry.ts:44-78 | the fields change exactly as `RegistrySpec.Execute` says; consistency kept |
| AsyncRegistries.AsyncRegistry.Register | npm_package/src/shared/async-registry.ts:86-108 | the outcome and the fields are those of `RegistrySpec.Register`, including the recursive `null` registration |
| AsyncRegistries.AsyncRegistry.OnError | npm_package/src/shared/async-registry.ts:116-130 | the fields change exactly as `RegistrySpec.OnError` says |
| AsyncRegistries.AsyncRegistry.ResetErrors | npm_package/src/shared/async-registry.ts:137-149 | the fields change exactly as `RegistrySpec.ResetErrors` says |
| AsyncRegistries.AsyncRegistry.Error | npm_package/src/shared/async-registry.ts:157-170 | the fields change exactly as `RegistrySpec.RecordError` says; the error callbacks are run by a loop |
| AsyncRegistries.AsyncRegistry.Unregister | npm_package/src/shared/async-registry.ts:177-192 | the outcome and the fields are those of `RegistrySpec.Unregister`, including the recursive `null` removal |
| AsyncRegistries.AsyncRegistry.WaitFor | npm_package/src/shared/async-registry.ts:220-224 | the fields change exactly as `RegistrySpec.WaitFor` says |
| AsyncRegistries.AsyncRegistry.DestroyAll | npm_package/src/shared/async-registry.ts:230-243 | the outcome and the fields are those of `RegistrySpec.DestroyAll` |
| AsyncRegistries.AsyncRegistry.Watch | npm_package/src/shared/async-registry.ts:251-258 | the fields change exactly as `RegistrySpec.Watch` says |
| AsyncRegistries.AsyncRegistry.Unwatch | npm_package/src/shared/async-registry.ts:265-267 | the fields change exactly as `RegistrySpec.Unwatch` says |
| AsyncRegistries.AsyncRegistry.DistinctItems | npm_package/src/shared/async-registry.ts:231-233 | the loop yields the items without repeats, in first-occurrence order (a function proved distinct and covering every value) |
| AsyncRegistries.AsyncRegistry.NotifyWatchers | npm_package/src/shared/async-registry.ts:272-275 | every watcher, in set order, is called with the same copy of the items |
| AsyncRegistries.AsyncRegistry.ResolveWaiters | npm_package/src/shared/async-registry.ts:97-98 | the queued waiters are called with the item, in queue order |
| AsyncRegistries.AsyncRegistry.RejectHandlers | npm_package/src/shared/async-registry.ts:162-163 | the queued error callbacks are called with the error, in queue order |
| RegistryProperties.RegisterResolvesQueuedWaiters | npm_package/src/shared/async-registry.ts:97-100 | registering a fresh id into a non-empty registry succeeds, resolves exactly that id's waiters in queue order, deletes the queue, then notifies |
| RegistryProperties.FirstRegisterAliasesNull | npm_package/src/shared/async-registry.ts:102-105 | the first registration under a real id also stores the item under `null`, resolves both queues in order and notifies twice with both keys |
| RegistryProperties.RegisterNullOnEmptyThrows | npm_package/src/shared/async-registry.ts:90-91 | `register(null, x)` on an empty registry stores `x`, resolves the waiters of `null`, then throws from its recursive call without notifying |
| RegistryProperties.RegisterThrownMessage | npm_package/src/shared/async-registry.ts:86-108 | the text `register` throws is "Item with ID "…" is already registered." with its own id, `null` written as "null"; `register(null, x)` on an empty registry throws that text |
| RegistryProperties.UnregisterThrownMessage | npm_package/src/shared/async-registry.ts:177-181 | the text `unregister` throws is "Item with ID "…" is not registered." with its own id; `unregister(null)` without a `null` item throws that text |
| RegistryProperties.NoDoubleRegistration | npm_package/src/shared/async-registry.ts:90-92 | a second registration of the same id throws and changes nothing |
| RegistryProperties.ResetErrorsEffect | npm_package/src/shared/async-registry.ts:137-149 | the id's error and error callbacks are removed; the `null` error is removed exactly when it is the same error; all other entries are kept |
| RegistryProperties.RegisterClearsError | npm_package/src/shared/async-registry.ts:94 | a successful registration leaves no error and no error callbacks for the id |
| RegistryProperties.ExecutePresent | npm_package/src/shared/async-registry.ts:51-60 | a present item goes to `onSuccess` at once, after `onError` when an error is recorded; no queue changes |
| RegistryProperties.ExecuteAbsentQueues | npm_package/src/shared/async-registry.ts:62-77 | an absent item appends the waiter at the end of that id's queue only, and attaches `onError` through `onError` |
| RegistryProperties.ExecuteReportsRecordedErrorTwice | npm_package/src/shared/async-registry.ts:54-56 | with an error recorded and no item, `onError` is called twice and the waiter still queues |
| RegistryProperties.SoleError | npm_package/src/shared/async-registry.ts:167 | after recording, the id's error is the only one exactly when no other id had one |
| RegistryProperties.RecordErrorEffect | npm_package/src/shared/async-registry.ts:157-165 | the error is recorded; the id's error callbacks run in order and are dropped; items and waiters kept |
| RegistryProperties.RecordErrorMirrorsNull | npm_package/src/shared/async-registry.ts:167-169 | the error is copied under `null` exactly when it is the only recorded error and no item exists |
| RegistryProperties.GetItemsValues | npm_package/src/shared/async-registry.ts:199-201 | `getItems()` lists exactly the registered values |
| RegistrySpec.GetItems | npm_package/src/shared/async-registry.ts:199-201 | one value per key in insertion order, each a registered value (exactly the values: `GetItemsValues`) |
| RegistrySpec.Notify | npm_package/src/shared/async-registry.ts:272-275 | `notifyWatchers()`: one call per watcher with a copy of the items; its property is `NotifyReachesEveryWatcher` |
| RegistryProperties.NotifyReachesEveryWatcher | npm_package/src/shared/async-registry.ts:272-275 | every watcher is called once, in insertion order, with the same copy of the items, and only the call log changes |
| RegistrySpec.HasItem | npm_package/src/shared/async-registry.ts:209-211 | `items.has(id)`; what it means for a waiter is `HasItemExactlyWhenWaitResolves` |
| RegistryProperties.HasItemExactlyWhenWaitResolves | npm_package/src/shared/async-registry.ts:209-211 | `hasItem(id)` holds exactly when `waitFor(id)` resolves at once; otherwise the wait only queues or reports a recorded error |
| AsyncRegistries.AsyncRegistry.GetItems | npm_package/src/shared/async-registry.ts:199-201 | the registry object's `getItems()` is `RegistrySpec.GetItems` of its state |
| AsyncRegistries.AsyncRegistry.HasItem | npm_package/src/shared/async-registry.ts:209-211 | the registry object's `hasItem(id)` is `RegistrySpec.HasItem` of its state |
| RegistryProperties.DestroyAllOncePerInstance | npm_package/src/shared/async-registry.ts:230-243 | `destroy()` runs once per distinct instance; items and waiters are emptied; errors kept; watchers notified with the empty map unless a destroy rejects |
| RegistryProperties.WatchCallsImmediately | npm_package/src/shared/async-registry.ts:251-255 | the watcher joins the set and is called at once with a copy of the items |
| RegistryProperties.UnwatchStopsNotifications | npm_package/src/shared/async-registry.ts:265-275 | after `unwatch(w)` a notification reaches every other watcher and not `w` |
| RegistryProperties.ExecuteEachQueues | npm_package/src/shared/async-registry.ts:69-76 | repeated `execute` on an absent id queues the waiters in call order and invokes nothing |
| RegistryProperties.RegisterResolvesInCallOrder | npm_package/src/shared/async-registry.ts:62-77 | FIFO: waiters that asked before registration are resolved in the order they asked |
| RegistryProperties.RegisterResolvesInCallOrderFromEmpty | npm_package/src/shared/async-registry.ts:62-105 | FIFO from an empty registry: the waiters of the id are resolved in the order they asked, then those of `null`, then the watchers are notified twice |
| RegistryProperties.AliasScenario | npm_package/src/shared/async-registry.ts:102-105 | after a first registration, `null` resolves at once to the item, and unregistering the id also removes `null` |
| RegistryProperties.EmptyIdKeepsAlias | npm_package/src/shared/async-registry.ts:184 | the empty-string id is falsy, so unregistering it keeps the `null` alias |
| RegistryProperties.ErrorClearedBySuccess | npm_package/src/shared/async-registry.ts:94 | after an error and then a registration, waiting for the id resolves with the item and is not rejected |
| Seqs.Without | npm_package/src/shared/async-registry.ts:188 | deleting a key from an ordered map or set keeps the others in order and keeps them distinct |
| Seqs.Dedup | npm_package/src/shared/async-registry.ts:233 | `new Set(values)` holds each value once, and every value |
| Seqs.DedupKeepsFirstOccurrenceOrder | npm_package/src/shared/async-registry.ts:233 | `new Set(values)` keeps first-occurrence order: deduplicating any prefix of the values gives a prefix of the result |
| Seqs.Reversed | npm_package/src/hooks/hook.ts:81 | `reverse()` puts the last element first |
| Hooks.BeingDestroyedExactly | npm_package/src/hooks/hook.ts:57-59 | being destroyed exactly when the state is `destroying` or `destroyed`, i.e. neither mounting nor mounted |
| Hooks.RunEvents | npm_package/src/hooks/hook.ts:81-83 | one call per callback |
| Hooks.LastRegisteredRunsFirst | npm_package/src/hooks/hook.ts:27-31 | the callbacks run last-registered-first |
| Hooks.ClassHook.constructor | npm_package/src/hooks/hook.ts:11 | a new hook is `mounting` with no callbacks |
| Hooks.ClassHook.OnBeforeDestroy | npm_package/src/hooks/hook.ts:29-31 | the callback is appended |
| Hooks.ClassHook.RunBeforeDestroyCallbacks | npm_package/src/hooks/hook.ts:80-86 | the callbacks are called in reverse order of registration, then the list is emptied |
| Hooks.HookRegistration.ComponentInit | npm_package/src/hooks/hook.ts:106-112 | a component of another name is ignored; otherwise a fresh mounting hook is stored under the component id and `mounted()` is called |
| Hooks.HookRegistration.MountSettled | npm_package/src/hooks/hook.ts:124-125 | when `mounted()` resolves the state is `mounted`, even if cleanup ran meanwhile; when it rejects the state is unchanged |
| Hooks.HookRegistration.Cleanup | npm_package/src/hooks/hook.ts:114-122 | state `destroying`, callbacks last-first, `destroyed()` called while destroying; when it resolves the state is `destroyed` and the entry deleted, when it rejects the hook stays `destroying` and keeps its entry |
| Hooks.HookRegistration.CommitSucceeded | npm_package/src/hooks/hook.ts:129-140 | `afterCommitSynced()` is called only for a hook of this name that exists and is exactly `mounted`; no other hook changes |
| EditorHooks.InitialDataFor | npm_package/src/hooks/editor/editor.ts:158-165 | multi-root data is the snapshot content overridden key by key by the discovered content; single-root kinds get `main` or "" |
| EditorHooks.IsSingleEditingLike | npm_package/src/hooks/editor/editor.ts:145 | every kind except `multiroot`; `isSingleEditingLikeEditor` is not shown, so this is the model's reading of it (used by `IntegrationPlugins` and `EditableHeightOnlyForSingleRoot`) |
| EditorHooks.UsesWatchdog | npm_package/src/hooks/editor/editor.ts:127 | `watchdog && !context`; its property is `ContextDisablesWatchdog` |
| EditorHooks.AppliesEditableHeight | npm_package/src/hooks/editor/editor.ts:202 | `isSingleEditingLikeEditor(editorType) && editableHeight`; its property is `EditableHeightOnlyForSingleRoot` |
| EditorHooks.ContextSourceFor | npm_package/src/hooks/editor/editor.ts:120-124 | the registry is used exactly when a non-empty context id is given |
| EditorHooks.ContextDisablesWatchdog | npm_package/src/hooks/editor/editor.ts:126-127 | a resolved context switches the watchdog off; otherwise the `watchdog` flag decides |
| EditorHooks.IntegrationPlugins | npm_package/src/hooks/editor/editor.ts:142-147 | the Livewire sync plugin always comes first; the input sync plugin is added exactly for single-root kinds |
| EditorHooks.EditableHeightOnlyForSingleRoot | npm_package/src/hooks/editor/editor.ts:202-204 | the height is applied only for single-root kinds with a non-zero height |
| EditorHooks.CreationPathFor | npm_package/src/hooks/editor/editor.ts:185-191 | creation in a context happens exactly with a context and a single element |
| EditorHooks.RecordSourceCreatesDirectly | npm_package/src/hooks/editor/editor.ts:186-189 | a record of roots is always created directly |
| EditorHooks.TeardownFor | npm_package/src/hooks/editor/editor.ts:76-88 | the four teardowns, each chosen exactly in its own case |
| EditorHooks.EditorComponentHook.Mounted | npm_package/src/hooks/editor/editor.ts:42-60 | registered, and the destroy listener attached, only when the hook is not being destroyed |
| EditorHooks.EditorComponentHook.MountFailed | npm_package/src/hooks/editor/editor.ts:42-47 | when `createEditor()` rejects, the promise is left rejected, nothing is registered, no listener is attached and `mounted()` rejects |
| EditorHooks.EditorComponentHook.OnEditorDestroy | npm_package/src/hooks/editor/editor.ts:54-58 | the destroy listener unregisters only while the id is registered |
| EditorHooks.EditorComponentHook.Destroyed | npm_package/src/hooks/editor/editor.ts:66-93 | hidden; a rejected creation rejects `destroyed()` with nothing torn down; a created editor is torn down as dispatched, and leaving it to an `unavailable` context never rejects; the promise is reset in every case |
| EditorHooks.EditorComponentHook.OnWatchdogRestart | npm_package/src/hooks/editor/editor.ts:131-137 | the new editor becomes the promised one and is registered |
| Translations.NonEmpty | npm_package/src/hooks/editor/editor.ts:151-155 | the kept dictionaries are exactly the non-empty ones |
| Translations.NonEmptyAppend | npm_package/src/hooks/context/context.ts:35-39 | filtering a concatenation filters each part, in order |
| Translations.CustomTranslationsLast | npm_package/src/hooks/context/context.ts:35-39 | the custom translations come after the loaded ones, and only when non-empty |
| Translations.MixTranslations | npm_package/src/hooks/context/context.ts:35-39 | no empty dictionary is kept, and at most one more than the loaded ones (the order is `CustomTranslationsLast`) |
| Translations.TranslationsEntry | npm_package/src/hooks/editor/editor.ts:179-181 | the `translations` entry exists exactly when the list is non-empty |
| ContextHooks.WatchdogConfig | npm_package/src/hooks/context/context.ts:45-48 | `crashNumberLimit` defaults to 10, and every given key wins |
| ContextHooks.ContextComponentHook.Mounted | npm_package/src/hooks/context/context.ts:66-70 | the context is registered only when the hook is not being destroyed |
| ContextHooks.ContextComponentHook.MountFailed | npm_package/src/hooks/context/context.ts:42-66 | when `instance.create` rejects, the promise is left rejected, nothing is registered and `mounted()` rejects |
| ContextHooks.ContextComponentHook.Destroyed | npm_package/src/hooks/context/context.ts:76-95 | hidden; a rejected creation rejects `destroyed()` with nothing destroyed, a created context is destroyed; then in every case the promise is cleared and the id unregistered only when present |
| ContextParents.FirstContextIsNearest | npm_package/src/hooks/context/utils/get-nearest-context-parent-promise.ts:21-33 | the nearest context element is on the chain, has the attribute, with none before it; none exactly when no element has it |
| ContextParents.FirstContext | npm_package/src/hooks/context/utils/get-nearest-context-parent-promise.ts:21-33 | the reference definition of the upward walk; its properties are `FirstContextIsNearest` and the loop of `GetNearestContextParent` proved equal to it |
| ContextParents.SearchStartsAtElement | npm_package/src/hooks/context/utils/get-nearest-context-parent-promise.ts:22 | the element itself is found when it has the attribute |
| ContextParents.GetNearestContextParent | npm_package/src/hooks/context/utils/get-nearest-context-parent-promise.ts:21-33 | the loop returns the first element with `cke-context` from the element upward, or null |
| ContextParents.GetNearestContextParentPromise | npm_package/src/hooks/context/utils/get-nearest-context-parent-promise.ts:8-16 | no context element gives null without touching the registry; otherwise the registry waits for the element id |
| Folds.CollectLastWins | npm_package/src/hooks/editor/utils/query-editor-editables.ts:24-35 | a key is collected exactly when some kept element has it, and the last such element supplies the value |
| Folds.FindFirstIsFirst | npm_package/src/hooks/editor/utils/query-editor-editables.ts:37-41 | `find` gives the first element satisfying the test, or nothing when none does |
| Folds.Collect | npm_package/src/hooks/editor/utils/query-editor-editables.ts:24-35 | the `filter(...).reduce(...)` into a record, later elements overwriting; its property is `CollectLastWins` |
| Folds.FindFirst | npm_package/src/hooks/editor/utils/query-editor-editables.ts:37-41 | `Array.prototype.find`; its property is `FindFirstIsFirst` |
| EditorEditables.QueryAllEditorEditables | npm_package/src/hooks/editor/utils/query-editor-editables.ts:23-70 | the keys are the collected root names plus `main` when the container or a `main` editable exists; other roots come from the fold |
| EditorEditables.MainEditableCompleted | npm_package/src/hooks/editor/utils/query-editor-editables.ts:47-56 | a `main` editable keeps its element and prefers its own truthy content over the hook's |
| EditorEditables.ContainerBecomesMain | npm_package/src/hooks/editor/utils/query-editor-editables.ts:58-67 | otherwise the container becomes `main`, with the hook's `main` or null |
| EditorEditables.NoFallback | npm_package/src/hooks/editor/utils/query-editor-editables.ts:69 | otherwise the collected map is returned unchanged |
| EditorEditables.CollectedEditables | npm_package/src/hooks/editor/utils/query-editor-editables.ts:24-35 | only `ckeditor5-editable` components of this editor are collected, by root name, the last one winning |
| EditorEditables.HookMainFromFirstRootHook | npm_package/src/hooks/editor/utils/query-editor-editables.ts:37-41 | the hook's `main` comes from the first `ckeditor5` component of this editor |
| EditorEditables.CollectEditables | npm_package/src/hooks/editor/utils/query-editor-editables.ts:24-35 | the editables of this editor keyed by canonical root name; its property is `CollectedEditables` |
| EditorEditables.HookMain | npm_package/src/hooks/editor/utils/query-editor-editables.ts:37-43 | the truthy `main` of the root hook's canonical content; its property is `HookMainFromFirstRootHook` |
| EditorEditables.QueryEditablesElements | npm_package/src/hooks/editor/utils/query-editor-editables.ts:11-15 | the same keys, each mapped to its element |
| EditorEditables.QueryEditablesSnapshotContent | npm_package/src/hooks/editor/utils/query-editor-editables.ts:80-85 | exactly the entries with string content, with that content |
| EditorEditables.SnapshotKeysHaveElements | npm_package/src/hooks/editor/utils/query-editor-editables.ts:11-15 | every root with string content also has an element |
| AllEditorEditables.QueryAllEditorEditablesLastWins | npm_package/src/hooks/editor/utils/query-all-editor-editables.ts:13-20 | a key exactly when some component of this editor, of any name, has that ephemeral root name; the last one gives element and content |
| AllEditorEditables.NoMatchEmpty | npm_package/src/hooks/editor/utils/query-all-editor-editables.ts:9-21 | no matching component gives the empty record |
| AllEditorEditables.QueryAllEditorEditables | npm_package/src/hooks/editor/utils/query-all-editor-editables.ts:9-21 | `queryAllEditorEditables(editorId)` over the ephemeral state; its properties are `QueryAllEditorEditablesLastWins` and `NoMatchEmpty` |
| LivewireSyncs.ContentWrites | npm_package/src/hooks/editor/plugins/livewire-sync.ts:43-48 | at most one write, none exactly when the values equal the canonical content |
| LivewireSyncs.SyncedContentIsQuiet | npm_package/src/hooks/editor/plugins/livewire-sync.ts:45-48 | content equal to the canonical content writes nothing, so the sync does not loop |
| LivewireSyncs.FocusWrites | npm_package/src/hooks/editor/plugins/livewire-sync.ts:62-70 | `focused` first, then the content under the same check |
| LivewireSyncs.FocusWithChangeWritesBoth | npm_package/src/hooks/editor/plugins/livewire-sync.ts:62-70 | a content change with a focus change writes both |
| LivewireSyncs.LivewireSync.SyncContentChange | npm_package/src/hooks/editor/plugins/livewire-sync.ts:42-49 | the writes grow by the content check |
| LivewireSyncs.LivewireSync.OnReady | npm_package/src/hooks/editor/plugins/livewire-sync.ts:52 | the check runs on the first `ready` only |
| LivewireSyncs.LivewireSync.OnDataChanges | npm_package/src/hooks/editor/plugins/livewire-sync.ts:51 | a burst of changes gives one trailing check with the latest values |
| LivewireSyncs.LivewireSync.PushEvent | npm_package/src/hooks/editor/plugins/livewire-sync.ts:62-73 | a focus change writes `focused`, then the content under the check |
| ViteExternalize.ResolveId | npm_package/bundler/vite-ckeditor5-externalize.ts:45-58 | external with its own id exactly for the two packages and paths inside them; otherwise not claimed |
| ViteExternalize.ResolveIdExamples | npm_package/bundler/vite-ckeditor5-externalize.ts:45-58 | `ckeditor5-livewire` is not external; `ckeditor5/...` is |
| ViteExternalize.ExternalAgreesWithResolveId | npm_package/bundler/vite-ckeditor5-externalize.ts:24-31 | the added `external` entries match exactly the ids `resolveId` marks external |
| ViteExternalize.Existing | npm_package/bundler/vite-ckeditor5-externalize.ts:18 | a missing or falsy list contributes no entries |
| ViteExternalize.ViteConfig.Config | npm_package/bundler/vite-ckeditor5-externalize.ts:7-33 | a non-array `exclude` throws first, then a non-array `external`, changing nothing; otherwise both lists are extended in order |
| ViteExternalize.ConfigResolved | npm_package/bundler/vite-ckeditor5-externalize.ts:34-44 | the `remove-id-prefix` plugin is pushed after the others |
| ViteExternalize.NoOccurrenceUnchanged | npm_package/bundler/vite-ckeditor5-externalize.ts:39 | code without the pattern is left unchanged |
| ViteExternalize.ReplaceAllShrinks | npm_package/bundler/vite-ckeditor5-externalize.ts:39 | replacing with a shorter text never lengthens the code |
| ViteExternalize.LeadingOccurrenceReplaced | npm_package/bundler/vite-ckeditor5-externalize.ts:39 | a leading occurrence becomes the replacement |
| ViteExternalize.Transform | npm_package/bundler/vite-ckeditor5-externalize.ts:37-42 | null exactly for non-string code; never longer than its input |
| ViteExternalize.TransformKeepsOtherCode | npm_package/bundler/vite-ckeditor5-externalize.ts:37-42 | code that never mentions `/@id/ckeditor5` is returned unchanged |
| ViteExternalize.SkipPrefix | npm_package/bundler/vite-ckeditor5-externalize.ts:39 | text before which the pattern never starts is copied |
| ViteExternalize.SinglePass | npm_package/bundler/vite-ckeditor5-externalize.ts:39 | the replacement is one left-to-right pass: `/@id//@id/ckeditor5` becomes `/@id/ckeditor5` |
| ViteExternalize.ReplaceAll | npm_package/bundler/vite-ckeditor5-externalize.ts:39 | `String.replace` with a global literal pattern; its properties are `NoOccurrenceUnchanged`, `ReplaceAllShrinks`, `LeadingOccurrenceReplaced` and `SinglePass` |
| EditorTypes.ValuesDistinct | src/Preset/EditorType.php:12-16 | the backing values are pairwise distinct |
| EditorTypes.ToLower | src/Preset/EditorType.php:27 | lower-casing keeps the length and changes only ASCII capitals |
| EditorTypes.ToLowerIdempotent | src/Preset/EditorType.php:27 | lowering twice is lowering once |
| EditorTypes.FromString | src/Preset/EditorType.php:25-35 | success gives the case whose value is the lowered input; failure exactly when no case matches, with the message quoting the original value |
| EditorTypes.RoundTrip | src/Preset/EditorType.php:12-16 | every case parses back from its own value |
| EditorTypes.Value | src/Preset/EditorType.php:12-16 | the backing value of each case; its properties are `ValuesDistinct` and `RoundTrip` |
| EditorTypes.CaseInsensitive | src/Preset/EditorType.php:27 | an input and its lower-case form parse to the same case |
| EditorTypes.FromStringExamples | src/Preset/EditorType.php:27-33 | `CLASSIC` is accepted; `nope` fails with "Invalid editor type: nope" |
| LanguageNormalizers.Normalize | src/Utils/LanguageNormalizer.php:18-43 | `ui` and `content` always set; a string or `null` sets both; an array overrides the `en` defaults key by key |
| LanguageNormalizers.EmptyArrayIsEnglish | src/Utils/LanguageNormalizer.php:36-42 | an empty array gives `en` for both |
| LanguageNormalizers.FullArrayUnchanged | src/Utils/LanguageNormalizer.php:36-42 | an array with both keys is returned unchanged |
| LanguageNormalizers.StringIsBothEntries | src/Utils/LanguageNormalizer.php:20-25 | a string means the same as an array giving it for both |
| LanguageNormalizers.LocaleOnlyForNull | src/Utils/LanguageNormalizer.php:27-34 | only `null` depends on the application locale |
| CKBoxBundles.Build | src/Cloud/CKBox/CKBoxCloudBundleBuilder.php:28-48 | one theme stylesheet; the main UMD script first, then one UMD script per translation, in order; no translations and the theme `theme` by default |
| CKBoxBundles.BuildWithDefaults | src/Cloud/CKBox/CKBoxCloudBundleBuilder.php:28-37 | `build($version)` gives the `styles/themes/theme.css` stylesheet and the main script alone |
| CKBoxBundles.AssetsUnderVersionFolder | src/Cloud/CKBox/CKBoxCloudBundleBuilder.php:15 | every asset URL lies under the CDN folder of the version |
| CKBoxBundles.TranslationNamesDistinct | src/Cloud/CKBox/CKBoxCloudBundleBuilder.php:41 | distinct translations get distinct script names |
| UIParts.InvalidNameMessage | src/Components/CKEditor5UIPart.php:62-64 | the whole text: the fixed head `Invalid UI part name: "`, the name as given, then the fixed tail `". Supported names are "toolbar" and "menubar".` |
| UIParts.UIPartIdFor | src/Components/CKEditor5UIPart.php:67 | the given id, or the prefix followed by the unique suffix |
| UIParts.GeneratedIdsDiffer | src/Components/CKEditor5UIPart.php:67 | different suffixes give different ids |
| UIParts.CKEditor5UIPart.constructor | src/Components/CKEditor5UIPart.php:37 | `class` and `style` start as null |
| UIParts.CKEditor5UIPart.Mount | src/Components/CKEditor5UIPart.php:54-72 | fails exactly for an unsupported name, setting nothing; otherwise the id is defaulted and the rest stored as given |
| UIParts.UnsupportedNames | src/Components/CKEditor5UIPart.php:61 | `toolbar` and `menubar` are accepted; the empty name, `sidebar` and `invalid` are not |
| EditableComponents.EditableIdFor | src/Components/CKEditor5Editable.php:106 | the given id, or the prefix followed by the unique suffix |
| EditableComponents.WrapperStyle | src/Components/CKEditor5Editable.php:113 | always starts with `position: relative;`, and is just that exactly when no style is given |
| EditableComponents.WrapperStyleKeepsStyle | src/Components/CKEditor5Editable.php:113 | the given style follows after one space, intact |
| EditableComponents.WrapperStyleInjective | src/Components/CKEditor5Editable.php:113 | different given styles give different wrapper styles |
| EditableComponents.CKEditor5Editable.constructor | src/Components/CKEditor5Editable.php:21-75 | the declared defaults, with a 300 ms debounce |
| EditableComponents.CKEditor5Editable.Mount | src/Components/CKEditor5Editable.php:93-117 | defaults `main` and 300 ms, the id defaulted, the style prefixed, the rest stored as given |
| EditableComponents.CKEditor5Editable.SetRoot | src/Components/CKEditor5Editable.php:106-109 | the step of `mount` that stores the id, the editor id, the root name and the content as given |
| EditableComponents.CKEditor5Editable.SetInput | src/Components/CKEditor5Editable.php:110-116 | the step of `mount` that stores the input name, the required flag and the debounce as given |
| EditableComponents.CKEditor5Editable.SetStyling | src/Components/CKEditor5Editable.php:112-115 | the step of `mount` that stores the wrapper class and style and the editable's class and style as given |
| EditableComponents.MountDefaults | src/Components/CKEditor5Editable.php:95 | mounting with only an editor id gives `main`, 300 ms, the base style and a generated id |
| MultiRootDemos.TrimStart | playground/app/Livewire/MultiRootDynamicDemo.php:29 | the stripped characters at the start |
| MultiRootDemos.TrimEnd | playground/app/Livewire/MultiRootDynamicDemo.php:29 | the stripped characters at the end |
| MultiRootDemos.Trim | playground/app/Livewire/MultiRootDynamicDemo.php:29 | a slice of the input with no stripped character at either end, and only stripped characters around it |
| MultiRootDemos.TrimKeepsTrimmed | playground/app/Livewire/MultiRootDynamicDemo.php:29 | already-trimmed text is its own trim |
| MultiRootDemos.RandomRootName | playground/app/Livewire/MultiRootDynamicDemo.php:23-26 | `root_` followed by the first 6 digest characters |
| MultiRootDemos.MultiRootDynamicDemo.constructor | playground/app/Livewire/MultiRootDynamicDemo.php:10-21 | the two starting roots, the demo editor id, and a random proposed name |
| MultiRootDemos.MultiRootDynamicDemo.AddRoot | playground/app/Livewire/MultiRootDynamicDemo.php:27-35 | a truthy trimmed name not yet present gets the placeholder and a new name is proposed; otherwise nothing changes |
| MultiRootDemos.MultiRootDynamicDemo.RemoveRoot | playground/app/Livewire/MultiRootDynamicDemo.php:37-42 | that root alone is deleted when present |
| MultiRootDemos.MultiRootDynamicDemo.OnEditorContentChanged | playground/app/Livewire/MultiRootDynamicDemo.php:44-50 | the roots are replaced wholesale only for the matching editor id |
| MultiRootDemos.AddThenRemove | playground/app/Livewire/MultiRootDynamicDemo.php:27-42 | adding a new root and removing it restores the roots |
| MultiRootDemos.FalsyNamesRejected | playground/app/Livewire/MultiRootDynamicDemo.php:29-31 | `"0"` and blank names are falsy after trimming |
| AsyncRegistries.AsyncRegistry.Enqueue | npm_package/src/shared/async-registry.ts:69-76 | the waiter is appended to the end of the id's queue, a queue being created when missing |
| AsyncRegistries.AsyncRegistry.Insert | npm_package/src/shared/async-registry.ts:94-100 | the fields change exactly as `RegistrySpec.Insert` says |
| AsyncRegistries.AsyncRegistry.ResolveQueue | npm_package/src/shared/async-registry.ts:97-100 | the id's waiters are called with the item in queue order, and the queue is deleted |
| AsyncRegistries.AsyncRegistry.Drop | npm_package/src/shared/async-registry.ts:188-191 | the fields change exactly as `RegistrySpec.Drop` says |
| AsyncRegistries.AsyncRegistry.DestroyEach | npm_package/src/shared/async-registry.ts:234-236 | `destroy()` is called on each given item, in order |
| Hooks.ClassHook.CallMounted | npm_package/src/hooks/hook.ts:124 | the subclass's `mounted()` is called, in the state the hook has then |
| Hooks.ClassHook.CallDestroyed | npm_package/src/hooks/hook.ts:118 | the subclass's `destroyed()` is called, in the state the hook has then |
| Hooks.ClassHook.CallAfterCommitSynced | npm_package/src/hooks/hook.ts:138 | the subclass's `afterCommitSynced()` is called |
| Hooks.HookRegistration.constructor | npm_package/src/hooks/hook.ts:104 | a registration starts with no hook instances |
| EditorHooks.EditorComponentHook.constructor | npm_package/src/hooks/editor/editor.ts:33-37 | a new hook has no editor promise, is shown, and has no listener and no teardown |
| ContextHooks.ContextComponentHook.constructor | npm_package/src/hooks/context/context.ts:18-22 | a new hook has no context promise, is shown, and destroyed nothing |
| ContextParents.DomElement.constructor | npm_package/src/hooks/context/utils/get-nearest-context-parent-promise.ts:21-33 | an element with its id, its `cke-context` attribute and its parent |
| LivewireSyncs.LivewireSync.constructor | npm_package/src/hooks/editor/plugins/livewire-sync.ts:38-53 | the plugin starts with the component's canonical content, no writes, and `ready` not fired |
| LivewireSyncs.LivewireSync.CanonicalUpdated | npm_package/src/hooks/editor/plugins/livewire-sync.ts:46 | later checks compare against the new canonical content |
| ViteExternalize.ViteConfig.constructor | npm_package/bundler/vite-ckeditor5-externalize.ts:7-15 | the user configuration as given |
| ViteExternalize.ResolvedConfig.constructor | npm_package/bundler/vite-ckeditor5-externalize.ts:34-36 | the resolved plugins as given |
| ViteExternalize.SkipChar | npm_package/bundler/vite-ckeditor5-externalize.ts:39 | where the pattern does not start, the first character is copied and the rest replaced |
| EditorTypes.LowerChar | src/Preset/EditorType.php:27 | ASCII capitals move to lower case; every other character is kept |
| MultiRootDemos.MultiRootDynamicDemo.RandomizeNewRootName | playground/app/Livewire/MultiRootDynamicDemo.php:23-26 | the proposed name is `root_` followed by the first 6 digest characters |

## Left out

- The CKEditor 5 engine is not modelled. This includes creating editors and contexts, `getData`/`setData`, roots, the watchdog's internals and the focus tracker. Editors, contexts and watchdogs are opaque handles. What the engine would report (whether an editor runs in a context, whether that context is `unavailable`, whether it has a watchdog, whether a `destroy()` rejects) is passed in as a parameter.
- Promises and `await` interleavings are modelled as sequential method calls. Each asynchronous step is a separate method.
- `debounce` is not modelled as time. A burst of `change:data` events is one trailing check with the latest values, so the 399 ms / 400 ms timing is not modelled.
- Callbacks are tokens whose invocations are logged. A callback that re-enters the registry during `register` or `error` is not modelled.
- Several helpers are not part of this model; each is taken as written here:
  - `isSingleEditingLikeEditor`: every kind except `multiroot`.
  - `shallowEqual` on records of strings: map equality.
  - `isEmptyObject`: the empty map.
  - `getEditorRootsValues`: a parameter.
  - `normalizeCustomTranslations`, `loadEditorPlugins`, `loadAllEditorTranslations`, `unwrapEditorContext`, `unwrapEditorWatchdog`, `wrapWithWatchdog`: their results are parameters.
- `uniqid()`, `md5()` and `App::getLocale()` become parameters: the unique suffix, the digest and the application locale.
- PHP arrays are maps from string keys. Numeric keys and the insertion order of PHP arrays (`$roots`, the result of `normalize`, where `array_merge` puts `ui` and `content` first) are not modelled.
- `EditorTypes.ToLower` models `strtolower` on ASCII only; characters outside ASCII are left unchanged.
- The context watchdog's `itemError` listener only logs through `console.error`, so it is not modelled.
- The `display: none` assignment of the two hooks becomes a `hidden` flag.
- The callers in editor.ts use signatures that differ from the declared ones: `createLivewireSyncPlugin()` takes no arguments and `queryEditablesSnapshotContent` and `queryEditablesElements(editorId, editorType)` (editor.ts:186) take two. Each function is modelled by its own declared signature.
- `destroyed()` of the editor hook awaits a missing `editorPromise`; this is modelled as `Fail(NoEditor)`.
- Hooks.HookRegistration.CommitSucceeded: `afterCommitSynced` is optional (`instance?.afterCommitSynced?.()`), and neither the editor hook nor the context hook defines it. The model always logs the call, which for these hooks does nothing.
- RegistrySpec.NotifyCalls: a `Notified` snapshot is a map, so the insertion order of the `new Map(this.items)` copy is not carried in it. That order is the registry's `order` field at the moment of the call.
- EditorHooks.RecordSourceCreatesDirectly: `queryEditablesElements` is declared to return a record of root elements, never an `HTMLElement`. So the `createEditorInContext` branch of editor.ts:185-199 is never taken as written, even when a context was resolved: every editor is created with `Constructor.create`. The model keeps that branch in `CreationPathFor` but does not model in-context creation further.
- The Vite transform's regular expression `/\/@id\/ckeditor5/g` is a literal pattern. It is modelled as a literal left-to-right replacement.
- The prefix regular expressions of the `external` list are modelled as prefix entries.
- DOM elements are an explicit parent chain of records holding an id and the `cke-context` attribute. `querySelector`, `document.getElementById` and the rest of the DOM are not modelled.
- Pending-content buffering, `afterCommitSynced` reconciliation and the `set-editor-content` handler are not implemented by any file in this model, so they are not modelled.
- npm_package/src/hooks/editable.ts and the sync-editor-with-input plugin are DOM and engine calls with almost no decisions; they are not part of this model.
- The following PHP files are not part of this model:
  - `src/License/Key.php`, the preset, cloud and CKBox parsers, `Preset.php`, `Cloud.php`, `Config.php` and `CKEditor5Config.php`. They wrap libraries, framework configuration and serialisation that are not part of this model.
  - `CKEditor5.php`, `CKEditor5Context.php`, `CKEditor5Assets.php`, `CKEHiddenInput.php` and the service providers. They are view and registration glue.
- The Blade views, the other playground components, the tests and the test utilities are not modelled.
