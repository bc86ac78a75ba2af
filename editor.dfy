/**
 * The lifecycle decisions of `EditorComponentHook`, npm_package/src/hooks/editor/editor.ts. The
 * CKEditor engine is not modelled: an editor, a context or a watchdog is an opaque handle (a registry
 * `Item`), and what the engine would report about it (whether it runs in a context, whether that
 * context is unavailable, whether it has a watchdog) is passed in.
 */
module EditorHooks {
  import opened Wrappers
  import opened Hooks
  import opened RegistrySpec
  import opened AsyncRegistries
  import opened Translations

  /** `EDITOR_TYPES`. */
  datatype EditorKind = Inline | Classic | Balloon | Decoupled | Multiroot

  /** `isSingleEditingLikeEditor(editorType)`: every kind with one editable root. */
  predicate IsSingleEditingLike(kind: EditorKind) {
    kind != Multiroot
  }

  /** `initialData`: one string for single-root kinds, a record of roots otherwise. */
  datatype InitialData = SingleRoot(data: string) | MultiRoot(roots: map<string, string>)

  /**
   * `{...content, ...queryEditablesSnapshotContent(editorId)}`, collapsed to `initialData['main'] || ''`
   * for single-root kinds.
   */
  function InitialDataFor(kind: EditorKind, content: map<string, string>, discovered: map<string, string>)
    : (r: InitialData)
    ensures r.SingleRoot? <==> IsSingleEditingLike(kind)
    ensures r.MultiRoot? ==>
              && r.roots.Keys == content.Keys + discovered.Keys
              && (forall k :: k in discovered ==> r.roots[k] == discovered[k])
              && (forall k :: k in content && k !in discovered ==> r.roots[k] == content[k])
    ensures r.SingleRoot? ==>
              r.data == if "main" in discovered then discovered["main"]
                        else if "main" in content then content["main"]
                        else ""
  {
    var merged := content + discovered;
    if IsSingleEditingLike(kind) then
      SingleRoot(if "main" in merged && merged["main"] != "" then merged["main"] else "")
    else
      MultiRoot(merged)
  }

  /** Where the context comes from: the registry entry named by `contextId`, or the nearest context ancestor. */
  datatype ContextSource = FromRegistry(contextId: string) | FromNearestParent

  /** `contextId ? waitFor(contextId) : getNearestContextParentPromise(element)`; the empty id is falsy. */
  function ContextSourceFor(contextId: Option<string>): (r: ContextSource)
    ensures r.FromRegistry? <==> contextId.Some? && contextId.value != ""
    ensures r.FromRegistry? ==> r.contextId == contextId.value
  {
    if contextId.Some? && contextId.value != "" then FromRegistry(contextId.value) else FromNearestParent
  }

  /** Whether the editor constructor is wrapped with a watchdog: asked for, and no context was resolved. */
  predicate UsesWatchdog(watchdog: bool, context: Option<Item>) {
    watchdog && context.None?
  }

  /** A context always switches the editor's own watchdog off. */
  lemma ContextDisablesWatchdog(watchdog: bool, c: Item)
    ensures !UsesWatchdog(watchdog, Some(c))
    ensures UsesWatchdog(watchdog, None) == watchdog
  {
  }

  /** The integration plugins pushed after the preset's plugins. */
  datatype IntegrationPlugin = LivewireSync | SyncEditorWithInput

  /** `createLivewireSyncPlugin()` always, then `createSyncEditorWithInputPlugin()` for single-root kinds. */
  function IntegrationPlugins(kind: EditorKind): (r: seq<IntegrationPlugin>)
    ensures |r| >= 1 && r[0] == LivewireSync
    ensures SyncEditorWithInput in r <==> IsSingleEditingLike(kind)
  {
    [LivewireSync] + (if IsSingleEditingLike(kind) then [SyncEditorWithInput] else [])
  }

  /** `isSingleEditingLikeEditor(editorType) && editableHeight`: `null` and `0` are falsy. */
  predicate AppliesEditableHeight(kind: EditorKind, editableHeight: Option<int>) {
    IsSingleEditingLike(kind) && editableHeight.Some? && editableHeight.value != 0
  }

  /** The height is never applied to a multi-root editor, nor without a non-zero height. */
  lemma EditableHeightOnlyForSingleRoot(editableHeight: Option<int>)
    ensures !AppliesEditableHeight(Multiroot, editableHeight)
    ensures !AppliesEditableHeight(Classic, None) && !AppliesEditableHeight(Classic, Some(0))
    ensures forall h :: h != 0 ==> AppliesEditableHeight(Classic, Some(h))
  {
  }

  /** What `queryEditablesElements` hands to the creator: an element, or a record of root elements. */
  datatype SourceElementOrData = SourceElement | SourceRecord

  /** How the editor is created. */
  datatype CreationPath = DirectCreate | CreateInContext

  /** `!context || !(sourceElementOrData instanceof HTMLElement)` selects `Constructor.create`. */
  function CreationPathFor(context: Option<Item>, source: SourceElementOrData): (r: CreationPath)
    ensures r == CreateInContext <==> context.Some? && source == SourceElement
  {
    if context.None? || source != SourceElement then DirectCreate else CreateInContext
  }

  /**
   * `queryEditablesElements` always returns a record (never an `HTMLElement`), so the editor is
   * created directly even when a context was resolved.
   */
  lemma RecordSourceCreatesDirectly(context: Option<Item>)
    ensures CreationPathFor(context, SourceRecord) == DirectCreate
  {
  }

  /** The teardown `destroyed()` performs on the editor it waited for. */
  datatype TeardownAction = RemoveFromContext | LeaveToContext | DestroyWatchdog | DestroyEditor

  /**
   * The dispatch of `destroyed()`: `context` is `Some(unavailable)` when the editor runs in a context,
   * telling whether that context is in its `unavailable` state; `watchdog` whether it has a watchdog.
   */
  function TeardownFor(context: Option<bool>, watchdog: bool): (r: TeardownAction)
    ensures r == RemoveFromContext <==> context == Some(false)
    ensures r == LeaveToContext <==> context == Some(true)
    ensures r == DestroyWatchdog <==> context.None? && watchdog
    ensures r == DestroyEditor <==> context.None? && !watchdog
  {
    if context.Some? then (if !context.value then RemoveFromContext else LeaveToContext)
    else if watchdog then DestroyWatchdog
    else DestroyEditor
  }

  /** How `editorPromise` settled: with the created editor, or rejected by `createEditor()`. */
  datatype EditorPromise = EditorCreated(editor: Item) | EditorCreationRejected

  /** Why `mounted()` or `destroyed()` rejects. */
  datatype TeardownError = NoEditor | CreationRejected | TeardownRejected

  /** `EditorComponentHook`: the base hook and the fields this subclass adds. */
  class EditorComponentHook {
    const hook: ClassHook
    const editorId: string
    /** `editorPromise`, by how it settles; `None` is `null`. */
    var editorPromise: Option<EditorPromise>
    /** Whether `element.style.display` was set to `none`. */
    var hidden: bool
    /** Whether the `once('destroy')` listener is attached and has not fired yet. */
    var destroyListener: bool
    /** The teardowns performed, in order. */
    var teardowns: seq<TeardownAction>

    constructor (hook: ClassHook, editorId: string)
      ensures this.hook == hook && this.editorId == editorId
      ensures editorPromise == None && !hidden && !destroyListener && teardowns == []
    {
      this.hook := hook;
      this.editorId := editorId;
      editorPromise := None;
      hidden := false;
      destroyListener := false;
      teardowns := [];
    }

    /**
     * `mounted()` once `createEditor()` resolved to `editor`: the editor is registered under `editorId`
     * and its destroy listener attached, unless the hook is being destroyed by then.
     */
    method Mounted(editor: Item, editors: AsyncRegistry) returns (r: Outcome<RegistryError>)
      requires editors.Valid()
      modifies this`editorPromise, this`destroyListener, editors
      ensures editors.Valid() && editorPromise == Some(EditorCreated(editor))
      ensures hook.IsBeingDestroyed() ==>
                r == Pass && editors.State() == old(editors.State()) && destroyListener == old(destroyListener)
      ensures !hook.IsBeingDestroyed() ==>
                (r, editors.State()) == Register(old(editors.State()), Id(editorId), editor)
                && destroyListener == (r.Pass? || old(destroyListener))
    {
      editorPromise := Some(EditorCreated(editor));
      if hook.IsBeingDestroyed() {
        return Pass;
      }
      r := editors.Register(Id(editorId), editor);
      if r.Pass? {
        destroyListener := true;
      }
    }

    /**
     * `mounted()` when `createEditor()` rejects: the promise stays rejected, nothing is registered, no
     * listener is attached, and `mounted()` itself rejects.
     */
    method MountFailed() returns (r: Outcome<TeardownError>)
      modifies this`editorPromise
      ensures editorPromise == Some(EditorCreationRejected) && r == Fail(CreationRejected)
    {
      editorPromise := Some(EditorCreationRejected);
      r := Fail(CreationRejected);
    }

    /** The `once('destroy')` listener: unregisters `editorId` only while it is still registered. */
    method OnEditorDestroy(editors: AsyncRegistry)
      requires editors.Valid()
      modifies this`destroyListener, editors
      ensures editors.Valid() && !destroyListener
      ensures old(destroyListener) && Id(editorId) in old(editors.items) ==>
                editors.State() == Unregister(old(editors.State()), Id(editorId)).1
      ensures !(old(destroyListener) && Id(editorId) in old(editors.items)) ==>
                editors.State() == old(editors.State())
    {
      if !destroyListener {
        return;
      }
      destroyListener := false;
      if editors.HasItem(Id(editorId)) {
        var _ := editors.Unregister(Id(editorId));
      }
    }

    /**
     * `destroyed()`: the element is hidden and the promise awaited. A rejected creation rejects
     * `destroyed()` with nothing torn down; a created editor is torn down as `TeardownFor` says,
     * `fails` being whether the awaited step rejects (leaving the editor to an `unavailable` context
     * awaits nothing, so it cannot). `editorPromise` is reset in every case.
     */
    method Destroyed(context: Option<bool>, watchdog: bool, fails: bool) returns (r: Outcome<TeardownError>)
      modifies this`hidden, this`editorPromise, this`teardowns
      ensures hidden && editorPromise == None
      ensures old(editorPromise).None? ==> r == Fail(NoEditor) && teardowns == old(teardowns)
      ensures old(editorPromise) == Some(EditorCreationRejected) ==>
                r == Fail(CreationRejected) && teardowns == old(teardowns)
      ensures old(editorPromise).Some? && old(editorPromise).value.EditorCreated? ==>
                teardowns == old(teardowns) + [TeardownFor(context, watchdog)]
                && r == (if fails && TeardownFor(context, watchdog) != LeaveToContext then Fail(TeardownRejected) else Pass)
      ensures old(editorPromise).Some? && old(editorPromise).value.EditorCreated? && context == Some(true) ==>
                r == Pass
    {
      hidden := true;
      if editorPromise.None? {
        editorPromise := None;
        return Fail(NoEditor);
      }
      if editorPromise.value.EditorCreationRejected? {
        editorPromise := None;
        return Fail(CreationRejected);
      }
      var action := TeardownFor(context, watchdog);
      teardowns := teardowns + [action];
      r := if fails && action != LeaveToContext then Fail(TeardownRejected) else Pass;
      editorPromise := None;
    }

    /** The watchdog's `restart` handler: the new editor becomes the promised one and is registered. */
    method OnWatchdogRestart(newInstance: Item, editors: AsyncRegistry) returns (r: Outcome<RegistryError>)
      requires editors.Valid()
      modifies this`editorPromise, editors
      ensures editors.Valid() && editorPromise == Some(EditorCreated(newInstance))
      ensures (r, editors.State()) == Register(old(editors.State()), Id(editorId), newInstance)
    {
      editorPromise := Some(EditorCreated(newInstance));
      r := editors.Register(Id(editorId), newInstance);
    }
  }
}
