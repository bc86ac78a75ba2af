/**
 * What the Livewire page tells an editor about its roots. A Livewire component is seen through its
 * name, its root element, the element marked `data-cke-editable-content` inside it, and the few
 * snapshot fields the queries read; `Livewire.all()` is a sequence of such components and the
 * `#${editorId}_editor` lookup in the document is a parameter.
 */
module LivewirePage {
  import opened Wrappers

  /** A DOM element, by identity. */
  datatype Element = Element(ref: nat)

  /** A snapshot value read as content: missing, `null`, a string, or a record of strings. */
  datatype JsContent = Missing | NullValue | Text(text: string) | Roots(roots: map<string, string>)

  /** JavaScript truthiness of such a value: a non-empty string or any object. */
  predicate Truthy(c: JsContent) {
    (c.Text? && c.text != "") || c.Roots?
  }

  /**
   * The snapshot fields the queries read. `editorId` is `None` when it is missing or not a string, so
   * that it is `===` to no editor id.
   */
  datatype Fields = Fields(editorId: Option<string>, rootName: string, content: JsContent)

  /** A Livewire component on the page. */
  datatype Component = Component(name: string, el: Element, editableContent: Element, canonical: Fields,
                                 ephemeral: Fields)

  /** `EditableItem`: an editable's element and its initial content. */
  datatype EditableItem = EditableItem(element: Element, content: JsContent)
}

/** npm_package/src/hooks/editor/utils/query-editor-editables.ts. */
module EditorEditables {
  import opened Wrappers
  import opened Folds
  import opened LivewirePage

  /** The filter of `queryAllEditorEditables`: editable components of this editor. */
  function IsEditableOf(editorId: string): Component -> bool {
    (c: Component) => c.name == "ckeditor5-editable" && c.canonical.editorId == Some(editorId)
  }

  /** The filter of the `find`: the editor's own component. */
  function IsRootHookOf(editorId: string): Component -> bool {
    (c: Component) => c.name == "ckeditor5" && c.canonical.editorId == Some(editorId)
  }

  /** The key of the `reduce`: the canonical `rootName`. */
  function CanonicalRoot(c: Component): string {
    c.canonical.rootName
  }

  /** The value of the `reduce`: the marked element inside the component and its canonical content. */
  function CanonicalItem(c: Component): EditableItem {
    EditableItem(c.editableContent, c.canonical.content)
  }

  /** The editables collected by the `reduce`, keyed by `rootName`, later components winning. */
  function CollectEditables(cs: seq<Component>, editorId: string): map<string, EditableItem> {
    Collect(cs, IsEditableOf(editorId), CanonicalRoot, CanonicalItem)
  }

  /** `rootHook?.canonical.content?.['main']` when the root hook is found and the value is truthy. */
  function HookMain(cs: seq<Component>, editorId: string): Option<string> {
    var rootHook := FindFirst(cs, IsRootHookOf(editorId));
    if rootHook.Some? && rootHook.value.canonical.content.Roots? && "main" in rootHook.value.canonical.content.roots
       && rootHook.value.canonical.content.roots["main"] != ""
    then Some(rootHook.value.canonical.content.roots["main"])
    else None
  }

  /**
   * `queryAllEditorEditables(editorId)`: the collected editables, with `main` completed from the root
   * hook's content when both exist, else replaced by the `${editorId}_editor` container when there is
   * one (even when a `main` editable was collected), else unchanged.
   */
  function QueryAllEditorEditables(cs: seq<Component>, editorId: string, container: Option<Element>)
    : (r: map<string, EditableItem>)
    ensures var acc := CollectEditables(cs, editorId);
      && r.Keys == acc.Keys + (if container.Some? || "main" in acc then {"main"} else {})
      && (forall k :: k in acc && k != "main" ==> r[k] == acc[k])
  {
    var acc := CollectEditables(cs, editorId);
    var hookMain := HookMain(cs, editorId);
    if "main" in acc && hookMain.Some? then
      var currentMain := acc["main"];
      acc["main" := EditableItem(currentMain.element,
                                 if Truthy(currentMain.content) then currentMain.content else Text(hookMain.value))]
    else if container.Some? then
      acc["main" := EditableItem(container.value, if hookMain.Some? then Text(hookMain.value) else NullValue)]
    else
      acc
  }

  /** A `main` editable with truthy hook content keeps its element and prefers its own truthy content. */
  lemma MainEditableCompleted(cs: seq<Component>, editorId: string, container: Option<Element>)
    requires "main" in CollectEditables(cs, editorId) && HookMain(cs, editorId).Some?
    ensures var main := CollectEditables(cs, editorId)["main"];
      var r := QueryAllEditorEditables(cs, editorId, container);
      && r["main"].element == main.element
      && r["main"].content == (if Truthy(main.content) then main.content else Text(HookMain(cs, editorId).value))
  {
  }

  /**
   * Otherwise, an existing container becomes `main`, with the hook's truthy `main` content or `null`,
   * whether or not a `main` editable was collected.
   */
  lemma ContainerBecomesMain(cs: seq<Component>, editorId: string, e: Element)
    requires !("main" in CollectEditables(cs, editorId) && HookMain(cs, editorId).Some?)
    ensures QueryAllEditorEditables(cs, editorId, Some(e))["main"] ==
            EditableItem(e, if HookMain(cs, editorId).Some? then Text(HookMain(cs, editorId).value) else NullValue)
  {
  }

  /** With neither case applying, the collected editables are returned unchanged. */
  lemma NoFallback(cs: seq<Component>, editorId: string)
    requires !("main" in CollectEditables(cs, editorId) && HookMain(cs, editorId).Some?)
    ensures QueryAllEditorEditables(cs, editorId, None) == CollectEditables(cs, editorId)
  {
  }

  /**
   * An editable is collected under a root name exactly when some editable component of this editor
   * has that root name, and the last such component supplies its element and content.
   */
  lemma CollectedEditables(cs: seq<Component>, editorId: string)
    ensures forall k :: k in CollectEditables(cs, editorId) <==>
              exists i :: 0 <= i < |cs| && IsEditableOf(editorId)(cs[i]) && cs[i].canonical.rootName == k
    ensures forall k :: k in CollectEditables(cs, editorId) ==>
              exists i :: LastWith(cs, IsEditableOf(editorId), CanonicalRoot, k, i)
                          && CollectEditables(cs, editorId)[k] == EditableItem(cs[i].editableContent, cs[i].canonical.content)
  {
    CollectLastWins(cs, IsEditableOf(editorId), CanonicalRoot, CanonicalItem);
  }

  /** The hook's `main` content comes from the first `ckeditor5` component of this editor. */
  lemma HookMainFromFirstRootHook(cs: seq<Component>, editorId: string)
    ensures HookMain(cs, editorId).Some? ==>
              exists i :: 0 <= i < |cs| && IsRootHookOf(editorId)(cs[i])
                          && (forall j :: 0 <= j < i ==> !IsRootHookOf(editorId)(cs[j]))
                          && cs[i].canonical.content.Roots?
                          && "main" in cs[i].canonical.content.roots
                          && Some(cs[i].canonical.content.roots["main"]) == HookMain(cs, editorId)
  {
    FindFirstIsFirst(cs, IsRootHookOf(editorId));
  }

  /** `queryEditablesElements(editorId)`: the element of each editable. */
  function QueryEditablesElements(cs: seq<Component>, editorId: string, container: Option<Element>)
    : (r: map<string, Element>)
    ensures var e := QueryAllEditorEditables(cs, editorId, container);
      r.Keys == e.Keys && forall k :: k in r ==> r[k] == e[k].element
  {
    var e := QueryAllEditorEditables(cs, editorId, container);
    map k | k in e :: e[k].element
  }

  /** `queryEditablesSnapshotContent(editorId)`: the contents that are strings, and nothing else. */
  function QueryEditablesSnapshotContent(cs: seq<Component>, editorId: string, container: Option<Element>)
    : (r: map<string, string>)
    ensures var e := QueryAllEditorEditables(cs, editorId, container);
      && (forall k :: k in r <==> k in e && e[k].content.Text?)
      && (forall k :: k in r ==> e[k].content == Text(r[k]))
  {
    var e := QueryAllEditorEditables(cs, editorId, container);
    map k | k in e && e[k].content.Text? :: e[k].content.text
  }

  /** Every root with string content also has an element; the converse fails for `null` content. */
  lemma SnapshotKeysHaveElements(cs: seq<Component>, editorId: string, container: Option<Element>)
    ensures QueryEditablesSnapshotContent(cs, editorId, container).Keys
            <= QueryEditablesElements(cs, editorId, container).Keys
  {
  }
}

/** npm_package/src/hooks/editor/utils/query-all-editor-editables.ts, the simpler query. */
module AllEditorEditables {
  import opened Wrappers
  import opened Folds
  import opened LivewirePage

  /** The filter: any component whose ephemeral `editorId` is this editor's, whatever its name. */
  function SameEditor(editorId: string): Component -> bool {
    (c: Component) => c.ephemeral.editorId == Some(editorId)
  }

  /** The key of the `reduce`: the ephemeral `rootName`. */
  function EphemeralRoot(c: Component): string {
    c.ephemeral.rootName
  }

  /** The value of the `reduce`: the component's own element and its ephemeral content. */
  function EphemeralItem(c: Component): EditableItem {
    EditableItem(c.el, c.ephemeral.content)
  }

  /** `queryAllEditorEditables(editorId)`: keyed by the ephemeral `rootName`, later components winning. */
  function QueryAllEditorEditables(cs: seq<Component>, editorId: string): map<string, EditableItem> {
    Collect(cs, SameEditor(editorId), EphemeralRoot, EphemeralItem)
  }

  /**
   * A root name is a key exactly when some component of this editor has it; its item is the element
   * and the ephemeral content of the last such component.
   */
  lemma QueryAllEditorEditablesLastWins(cs: seq<Component>, editorId: string)
    ensures forall k :: k in QueryAllEditorEditables(cs, editorId) <==>
              exists i :: 0 <= i < |cs| && cs[i].ephemeral.editorId == Some(editorId) && cs[i].ephemeral.rootName == k
    ensures forall k :: k in QueryAllEditorEditables(cs, editorId) ==>
              exists i :: LastWith(cs, SameEditor(editorId), EphemeralRoot, k, i)
                          && QueryAllEditorEditables(cs, editorId)[k] == EditableItem(cs[i].el, cs[i].ephemeral.content)
  {
    CollectLastWins(cs, SameEditor(editorId), EphemeralRoot, EphemeralItem);
  }

  /** With no component of this editor the result is the empty record. */
  lemma NoMatchEmpty(cs: seq<Component>, editorId: string)
    requires forall i :: 0 <= i < |cs| ==> cs[i].ephemeral.editorId != Some(editorId)
    ensures QueryAllEditorEditables(cs, editorId) == map[]
  {
    QueryAllEditorEditablesLastWins(cs, editorId);
  }
}
