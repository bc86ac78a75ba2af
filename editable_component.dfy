/**
 * The `CKEditor5Editable` Livewire component, src/Components/CKEditor5Editable.php: one editable root
 * of a multi-root editor, optionally mirrored into a hidden form input. PHP's `uniqid()` is a parameter.
 */
module EditableComponents {
  import opened Wrappers
  import opened Seqs

  const EditableIdPrefix := "ckeditor-editable-"

  /** The style every wrapper starts with. */
  const BaseStyle := "position: relative;"

  /** `$id ?? 'ckeditor-editable-' . uniqid()`. */
  function EditableIdFor(id: Option<string>, unique: string): (r: string)
    ensures id.Some? ==> r == id.value
    ensures id.None? ==> StartsWith(r, EditableIdPrefix) && r[|EditableIdPrefix|..] == unique
  {
    if id.Some? then id.value else EditableIdPrefix + unique
  }

  /** `'position: relative;' . ($style !== null ? ' ' . $style : '')`. */
  function WrapperStyle(style: Option<string>): (r: string)
    ensures StartsWith(r, BaseStyle)
    ensures style.None? <==> |r| == |BaseStyle|
  {
    if style.Some? then BaseStyle + " " + style.value else BaseStyle
  }

  /** The given style can be read back after the base style and one space: nothing of it is lost. */
  lemma WrapperStyleKeepsStyle(style: string)
    ensures WrapperStyle(Some(style))[|BaseStyle| + 1..] == style
    ensures WrapperStyle(Some(style))[|BaseStyle|] == ' '
  {
    assert WrapperStyle(Some(style)) == BaseStyle + (" " + style);
  }

  /** Distinct given styles give distinct wrapper styles. */
  lemma WrapperStyleInjective(a: Option<string>, b: Option<string>)
    requires WrapperStyle(a) == WrapperStyle(b)
    ensures a == b
  {
    if a.Some? {
      WrapperStyleKeepsStyle(a.value);
      WrapperStyleKeepsStyle(b.value);
    }
  }

  /** The component's public properties. */
  class CKEditor5Editable {
    var editorId: string
    var rootName: string
    var content: Option<string>
    var name: Option<string>
    var required: bool
    var id: string
    var cssClass: Option<string>
    var style: Option<string>
    var editableClass: Option<string>
    var editableStyle: Option<string>
    var saveDebounceMs: int

    /** The declared defaults: no hidden input, not required, a 300 ms debounce. */
    constructor ()
      ensures name == None && !required && cssClass == None && style == None
      ensures editableClass == None && editableStyle == None && saveDebounceMs == 300
    {
      editorId, rootName, id := "", "", "";
      content, name, cssClass, style, editableClass, editableStyle := None, None, None, None, None, None;
      required := false;
      saveDebounceMs := 300;
    }

    /**
     * `mount(...)`, with the same defaults: root `main`, a 300 ms debounce, a generated id unless one is
     * given, `position: relative;` ahead of the given style, and every other argument stored as given.
     */
    method Mount(editorId: string, unique: string, rootName: string := "main", content: Option<string> := None,
                 id: Option<string> := None, name: Option<string> := None, required: bool := false,
                 cssClass: Option<string> := None, style: Option<string> := None,
                 editableClass: Option<string> := None, editableStyle: Option<string> := None,
                 saveDebounceMs: int := 300)
      modifies this`id, this`editorId, this`rootName, this`content, this`name, this`required
      modifies this`cssClass, this`style, this`editableClass, this`editableStyle, this`saveDebounceMs
      ensures this.id == EditableIdFor(id, unique)
      ensures this.style == Some(WrapperStyle(style))
      ensures this.editorId == editorId && this.rootName == rootName && this.content == content
      ensures this.name == name && this.required == required && this.cssClass == cssClass
      ensures this.editableClass == editableClass && this.editableStyle == editableStyle
      ensures this.saveDebounceMs == saveDebounceMs
    {
      SetRoot(editorId, rootName, content, EditableIdFor(id, unique));
      SetInput(name, required, saveDebounceMs);
      SetStyling(cssClass, Some(WrapperStyle(style)), editableClass, editableStyle);
    }

    /** The properties naming the root. */
    method SetRoot(editorId: string, rootName: string, content: Option<string>, id: string)
      modifies this`editorId, this`rootName, this`content, this`id
      ensures this.editorId == editorId && this.rootName == rootName && this.content == content && this.id == id
    {
      this.editorId, this.rootName, this.content, this.id := editorId, rootName, content, id;
    }

    /** The properties of the hidden input and the debounce. */
    method SetInput(name: Option<string>, required: bool, saveDebounceMs: int)
      modifies this`name, this`required, this`saveDebounceMs
      ensures this.name == name && this.required == required && this.saveDebounceMs == saveDebounceMs
    {
      this.name, this.required, this.saveDebounceMs := name, required, saveDebounceMs;
    }

    /** The styling properties. */
    method SetStyling(cssClass: Option<string>, style: Option<string>, editableClass: Option<string>,
                      editableStyle: Option<string>)
      modifies this`cssClass, this`style, this`editableClass, this`editableStyle
      ensures this.cssClass == cssClass && this.style == style
      ensures this.editableClass == editableClass && this.editableStyle == editableStyle
    {
      this.cssClass, this.style, this.editableClass, this.editableStyle := cssClass, style, editableClass, editableStyle;
    }
  }

  /** Mounting with nothing but an editor id gives the `main` root with the 300 ms debounce. */
  method MountDefaults(editorId: string, unique: string) returns (e: CKEditor5Editable)
    ensures e.rootName == "main" && e.saveDebounceMs == 300
    ensures e.style == Some(BaseStyle) && StartsWith(e.id, EditableIdPrefix)
  {
    e := new CKEditor5Editable();
    e.Mount(editorId, unique);
  }
}
