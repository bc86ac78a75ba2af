/**
 * The `CKEditor5UIPart` Livewire component, src/Components/CKEditor5UIPart.php: it places one of the
 * editor's UI parts (its toolbar or its menu bar) elsewhere on the page. PHP's `uniqid()` is a parameter.
 */
module UIParts {
  import opened Wrappers
  import opened Seqs

  /** The names of the parts that can be placed. */
  predicate SupportedName(name: string) {
    name == "toolbar" || name == "menubar"
  }

  /** The message of the exception thrown for any other name. */
  function InvalidNameMessage(name: string): (r: string)
    ensures StartsWith(r, "Invalid UI part name: \"") && |r| >= |"Invalid UI part name: \""| + |name|
    ensures r[|"Invalid UI part name: \""|..][..|name|] == name
    ensures r[|"Invalid UI part name: \""| + |name|..] == "\". Supported names are \"toolbar\" and \"menubar\"."
  {
    var head := "Invalid UI part name: \"";
    var m := head + name + "\". Supported names are \"toolbar\" and \"menubar\".";
    assert m[..|head|] == head;
    assert m[|head|..] == name + "\". Supported names are \"toolbar\" and \"menubar\".";
    m
  }

  const UIPartIdPrefix := "ckeditor-ui-part-"

  /** `$uiPartId ?? 'ckeditor-ui-part-' . uniqid()`. */
  function UIPartIdFor(uiPartId: Option<string>, unique: string): (r: string)
    ensures uiPartId.Some? ==> r == uiPartId.value
    ensures uiPartId.None? ==> StartsWith(r, UIPartIdPrefix) && r[|UIPartIdPrefix|..] == unique
  {
    if uiPartId.Some? then uiPartId.value else UIPartIdPrefix + unique
  }

  /** Two generated ids differ whenever the unique suffixes do. */
  lemma GeneratedIdsDiffer(u1: string, u2: string)
    requires u1 != u2
    ensures UIPartIdFor(None, u1) != UIPartIdFor(None, u2)
  {
  }

  /** The component's public properties; `class` and `style` start as `null`. */
  class CKEditor5UIPart {
    var uiPartId: string
    var editorId: string
    var name: string
    var cssClass: Option<string>
    var style: Option<string>

    constructor ()
      ensures cssClass == None && style == None
    {
      uiPartId, editorId, name := "", "", "";
      cssClass, style := None, None;
    }

    /**
     * `mount(...)`: an unsupported name throws before any property is set; otherwise the id is the
     * given one or a generated one, and the other arguments are stored as given.
     */
    method Mount(editorId: string, name: string, unique: string, uiPartId: Option<string> := None,
                 cssClass: Option<string> := None, style: Option<string> := None)
      returns (r: Outcome<string>)
      modifies this
      ensures r.Fail? <==> !SupportedName(name)
      ensures r.Fail? ==> r.error == InvalidNameMessage(name)
      ensures r.Fail? ==>
                && this.uiPartId == old(this.uiPartId) && this.editorId == old(this.editorId)
                && this.name == old(this.name) && this.cssClass == old(this.cssClass) && this.style == old(this.style)
      ensures r.Pass? ==>
                && this.uiPartId == UIPartIdFor(uiPartId, unique)
                && this.editorId == editorId && this.name == name
                && this.cssClass == cssClass && this.style == style
    {
      if !SupportedName(name) {
        return Fail(InvalidNameMessage(name));
      }
      this.uiPartId := UIPartIdFor(uiPartId, unique);
      this.editorId := editorId;
      this.name := name;
      this.cssClass := cssClass;
      this.style := style;
      r := Pass;
    }
  }

  /** The empty name and `sidebar` are refused like any other unsupported name. */
  lemma UnsupportedNames()
    ensures !SupportedName("") && !SupportedName("sidebar") && !SupportedName("invalid")
    ensures SupportedName("toolbar") && SupportedName("menubar")
  {
  }
}
