/**
 * The playground's `MultiRootDynamicDemo` component, playground/app/Livewire/MultiRootDynamicDemo.php:
 * a multi-root editor whose roots are added and removed by name. The digest
 * `md5(uniqid('', true))` is a parameter.
 */
module MultiRootDemos {
  import opened Seqs

  /** The characters PHP's `trim` strips by default: space, tab, newline, carriage return, NUL, vertical tab. */
  predicate TrimmedChar(c: char) {
    c == ' ' || c == '\t' || c == '\n' || c == '\r' || c as int == 0 || c as int == 11
  }

  /** The index of the first character `trim` keeps, or `|s|`. */
  function TrimStart(s: string): (r: nat)
    ensures r <= |s|
    ensures forall i :: 0 <= i < r ==> TrimmedChar(s[i])
    ensures r < |s| ==> !TrimmedChar(s[r])
    decreases |s|
  {
    if s == [] || !TrimmedChar(s[0]) then 0 else 1 + TrimStart(s[1..])
  }

  /** The index after the last character `trim` keeps, or `0`. */
  function TrimEnd(s: string): (r: nat)
    ensures r <= |s|
    ensures forall i :: r <= i < |s| ==> TrimmedChar(s[i])
    ensures r > 0 ==> !TrimmedChar(s[r - 1])
    decreases |s|
  {
    if s == [] || !TrimmedChar(s[|s| - 1]) then |s| else TrimEnd(s[..|s| - 1])
  }

  /** `trim($s)`: the slice of `s` with the stripped characters removed at both ends. */
  function Trim(s: string): (r: string)
    ensures |r| <= |s|
    ensures r != [] ==> !TrimmedChar(r[0]) && !TrimmedChar(r[|r| - 1])
    ensures TrimStart(s) + |r| <= |s| && r == s[TrimStart(s)..TrimStart(s) + |r|]
    ensures forall i :: TrimStart(s) + |r| <= i < |s| ==> TrimmedChar(s[i])
  {
    var a := TrimStart(s);
    if a == |s| then
      []
    else
      var b := TrimEnd(s);
      assert b > a;
      s[a..b]
  }

  /** Text without stripped characters at its ends is its own trim. */
  lemma TrimKeepsTrimmed(s: string)
    requires s != [] ==> !TrimmedChar(s[0]) && !TrimmedChar(s[|s| - 1])
    ensures Trim(s) == s
  {
  }

  /** PHP truthiness of a string: neither empty nor `"0"`. */
  predicate Truthy(s: string) {
    s != "" && s != "0"
  }

  const RootPrefix := "root_"

  /** `'root_' . substr($digest, 0, 6)`. */
  function RandomRootName(digest: string): (r: string)
    ensures StartsWith(r, RootPrefix)
    ensures |digest| >= 6 ==> |r| == |RootPrefix| + 6 && r[|RootPrefix|..] == digest[..6]
  {
    RootPrefix + (if |digest| >= 6 then digest[..6] else digest)
  }

  const NewRootContent := "New root content"
  const DemoEditorId := "multiroot-dynamic-demo-editor"

  /** The component: its roots by name, the editor id it listens for, and the name proposed for the next root. */
  class MultiRootDynamicDemo {
    var roots: map<string, string>
    const editorId: string
    var newRootName: string

    /** The two starting roots, and `mount()` proposing a random name. */
    constructor (digest: string)
      ensures roots == map["header" := "<h2>Dynamic header</h2>", "body" := "<p>Dynamic body content.</p>"]
      ensures editorId == DemoEditorId
      ensures newRootName == RandomRootName(digest)
    {
      roots := map["header" := "<h2>Dynamic header</h2>", "body" := "<p>Dynamic body content.</p>"];
      editorId := DemoEditorId;
      newRootName := RandomRootName(digest);
    }

    /** `randomizeNewRootName()`. */
    method RandomizeNewRootName(digest: string)
      modifies this`newRootName
      ensures newRootName == RandomRootName(digest)
    {
      newRootName := RandomRootName(digest);
    }

    /**
     * `addRoot()`: the trimmed proposed name, when truthy and not yet a root, gets the placeholder
     * content and a fresh name is proposed; otherwise nothing changes.
     */
    method AddRoot(digest: string)
      modifies this`roots, this`newRootName
      ensures var name := Trim(old(newRootName));
        if Truthy(name) && name !in old(roots) then
          roots == old(roots)[name := NewRootContent] && newRootName == RandomRootName(digest)
        else
          roots == old(roots) && newRootName == old(newRootName)
    {
      var name := Trim(newRootName);
      if Truthy(name) && name !in roots {
        roots := roots[name := NewRootContent];
        RandomizeNewRootName(digest);
      }
    }

    /** `removeRoot($name)`: that root is deleted when it exists, and the others are kept. */
    method RemoveRoot(name: string)
      modifies this`roots
      ensures roots == old(roots) - {name}
    {
      if name in roots {
        roots := roots - {name};
      }
    }

    /** The `editor-content-changed` listener: the roots are replaced wholesale, for this editor only. */
    method OnEditorContentChanged(editorId: string, content: map<string, string>)
      modifies this`roots
      ensures roots == if editorId == this.editorId then content else old(roots)
    {
      if editorId == this.editorId {
        roots := content;
      }
    }
  }

  /** Adding a root and then removing it restores the roots, when the name was new. */
  lemma AddThenRemove(roots: map<string, string>, name: string)
    requires name !in roots
    ensures roots[name := NewRootContent] - {name} == roots
  {
  }

  /** `"0"` and blank names never add a root. */
  lemma FalsyNamesRejected()
    ensures !Truthy(Trim("0")) && !Truthy(Trim("  ")) && !Truthy(Trim(""))
  {
    TrimKeepsTrimmed("0");
    var b := "  ";
    assert TrimStart(b) == 2 by {
      assert b[1..][1..] == [];
    }
  }
}
