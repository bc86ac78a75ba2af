/**
 * The `LivewireSync` plugin, npm_package/src/hooks/editor/plugins/livewire-sync.ts: the editor's
 * root values are pushed to the Livewire component (`$wire.set`) only when they differ from the
 * component's canonical content, which keeps a change that came from Livewire from being echoed back.
 * The editor's root values and its focus state are passed in; the `$wire.set` calls are recorded.
 */
module LivewireSyncs {

  /** A `$wire.set` call: `content` with the root values, or `focused`. */
  datatype WireWrite = SetContent(values: map<string, string>) | SetFocused(focused: bool)

  /**
   * The content writes one check issues: none when the values are shallow-equal to the canonical
   * content (two records of strings are shallow-equal exactly when they are equal), else one.
   */
  function ContentWrites(values: map<string, string>, canonical: map<string, string>): (r: seq<WireWrite>)
    ensures |r| <= 1
    ensures r == [] <==> values == canonical
    ensures forall i :: 0 <= i < |r| ==> r[i] == SetContent(values)
  {
    if values == canonical then [] else [SetContent(values)]
  }

  /** Once Livewire holds what the editor holds, a check writes nothing: the sync does not loop. */
  lemma SyncedContentIsQuiet(values: map<string, string>)
    ensures ContentWrites(values, values) == []
  {
  }

  /** A focus push issues `focused` first, and `content` second exactly when the values differ. */
  function FocusWrites(values: map<string, string>, canonical: map<string, string>, isFocused: bool)
    : (r: seq<WireWrite>)
    ensures |r| >= 1 && r[0] == SetFocused(isFocused)
    ensures r[1..] == ContentWrites(values, canonical)
  {
    [SetFocused(isFocused)] + ContentWrites(values, canonical)
  }

  /** A content change made together with a focus change still reaches Livewire, after `focused`. */
  lemma FocusWithChangeWritesBoth(values: map<string, string>, canonical: map<string, string>, isFocused: bool)
    requires values != canonical
    ensures FocusWrites(values, canonical, isFocused) == [SetFocused(isFocused), SetContent(values)]
  {
  }

  /**
   * The plugin attached to one editor component: the component's canonical content (as Livewire
   * last sent it), the `$wire.set` calls issued so far, and whether the `once('ready')` handler fired.
   */
  class LivewireSync {
    var canonical: map<string, string>
    var writes: seq<WireWrite>
    var readyFired: bool

    constructor (canonical: map<string, string>)
      ensures this.canonical == canonical && writes == [] && !readyFired
    {
      this.canonical := canonical;
      writes := [];
      readyFired := false;
    }

    /** `syncContentChange()` with the editor's current root values. */
    method SyncContentChange(values: map<string, string>)
      modifies this`writes
      ensures writes == old(writes) + ContentWrites(values, canonical)
    {
      if values != canonical {
        writes := writes + [SetContent(values)];
      }
    }

    /** The `once('ready')` handler: the check runs on the first `ready` only. */
    method OnReady(values: map<string, string>)
      modifies this`writes, this`readyFired
      ensures readyFired
      ensures writes == old(writes) + (if old(readyFired) then [] else ContentWrites(values, canonical))
    {
      if readyFired {
        return;
      }
      readyFired := true;
      SyncContentChange(values);
    }

    /**
     * A burst of `change:data` events, the root values after each, through the debounced handler:
     * one trailing check with the latest values, and nothing for an empty burst.
     */
    method OnDataChanges(burst: seq<map<string, string>>)
      modifies this`writes
      ensures burst == [] ==> writes == old(writes)
      ensures burst != [] ==> writes == old(writes) + ContentWrites(burst[|burst| - 1], canonical)
    {
      if burst != [] {
        SyncContentChange(burst[|burst| - 1]);
      }
    }

    /** `pushEvent()` on `change:isFocused`: `focused` first, then the content under the same check. */
    method PushEvent(values: map<string, string>, isFocused: bool)
      modifies this`writes
      ensures writes == old(writes) + FocusWrites(values, canonical, isFocused)
    {
      writes := writes + [SetFocused(isFocused)];
      SyncContentChange(values);
    }

    /** Livewire's round-trip brings new canonical content. */
    method CanonicalUpdated(content: map<string, string>)
      modifies this`canonical
      ensures canonical == content
    {
      canonical := content;
    }
  }
}
