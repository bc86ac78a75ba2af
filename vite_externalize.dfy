/**
 * The `ckeditor5-externalize` Vite plugin, npm_package/bundler/vite-ckeditor5-externalize.ts: it keeps
 * the CKEditor packages out of dependency optimisation and out of the bundle, resolves their ids as
 * external, and strips Vite's `/@id/` prefix from them in the served code.
 */
module ViteExternalize {
  import opened Wrappers
  import opened Seqs

  /** The result of `resolveId` for an id it claims. */
  datatype Resolved = Resolved(id: string, external: bool)

  /** `resolveId(id)`: the two package names and any path inside them are external; anything else is not claimed. */
  function ResolveId(id: string): (r: Option<Resolved>)
    ensures r.Some? ==> r.value == Resolved(id, true)
    ensures r.Some? <==>
              id == "ckeditor5" || id == "ckeditor5-premium-features"
              || StartsWith(id, "ckeditor5/") || StartsWith(id, "ckeditor5-premium-features/")
  {
    if id == "ckeditor5" || id == "ckeditor5-premium-features"
       || StartsWith(id, "ckeditor5/") || StartsWith(id, "ckeditor5-premium-features/")
    then Some(Resolved(id, true))
    else None
  }

  /** The integration's own package shares a prefix with `ckeditor5` but is bundled, as are look-alikes. */
  lemma ResolveIdExamples()
    ensures ResolveId("ckeditor5-livewire").None?
    ensures ResolveId("ckeditor5x").None?
    ensures ResolveId("ckeditor5/translations/pl.js") == Some(Resolved("ckeditor5/translations/pl.js", true))
    ensures ResolveId("ckeditor5-premium-features") == Some(Resolved("ckeditor5-premium-features", true))
  {
    assert !StartsWith("ckeditor5-livewire", "ckeditor5/") by {
      assert "ckeditor5-livewire"[9] == '-';
    }
    assert !StartsWith("ckeditor5-livewire", "ckeditor5-premium-features/") by {
      assert "ckeditor5-livewire"[10] == 'l';
    }
    assert !StartsWith("ckeditor5x", "ckeditor5/") by {
      assert "ckeditor5x"[9] == 'x';
    }
    assert StartsWith("ckeditor5/translations/pl.js", "ckeditor5/");
  }

  /** An entry of `exclude` or `external`: a module name, or a pattern `^prefix.*` matching any id starting with `prefix`. */
  datatype Entry = Name(name: string) | Prefix(prefix: string)

  /** Whether a rollup `external` entry matches an id. */
  predicate EntryMatches(e: Entry, id: string) {
    match e
    case Name(n) => id == n
    case Prefix(p) => StartsWith(id, p)
  }

  /** The names appended to `optimizeDeps.exclude`, in order. */
  const ExcludedNames: seq<Entry> := [Name("ckeditor5"), Name("ckeditor5-premium-features"), Name("ckeditor5-livewire")]

  /** The entries appended to `build.rollupOptions.external`, in order; the pattern matching `ckeditor5/` and anything after it is `Prefix("ckeditor5/")`. */
  const ExternalEntries: seq<Entry> :=
    [Name("ckeditor5"), Name("ckeditor5-premium-features"), Prefix("ckeditor5/"), Prefix("ckeditor5-premium-features/")]

  /** The entries added to `external` match exactly the ids `resolveId` marks external, so build and serve agree. */
  lemma ExternalAgreesWithResolveId(id: string)
    ensures (exists i :: 0 <= i < |ExternalEntries| && EntryMatches(ExternalEntries[i], id)) <==> ResolveId(id).Some?
  {
    if ResolveId(id).Some? {
      if id == "ckeditor5" {
        assert EntryMatches(ExternalEntries[0], id);
      } else if id == "ckeditor5-premium-features" {
        assert EntryMatches(ExternalEntries[1], id);
      } else if StartsWith(id, "ckeditor5/") {
        assert EntryMatches(ExternalEntries[2], id);
      } else {
        assert EntryMatches(ExternalEntries[3], id);
      }
    }
  }

  /**
   * A value found at `optimizeDeps.exclude` or `build.rollupOptions.external`: missing, present but
   * falsy, truthy but not an array, or an array.
   */
  datatype Slot = Absent | Falsy | NotArray | Array(entries: seq<Entry>)

  /** `(slot as any[]) || []`: the entries an array contributes, and none for a missing or falsy value. */
  function Existing(slot: Slot): (r: seq<Entry>)
    requires !slot.NotArray?
    ensures slot.Array? ==> r == slot.entries
    ensures !slot.Array? ==> r == []
  {
    if slot.Array? then slot.entries else []
  }

  const ExcludeError := "ckeditor5-externalize: config.optimizeDeps.exclude is not an array"
  const ExternalError := "ckeditor5-externalize: config.build.rollupOptions.external is not an array"

  /**
   * The parts of the user's Vite configuration the `config` hook reads and writes: whether
   * `optimizeDeps`, `build` and `build.rollupOptions` exist, and the two lists.
   */
  class ViteConfig {
    var hasOptimizeDeps: bool
    var exclude: Slot
    var hasBuild: bool
    var hasRollupOptions: bool
    var external: Slot

    /** A list can only be found inside an object that exists. */
    ghost predicate Valid()
      reads this
    {
      && (!hasOptimizeDeps ==> exclude == Absent)
      && (!hasRollupOptions ==> external == Absent)
      && (hasRollupOptions ==> hasBuild)
    }

    constructor (hasOptimizeDeps: bool, exclude: Slot, hasBuild: bool, hasRollupOptions: bool, external: Slot)
      requires !hasOptimizeDeps ==> exclude == Absent
      requires !hasRollupOptions ==> external == Absent
      requires hasRollupOptions ==> hasBuild
      ensures Valid()
      ensures this.hasOptimizeDeps == hasOptimizeDeps && this.exclude == exclude
      ensures this.hasBuild == hasBuild && this.hasRollupOptions == hasRollupOptions && this.external == external
    {
      this.hasOptimizeDeps := hasOptimizeDeps;
      this.exclude := exclude;
      this.hasBuild := hasBuild;
      this.hasRollupOptions := hasRollupOptions;
      this.external := external;
    }

    /**
     * The `config` hook. A truthy non-array `exclude` throws, and then a truthy non-array `external`
     * throws; a throw changes nothing. Otherwise the missing objects are created and both lists
     * become their existing entries followed by the plugin's own.
     */
    method Config() returns (r: Outcome<string>)
      requires Valid()
      modifies this
      ensures Valid()
      ensures old(exclude).NotArray? ==> r == Fail(ExcludeError)
      ensures !old(exclude).NotArray? && old(external).NotArray? ==> r == Fail(ExternalError)
      ensures r.Fail? ==>
                && hasOptimizeDeps == old(hasOptimizeDeps) && exclude == old(exclude)
                && hasBuild == old(hasBuild) && hasRollupOptions == old(hasRollupOptions) && external == old(external)
      ensures r.Pass? <==> !old(exclude).NotArray? && !old(external).NotArray?
      ensures r.Pass? ==>
                && hasOptimizeDeps && hasBuild && hasRollupOptions
                && exclude == Array(Existing(old(exclude)) + ExcludedNames)
                && external == Array(Existing(old(external)) + ExternalEntries)
    {
      if exclude.NotArray? {
        return Fail(ExcludeError);
      }
      if external.NotArray? {
        return Fail(ExternalError);
      }
      hasOptimizeDeps := true;
      exclude := Array(Existing(exclude) + ExcludedNames);
      hasBuild := true;
      hasRollupOptions := true;
      external := Array(Existing(external) + ExternalEntries);
      r := Pass;
    }
  }

  /** The `remove-id-prefix` plugin's name. */
  const RemoveIdPrefix := "remove-id-prefix"

  /** The resolved configuration: the names of its plugins, in order. */
  class ResolvedConfig {
    var plugins: seq<string>

    constructor (plugins: seq<string>)
      ensures this.plugins == plugins
    {
      this.plugins := plugins;
    }
  }

  /** The `configResolved` hook: the `remove-id-prefix` plugin is pushed after the existing ones. */
  method ConfigResolved(resolvedConfig: ResolvedConfig)
    modifies resolvedConfig`plugins
    ensures resolvedConfig.plugins == old(resolvedConfig.plugins) + [RemoveIdPrefix]
  {
    resolvedConfig.plugins := resolvedConfig.plugins + [RemoveIdPrefix];
  }

  /** `pat` occurs in `s` at `i`. */
  predicate OccursAt(s: string, pat: string, i: int) {
    0 <= i && i + |pat| <= |s| && s[i..i + |pat|] == pat
  }

  /**
   * `s.replace(/pat/g, rep)`: a scan from the left replacing each occurrence and resuming after it;
   * the replacement text is not scanned again.
   */
  function ReplaceAll(s: string, pat: string, rep: string): string
    requires |pat| > 0
    decreases |s|
  {
    if |s| < |pat| then s
    else if s[..|pat|] == pat then rep + ReplaceAll(s[|pat|..], pat, rep)
    else [s[0]] + ReplaceAll(s[1..], pat, rep)
  }

  /** Code without an occurrence of the pattern is returned unchanged. */
  lemma {:induction false} NoOccurrenceUnchanged(s: string, pat: string, rep: string)
    requires |pat| > 0
    requires forall i :: 0 <= i <= |s| - |pat| ==> !OccursAt(s, pat, i)
    decreases |s|
    ensures ReplaceAll(s, pat, rep) == s
  {
    if |s| >= |pat| {
      assert !OccursAt(s, pat, 0);
      assert s[..|pat|] != pat;
      forall i | 0 <= i <= |s[1..]| - |pat|
        ensures !OccursAt(s[1..], pat, i)
      {
        assert !OccursAt(s, pat, i + 1);
        assert s[1..][i..i + |pat|] == s[i + 1..i + 1 + |pat|];
      }
      NoOccurrenceUnchanged(s[1..], pat, rep);
      assert [s[0]] + s[1..] == s;
    }
  }

  /** A replacement no longer than the pattern never makes the code longer. */
  lemma {:induction false} ReplaceAllShrinks(s: string, pat: string, rep: string)
    requires |pat| > 0 && |rep| <= |pat|
    decreases |s|
    ensures |ReplaceAll(s, pat, rep)| <= |s|
  {
    if |s| >= |pat| {
      if s[..|pat|] == pat {
        ReplaceAllShrinks(s[|pat|..], pat, rep);
      } else {
        ReplaceAllShrinks(s[1..], pat, rep);
      }
    }
  }

  /** Code starting with the pattern starts with the replacement, the rest being replaced in turn. */
  lemma LeadingOccurrenceReplaced(s: string, pat: string, rep: string)
    requires |pat| > 0
    ensures ReplaceAll(pat + s, pat, rep) == rep + ReplaceAll(s, pat, rep)
  {
    assert (pat + s)[..|pat|] == pat;
    assert (pat + s)[|pat|..] == s;
  }

  /** The module code the transform is given: a string, or something else. */
  datatype Code = Text(text: string) | NotText

  /** The `remove-id-prefix` transform: every `/@id/ckeditor5` becomes `ckeditor5`; a non-string gives `null`. */
  function Transform(code: Code): (r: Option<string>)
    ensures r.None? <==> code.NotText?
    ensures code.Text? ==> |r.value| <= |code.text|
  {
    if code.NotText? then None
    else
      ReplaceAllShrinks(code.text, "/@id/ckeditor5", "ckeditor5");
      Some(ReplaceAll(code.text, "/@id/ckeditor5", "ckeditor5"))
  }

  /** Code that never mentions `/@id/ckeditor5` is served as it is. */
  lemma TransformKeepsOtherCode(s: string)
    requires forall i :: 0 <= i <= |s| - 14 ==> !OccursAt(s, "/@id/ckeditor5", i)
    ensures Transform(Text(s)) == Some(s)
  {
    NoOccurrenceUnchanged(s, "/@id/ckeditor5", "ckeditor5");
  }

  /** The scan steps over a position where the pattern does not start. */
  lemma SkipChar(s: string, pat: string, rep: string)
    requires |pat| > 0 && |s| >= |pat| && s[..|pat|] != pat
    ensures ReplaceAll(s, pat, rep) == [s[0]] + ReplaceAll(s[1..], pat, rep)
  {
  }

  /** Text before which the pattern never starts is copied as it is. */
  lemma {:induction false} SkipPrefix(pre: string, s: string, pat: string, rep: string)
    requires |pat| > 0 && |s| >= |pat|
    requires forall k :: 0 <= k < |pre| ==> (pre[k..] + s)[..|pat|] != pat
    decreases |pre|
    ensures ReplaceAll(pre + s, pat, rep) == pre + ReplaceAll(s, pat, rep)
  {
    if pre == [] {
      assert pre + s == s;
    } else {
      SkipPrefixStep(pre, s, pat);
      SkipChar(pre + s, pat, rep);
      SkipPrefix(pre[1..], s, pat, rep);
      assert [pre[0]] + (pre[1..] + ReplaceAll(s, pat, rep)) == pre + ReplaceAll(s, pat, rep);
    }
  }

  /** One step of `SkipPrefix`: the pattern does not start the text, and the rest keeps the premise. */
  lemma SkipPrefixStep(pre: string, s: string, pat: string)
    requires |pat| > 0 && |s| >= |pat| && pre != []
    requires forall k :: 0 <= k < |pre| ==> (pre[k..] + s)[..|pat|] != pat
    ensures (pre + s)[..|pat|] != pat
    ensures (pre + s)[0] == pre[0] && (pre + s)[1..] == pre[1..] + s
    ensures forall k :: 0 <= k < |pre[1..]| ==> (pre[1..][k..] + s)[..|pat|] != pat
  {
    assert pre[0..] == pre;
    forall k | 0 <= k < |pre[1..]|
      ensures (pre[1..][k..] + s)[..|pat|] != pat
    {
      assert pre[1..][k..] == pre[k + 1..];
    }
  }

  /** One pass: a prefix doubled as `/@id//@id/ckeditor5` loses only the inner one. */
  lemma SinglePass()
    ensures Transform(Text("/@id/" + "/@id/ckeditor5")) == Some("/@id/" + "ckeditor5")
  {
    var pre, pat, rep := "/@id/", "/@id/ckeditor5", "ckeditor5";
    forall k | 0 <= k < |pre|
      ensures (pre[k..] + pat)[..|pat|] != pat
    {
      var t := pre[k..] + pat;
      if k == 0 {
        assert t[5] == pat[0] != pat[5];
      } else if k == 4 {
        assert t[1] == pat[0] != pat[1];
      } else {
        assert t[0] == pre[k] != pat[0];
      }
    }
    SkipPrefix(pre, pat, pat, rep);
    LeadingOccurrenceReplaced([], pat, rep);
    assert pat + [] == pat;
    assert ReplaceAll(pat, pat, rep) == rep;
    assert Transform(Text(pre + pat)) == Some(ReplaceAll(pre + pat, pat, rep));
  }
}
