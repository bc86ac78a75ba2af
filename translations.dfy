/**
 * The translation mixing shared by npm_package/src/hooks/editor/editor.ts and
 * npm_package/src/hooks/context/context.ts: `[...loaded, custom].filter(t => !isEmptyObject(t))`, and
 * a `translations` entry in the configuration only when that list is not empty.
 */
module Translations {
  import opened Wrappers

  /** A translations object, as a record of its own keys. */
  type Dictionary<V> = map<string, V>

  /** `dicts.filter(t => !isEmptyObject(t))`. */
  function NonEmpty<V>(dicts: seq<Dictionary<V>>): (r: seq<Dictionary<V>>)
    ensures |r| <= |dicts|
    ensures forall i :: 0 <= i < |r| ==> |r[i]| > 0
    ensures forall i :: 0 <= i < |r| ==> r[i] in dicts
    ensures forall j :: 0 <= j < |dicts| && |dicts[j]| > 0 ==> dicts[j] in r
  {
    if dicts == [] then []
    else
      var rest := NonEmpty(dicts[1..]);
      assert forall j :: 1 <= j < |dicts| ==> dicts[j] == dicts[1..][j - 1];
      if |dicts[0]| == 0 then rest else [dicts[0]] + rest
  }

  /** Filtering a concatenation filters each part, in order. */
  lemma {:induction false} NonEmptyAppend<V>(a: seq<Dictionary<V>>, b: seq<Dictionary<V>>)
    decreases |a|
    ensures NonEmpty(a + b) == NonEmpty(a) + NonEmpty(b)
  {
    if a != [] {
      var ab := a + b;
      assert ab[0] == a[0] && ab[1..] == a[1..] + b;
      NonEmptyAppend(a[1..], b);
      if |a[0]| == 0 {
        assert NonEmpty(ab) == NonEmpty(ab[1..]) && NonEmpty(a) == NonEmpty(a[1..]);
      } else {
        assert NonEmpty(ab) == [a[0]] + NonEmpty(ab[1..]) && NonEmpty(a) == [a[0]] + NonEmpty(a[1..]);
      }
    } else {
      assert a + b == b;
    }
  }

  /** The mixed list: the loaded translations followed by the custom ones, empty objects dropped. */
  function MixTranslations<V>(loaded: seq<Dictionary<V>>, custom: Dictionary<V>): (r: seq<Dictionary<V>>)
    ensures forall i :: 0 <= i < |r| ==> |r[i]| > 0
    ensures |r| <= |loaded| + 1
  {
    NonEmpty(loaded + [custom])
  }

  /** The custom translations come last, after every non-empty loaded one, and only when not empty. */
  lemma CustomTranslationsLast<V>(loaded: seq<Dictionary<V>>, custom: Dictionary<V>)
    ensures MixTranslations(loaded, custom) == NonEmpty(loaded) + (if |custom| == 0 then [] else [custom])
  {
    NonEmptyAppend(loaded, [custom]);
    assert NonEmpty([custom]) == (if |custom| == 0 then [] else [custom]) by {
      assert [custom][1..] == [];
    }
  }

  /** `...mixed.length && { translations: mixed }`: the configuration entry, present only for a non-empty list. */
  function TranslationsEntry<V>(mixed: seq<Dictionary<V>>): (r: Option<seq<Dictionary<V>>>)
    ensures r.None? <==> |mixed| == 0
    ensures r.Some? ==> r.value == mixed
  {
    if |mixed| == 0 then None else Some(mixed)
  }
}
