/**
 * `CKBoxCloudBundleBuilder::build`, src/Cloud/CKBox/CKBoxCloudBundleBuilder.php: the CKBox assets
 * served from its CDN for one version, with one script per requested translation.
 */
module CKBoxBundles {

  /** `JSAssetType`. */
  datatype JSAssetType = ESM | UMD

  /** `JSAsset`. */
  datatype JSAsset = JSAsset(name: string, url: string, kind: JSAssetType)

  /** `AssetsBundle`. */
  datatype AssetsBundle = AssetsBundle(js: seq<JSAsset>, css: seq<string>)

  const CdnBaseUrl := "https://cdn.ckbox.io/"

  /** The theme used when none is given. */
  const DefaultTheme := "theme"

  /** The stylesheet of a theme. */
  function ThemeUrl(version: string, theme: string): string {
    CdnBaseUrl + "ckbox/" + version + "/styles/themes/" + theme + ".css"
  }

  /** The main script. */
  function MainAsset(version: string): JSAsset {
    JSAsset("ckbox", CdnBaseUrl + "ckbox/" + version + "/ckbox.js", UMD)
  }

  /** The script of one translation. */
  function TranslationAsset(version: string, translation: string): JSAsset {
    JSAsset("ckbox/translations/" + translation, CdnBaseUrl + "ckbox/" + version + "/translations/" + translation + ".js", UMD)
  }

  /**
   * `build($version, $translations = [], $theme = 'theme')`: one stylesheet, then the main script
   * followed by the translations' scripts in the order given, every script a UMD one.
   */
  method Build(version: string, translations: seq<string> := [], theme: string := DefaultTheme)
    returns (bundle: AssetsBundle)
    ensures bundle.css == [ThemeUrl(version, theme)]
    ensures |bundle.js| == 1 + |translations|
    ensures bundle.js[0] == MainAsset(version)
    ensures forall i :: 0 <= i < |translations| ==> bundle.js[i + 1] == TranslationAsset(version, translations[i])
    ensures forall i :: 0 <= i < |bundle.js| ==> bundle.js[i].kind == UMD
  {
    var css := [ThemeUrl(version, theme)];
    var js := [MainAsset(version)];
    for i := 0 to |translations|
      invariant |js| == 1 + i
      invariant js[0] == MainAsset(version)
      invariant forall j :: 0 <= j < i ==> js[j + 1] == TranslationAsset(version, translations[j])
      invariant forall j :: 0 <= j < |js| ==> js[j].kind == UMD
    {
      js := js + [TranslationAsset(version, translations[i])];
    }
    bundle := AssetsBundle(js, css);
  }

  /**
   * `build($version)` with both defaults: the stylesheet of the theme named `theme` and the main
   * script alone.
   */
  method BuildWithDefaults(version: string) returns (bundle: AssetsBundle)
    ensures bundle.css == [CdnBaseUrl + "ckbox/" + version + "/styles/themes/theme.css"]
    ensures bundle.js == [MainAsset(version)]
  {
    bundle := Build(version);
    assert |bundle.js| == 1;
    var base := CdnBaseUrl + "ckbox/" + version;
    assert "/styles/themes/" + "theme" + ".css" == "/styles/themes/theme.css";
    assert ThemeUrl(version, DefaultTheme) == base + ("/styles/themes/" + "theme" + ".css");
  }

  /** Every asset lies under the CDN, in the folder of the requested version. */
  lemma AssetsUnderVersionFolder(version: string, translation: string, theme: string)
    ensures ThemeUrl(version, theme)[..|CdnBaseUrl + "ckbox/" + version|] == CdnBaseUrl + "ckbox/" + version
    ensures MainAsset(version).url[..|CdnBaseUrl + "ckbox/" + version|] == CdnBaseUrl + "ckbox/" + version
    ensures TranslationAsset(version, translation).url[..|CdnBaseUrl + "ckbox/" + version|]
            == CdnBaseUrl + "ckbox/" + version
  {
    var base := CdnBaseUrl + "ckbox/" + version;
    assert ThemeUrl(version, theme) == base + ("/styles/themes/" + theme + ".css");
    assert MainAsset(version).url == base + "/ckbox.js";
    assert TranslationAsset(version, translation).url == base + ("/translations/" + translation + ".js");
  }

  /** Distinct translations get distinct script names, so no translation is loaded twice under one name. */
  lemma TranslationNamesDistinct(version: string, a: string, b: string)
    requires a != b
    ensures TranslationAsset(version, a).name != TranslationAsset(version, b).name
  {
    var p := "ckbox/translations/";
    assert (p + a)[|p|..] == a && (p + b)[|p|..] == b;
  }
}
