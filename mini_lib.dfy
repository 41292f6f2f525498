/**
 * What the mini-app pages share (src/lib/index.ts): the JavaScript `||`
 * fallback on optional texts, the placeholder for a missing value, the
 * date formatter and the URL builder for assets served by the API.
 */
module MiniLib {
  import opened Common

  /**
   * The placeholder the pages show for a value that is missing ("not
   * specified").
   */
  const NotSpecified: string := "Не указано"

  /** `a || b` on an optional text: a present, non-empty text wins. */
  function OrElse(a: Option<string>, b: string): (r: string)
    ensures Truthy(a) ==> r == a.value
    ensures !Truthy(a) ==> r == b
  {
    if Truthy(a) then a.value else b
  }

  /**
   * formatDateTime: an absent or empty value, and one the date parser
   * rejects, render as the empty text. `format` stands for the Date
   * constructor followed by the ru-RU Intl formatter, None for an invalid
   * date.
   */
  function FormatDateTime(value: Option<string>, format: string -> Option<string>): (r: string)
    ensures !Truthy(value) ==> r == ""
    ensures Truthy(value) && format(value.value).None? ==> r == ""
    ensures Truthy(value) && format(value.value).Some? ==> r == format(value.value).value
  {
    if !Truthy(value) then ""
    else match format(value.value)
      case None => ""
      case Some(t) => t
  }

  /** stripTrailingSlash: drops one trailing "/". */
  function StripTrailingSlash(s: string): (r: string)
    ensures EndsWith(s, "/") ==> s == r + "/"
    ensures !EndsWith(s, "/") ==> r == s
  {
    if EndsWith(s, "/") then s[..|s| - 1] else s
  }

  /** A base that does not end in two slashes keeps no trailing slash. */
  lemma StrippedHasNoSlash(s: string)
    requires !EndsWith(s, "//")
    ensures !EndsWith(StripTrailingSlash(s), "/")
  {
    var r := StripTrailingSlash(s);
    if EndsWith(s, "/") && |r| >= 1 {
      assert s[|s| - 2..] == [r[|r| - 1], '/'];
    }
  }

  /** `base.replace(/\/api\/v1$/, "")`: drops the API prefix at the end of the base. */
  function StripApiSuffix(base: string): (r: string)
    ensures EndsWith(base, "/api/v1") ==> base == r + "/api/v1"
    ensures !EndsWith(base, "/api/v1") ==> r == base
  {
    if EndsWith(base, "/api/v1") then base[..|base| - 7] else base
  }

  /**
   * The joining of a relative path to the API base that both URL builders
   * share: files under "/static/" are served from the site root (the base
   * without its "/api/v1"), every other path is put after the base with a
   * "/" between.
   */
  function ApiUrl(base: string, path: string): (r: string)
  {
    if StartsWith(path, "/static/") then StripTrailingSlash(StripApiSuffix(base)) + path
    else StripTrailingSlash(base) + (if StartsWith(path, "/") then path else "/" + path)
  }

  /** The joined URL ends with the path it was given. */
  lemma ApiUrlEndsWithPath(base: string, path: string)
    ensures EndsWith(ApiUrl(base, path), path)
  {
    var r := ApiUrl(base, path);
    if StartsWith(path, "/static/") || StartsWith(path, "/") {
      assert r[|r| - |path|..] == path;
    } else {
      var b := StripTrailingSlash(base);
      assert r == (b + "/") + path;
      assert r[|r| - |path|..] == path;
    }
  }

  /** A static file loses the "/api/v1" of the base and any slash before it. */
  lemma StaticFromSiteRoot(site: string, path: string)
    requires StartsWith(path, "/static/")
    ensures ApiUrl(site + "/api/v1", path) == StripTrailingSlash(site) + path
  {
    var b := site + "/api/v1";
    assert b[|b| - 7..] == "/api/v1";
    assert b[..|b| - 7] == site;
  }

  /**
   * Outside "/static/", exactly one slash joins the base and a path that
   * does not itself start with two, whether or not the base ends with one
   * or the path starts with one.
   */
  lemma ApiUrlOneSlash(base: string, path: string)
    requires !StartsWith(path, "/static/") && !StartsWith(path, "//") && !EndsWith(base, "//")
    ensures var b := StripTrailingSlash(base);
            var q := if StartsWith(path, "/") then path else "/" + path;
            ApiUrl(base, path) == b + q && !EndsWith(b, "/") && q[0] == '/'
            && (|q| < 2 || q[1] != '/')
  {
    StrippedHasNoSlash(base);
    if StartsWith(path, "/") && |path| >= 2 {
      assert path[..2] != "//";
    }
  }

  /** `/^https?:\/\//i`: an http or https scheme, in any letter case. */
  predicate HttpScheme(path: string) {
    StartsWith(Lower(path), "http://") || StartsWith(Lower(path), "https://")
  }

  /** A prefix without capital letters keeps its letters under Lower. */
  lemma LowerKeepsPrefix(s: string, p: string)
    requires StartsWith(s, p) && forall k :: 0 <= k < |p| ==> !IsUpper(p[k])
    ensures StartsWith(Lower(s), p)
  {
    LowerAt(s);
    assert forall k :: 0 <= k < |p| ==> Lower(s)[k] == p[k] by {
      forall k | 0 <= k < |p| ensures Lower(s)[k] == p[k] {
        assert s[k] == p[k];
      }
    }
  }

  /** A lower-case http or https prefix is an http scheme. */
  lemma LowerSchemeIsHttp(s: string)
    requires StartsWith(s, "http://") || StartsWith(s, "https://")
    ensures HttpScheme(s)
  {
    if StartsWith(s, "http://") {
      LowerKeepsPrefix(s, "http://");
    } else {
      LowerKeepsPrefix(s, "https://");
    }
  }

  /**
   * buildAbsoluteAssetUrl (and getImageUrlSync, which returns it): no path
   * gives the bundled fallback image, an http(s) or data: URL is used as it
   * is, and any other path is joined to the API base; the path is always
   * the tail of the result.
   */
  function AssetUrl(base: string, path: Option<string>, fallback: string): (r: string)
    ensures !Truthy(path) ==> r == fallback
    ensures Truthy(path) && (HttpScheme(path.value) || StartsWith(path.value, "data:")) ==> r == path.value
    ensures Truthy(path) && !HttpScheme(path.value) && !StartsWith(path.value, "data:")
            ==> r == ApiUrl(base, path.value)
    ensures Truthy(path) ==> EndsWith(r, path.value)
  {
    if !Truthy(path) then fallback
    else if HttpScheme(path.value) || StartsWith(path.value, "data:") then
      assert path.value[|path.value| - |path.value|..] == path.value;
      path.value
    else
      ApiUrlEndsWithPath(base, path.value);
      ApiUrl(base, path.value)
  }
}
