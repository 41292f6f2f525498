/**
 * The download link of a request's document on the request detail page
 * (src/pages/RequestDetailPage/lib/getDocumentUrl.ts).
 */
module MiniDocuments {
  import opened Common
  import opened MiniLib

  /**
   * getDocumentUrl: an empty path gives the empty link, an http:// or
   * https:// URL (lower-case scheme only) is used as it is, and any other
   * path is joined to the API base.
   */
  function DocumentUrl(base: string, path: string): (r: string)
    ensures path == "" ==> r == ""
    ensures StartsWith(path, "http://") || StartsWith(path, "https://") ==> r == path
    ensures path != "" && !StartsWith(path, "http://") && !StartsWith(path, "https://")
            ==> r == ApiUrl(base, path)
    ensures EndsWith(r, path)
  {
    if path == "" then ""
    else if StartsWith(path, "http://") || StartsWith(path, "https://") then
      assert path[|path| - |path|..] == path;
      path
    else
      ApiUrlEndsWithPath(base, path);
      ApiUrl(base, path)
  }

  /**
   * Apart from the data: URLs and the letter case of the scheme, the
   * document link and the asset URL builder agree on every non-empty path.
   */
  lemma DocumentUrlIsAssetUrl(base: string, path: string, fallback: string)
    requires path != "" && !StartsWith(path, "data:")
    requires HttpScheme(path) ==> StartsWith(path, "http://") || StartsWith(path, "https://")
    ensures DocumentUrl(base, path) == AssetUrl(base, Some(path), fallback)
  {
    if StartsWith(path, "http://") || StartsWith(path, "https://") {
      LowerSchemeIsHttp(path);
    }
  }
}
