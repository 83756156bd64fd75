/**
 * `AppConstants.NetworkService`: the service's base URL and the string that
 * `uri(path:)` hands to `URL(string:)`.
 */
module AppConstants {
  const Protocol: string := "https://"
  const Host: string := "facebook.com"
  const BaseUrl: string := Protocol + Host
  const ApiPath: string := "/api"

  /** `Undefined.kInt` and `Undefined.kString`, the app's placeholders. */
  const UndefinedInt: int := -1
  const UndefinedString: string := ""

  predicate HasSlashPrefix(s: string) {
    |s| > 0 && s[0] == '/'
  }

  /** The local `uri`: the path, with a "/" put in front unless it starts with one. */
  function NormalisedPath(path: string): (p: string)
    ensures HasSlashPrefix(p)
    ensures HasSlashPrefix(path) ==> p == path
    ensures !HasSlashPrefix(path) ==> p == "/" + path
  {
    if HasSlashPrefix(path) then path else "/" + path
  }

  /** `kBaseUrl + kAPIPath + uri`. */
  function UriString(path: string): string {
    BaseUrl + ApiPath + NormalisedPath(path)
  }

  /** Normalising twice is normalising once. */
  lemma NormalisationIdempotent(path: string)
    ensures NormalisedPath(NormalisedPath(path)) == NormalisedPath(path)
  {
  }

  /**
   * The URI string is the base URL, then "/api", then the normalised path;
   * it ends with the caller's path and is one character longer exactly when
   * that path lacked its slash.
   */
  lemma UriShape(path: string)
    ensures var u := UriString(path); var base := "https://facebook.com/api";
      && |u| == |base| + |path| + (if HasSlashPrefix(path) then 0 else 1)
      && u[..|base|] == base
      && HasSlashPrefix(u[|base|..])
      && u[|u| - |path|..] == path
  {
    var u := UriString(path);
    var base := "https://facebook.com/api";
    assert BaseUrl + ApiPath == base;
    assert u == base + NormalisedPath(path);
    if !HasSlashPrefix(path) {
      assert u == (base + "/") + path;
    }
  }
}
