/** The `data:` URI prefix rule used wherever raw base64 image data is handed to an image element. */
module DataUri {

  const Scheme: string := "data:"

  /** The mime type an image is assumed to have when the caller names none, and the default output format. */
  const PngMime: string := "image/png"

  predicate StartsWith(s: string, prefix: string) {
    |prefix| <= |s| && s[..|prefix|] == prefix
  }

  predicate EndsWith(s: string, suffix: string) {
    |suffix| <= |s| && s[|s| - |suffix|..] == suffix
  }

  /** The header put in front of raw base64 data of the given mime type. */
  function Header(mime: string): (h: string)
    ensures StartsWith(h, Scheme)
  {
    Scheme + mime + ";base64,"
  }

  /**
   * `s.startsWith('data:') ? s : `data:${mime};base64,${s}``: a string that
   * already is a data URI is kept; raw data gets the header of `mime`.
   */
  function WithPrefix(s: string, mime: string): (r: string)
    ensures StartsWith(r, Scheme)
    ensures EndsWith(r, s)
    ensures r == s <==> StartsWith(s, Scheme)
    ensures !StartsWith(s, Scheme) ==> |r| == |Header(mime)| + |s| && StartsWith(r, Header(mime))
  {
    if StartsWith(s, Scheme) then s
    else
      var r := Header(mime) + s;
      assert r[..|Header(mime)|] == Header(mime);
      assert r[..|Scheme|] == Header(mime)[..|Scheme|];
      r
  }

  /** Prefixing is idempotent, whatever mime type the second application names. */
  lemma WithPrefixIdempotent(s: string, mime: string, mime2: string)
    ensures WithPrefix(WithPrefix(s, mime), mime2) == WithPrefix(s, mime)
  {
  }
}
