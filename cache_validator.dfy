/**
 * The cache validator: the validator headers set on every file response and
 * the freshness rule. The rule is an exact-string AND of the two conditional
 * request headers: `If-None-Match` must equal the content digest and
 * `If-Modified-Since` must equal the GMT string of the file's ctime. It is a
 * much simplified form of the conditional GET of sections 13.1.2-13.1.3 and
 * 15.4.5 of RFC 9110; the code's rule is modelled, not the RFC's.
 */
module CacheValidator {
  import opened Http
  import opened Platform

  /** The values of `Expires`, `Last-Modified` and `Etag`; `Cache-Control` is always "no-cache". */
  datatype Validators = Validators(expires: string, lastModified: string, etag: string)

  const NoCache := "no-cache"

  /**
   * The validators for a file with status change time `ctime` and bytes
   * `content`, read at clock time `now`: expiry ten seconds after `now`, the
   * ctime (not the mtime) as last modification, the digest of the bytes as tag.
   */
  function ValidatorsOf(lib: Lib, now: int, ctime: int, content: seq<byte>): (v: Validators)
    ensures v.expires == lib.gmt(now + 10 * 1000)
    ensures v.lastModified == lib.gmt(ctime)
    ensures v.etag == lib.digest(content)
  {
    Validators(lib.gmt(now + 10 * 1000), lib.gmt(ctime), lib.digest(content))
  }

  /** The response headers after the validator has set its four headers, in its order. */
  function WithValidators(h: map<string, string>, v: Validators): (r: map<string, string>)
    ensures r.Keys == h.Keys + {"Expires", "Last-Modified", "Cache-Control", "Etag"}
    ensures r["Expires"] == v.expires && r["Last-Modified"] == v.lastModified
    ensures r["Cache-Control"] == NoCache && r["Etag"] == v.etag
    ensures forall k :: k in h && k !in {"Expires", "Last-Modified", "Cache-Control", "Etag"} ==> r[k] == h[k]
  {
    h["Expires" := v.expires]["Last-Modified" := v.lastModified]["Cache-Control" := NoCache]["Etag" := v.etag]
  }

  /**
   * Fresh ("not modified"): the tag test first, then the date test, each a
   * strict comparison in which an absent header never matches.
   */
  function IsFresh(h: Headers, v: Validators): (r: bool)
    ensures r <==> ("if-none-match" in h && h["if-none-match"] == v.etag
                        && "if-modified-since" in h && h["if-modified-since"] == v.lastModified)
  {
    if Header(h, "if-none-match") != Some(v.etag) then false
    else if Header(h, "if-modified-since") != Some(v.lastModified) then false
    else true
  }

  /** A request lacking either conditional header is always stale; in particular one with neither. */
  lemma MissingConditionalIsStale(h: Headers, v: Validators)
    requires "if-none-match" !in h || "if-modified-since" !in h
    ensures !IsFresh(h, v)
  {
  }

  /** A matching tag alone is not enough: the date must match as well (and vice versa). */
  lemma BothValidatorsNeeded(h: Headers, v: Validators)
    requires IsFresh(h, v)
    ensures !IsFresh(h - {"if-modified-since"}, v)
    ensures !IsFresh(h - {"if-none-match"}, v)
  {
  }

  /**
   * A client that echoes back the `Etag` and `Last-Modified` it was given gets
   * "fresh" as long as the bytes and the ctime are unchanged, whatever the
   * clock says (for the mtime, see `Dispatch.MtimeIgnored`).
   */
  lemma EchoedValidatorsAreFresh(lib: Lib, h: Headers, now1: int, now2: int, ctime: int, content: seq<byte>)
    ensures var v1 := ValidatorsOf(lib, now1, ctime, content);
            IsFresh(h["if-none-match" := v1.etag]["if-modified-since" := v1.lastModified],
                    ValidatorsOf(lib, now2, ctime, content))
  {
  }

  /** Freshness never depends on the clock: `Expires` takes no part in it. */
  lemma FreshnessIgnoresClock(lib: Lib, h: Headers, now1: int, now2: int, ctime: int, content: seq<byte>)
    ensures IsFresh(h, ValidatorsOf(lib, now1, ctime, content)) == IsFresh(h, ValidatorsOf(lib, now2, ctime, content))
  {
  }
}
