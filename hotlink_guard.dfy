/**
 * The hotlink guard: a picture requested from a page on another host is
 * refused (the server streams its error image instead). Only paths whose
 * extension is in the configured picture list are guarded, and a request that
 * carries no referrer is always let through. Parsing the referrer can throw,
 * and then the guard's promise rejects.
 */
module HotlinkGuard {
  import opened Http
  import opened Platform

  /** `headers["referer"] || headers["referrer"] || ""`: the first non-empty spelling wins. */
  function Referrer(h: Headers): (r: string)
    ensures "referer" in h && h["referer"] != "" ==> r == h["referer"]
    ensures ("referer" !in h || h["referer"] == "") && "referrer" in h && h["referrer"] != "" ==> r == h["referrer"]
    ensures r == "" <==> ("referer" !in h || h["referer"] == "") && ("referrer" !in h || h["referrer"] == "")
  {
    HeaderOr(h, "referer", HeaderOr(h, "referrer", ""))
  }

  /** How `handlerImg` settles: resolves true, resolves false (error image sent), or rejects. */
  datatype Verdict = Allow | Block | Throw

  /**
   * The guard's verdict. The referrer's host (None when `url.parse` finds
   * none) is compared with the `Host` header (None when absent) by
   * JavaScript's loose `!=`, under which `null` and `undefined` are equal:
   * that is equality of the two options. When `url.parse` throws, the
   * guard rejects.
   */
  function Guard(pic: seq<string>, lib: Lib, h: Headers, absPath: string): (r: Verdict)
    ensures lib.extname(absPath) !in pic ==> r == Allow
    ensures Referrer(h) == "" ==> r == Allow
    ensures lib.extname(absPath) in pic && Referrer(h) != "" ==>
              (r == Throw <==> lib.urlHost(Referrer(h)) == ParseThrows)
              && (lib.urlHost(Referrer(h)).ParsedHost? ==>
                    (r == Allow <==> lib.urlHost(Referrer(h)).host == Header(h, "host")))
  {
    if lib.extname(absPath) in pic then
      var referrer := Referrer(h);
      if referrer != "" then
        match lib.urlHost(referrer)
        case ParseThrows => Throw
        case ParsedHost(host) => if host != Header(h, "host") then Block else Allow
      else Allow
    else Allow
  }

  /** Blocked exactly when all three hold: a picture, a referrer, and a host that parses and is foreign. */
  lemma BlockedIff(pic: seq<string>, lib: Lib, h: Headers, absPath: string)
    ensures Guard(pic, lib, h, absPath) == Block <==>
              lib.extname(absPath) in pic && Referrer(h) != ""
              && lib.urlHost(Referrer(h)).ParsedHost? && lib.urlHost(Referrer(h)).host != Header(h, "host")
  {
  }

  /** The guard rejects exactly for a picture whose non-empty referrer makes `url.parse` throw. */
  lemma ThrowIff(pic: seq<string>, lib: Lib, h: Headers, absPath: string)
    ensures Guard(pic, lib, h, absPath) == Throw <==>
              lib.extname(absPath) in pic && Referrer(h) != "" && lib.urlHost(Referrer(h)) == ParseThrows
  {
  }

  /** A page on the same host may embed the picture. */
  lemma SameHostAllowed(pic: seq<string>, lib: Lib, h: Headers, absPath: string, host: string)
    requires "host" in h && h["host"] == host
    requires lib.urlHost(Referrer(h)) == ParsedHost(Some(host))
    ensures Guard(pic, lib, h, absPath) == Allow
  {
  }

  /** `referer` shadows `referrer`: a foreign `referer` blocks even when `referrer` names this host. */
  lemma RefererShadowsReferrer(pic: seq<string>, lib: Lib, h: Headers, absPath: string, foreign: Option<string>)
    requires lib.extname(absPath) in pic
    requires "referer" in h && h["referer"] != "" && "referrer" in h
    requires lib.urlHost(h["referer"]) == ParsedHost(foreign) && foreign != Header(h, "host")
    requires lib.urlHost(h["referrer"]) == ParsedHost(Header(h, "host"))
    ensures Guard(pic, lib, h, absPath) == Block
  {
  }

  /** Under the loose comparison, a referrer without a host passes when the request has no `Host` either. */
  lemma HostlessReferrerWithoutHost(pic: seq<string>, lib: Lib, h: Headers, absPath: string)
    requires "host" !in h
    requires lib.urlHost(Referrer(h)) == ParsedHost(None)
    ensures Guard(pic, lib, h, absPath) == Allow
  {
  }
}
