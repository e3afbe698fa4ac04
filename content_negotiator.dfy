/**
 * The content negotiator: the `Content-Type` of a served file and the choice
 * of compression from `Accept-Encoding` by plain substring tests, gzip before
 * deflate. This simplifies sections 8.4 and 12.5.3 of RFC 9110: q-values,
 * `identity` and `*` are not looked at.
 */
module ContentNegotiator {
  import opened Http

  /** `sub` occurs in `s` starting at position `i`. */
  predicate OccursAt(s: string, sub: string, i: int)
  {
    0 <= i <= |s| - |sub| && s[i..i + |sub|] == sub
  }

  /** `s.includes(sub)`: `sub` occurs somewhere in `s` as a contiguous piece. */
  function Includes(s: string, sub: string): (r: bool)
    ensures r <==> exists i :: OccursAt(s, sub, i)
    decreases |s|
  {
    if |sub| > |s| then false
    else if s[..|sub|] == sub then
      assert OccursAt(s, sub, 0);
      true
    else
      OccursLater(s, sub);
      Includes(s[1..], sub)
  }

  /** When `sub` is not a prefix of `s`, it occurs in `s` exactly when it occurs in `s[1..]`. */
  lemma OccursLater(s: string, sub: string)
    requires |sub| <= |s| && s[..|sub|] != sub
    ensures (exists i :: OccursAt(s, sub, i)) <==> (exists j :: OccursAt(s[1..], sub, j))
  {
    if j :| OccursAt(s[1..], sub, j) {
      assert s[j + 1..j + 1 + |sub|] == s[1..][j..j + |sub|];
      assert OccursAt(s, sub, j + 1);
    }
    if i :| OccursAt(s, sub, i) {
      assert s[0..|sub|] == s[..|sub|];
      assert s[1..][i - 1..i - 1 + |sub|] == s[i..i + |sub|];
      assert OccursAt(s[1..], sub, i - 1);
    }
  }

  /** An occurrence at a known position makes `Includes` hold. */
  lemma IncludesAt(s: string, sub: string, i: int)
    requires OccursAt(s, sub, i)
    ensures Includes(s, sub)
  {
  }

  /** `req.headers["accept-encoding"] || ""`. */
  function AcceptEncoding(h: Headers): string
  {
    HeaderOr(h, "accept-encoding", "")
  }

  /** gzip whenever "gzip" occurs, otherwise deflate whenever "deflate" occurs, otherwise none. */
  function ChooseEncoding(h: Headers): (e: Encoding)
    ensures e == Gzip <==> Includes(AcceptEncoding(h), "gzip")
    ensures e == Deflate <==> !Includes(AcceptEncoding(h), "gzip") && Includes(AcceptEncoding(h), "deflate")
    ensures e == Identity <==> !Includes(AcceptEncoding(h), "gzip") && !Includes(AcceptEncoding(h), "deflate")
  {
    var accept := AcceptEncoding(h);
    if Includes(accept, "gzip") then Gzip
    else if Includes(accept, "deflate") then Deflate
    else Identity
  }

  /** `(mime.getType(path) || "text/plain") + ";charset=utf-8"`. */
  function ContentType(mime: Option<string>): (t: string)
    ensures mime.Some? && mime.value != "" ==> t == mime.value + ";charset=utf-8"
    ensures mime.None? || mime.value == "" ==> t == "text/plain;charset=utf-8"
  {
    (if mime.Some? && mime.value != "" then mime.value else "text/plain") + ";charset=utf-8"
  }

  /** The type always ends in the charset suffix, whatever the lookup gives. */
  lemma ContentTypeHasCharset(mime: Option<string>)
    ensures var t := ContentType(mime);
            |t| >= |";charset=utf-8"| && t[|t| - |";charset=utf-8"|..] == ";charset=utf-8"
  {
  }

  /** No `Accept-Encoding` (or an empty one) means the bytes go out uncompressed. */
  lemma MissingAcceptEncodingIsIdentity(h: Headers)
    requires "accept-encoding" !in h || h["accept-encoding"] == ""
    ensures ChooseEncoding(h) == Identity
  {
  }

  /** A client accepting both gets gzip, in whichever order it lists them. */
  lemma {:induction false} GzipPreferredOverDeflate(h: Headers, before: string, between: string, after: string)
    requires "accept-encoding" in h && h["accept-encoding"] == before + "deflate" + between + "gzip" + after
    ensures ChooseEncoding(h) == Gzip
  {
    var prefix := before + "deflate" + between;
    var s := prefix + "gzip" + after;
    assert s[|prefix|..|prefix| + |"gzip"|] == "gzip";
    IncludesAt(s, "gzip", |prefix|);
  }

  /** A client that lists only deflate gets deflate. */
  lemma {:induction false} DeflateWithoutGzip(h: Headers, before: string, after: string)
    requires "accept-encoding" in h && h["accept-encoding"] == before + "deflate" + after
    requires !Includes(before + "deflate" + after, "gzip")
    ensures ChooseEncoding(h) == Deflate
  {
    var s := before + "deflate" + after;
    assert s[|before|..|before| + |"deflate"|] == "deflate";
    IncludesAt(s, "deflate", |before|);
  }
}
