/**
 * The request dispatcher as a pure decision. `Decide` says what one request
 * gets, given the configuration, the library calls, the filesystem and the
 * clock; `Apply` says how that reply is written onto a response; `Trace`
 * lists the paths that get a stat. The imperative handlers of `Core.Server`
 * are proved to write exactly `Apply(old state, Decide(...))`.
 */
module Dispatch {
  import opened Http
  import opened Platform
  import opened ServerConfig
  import opened CacheValidator
  import opened ContentNegotiator
  import opened HotlinkGuard
  import opened DirectoryListing

  /** The possible outcomes of one request. */
  datatype Reply =
    | NotModified(validators: Validators)
    | Served(path: string, validators: Validators, contentType: string, encoding: Encoding)
    | Blocked
    | Listing(entries: seq<Entry>)
    | NotFound
    | NoReply

  const HtmlType := "text/html; charset=utf-8"

  /** The headers after `Content-Encoding` is set for a compressing reply. */
  function WithEncoding(h: map<string, string>, e: Encoding): map<string, string>
  {
    if e == Identity then h else h["Content-Encoding" := EncodingName(e)]
  }

  /** The response state after `r` is written onto a response in state `s`. */
  function Apply(s: Snapshot, r: Reply): (t: Snapshot)
    ensures t.status == if r.NotModified? then 304 else if r.NotFound? then 404 else s.status
    ensures !r.NoReply? ==> t.body != Unsent
  {
    match r
    case NotModified(v) =>
      Snapshot(304, WithValidators(s.headers, v), Empty, s.ends + 1)
    case Served(path, v, contentType, e) =>
      Snapshot(s.status, WithEncoding(WithValidators(s.headers, v)["Content-Type" := contentType], e),
               FileStream(path, e), s.ends + 1)
    case Blocked =>
      s.(body := ErrorImage, ends := s.ends + 1)
    case Listing(entries) =>
      s.(headers := s.headers["Content-Type" := HtmlType], body := Page(entries), ends := s.ends + 1)
    case NotFound =>
      s.(status := 404, body := Text("404"), ends := s.ends + 1)
    case NoReply =>
      s
  }

  /** The decoded pathname of a request URL; None when `url.parse` or `decodeURIComponent` throws. */
  function Pathname(lib: Lib, url: string): (r: Option<string>)
    ensures r.Some? <==> lib.urlPathname(url).Some? && lib.decodeUri(lib.urlPathname(url).value).Some?
    ensures r.Some? ==> r == lib.decodeUri(lib.urlPathname(url).value)
  {
    match lib.urlPathname(url)
    case None => None
    case Some(raw) => lib.decodeUri(raw)
  }

  /** The working directory, the configured root and the pathname, joined in that order. */
  function AbsPath(lib: Lib, cfg: Config, pathname: string): string
  {
    lib.join([lib.cwd, cfg.dir, pathname])
  }

  /** A regular file that the hotlink guard let through: "not modified", or its bytes. */
  function FileReply(lib: Lib, req: Request, now: int, absPath: string, ctime: int, content: seq<byte>): (r: Reply)
    ensures r.NotModified? || r.Served?
    ensures r.validators == ValidatorsOf(lib, now, ctime, content)
    ensures r.NotModified? <==> IsFresh(req.headers, ValidatorsOf(lib, now, ctime, content))
    ensures r.Served? ==>
              r.path == absPath && r.contentType == ContentType(lib.mimeType(absPath))
              && r.encoding == ChooseEncoding(req.headers)
  {
    var v := ValidatorsOf(lib, now, ctime, content);
    if IsFresh(req.headers, v) then NotModified(v)
    else Served(absPath, v, ContentType(lib.mimeType(absPath)), ChooseEncoding(req.headers))
  }

  /**
   * Whether the `try` block of `handlerPath` throws for `absPath`: the stat
   * fails, or it finds a file and the hotlink guard rejects.
   */
  function Throws(cfg: Config, lib: Lib, fs: FileSystem, req: Request, absPath: string): (r: bool)
    ensures r <==> absPath !in fs
                   || (fs[absPath].File? && lib.extname(absPath) in cfg.pic && Referrer(req.headers) != ""
                       && lib.urlHost(Referrer(req.headers)) == ParseThrows)
  {
    absPath !in fs || (fs[absPath].File? && Guard(cfg.pic, lib, req.headers, absPath) == Throw)
  }

  /**
   * The `try` block of `handlerPath` for `absPath`: None when it throws, else
   * the reply it writes; `pathname` is the one the client asked for.
   */
  function TryPath(cfg: Config, lib: Lib, fs: FileSystem, req: Request, now: int,
                   pathname: string, absPath: string): (r: Option<Reply>)
    ensures r.None? <==> Throws(cfg, lib, fs, req, absPath)
  {
    if absPath !in fs then None
    else match fs[absPath]
      case File(ctime, _, content) =>
        (match Guard(cfg.pic, lib, req.headers, absPath)
         case Allow => Some(FileReply(lib, req, now, absPath, ctime, content))
         case Block => Some(Blocked)
         case Throw => None)
      case Directory(_, _, names) =>
        Some(Listing(FileList(pathname, names, lib.join)))
      case Other =>
        Some(NoReply)
  }

  /** `handlerPath`: the `try` block, or when it throws the callback: the ".json" retry if `retry`, else 404. */
  function AtPath(cfg: Config, lib: Lib, fs: FileSystem, req: Request, now: int,
                  pathname: string, absPath: string, retry: bool): (r: Reply)
    ensures r == NotFound <==>
              Throws(cfg, lib, fs, req, absPath) && (!retry || Throws(cfg, lib, fs, req, absPath + ".json"))
    ensures !Throws(cfg, lib, fs, req, absPath) ==> Some(r) == TryPath(cfg, lib, fs, req, now, pathname, absPath)
    decreases retry
  {
    match TryPath(cfg, lib, fs, req, now, pathname, absPath)
    case Some(r) => r
    case None => if retry then AtPath(cfg, lib, fs, req, now, pathname, absPath + ".json", false) else NotFound
  }

  /** The paths stat'ed by `AtPath`, in order. */
  function Attempts(cfg: Config, lib: Lib, fs: FileSystem, req: Request, absPath: string, retry: bool): (r: seq<string>)
    ensures 1 <= |r| <= 2 && r[0] == absPath
    ensures |r| == 2 <==> retry && Throws(cfg, lib, fs, req, absPath)
    ensures |r| == 2 ==> r[1] == absPath + ".json"
    decreases retry
  {
    [absPath] + if Throws(cfg, lib, fs, req, absPath) && retry then Attempts(cfg, lib, fs, req, absPath + ".json", false) else []
  }

  /** What the server answers to `req`. */
  function Decide(cfg: Config, lib: Lib, fs: FileSystem, req: Request, now: int): (r: Reply)
    ensures Pathname(lib, req.url).None? ==> r == NoReply
    ensures Pathname(lib, req.url).Some? ==>
              var pathname := Pathname(lib, req.url).value;
              var absPath := AbsPath(lib, cfg, pathname);
              r == NotFound
              || Some(r) == TryPath(cfg, lib, fs, req, now, pathname, absPath)
              || Some(r) == TryPath(cfg, lib, fs, req, now, pathname, absPath + ".json")
  {
    match Pathname(lib, req.url)
    case None => NoReply
    case Some(pathname) => AtPath(cfg, lib, fs, req, now, pathname, AbsPath(lib, cfg, pathname), true)
  }

  /** The paths stat'ed while answering `req`. */
  function Trace(cfg: Config, lib: Lib, fs: FileSystem, req: Request): (r: seq<string>)
    ensures r == [] <==> Pathname(lib, req.url).None?
  {
    match Pathname(lib, req.url)
    case None => []
    case Some(pathname) => Attempts(cfg, lib, fs, req, AbsPath(lib, cfg, pathname), true)
  }

  // ---------------------------------------------------------------------------
  // Dispatch and fallback

  /** A URL that `url.parse` rejects gets no stat and no response. */
  lemma UnparsableUrlIgnored(cfg: Config, lib: Lib, fs: FileSystem, req: Request, now: int)
    requires lib.urlPathname(req.url).None?
    ensures Decide(cfg, lib, fs, req, now) == NoReply && Trace(cfg, lib, fs, req) == []
  {
  }

  /**
   * At most two stats: the resolved path, then, only if its `try` block threw,
   * the path with ".json" appended. No path is tried a third time.
   */
  lemma AtMostTwoStats(cfg: Config, lib: Lib, fs: FileSystem, req: Request)
    ensures var t := Trace(cfg, lib, fs, req);
            |t| <= 2
            && (Pathname(lib, req.url).Some? ==> |t| >= 1 && t[0] == AbsPath(lib, cfg, Pathname(lib, req.url).value))
            && (|t| == 2 ==> Throws(cfg, lib, fs, req, t[0]) && t[1] == t[0] + ".json")
            && (|t| == 1 ==> !Throws(cfg, lib, fs, req, t[0]))
  {
  }

  /** 404 with body "404" exactly when the `try` block throws for both the path and its ".json" sibling. */
  lemma NotFoundIff(cfg: Config, lib: Lib, fs: FileSystem, req: Request, now: int)
    ensures Decide(cfg, lib, fs, req, now) == NotFound <==>
              Pathname(lib, req.url).Some? &&
              var absPath := AbsPath(lib, cfg, Pathname(lib, req.url).value);
              Throws(cfg, lib, fs, req, absPath) && Throws(cfg, lib, fs, req, absPath + ".json")
  {
  }

  /** A `try` block that completes never leads to a 404. */
  lemma CompletedTryNeverNotFound(cfg: Config, lib: Lib, fs: FileSystem, req: Request, now: int,
                                  pathname: string, absPath: string)
    requires TryPath(cfg, lib, fs, req, now, pathname, absPath).Some?
    ensures TryPath(cfg, lib, fs, req, now, pathname, absPath).value != NotFound
  {
  }

  /**
   * An existing picture whose referrer makes `url.parse` throw is handled
   * like a missing path: its ".json" sibling gets a stat, and a 404 follows
   * when that sibling is missing too.
   */
  lemma RejectedGuardRetries(cfg: Config, lib: Lib, fs: FileSystem, req: Request, now: int, pathname: string)
    requires Pathname(lib, req.url) == Some(pathname)
    requires var absPath := AbsPath(lib, cfg, pathname);
             absPath in fs && fs[absPath].File? && lib.extname(absPath) in cfg.pic
    requires Referrer(req.headers) != "" && lib.urlHost(Referrer(req.headers)) == ParseThrows
    ensures var absPath := AbsPath(lib, cfg, pathname);
            Trace(cfg, lib, fs, req) == [absPath, absPath + ".json"]
            && (absPath + ".json" !in fs ==> Decide(cfg, lib, fs, req, now) == NotFound)
  {
  }

  /**
   * When the `try` block throws for the path but not for its ".json" sibling,
   * the sibling is handled as the request's own path would be, with one
   * difference: a directory is listed under the pathname the client asked
   * for, without ".json".
   */
  lemma JsonFallback(cfg: Config, lib: Lib, fs: FileSystem, req: Request, now: int, pathname: string)
    requires Pathname(lib, req.url) == Some(pathname)
    requires Throws(cfg, lib, fs, req, AbsPath(lib, cfg, pathname))
    requires !Throws(cfg, lib, fs, req, AbsPath(lib, cfg, pathname) + ".json")
    ensures var json := AbsPath(lib, cfg, pathname) + ".json";
            Some(Decide(cfg, lib, fs, req, now)) == TryPath(cfg, lib, fs, req, now, pathname, json)
    ensures var json := AbsPath(lib, cfg, pathname) + ".json";
            fs[json].Directory? ==>
              Decide(cfg, lib, fs, req, now) == Listing(FileList(pathname, fs[json].names, lib.join))
  {
  }

  /** Nothing is written only when the URL does not decode or the path handled is neither file nor directory. */
  lemma NoReplyIff(cfg: Config, lib: Lib, fs: FileSystem, req: Request, now: int)
    ensures Decide(cfg, lib, fs, req, now) == NoReply <==>
              match Pathname(lib, req.url)
              case None => true
              case Some(pathname) =>
                var absPath := AbsPath(lib, cfg, pathname);
                if !Throws(cfg, lib, fs, req, absPath) then fs[absPath].Other?
                else !Throws(cfg, lib, fs, req, absPath + ".json") && fs[absPath + ".json"].Other?
  {
  }

  /** The mtime of a file never changes the reply: only its ctime and bytes matter. */
  lemma MtimeIgnored(cfg: Config, lib: Lib, fs: FileSystem, req: Request, now: int,
                     path: string, ctime: int, mtime1: int, mtime2: int, content: seq<byte>)
    ensures Decide(cfg, lib, fs[path := File(ctime, mtime1, content)], req, now)
         == Decide(cfg, lib, fs[path := File(ctime, mtime2, content)], req, now)
  {
  }

  // ---------------------------------------------------------------------------
  // Cache validation and the hotlink guard, seen from the whole request

  /** "Not modified" needs both conditional headers, each equal to the served file's validator. */
  lemma NotModifiedNeedsBothHeaders(cfg: Config, lib: Lib, fs: FileSystem, req: Request, now: int)
    requires Decide(cfg, lib, fs, req, now).NotModified?
    ensures var v := Decide(cfg, lib, fs, req, now).validators;
            "if-none-match" in req.headers && req.headers["if-none-match"] == v.etag
            && "if-modified-since" in req.headers && req.headers["if-modified-since"] == v.lastModified
  {
  }

  /** A request that lacks either conditional header is never answered 304. */
  lemma NoConditionalHeadersNever304(cfg: Config, lib: Lib, fs: FileSystem, req: Request, now: int)
    requires "if-none-match" !in req.headers || "if-modified-since" !in req.headers
    ensures Apply(Initial, Decide(cfg, lib, fs, req, now)).status != 304
  {
  }

  /**
   * An existing file answers 304 exactly when it passes the guard and both
   * validators are echoed, or when the guard rejects and the ".json" sibling
   * answers 304.
   */
  lemma FileNotModifiedIff(cfg: Config, lib: Lib, fs: FileSystem, req: Request, now: int, pathname: string)
    requires Pathname(lib, req.url) == Some(pathname)
    requires AbsPath(lib, cfg, pathname) in fs && fs[AbsPath(lib, cfg, pathname)].File?
    ensures var absPath := AbsPath(lib, cfg, pathname);
            var file := fs[absPath];
            var verdict := Guard(cfg.pic, lib, req.headers, absPath);
            Decide(cfg, lib, fs, req, now).NotModified? <==>
              (verdict == Allow && IsFresh(req.headers, ValidatorsOf(lib, now, file.ctime, file.content)))
              || (verdict == Throw && AtPath(cfg, lib, fs, req, now, pathname, absPath + ".json", false).NotModified?)
  {
  }

  /** Only a picture, requested with a referrer whose host parses and is foreign, is blocked. */
  lemma BlockedOnlyForForeignPictures(cfg: Config, lib: Lib, fs: FileSystem, req: Request, now: int)
    requires Decide(cfg, lib, fs, req, now) == Blocked
    ensures var pathname := Pathname(lib, req.url).value;
            var absPath := AbsPath(lib, cfg, pathname);
            var found := if !Throws(cfg, lib, fs, req, absPath) then absPath else absPath + ".json";
            found in fs && fs[found].File?
            && lib.extname(found) in cfg.pic
            && Referrer(req.headers) != ""
            && lib.urlHost(Referrer(req.headers)).ParsedHost?
            && lib.urlHost(Referrer(req.headers)).host != Header(req.headers, "host")
  {
  }

  // ---------------------------------------------------------------------------
  // What each reply puts on the wire

  /** Every reply except NoReply finishes the response exactly once; NoReply writes nothing at all. */
  lemma OneEndPerReply(s: Snapshot, r: Reply)
    ensures Apply(s, r).ends == if r.NoReply? then s.ends else s.ends + 1
    ensures r.NoReply? ==> Apply(s, r) == s
  {
  }

  /** A 304 has an empty body and only the validator headers: no type, no encoding, no stream. */
  lemma NotModifiedOnTheWire(v: Validators)
    ensures var s := Apply(Initial, NotModified(v));
            s.status == 304 && s.body == Empty
            && s.headers.Keys == {"Expires", "Last-Modified", "Cache-Control", "Etag"}
            && "Content-Type" !in s.headers && "Content-Encoding" !in s.headers
  {
  }

  /**
   * A served file keeps status 200 and carries the validators, the content
   * type, and `Content-Encoding` exactly when it is compressed, naming the
   * scheme its bytes are compressed with.
   */
  lemma ServedOnTheWire(path: string, v: Validators, contentType: string, e: Encoding)
    ensures var s := Apply(Initial, Served(path, v, contentType, e));
            s.status == 200 && s.body == FileStream(path, e)
            && s.headers["Content-Type"] == contentType && s.headers["Etag"] == v.etag
            && ("Content-Encoding" in s.headers <==> e != Identity)
            && (e != Identity ==> s.headers["Content-Encoding"] == EncodingName(e))
  {
  }

  /** A blocked picture gets the error image and no header at all: no validator was computed. */
  lemma BlockedOnTheWire(s: Snapshot)
    ensures Apply(s, Blocked) == s.(body := ErrorImage, ends := s.ends + 1)
    ensures Apply(Initial, Blocked).headers == map[]
  {
  }

  /** A NotFound reply is status 404 with body "404", no header, ended once. */
  lemma NotFoundOnTheWire()
    ensures Apply(Initial, NotFound) == Snapshot(404, map[], Text("404"), 1)
  {
  }

  /** Every non-304 file response is typed by the MIME lookup (or text/plain) and encoded as negotiated. */
  lemma FileResponseHeaders(cfg: Config, lib: Lib, fs: FileSystem, req: Request, now: int)
    requires Apply(Initial, Decide(cfg, lib, fs, req, now)).body.FileStream?
    ensures var s := Apply(Initial, Decide(cfg, lib, fs, req, now));
            s.status == 200
            && s.headers["Content-Type"] == ContentType(lib.mimeType(s.body.path))
            && s.body.encoding == ChooseEncoding(req.headers)
            && ("Content-Encoding" in s.headers <==> ChooseEncoding(req.headers) != Identity)
  {
  }
}
