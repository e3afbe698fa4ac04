/**
 * The `Server` object. Each request is handled by assigning the request, the
 * response, the decoded pathname and the absolute path to the server's own
 * fields and then running the handlers one after the other; each handler sets
 * status and headers on the response one at a time. Every handler is proved
 * to write what the pure decision in `Dispatch` says; `statted` is a ghost
 * record of the paths stat'ed for the current request and `listens` of the
 * ports listened on.
 */
module Core {
  import opened Http
  import opened Platform
  import opened ServerConfig
  import opened Listener
  import opened CacheValidator
  import opened ContentNegotiator
  import opened HotlinkGuard
  import opened DirectoryListing
  import opened Dispatch

  /** The callback `handlerPath` runs when the stat fails. */
  datatype Callback = RetryJson | ReportNotFound

  class Server {
    var config: Config
    const lib: Lib
    var req: Option<Request>
    var res: Response?
    var pathname: string
    var absPath: string
    ghost var statted: seq<string>
    ghost var listens: seq<int>

    /** The caller's options are merged over the defaults; no request has been seen yet. */
    constructor (user: UserConfig, lib: Lib)
      ensures config == Merge(user) && this.lib == lib
      ensures req == None && res == null && statted == [] && listens == []
    {
      this.config := Merge(user);
      this.lib := lib;
      req, res := None, null;
      pathname, absPath := "", "";
      statted, listens := [], [];
    }

    /**
     * `handlerRequest`: decode the pathname, join it under the root, and hand
     * the path to `handlerPath` with the ".json" retry as failure callback.
     * A URL that `url.parse` or `decodeURIComponent` rejects makes the handler
     * throw before any stat, so nothing is written.
     */
    method HandlerRequest(request: Request, response: Response, fs: FileSystem, now: int)
      modifies this, response
      ensures req == Some(request) && res == response
      ensures config == old(config) && listens == old(listens)
      ensures match Pathname(lib, request.url)
              case None => pathname == old(pathname) && absPath == old(absPath)
              case Some(p) => pathname == p && absPath == AbsPath(lib, config, p)
      ensures statted == Trace(config, lib, fs, request)
      ensures response.State() == Apply(old(response.State()), Decide(config, lib, fs, request, now))
    {
      req := Some(request);
      res := response;
      statted := [];
      var parsed := lib.urlPathname(request.url);
      if parsed.None? {
        return;
      }
      var decoded := lib.decodeUri(parsed.value);
      if decoded.None? {
        return;
      }
      var path := lib.join([lib.cwd, config.dir, decoded.value]);
      pathname := decoded.value;
      absPath := path;
      HandlerPath(path, RetryJson, fs, now);
    }

    /**
     * `handlerPath`: stat `path`; a file goes through the hotlink guard and
     * then `handlerFile`, a directory to `handlerDir`, anything else gets no
     * answer. A failed stat, or a guard that rejects, throws inside the `try`
     * block and runs the callback.
     */
    method HandlerPath(path: string, cb: Callback, fs: FileSystem, now: int)
      requires req.Some? && res != null
      modifies this`statted, res
      ensures statted == old(statted) + Attempts(config, lib, fs, req.value, path, cb == RetryJson)
      ensures res.State() == Apply(old(res.State()), AtPath(config, lib, fs, req.value, now, pathname, path, cb == RetryJson))
      decreases cb == RetryJson, 1
    {
      statted := statted + [path];
      var threw := false;
      if path in fs {
        var stat := fs[path];
        match stat
        case File(_, _, _) =>
          var verdict := HandlerImg(path);
          if verdict == Block {
            return;
          } else if verdict == Throw {
            threw := true;
          } else {
            HandlerFile(path, stat, now);
          }
        case Directory(_, _, names) =>
          HandlerDir(names);
        case Other =>
      } else {
        threw := true;
      }
      if threw {
        match cb
        case RetryJson => HandlerJSON(path, fs, now);
        case ReportNotFound => HandlerError();
      }
    }

    /** `handlerJSON`: try once more with ".json" appended; a second throw answers 404. */
    method HandlerJSON(path: string, fs: FileSystem, now: int)
      requires req.Some? && res != null
      modifies this`statted, res
      ensures statted == old(statted) + Attempts(config, lib, fs, req.value, path + ".json", false)
      ensures res.State() == Apply(old(res.State()), AtPath(config, lib, fs, req.value, now, pathname, path + ".json", false))
      decreases true, 0
    {
      HandlerPath(path + ".json", ReportNotFound, fs, now);
    }

    /**
     * `handlerImg`: when the guard blocks, the error image is streamed and
     * false returned; when `url.parse` throws, the promise rejects and nothing
     * is written.
     */
    method HandlerImg(path: string) returns (verdict: Verdict)
      requires req.Some? && res != null
      modifies res
      ensures verdict == Guard(config.pic, lib, req.value.headers, path)
      ensures res.State() == if verdict == Block then Apply(old(res.State()), Blocked) else old(res.State())
    {
      var extname := lib.extname(path);
      if extname in config.pic {
        var referrer := HeaderOr(req.value.headers, "referer", HeaderOr(req.value.headers, "referrer", ""));
        var host := Header(req.value.headers, "host");
        if referrer != "" {
          var parsed := lib.urlHost(referrer);
          if parsed.ParseThrows? {
            return Throw;
          }
          if parsed.host != host {
            res.End(ErrorImage);
            return Block;
          }
        }
      }
      return Allow;
    }

    /** `cache`: set the four validator headers and report whether the request is fresh. */
    method Cache(stat: Node, now: int) returns (isFresh: bool)
      requires stat.File? && req.Some? && res != null
      modifies res
      ensures var v := ValidatorsOf(lib, now, stat.ctime, stat.content);
              isFresh == IsFresh(req.value.headers, v)
              && res.State() == old(res.State()).(headers := WithValidators(old(res.headers), v))
    {
      res.SetHeader("Expires", lib.gmt(now + 10 * 1000));
      var ctime := lib.gmt(stat.ctime);
      res.SetHeader("Last-Modified", ctime);
      res.SetHeader("Cache-Control", NoCache);
      var content := stat.content;
      var ifModifiedSince := Header(req.value.headers, "if-modified-since");
      var ifNoneMatch := Header(req.value.headers, "if-none-match");
      var etag := lib.digest(content);
      res.SetHeader("Etag", etag);
      if ifNoneMatch != Some(etag) {
        return false;
      }
      if ifModifiedSince != Some(ctime) {
        return false;
      }
      return true;
    }

    /** `handlerFile`: 304 with an empty body when fresh, else typed and possibly compressed bytes. */
    method HandlerFile(path: string, stat: Node, now: int)
      requires stat.File? && req.Some? && res != null
      modifies res
      ensures res.State() == Apply(old(res.State()), FileReply(lib, req.value, now, path, stat.ctime, stat.content))
    {
      var isFresh := Cache(stat, now);
      if isFresh {
        res.statusCode := 304;
        res.End(Empty);
        return;
      }
      res.SetHeader("Content-Type", ContentType(lib.mimeType(path)));
      var encoding := IsAcceptGzip();
      res.End(FileStream(path, encoding));
    }

    /** `isAcceptGzip`: pick the compression and set `Content-Encoding` for it. */
    method IsAcceptGzip() returns (encoding: Encoding)
      requires req.Some? && res != null
      modifies res
      ensures encoding == ChooseEncoding(req.value.headers)
      ensures res.State() == old(res.State()).(headers := WithEncoding(old(res.headers), encoding))
    {
      var acceptEncoding := HeaderOr(req.value.headers, "accept-encoding", "");
      if Includes(acceptEncoding, "gzip") {
        res.SetHeader("Content-Encoding", "gzip");
        return Gzip;
      } else if Includes(acceptEncoding, "deflate") {
        res.SetHeader("Content-Encoding", "deflate");
        return Deflate;
      }
      return Identity;
    }

    /** `handlerDir`: list what readdir returned under the requested pathname, as HTML. */
    method HandlerDir(names: seq<string>)
      requires res != null
      modifies res
      ensures res.State() == Apply(old(res.State()), Listing(FileList(pathname, names, lib.join)))
    {
      var fileList := FileList(pathname, names, lib.join);
      res.SetHeader("Content-Type", HtmlType);
      res.End(Page(fileList));
    }

    /** `handlerError`: status 404, body "404". */
    method HandlerError()
      requires res != null
      modifies res
      ensures res.State() == Apply(old(res.State()), NotFound)
    {
      res.statusCode := 404;
      res.End(Text("404"));
    }

    /**
     * The `error` listener: on "address in use" move to the next port and
     * listen again. Past the last port, `listen` throws a RangeError inside
     * the listener and the process crashes.
     */
    method OnError(code: ErrorCode) returns (crashed: bool)
      requires ValidPort(config.port)
      modifies this`config, this`listens
      ensures code == AddrInUse ==>
                config == old(config).(port := old(config.port) + 1)
                && (crashed <==> config.port > MaxPort)
                && listens == old(listens) + (if crashed then [] else [config.port])
      ensures code != AddrInUse ==> config == old(config) && listens == old(listens) && !crashed
    {
      crashed := false;
      if code == AddrInUse {
        config := config.(port := config.port + 1);
        if !ValidPort(config.port) {
          return true;
        }
        listens := listens + [config.port];
      }
    }

    /**
     * `start`: listen on the configured port. Each attempt on a taken port
     * raises "address in use", which the `error` listener answers; this is
     * written here as a loop over the abstract set of taken ports. The result
     * is false when `listen` throws: at once for a port outside 0..65535, or
     * once every port from the configured one up to 65535 is taken.
     * Port 0 asks the system for any free port, so it is never reported taken.
     */
    method Start(inUse: set<int>) returns (listening: bool)
      requires 0 !in inUse
      modifies this`config, this`listens
      ensures listening <==> ValidPort(old(config.port)) && FirstFree(old(config.port), inUse) <= MaxPort
      ensures listening ==>
                config == old(config).(port := FirstFree(old(config.port), inUse))
                && listens == old(listens) + Ports(old(config.port), config.port + 1)
      ensures !listening && ValidPort(old(config.port)) ==>
                config == old(config).(port := MaxPort + 1)
                && listens == old(listens) + Ports(old(config.port), MaxPort + 1)
      ensures !ValidPort(old(config.port)) ==> config == old(config) && listens == old(listens)
    {
      if !ValidPort(config.port) {
        return false;
      }
      listens := listens + [config.port];
      listening := true;
      while listening && config.port in inUse
        invariant config == old(config).(port := config.port)
        invariant old(config.port) <= config.port <= MaxPort + 1
        invariant listening <==> config.port <= MaxPort
        invariant forall q :: old(config.port) <= q < config.port ==> q in inUse
        invariant listens == old(listens) + Ports(old(config.port), if listening then config.port + 1 else config.port)
        decreases |Above(inUse, config.port)|
      {
        AboveShrinks(config.port, inUse);
        var crashed := OnError(AddrInUse);
        listening := !crashed;
        if listening {
          assert Ports(old(config.port), config.port + 1) == Ports(old(config.port), config.port) + [config.port];
        }
      }
      if listening {
        FirstFreeIsUnique(old(config.port), inUse, config.port);
      } else {
        NoFreePortIff(old(config.port), inUse);
      }
    }
  }
}
