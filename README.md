# mock-cli request pipeline in Dafny

This project models the request-handling core of mock-cli's `Server` class
(`src/core.js`), a local static-file HTTP server. For each request the server
decodes the URL pathname and joins it under the configured root. It then stats
the path and branches three ways:

- a regular file passes the hotlink guard for pictures, then the cache
  validator, then content negotiation;
- a directory gets an HTML listing;
- a failed stat, or a picture whose referrer makes `url.parse` throw, gets
  one retry on the path with ".json" appended, then a 404.

The listener moves up one port at a time while the port it wants is taken,
and crashes once it passes port 65535.

The model has three layers:

- **Components as pure functions.** `CacheValidator` holds the freshness rule.
  `ContentNegotiator` holds the content type and the gzip/deflate choice.
  `HotlinkGuard` holds the referrer check. `DirectoryListing` builds the
  `{name, path}` list. `ServerConfig` does the default merge and `Listener`
  finds the first free port.
- **The dispatcher as a pure decision.** `Dispatch.Decide` gives a `Reply`:
  `NotModified`, `Served`, `Blocked`, `Listing`, `NotFound` or `NoReply`.
  `Dispatch.Apply` says how a reply is written onto a response.
  `Dispatch.Trace` lists the paths that get a stat.
- **The `Server` object as a class.** `Core.Server` assigns `req`, `res`,
  `pathname` and `absPath` on its own fields. Each handler sets the status and
  headers one at a time on a `Http.Response` object. Each handler is proved to
  leave the response in the state that `Apply` gives for the pure reply of
  its part: `HandlerRequest` for `Decide`, `HandlerPath` and `HandlerJSON`
  for `AtPath`, and `HandlerFile` for `FileReply`. `HandlerImg` returns the
  verdict of `Guard`.
  The port retry is a loop proved to stop on `FirstFree`, or to crash when no
  port up to 65535 is free.

The environment is abstract:

- **The filesystem** is a map from absolute path to `Platform.Node` (file,
  directory or other). A path that is not in the map is one whose stat fails,
  whatever the reason.
- **Library calls are fields of `Platform.Lib`.** These are `process.cwd`,
  `url.parse(...).pathname`, `decodeURIComponent`, `path.join`,
  `path.extname`, `url.parse(...).host`, `mime.getType`, the base64 MD5
  digest and `Date.toGMTString`. They are left uninterpreted.
- **The clock** is a parameter, `now`.

Three points where the model follows the code although a reader might
expect otherwise:

- `Last-Modified` is the GMT string of the file's **ctime**, not its mtime
  (`src/core.js:82`).
- A request can end with **no response at all**: when `url.parse` or
  `decodeURIComponent` throws on the request URL, or when the path found is
  neither a file nor a directory. In the first two cases `handlerRequest`'s
  promise rejects and nothing handles the rejection.
- The hotlink check runs inside the `try` block of `handlerPath`
  (`src/core.js:44`). When `url.parse` throws on the referrer, the existing
  picture is treated like a missing path and the ".json" retry follows
  (`Dispatch.RejectedGuardRetries`).

Freshness is the code's literal AND rule. `If-None-Match` must equal the
digest exactly and `If-Modified-Since` must equal the ctime string exactly.
An absent header never matches. Compared with section 13.1.2 of RFC 9110, this
means a client that sends only `If-None-Match` never gets a 304. The model
keeps that behaviour (`CacheValidator.BothValidatorsNeeded`,
`Dispatch.NoConditionalHeadersNever304`).

## Model

| member | source | states |
|---|---|---|
| `Http.Response.SetHeader` | src/core.js:81-89 | `res.setHeader` replaces one header; status, body and end count are unchanged |
| `Http.Response.End` | src/core.js:140-143 | `res.end` (or a finished pipe) records the body and finishes the response one more time |
| `ServerConfig.Merge` | src/core.js:15-24 | each field the caller gives overrides `DefaultValue`; a missing field keeps the default (3000, "./", the four picture extensions) |
| `ServerConfig.MergeEmptyIsDefault` | src/core.js:15-24 | an empty options object yields exactly `DefaultValue` |
| `ServerConfig.MergeFullOverrides` | src/core.js:24 | an options object with every field replaces the defaults entirely |
| `ServerConfig.CommandLineKeepsDefaultPictures` | src/core.js:15-24 | options carrying only port and dir keep the default picture list |
| `Listener.FirstFree` | src/core.js:150-158 | the port reached is at or above the configured one, not taken, and every port skipped on the way is taken |
| `Listener.FirstFreeIsUnique` | src/core.js:150-158 | those three properties determine the port: it is the first free port at or above the configured one |
| `Listener.FreePortIsKept` | src/core.js:144-148 | a free configured port is used without any retry |
| `Listener.TakenPortIsSkipped` | src/core.js:152-156 | a taken port is always left, and the search goes on from the port one above |
| `Listener.NoFreePortIff` | src/core.js:152-156 | the search passes 65535 iff every port from the configured one up to 65535 is taken |
| `CacheValidator.ValidatorsOf` | src/core.js:81-88 | `Expires` is the GMT string ten seconds after now; `Last-Modified` is the ctime string; `Etag` is the content digest |
| `CacheValidator.WithValidators` | src/core.js:81-89 | the four validator headers are set with their values (`Cache-Control` is "no-cache") and every other header is kept |
| `CacheValidator.IsFresh` | src/core.js:86-96 | fresh iff `if-none-match` is present and equals the etag AND `if-modified-since` is present and equals the ctime string |
| `CacheValidator.MissingConditionalIsStale` | src/core.js:86-96 | a request missing either conditional header is stale |
| `CacheValidator.BothValidatorsNeeded` | src/core.js:90-96 | removing either conditional header from a fresh request makes it stale |
| `CacheValidator.EchoedValidatorsAreFresh` | src/core.js:82-96 | echoing back a previous `Etag`/`Last-Modified` is fresh while the bytes and the ctime are unchanged, at any later time |
| `CacheValidator.FreshnessIgnoresClock` | src/core.js:81-96 | freshness does not depend on the clock (`Expires` plays no part) |
| `ContentNegotiator.Includes` | src/core.js:118-121 | `includes` holds iff the substring occurs at some position of the string |
| `ContentNegotiator.ChooseEncoding` | src/core.js:116-126 | gzip iff the header contains "gzip"; deflate iff it contains "deflate" but not "gzip"; none iff it contains neither |
| `ContentNegotiator.ContentType` | src/core.js:105-108 | the MIME type, or "text/plain" when the lookup gives nothing, followed by ";charset=utf-8" |
| `ContentNegotiator.ContentTypeHasCharset` | src/core.js:107 | every content type ends in ";charset=utf-8" |
| `ContentNegotiator.MissingAcceptEncodingIsIdentity` | src/core.js:117 | an absent or empty `accept-encoding` gives no compression |
| `ContentNegotiator.GzipPreferredOverDeflate` | src/core.js:118-123 | a header containing both names gets gzip, even when deflate is listed first |
| `ContentNegotiator.DeflateWithoutGzip` | src/core.js:121-123 | a header containing "deflate" and not "gzip" gets deflate |
| `HotlinkGuard.Referrer` | src/core.js:65-66 | a non-empty `referer` wins, then a non-empty `referrer`; otherwise the result is "" |
| `HotlinkGuard.Guard` | src/core.js:62-78 | a non-picture extension is allowed, and so is an empty referrer; otherwise the guard rejects iff `url.parse` throws, and a parsed host is allowed iff it equals the `host` header |
| `HotlinkGuard.BlockedIff` | src/core.js:63-74 | blocked iff the extension is a picture one, the referrer is non-empty, and its host parses and differs from `host` |
| `HotlinkGuard.ThrowIff` | src/core.js:63-69 | the guard rejects iff the extension is a picture one, the referrer is non-empty and `url.parse` throws on it |
| `HotlinkGuard.SameHostAllowed` | src/core.js:67-70 | a referrer on the request's own host is allowed |
| `HotlinkGuard.RefererShadowsReferrer` | src/core.js:65-66 | a foreign non-empty `referer` blocks even when `referrer` names the request's host |
| `HotlinkGuard.HostlessReferrerWithoutHost` | src/core.js:67-70 | with loose `!=`, a referrer with no host passes when the request has no `Host` header |
| `DirectoryListing.FileList` | src/core.js:130-133 | one entry per readdir name, in readdir's order; each entry keeps the name, and its path is `join([pathname, name])` |
| `DirectoryListing.FileListKeepsNames` | src/core.js:130-133 | the names of the listing are exactly readdir's names, in order |
| `DirectoryListing.FileListAppend` | src/core.js:130-133 | the listing of two batches of names is the two listings concatenated |
| `Dispatch.Apply` | src/core.js:71-143 | only a 304 or a 404 changes the status, and every reply but "no reply" leaves a body |
| `Dispatch.Pathname` | src/core.js:31-32 | the pathname exists iff `url.parse` does not throw and `decodeURIComponent` of its pathname does not throw, and is that decoded string |
| `Dispatch.AbsPath` | src/core.js:33 | the working directory, the configured root and the pathname, joined in that order |
| `Dispatch.FileReply` | src/core.js:98-115 | "not modified" iff the validators are fresh, else the file served with its own path, the MIME-or-text/plain type and the negotiated encoding; either way with the file's validators |
| `Dispatch.Throws` | src/core.js:41-52 | the `try` block throws iff the stat fails or the path is a picture file whose non-empty referrer makes `url.parse` throw |
| `Dispatch.AtPath` | src/core.js:40-61 | 404 iff the `try` block throws and, when the ".json" retry is the callback, throws for the sibling too; a `try` block that completes gives its own reply |
| `Dispatch.Attempts` | src/core.js:41-58 | the path is stat'ed first, and its ".json" sibling second iff the retry is the callback and the first `try` block throws |
| `Dispatch.Decide` | src/core.js:28-61 | no reply when the URL is rejected; otherwise 404 or the reply of the `try` block for the path or for its ".json" sibling |
| `Dispatch.Trace` | src/core.js:28-58 | nothing is stat'ed iff the URL is rejected before the join |
| `Dispatch.TryPath` | src/core.js:40-54 | the `try` block completes with a reply iff the stat succeeds and, for a file, the hotlink guard does not reject |
| `Dispatch.AtMostTwoStats` | src/core.js:36-61 | at most two stats: the resolved path, then its ".json" sibling only after the `try` block throws for the first; a single stat means it did not throw |
| `Dispatch.NotFoundIff` | src/core.js:51-61 | the reply is 404 iff the pathname decodes and the `try` block throws for both the path and its ".json" sibling |
| `Dispatch.CompletedTryNeverNotFound` | src/core.js:41-50 | a `try` block that completes never leads to a 404 |
| `Dispatch.RejectedGuardRetries` | src/core.js:41-51 | an existing picture whose referrer makes `url.parse` throw gets its ".json" sibling stat'ed, and a 404 when that sibling is missing |
| `Dispatch.JsonFallback` | src/core.js:28-61 | when the `try` block throws only for the path, the ".json" sibling is handled like a found path, but a directory is listed under the originally requested pathname |
| `Dispatch.NoReplyIff` | src/core.js:28-54 | nothing is written iff `url.parse` or `decodeURIComponent` throws on the URL, or the path handled is neither a file nor a directory |
| `Dispatch.UnparsableUrlIgnored` | src/core.js:31 | a URL on which `url.parse` throws gets no stat and no response |
| `Dispatch.MtimeIgnored` | src/core.js:79-115 | changing a file's mtime never changes the reply: only the ctime and the bytes are read |
| `Dispatch.NotModifiedNeedsBothHeaders` | src/core.js:86-96 | a "not modified" reply means both conditional headers are present and equal to the served file's validators |
| `Dispatch.NoConditionalHeadersNever304` | src/core.js:90-104 | a request lacking either conditional header never gets status 304 |
| `Dispatch.FileNotModifiedIff` | src/core.js:44-104 | an existing file answers 304 iff it passes the hotlink guard and its validators are fresh, or the guard rejects and the ".json" sibling answers 304 |
| `Dispatch.BlockedOnlyForForeignPictures` | src/core.js:62-78 | a blocked reply means the file handled has a picture extension and a non-empty referrer whose host parses and differs from `host` |
| `Dispatch.OneEndPerReply` | src/core.js:98-143 | every reply except "no reply" finishes the response exactly once; "no reply" leaves the response untouched |
| `Dispatch.NotModifiedOnTheWire` | src/core.js:99-104 | a 304 has an empty body and only the four validator headers: no `Content-Type`, no `Content-Encoding` |
| `Dispatch.ServedOnTheWire` | src/core.js:105-126 | a served file keeps status 200, has the content type and etag, and has `Content-Encoding` iff it is compressed, naming the scheme used |
| `Dispatch.BlockedOnTheWire` | src/core.js:71-73 | a blocked request gets the error image and no header at all, so no cache headers |
| `Dispatch.NotFoundOnTheWire` | src/core.js:140-143 | a NotFound reply is status 404, no headers, body "404", ended once |
| `Dispatch.FileResponseHeaders` | src/core.js:105-114 | every streamed file is status 200, typed by the MIME lookup of its own path, and encoded as the request's `accept-encoding` chooses |
| `Core.Server.constructor` | src/core.js:23-27 | the configuration is the caller's options merged over the defaults |
| `Core.Server.HandlerRequest` | src/core.js:28-39 | stores request and response; sets pathname and the cwd/root/pathname join; stats exactly `Trace`; leaves the response as `Apply(old, Decide(...))` |
| `Core.Server.HandlerPath` | src/core.js:40-54 | one stat, then the file/directory/other branch, or the failure callback when the stat fails or the guard rejects; writes what `AtPath` decides |
| `Core.Server.HandlerJSON` | src/core.js:55-61 | retries on the path with ".json" appended, with a callback that answers 404 |
| `Core.Server.HandlerImg` | src/core.js:62-78 | returns the guard's verdict (allow, block or reject); streams the error image iff it blocks, and writes nothing otherwise |
| `Core.Server.Cache` | src/core.js:79-97 | sets the four validator headers and returns `IsFresh` of the request |
| `Core.Server.HandlerFile` | src/core.js:98-115 | writes 304 with an empty body when fresh; otherwise sets the content type and encoding and streams the file |
| `Core.Server.IsAcceptGzip` | src/core.js:116-126 | returns `ChooseEncoding` and sets `Content-Encoding` exactly when it compresses |
| `Core.Server.HandlerDir` | src/core.js:127-139 | sets the HTML content type and ends with the listing of readdir's names under the requested pathname |
| `Core.Server.HandlerError` | src/core.js:140-143 | status 404, body "404" |
| `Core.Server.OnError` | src/core.js:150-159 | "address in use" increments the port by exactly one and listens on it, or crashes when it passes 65535; any other code changes nothing |
| `Core.Server.Start` | src/core.js:144-158 | with port 0 never reported taken, listens on the configured port and on each next one while the port is taken; succeeds iff the configured port is valid and `FirstFree` is at most 65535, stopping there having tried every port in between in order; otherwise crashes, at once for an invalid port or after trying every port up to 65535 |

## Left out

- `src/config.js` (command-line parsing through `commander`) is not part of this model. Its output is the `UserConfig` passed to the constructor.
- `ServerConfig.Merge`: a property present with the value `undefined` is copied by the spread and replaces the default; `UserConfig` cannot express it, so such a property is modelled as absent.
- Ports are integers. The model does not capture that `commander` yields a string for `-p`, which `++` turns into a number.
- The HTTP transport is not modelled: sockets, header parsing, writing the body, and `createReadStream(...).pipe(...)`. A piped stream is recorded as the body it would deliver.
- zlib compression is not modelled. The model records only the encoding that was chosen.
- The EJS template, its path and its rendering are not modelled. A listing's body is its entry list.
- The path of the bundled error image is not modelled. Its bytes are the `ErrorImage` body.
- The MD5/base64 digest, `Date.now` and `toGMTString` are not modelled. The clock is the parameter `now`, and the digest and the date formatting are uninterpreted functions.
- Node's `path.join`, `path.extname`, `url.parse`, `decodeURIComponent`, `mime.getType` and `process.cwd` are uninterpreted. No `..` sanitisation is added, because the code performs none.
- Console output (chalk, the port message, `log(err)` in the 404 callback) is not modelled.
- Failures of `fs.readFile` in `cache` and of `fs.readdir` or rendering in `handlerDir` are not modelled. These happen in un-awaited calls, so they are unhandled rejections and the response is never finished. The model assumes a path that stats as a file or directory can be read.
- The unhandled rejection of `handlerRequest` when `url.parse` or `decodeURIComponent` throws on the request URL is not modelled. On Node 15 and later it ends the process by default; the model records only that nothing is written for that request.
- Asynchrony is not modelled. One request is one sequential run. The race on the shared `req`/`res`/`pathname` fields between concurrent requests is not represented.
- Node's case-insensitive response header names are not modelled. Headers are stored under the names the code uses, which are all distinct. Duplicate request headers joined into one value are not modelled.
- The `listen` call itself is not modelled, beyond the RangeError it throws for a port outside 0..65535. Which ports are taken is an abstract finite set. Bind errors other than "address in use" are not raised by `Start`; `OnError` shows they would leave the port alone.
