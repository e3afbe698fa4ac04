/**
 * The environment the server runs in, made abstract: the Node and npm library
 * calls whose internals are not part of this model become functions supplied
 * from outside, and the filesystem becomes a map from absolute path to what a
 * stat (and then a read or a readdir) of that path finds.
 */
module Platform {
  import opened Http

  /**
   * Library calls, each left uninterpreted:
   *  - `cwd`: `process.cwd()`;
   *  - `urlPathname(url)`: the pathname `url.parse(url)` gives, as the string
   *    `decodeURIComponent` receives (a `null` pathname is not replaced by the
   *    destructuring default, which applies only to `undefined`, and reaches it
   *    as "null"); None when `url.parse` throws (a URIError for user-info that
   *    does not decode);
   *  - `decodeUri(p)`: `decodeURIComponent(p)`, None when it throws (malformed escapes);
   *  - `join(parts)`: `path.join(...parts)`;
   *  - `extname(p)`: `path.extname(p)`;
   *  - `urlHost(u)`: `url.parse(u).host`, or the exception `url.parse` throws
   *    (a URIError for user-info that does not decode);
   *  - `mimeType(p)`: `mime.getType(p)`, None for `null`;
   *  - `digest(bytes)`: the base64 MD5 digest of the bytes;
   *  - `gmt(t)`: `new Date(t).toGMTString()` for a time in milliseconds.
   */
  datatype Lib = Lib(
    cwd: string,
    urlPathname: string -> Option<string>,
    decodeUri: string -> Option<string>,
    join: seq<string> -> string,
    extname: string -> string,
    urlHost: string -> HostParse,
    mimeType: string -> Option<string>,
    digest: seq<byte> -> string,
    gmt: int -> string)

  /** The outcome of `url.parse(u).host`: the host (None for `null`), or a thrown exception. */
  datatype HostParse = ParsedHost(host: Option<string>) | ParseThrows

  /**
   * What `fs.stat` reports for a path that exists: a regular file (with the
   * bytes `fs.readFile` would return), a directory (with the names
   * `fs.readdir` would return, in its order), or anything else (socket, FIFO,
   * device). Times are milliseconds since the epoch.
   */
  datatype Node =
    | File(ctime: int, mtime: int, content: seq<byte>)
    | Directory(ctime: int, mtime: int, names: seq<string>)
    | Other

  /** A path that is not a key is one whose stat fails, for whatever reason. */
  type FileSystem = map<string, Node>
}
