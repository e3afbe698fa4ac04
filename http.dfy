/**
 * HTTP vocabulary shared by every stage of the request pipeline: request
 * headers as Node delivers them, the entries of a directory listing, what a
 * response body can be, and the response object the handlers write to.
 */
module Http {

  datatype Option<+T> = None | Some(value: T)

  newtype byte = x: int | 0 <= x < 256

  /** Request headers, keyed by lower-case name (Node lower-cases them). */
  type Headers = map<string, string>

  /** `req.headers[name]`: None stands for `undefined`. */
  function Header(h: Headers, name: string): Option<string>
  {
    if name in h then Some(h[name]) else None
  }

  /** `req.headers[name] || fallback`: an absent or empty header is falsy. */
  function HeaderOr(h: Headers, name: string, fallback: string): string
  {
    if name in h && h[name] != "" then h[name] else fallback
  }

  datatype Request = Request(url: string, headers: Headers)

  /** Content codings the server can apply to a file stream. */
  datatype Encoding = Identity | Gzip | Deflate

  function EncodingName(e: Encoding): (r: string)
    requires e != Identity
  {
    if e == Gzip then "gzip" else "deflate"
  }

  /** One `{name, path}` item handed to the listing template. */
  datatype Entry = Entry(name: string, path: string)

  /**
   * What has been written as the response body. `Unsent` until `end` or a
   * piped stream finishes the response; `Empty` is `res.end()` with no data;
   * `Page` is the template rendered over the listed entries (the rendering
   * engine itself is not part of this model).
   */
  datatype Body =
    | Unsent
    | Empty
    | Text(text: string)
    | FileStream(path: string, encoding: Encoding)
    | ErrorImage
    | Page(entries: seq<Entry>)

  /** The observable state of a response object. `ends` counts how many times it was finished. */
  datatype Snapshot = Snapshot(status: int, headers: map<string, string>, body: Body, ends: nat)

  /** A response as Node hands it to the request handler. */
  const Initial := Snapshot(200, map[], Unsent, 0)

  /** The `res` object: status and headers are set one at a time, then it is ended once. */
  class Response {
    var statusCode: int
    var headers: map<string, string>
    var body: Body
    var ends: nat

    /** The four observable fields, as one value. */
    function State(): Snapshot
      reads this
    {
      Snapshot(statusCode, headers, body, ends)
    }

    constructor ()
      ensures State() == Initial
    {
      statusCode, headers, body, ends := 200, map[], Unsent, 0;
    }

    /** `res.setHeader(name, value)`. */
    method SetHeader(name: string, value: string)
      modifies this
      ensures State() == old(State()).(headers := old(headers)[name := value])
    {
      headers := headers[name := value];
    }

    /** `res.end(data)`, or a read stream piped into `res` running to its end. */
    method End(b: Body)
      modifies this
      ensures State() == old(State()).(body := b, ends := old(ends) + 1)
    {
      body := b;
      ends := ends + 1;
    }
  }
}
