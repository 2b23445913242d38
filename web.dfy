/**
 * What the fetch-and-rewrite core sees of the outside world: parsed URLs,
 * HTTP responses, the per-task failures, and the collaborators it calls
 * into (HTTP client, text decoding, HTML parser and serialiser, URL
 * resolution, the filesystem). The collaborators are uninterpreted: they are
 * fields of `Env`, and every operation of the core takes the `Env` it runs in.
 */
module Web {
  import opened Base
  import opened Html

  /**
   * An absolute, already parsed URL. `host` is what `host_str()` returns and
   * `path` what `path()` returns; everything else the URL holds (scheme, port,
   * credentials, query, fragment) is kept in `rest`, which the core never
   * inspects.
   */
  datatype Url = Url(host: Option<string>, path: string, rest: string)

  /** Resolution of a possibly relative reference against a base URL; None when the reference cannot be parsed. */
  type Resolver = (Url, string) -> Option<Url>

  /**
   * A fetched HTTP response: the numeric status, the first `content-type`
   * header value (absent when the header is), and the full body.
   */
  datatype Response = Response(status: nat, contentType: Option<seq<byte>>, body: seq<byte>)

  /** `StatusCode::is_success`: the 2xx range. */
  predicate IsSuccess(status: nat) {
    200 <= status <= 299
  }

  /** The reasons a single task fails; none of them reaches the scheduler's control flow. */
  datatype Failure =
    | NetworkError(url: Url)            // the GET itself failed
    | HttpStatus(url: Url, code: nat)   // "Error while fetching <url> : code <status>"
    | ParseError                        // the HTML parser rejected the text
    | WriteError(path: string)          // the output file could not be created or written

  datatype Outcome<+T> = Ok(value: T) | Err(error: Failure)

  /** The collaborators of the core. */
  datatype Env = Env(
    fetch: Url -> Option<Response>,          // GET; None is a network failure
    text: (Option<seq<byte>>, seq<byte>) -> string,  // the body decoded as text, in the charset the content type names
    utf8: string -> seq<byte>,               // a string turned back into bytes
    parse: string -> Option<seq<Node>>,      // the HTML parser, its nodes listed flat
    serialize: seq<Node> -> string,          // the document re-serialised as markup
    resolve: Resolver,                       // relative reference resolution
    canWrite: string -> bool                 // the file of that name can be created and written
  )
}
