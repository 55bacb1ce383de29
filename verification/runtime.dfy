/**
 * What the Workers runtime supplies and the tunnel only calls: the WHATWG URL
 * parser behind `new URL(input)` and `JSON.parse`. Both are parameters of the
 * model; a parse that would throw is `None`.
 */
module Runtime {
  import opened Wrappers

  /** The two parts of a parsed URL the tunnel reads: `url.host` (host, and port if any) and `url.pathname`. */
  datatype Url = Url(host: string, pathname: string)

  /** `new URL(input)` with no base URL; `None` where the constructor throws a TypeError. */
  type UrlParser = string -> Option<Url>

  /** `JSON.parse(text)` read as a record of string fields; `None` where it throws a SyntaxError. */
  type JsonParser = string -> Option<map<string, string>>

  /**
   * An exception that escapes the handler: the runtime turns it into an error
   * response. `NetworkError` is a rejected `fetch` promise.
   */
  datatype Fault = InvalidJson(text: string) | InvalidUrl(input: string) | NetworkError

  /**
   * Two facts of the URL Standard's basic URL parser, section 4.4: with no base
   * URL, an input without ':' has no scheme and is a failure; and '/' is a
   * forbidden host code point (section 3.5), so a parsed host never holds one.
   * Lemmas that need either fact take this as a hypothesis.
   */
  ghost predicate ConformingParser(parse: UrlParser) {
    && (forall s :: ':' !in s ==> parse(s).None?)
    && (forall s :: parse(s).Some? ==> '/' !in parse(s).value.host)
  }
}
