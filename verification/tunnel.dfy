/**
 * The worker's `fetch` handler in src/index.ts: the method and CORS dispatch,
 * the envelope split, the allowlist gate and the construction of the Sentry
 * ingestion request. The outbound network call is a parameter (`upstream`).
 */
module Tunnel {
  import opened Wrappers
  import opened Strings
  import opened Http
  import opened Runtime
  import opened Allowlist
  import opened Cors

  /** `env.ENABLE_CORS` as configured: missing, a boolean or a string. */
  datatype FlagValue = Unset | BoolValue(b: bool) | StringValue(s: string)

  /** The worker's bindings: the two comma-separated allowlists and the CORS switch. */
  datatype Env = Env(dsnWhitelist: string, hostWhitelist: string, enableCors: FlagValue)

  /** An inbound request: method, headers and the body read as text. */
  datatype Request = Request(verb: string, headers: HeaderMap, body: string)

  /** The request sent to Sentry; its body is the inbound body stream, passed on untouched. */
  datatype Outbound = Outbound(url: string, verb: string, headers: HeaderMap)

  /** What the handler decides before any network traffic. */
  datatype Outcome =
    | Reply(response: Response)     // answered locally: OPTIONS, 405, 400 or 403
    | Forward(outbound: Outbound)   // sent on to Sentry
    | Thrown(fault: Fault)          // an exception escapes the handler

  const EnvelopeType := "application/x-sentry-envelope"

  /** CORS is on for the boolean `true` or the exact string "true". */
  predicate CorsEnabled(flag: FlagValue) {
    flag == BoolValue(true) || flag == StringValue("true")
  }

  /**
   * The comparisons are strict: only the boolean `true` and the exact string
   * "true" turn CORS on; a missing binding, `false`, "TRUE" or "1" do not.
   */
  lemma CorsFlagStrict(text: string)
    ensures CorsEnabled(StringValue(text)) <==> text == "true"
    ensures CorsEnabled(BoolValue(true)) && !CorsEnabled(BoolValue(false)) && !CorsEnabled(Unset)
    ensures !CorsEnabled(StringValue("TRUE")) && !CorsEnabled(StringValue("1"))
  {
  }

  /** `header.dsn` is truthy: the field is present and not the empty string. */
  predicate HasDsn(header: map<string, string>) {
    "dsn" in header && header["dsn"] != ""
  }

  /** What `new URL(header.dsn)` receives; a missing field is `undefined`, which converts to "undefined". */
  function DsnInput(header: map<string, string>): string {
    if "dsn" in header then header["dsn"] else "undefined"
  }

  /** `s.substring(1)`: everything after the first character, or "" for the empty string. */
  function DropFirst(s: string): (r: string)
    ensures |s| > 0 ==> r == s[1..]
    ensures |s| == 0 ==> r == ""
  {
    if |s| == 0 then "" else s[1..]
  }

  /**
   * `pathname.substring(1).split('/')[0]`: the longest '/'-free prefix of the
   * pathname after its first character; it stops just before the first '/'.
   */
  function ProjectId(pathname: string): (id: string)
    ensures '/' !in id
    ensures |id| <= |DropFirst(pathname)| && id == DropFirst(pathname)[..|id|]
    ensures |id| == |DropFirst(pathname)| || DropFirst(pathname)[|id|] == '/'
  {
    Split(DropFirst(pathname), '/')[0]
  }

  /** The ingestion endpoint for a host and project: `https://{host}/api/{projectId}/envelope/`. */
  function ApiUrl(host: string, projectId: string): (url: string)
    ensures |url| == |host| + |projectId| + 23
    ensures url[..8] == "https://" && url[8..8 + |host|] == host
    ensures url[|url| - 10..] == "/envelope/"
  {
    var url := "https://" + host + "/api/" + projectId + "/envelope/";
    assert url == "https://" + (host + "/api/" + projectId) + "/envelope/";
    url
  }

  /**
   * Reads host and project back out of an ingestion URL: the partner of
   * `ApiUrl`, used to show that no two (host, project) pairs share a target.
   */
  function ParseApiUrl(url: string): Option<(string, string)> {
    if |url| < 8 + 10 || url[..8] != "https://" || url[|url| - 10..] != "/envelope/" then None
    else
      var middle := url[8..|url| - 10];
      var k := FirstIndex(middle, '/');
      var rest := middle[k..];
      if |rest| < 5 || rest[..5] != "/api/" || '/' in rest[5..] then None
      else Some((middle[..k], rest[5..]))
  }

  /** The part between the scheme and the fixed tail splits at the end of the host. */
  lemma MiddleOfApiUrl(host: string, projectId: string)
    requires '/' !in host
    ensures var middle := host + "/api/" + projectId;
            && FirstIndex(middle, '/') == |host|
            && middle[..|host|] == host
            && middle[|host|..][..5] == "/api/"
            && middle[|host|..][5..] == projectId
  {
    var middle := host + "/api/" + projectId;
    FirstIndexAfterPrefix(host, '/', "api/" + projectId);
    assert middle == host + ['/'] + ("api/" + projectId);
    assert middle[..|host|] == host;
    assert middle[|host|..] == "/api/" + projectId;
  }

  /** A host and a project id without '/' are recovered from the URL built from them. */
  lemma ApiUrlRoundTrip(host: string, projectId: string)
    requires '/' !in host && '/' !in projectId
    ensures ParseApiUrl(ApiUrl(host, projectId)) == Some((host, projectId))
  {
    var url := ApiUrl(host, projectId);
    var middle := host + "/api/" + projectId;
    assert url == "https://" + middle + "/envelope/";
    assert url[..8] == "https://";
    assert url[|url| - 10..] == "/envelope/";
    assert url[8..|url| - 10] == middle;
    MiddleOfApiUrl(host, projectId);
  }

  /** Distinct (host, project) pairs give distinct ingestion URLs. */
  lemma ApiUrlInjective(host: string, projectId: string, host': string, projectId': string)
    requires '/' !in host && '/' !in projectId && '/' !in host' && '/' !in projectId'
    requires ApiUrl(host, projectId) == ApiUrl(host', projectId')
    ensures host == host' && projectId == projectId'
  {
    ApiUrlRoundTrip(host, projectId);
    ApiUrlRoundTrip(host', projectId');
  }

  /** The outbound request to Sentry for a parsed DSN. */
  function SentryRequest(dsn: Url): (o: Outbound)
    ensures o.verb == "POST"
    ensures o.headers.Keys == {Lower("Content-Type")}
    ensures Get(o.headers, "Content-Type") == Some(EnvelopeType)
  {
    var pairs := [("Content-Type", EnvelopeType)];
    FromPairsKeys(pairs);
    assert Names(pairs) == {Lower("Content-Type")};
    Outbound(ApiUrl(dsn.host, ProjectId(dsn.pathname)), "POST", FromPairs(pairs))
  }

  /** `new URL(input)` followed by the construction of the Sentry request. */
  function ForwardTo(parse: UrlParser, input: string): (r: Outcome)
    ensures r.Forward? || r == Thrown(InvalidUrl(input))
    ensures r.Forward? <==> parse(input).Some?
    ensures r.Forward? ==>
              && r.outbound.verb == "POST"
              && r.outbound.url == ApiUrl(parse(input).value.host, ProjectId(parse(input).value.pathname))
  {
    match parse(input)
    case None => Thrown(InvalidUrl(input))
    case Some(dsn) => Forward(SentryRequest(dsn))
  }

  /**
   * What happens once the envelope header has parsed: a truthy `dsn` must pass
   * the allowlists (403 when it does not), then the DSN is parsed as a URL
   * and the request is forwarded.
   */
  function Admit(env: Env, parse: UrlParser, header: map<string, string>): (r: Outcome)
    ensures r.Reply? <==>
              && HasDsn(header)
              && IsDsnAllowed(env.dsnWhitelist, env.hostWhitelist, parse, header["dsn"]) == Success(false)
    ensures r.Reply? ==> r.response == TextResponse(403, "Forbidden")
    ensures r.Forward? <==>
              && parse(DsnInput(header)).Some?
              && (HasDsn(header) ==> IsDsnAllowed(env.dsnWhitelist, env.hostWhitelist, parse, header["dsn"]) == Success(true))
  {
    var gate := if HasDsn(header)
                then IsDsnAllowed(env.dsnWhitelist, env.hostWhitelist, parse, header["dsn"])
                else Success(true);
    match gate
    case Failure(fault) => Thrown(fault)
    case Success(allowed) =>
      if !allowed then Reply(TextResponse(403, "Forbidden"))
      else ForwardTo(parse, DsnInput(header))
  }

  /** The first line of a body: what `JSON.parse(parts[0])` reads. */
  function HeaderLine(body: string): string {
    body[..FirstIndex(body, '\n')]
  }

  /**
   * The decision `fetch` makes for a request, up to the outbound call: only a
   * POST whose body has a newline ever reaches the JSON parser, and local
   * answers are the OPTIONS reply (200), 405, 400 or 403.
   */
  function Route(req: Request, env: Env, json: JsonParser, parse: UrlParser): (r: Outcome)
    ensures !r.Reply? ==> req.verb == "POST" && '\n' in req.body
    ensures r == Thrown(InvalidJson(HeaderLine(req.body))) <==>
              req.verb == "POST" && '\n' in req.body && json(HeaderLine(req.body)).None?
    ensures r.Reply? ==> r.response.status in {200, 400, 403, 405}
    ensures r.Reply? && r.response.status == 200 ==> CorsEnabled(env.enableCors) && req.verb == "OPTIONS"
  {
    SplitHasTwoPieces(req.body, '\n');
    if CorsEnabled(env.enableCors) && req.verb == "OPTIONS" then
      Reply(HandleOptions(req.headers))
    else if req.verb != "POST" then
      Reply(TextResponse(405, "Method Not Allowed"))
    else
      var parts := Split(req.body, '\n');
      if |parts| < 2 then
        Reply(TextResponse(400, "Bad Request"))
      else
        match json(parts[0])
        case None => Thrown(InvalidJson(parts[0]))
        case Some(header) => Admit(env, parse, header)
  }

  /** For a POST with a newline whose header line parses, the outcome is decided by the header alone. */
  lemma RouteParsedHeader(req: Request, env: Env, json: JsonParser, parse: UrlParser, header: map<string, string>)
    requires req.verb == "POST" && '\n' in req.body
    requires json(HeaderLine(req.body)) == Some(header)
    ensures Route(req, env, json, parse) == Admit(env, parse, header)
  {
    SplitHasTwoPieces(req.body, '\n');
  }

  /**
   * The whole handler. A local reply is returned as is and a thrown fault
   * escapes. For a forward, `new Request(apiUrl, …)` parses the built URL
   * again and throws when it does not parse (a DSN host such as `a%20b` that
   * is invalid under `https`). Otherwise `upstream` is the settled
   * `await fetch(sentryRequest)`: a rejection escapes, and Sentry's response
   * is returned, patched with the CORS headers when CORS is on.
   */
  function Handle(req: Request, env: Env, json: JsonParser, parse: UrlParser,
                  upstream: Result<Response, Fault>): (r: Result<Response, Fault>)
    ensures var route := Route(req, env, json, parse);
            r.Failure? <==>
              || route.Thrown?
              || (route.Forward? && (parse(route.outbound.url).None? || upstream.Failure?))
    ensures var route := Route(req, env, json, parse);
            route.Thrown? ==> r == Failure(route.fault)
    ensures var route := Route(req, env, json, parse);
            route.Reply? ==> r == Success(route.response)
    ensures var route := Route(req, env, json, parse);
            route.Forward? && parse(route.outbound.url).None? ==> r == Failure(InvalidUrl(route.outbound.url))
    ensures var route := Route(req, env, json, parse);
            route.Forward? && parse(route.outbound.url).Some? && upstream.Failure? ==> r == upstream
  {
    match Route(req, env, json, parse)
    case Reply(response) => Success(response)
    case Thrown(fault) => Failure(fault)
    case Forward(outbound) =>
      if parse(outbound.url).None? then Failure(InvalidUrl(outbound.url))
      else match upstream
        case Failure(fault) => Failure(fault)
        case Success(answer) =>
          if CorsEnabled(env.enableCors) then Success(AllowAnyOrigin(answer)) else Success(answer)
  }

  // ---------------------------------------------------------------------------
  // Properties of the dispatch
  // ---------------------------------------------------------------------------

  /** With CORS on, an OPTIONS request is always answered by the options handler, never with 405. */
  lemma CorsOptionsAnswered(req: Request, env: Env, json: JsonParser, parse: UrlParser)
    requires CorsEnabled(env.enableCors) && req.verb == "OPTIONS"
    ensures Route(req, env, json, parse) == Reply(HandleOptions(req.headers))
    ensures Route(req, env, json, parse).response.status == 200
  {
  }

  /** Any other method that is not POST gets 405, whatever the body, before the body is read. */
  lemma OtherMethodsRejected(req: Request, env: Env, json: JsonParser, parse: UrlParser, body': string)
    requires req.verb != "POST"
    requires !(CorsEnabled(env.enableCors) && req.verb == "OPTIONS")
    ensures Route(req, env, json, parse) == Reply(TextResponse(405, "Method Not Allowed"))
    ensures Route(req.(body := body'), env, json, parse) == Route(req, env, json, parse)
  {
  }

  /**
   * A POST gets 400 exactly when its body has no newline; that answer does not
   * depend on the JSON parser, the URL parser or the allowlists.
   */
  lemma BadRequestIffNoNewline(req: Request, env: Env, json: JsonParser, parse: UrlParser,
                               env': Env, json': JsonParser, parse': UrlParser)
    requires req.verb == "POST"
    ensures Route(req, env, json, parse) == Reply(TextResponse(400, "Bad Request")) <==> '\n' !in req.body
    ensures '\n' !in req.body ==> Route(req, env', json', parse') == Route(req, env, json, parse)
  {
    SplitHasTwoPieces(req.body, '\n');
  }

  /**
   * A POST gets 403 exactly when its body has a header line that parses, the
   * header names a non-empty DSN, and the allowlists reject it.
   */
  lemma ForbiddenIff(req: Request, env: Env, json: JsonParser, parse: UrlParser)
    requires req.verb == "POST"
    ensures Route(req, env, json, parse) == Reply(TextResponse(403, "Forbidden")) <==>
              && '\n' in req.body
              && json(HeaderLine(req.body)).Some?
              && HasDsn(json(HeaderLine(req.body)).value)
              && IsDsnAllowed(env.dsnWhitelist, env.hostWhitelist, parse,
                              json(HeaderLine(req.body)).value["dsn"]) == Success(false)
  {
    SplitHasTwoPieces(req.body, '\n');
  }

  /**
   * Every forward is a POST that got past the 400 check, whose header parsed
   * and whose DSN (if any) the allowlists accepted; it goes to
   * `https://{host}/api/{projectId}/envelope/` for the DSN's parsed host and a
   * '/'-free project id, with method POST and only the envelope content type.
   */
  lemma ForwardShape(req: Request, env: Env, json: JsonParser, parse: UrlParser)
    requires Route(req, env, json, parse).Forward?
    ensures req.verb == "POST" && '\n' in req.body
    ensures json(HeaderLine(req.body)).Some?
    ensures var header := json(HeaderLine(req.body)).value;
            && (HasDsn(header) ==>
                  IsDsnAllowed(env.dsnWhitelist, env.hostWhitelist, parse, header["dsn"]) == Success(true))
            && parse(DsnInput(header)).Some?
            && var dsn := parse(DsnInput(header)).value;
               var o := Route(req, env, json, parse).outbound;
               && o.url == "https://" + dsn.host + "/api/" + ProjectId(dsn.pathname) + "/envelope/"
               && '/' !in ProjectId(dsn.pathname)
               && o.verb == "POST"
               && o.headers.Keys == {Lower("Content-Type")}
               && Get(o.headers, "Content-Type") == Some("application/x-sentry-envelope")
  {
    SplitHasTwoPieces(req.body, '\n');
  }

  /**
   * With a URL parser that follows the URL Standard, nothing is forwarded
   * unless the header names a DSN and the allowlists accept it.
   */
  lemma ForwardNeedsApproval(req: Request, env: Env, json: JsonParser, parse: UrlParser)
    requires ConformingParser(parse)
    requires Route(req, env, json, parse).Forward?
    ensures json(HeaderLine(req.body)).Some?
    ensures var header := json(HeaderLine(req.body)).value;
            HasDsn(header) && IsDsnAllowed(env.dsnWhitelist, env.hostWhitelist, parse, header["dsn"]) == Success(true)
  {
    ForwardShape(req, env, json, parse);
    MissingDsnFails(parse, json(HeaderLine(req.body)).value);
  }

  /**
   * With a conforming parser, every forward goes to an ingestion URL whose host
   * part, read back with `ParseApiUrl`, is the host of a DSN that is either on
   * the DSN allowlist or has that host on the host allowlist.
   */
  lemma ForwardTargetApproved(req: Request, env: Env, json: JsonParser, parse: UrlParser)
    requires ConformingParser(parse)
    requires Route(req, env, json, parse).Forward?
    ensures json(HeaderLine(req.body)).Some?
    ensures var header := json(HeaderLine(req.body)).value;
            && HasDsn(header) && parse(header["dsn"]).Some?
            && var dsn := parse(header["dsn"]).value;
               && ParseApiUrl(Route(req, env, json, parse).outbound.url) == Some((dsn.host, ProjectId(dsn.pathname)))
               && (header["dsn"] in Entries(env.dsnWhitelist) || dsn.host in Entries(env.hostWhitelist))
  {
    ForwardShape(req, env, json, parse);
    ForwardNeedsApproval(req, env, json, parse);
    var header := json(HeaderLine(req.body)).value;
    var dsn := parse(header["dsn"]).value;
    ApiUrlRoundTrip(dsn.host, ProjectId(dsn.pathname));
  }

  /** With a conforming parser, the URL input of a header without a truthy `dsn` ("" or "undefined") fails to parse. */
  lemma MissingDsnFails(parse: UrlParser, header: map<string, string>)
    requires ConformingParser(parse)
    ensures !HasDsn(header) ==> parse(DsnInput(header)).None?
  {
    if !HasDsn(header) {
      if "dsn" in header {
        assert DsnInput(header) == "";
      } else {
        assert DsnInput(header) == "undefined";
      }
      assert ':' !in DsnInput(header);
    }
  }

  /** A header without a truthy `dsn` skips the allowlists and then throws at `new URL`. */
  lemma MissingDsnThrows(req: Request, env: Env, json: JsonParser, parse: UrlParser, header: map<string, string>)
    requires ConformingParser(parse)
    requires req.verb == "POST" && '\n' in req.body
    requires json(HeaderLine(req.body)) == Some(header) && !HasDsn(header)
    ensures Route(req, env, json, parse) == Thrown(InvalidUrl(DsnInput(header)))
  {
    RouteParsedHeader(req, env, json, parse, header);
    MissingDsnFails(parse, header);
  }

  /** A DSN whose parsed host is on the host allowlist is forwarded to that host's ingestion URL. */
  lemma HostAllowedForwards(req: Request, env: Env, json: JsonParser, parse: UrlParser,
                            header: map<string, string>, dsn: Url)
    requires req.verb == "POST" && '\n' in req.body
    requires json(HeaderLine(req.body)) == Some(header) && HasDsn(header)
    requires parse(header["dsn"]) == Some(dsn) && dsn.host in Entries(env.hostWhitelist)
    ensures Route(req, env, json, parse) == Forward(SentryRequest(dsn))
    ensures Route(req, env, json, parse).outbound.url == ApiUrl(dsn.host, ProjectId(dsn.pathname))
  {
    RouteParsedHeader(req, env, json, parse, header);
  }

  /** A DSN on the DSN allowlist that parses is forwarded to its ingestion URL, whatever the host allowlist holds. */
  lemma DsnListedForwards(req: Request, env: Env, json: JsonParser, parse: UrlParser,
                          header: map<string, string>, dsn: Url)
    requires req.verb == "POST" && '\n' in req.body
    requires json(HeaderLine(req.body)) == Some(header) && HasDsn(header)
    requires header["dsn"] in Entries(env.dsnWhitelist) && parse(header["dsn"]) == Some(dsn)
    ensures Route(req, env, json, parse) == Forward(SentryRequest(dsn))
    ensures Route(req, env, json, parse).outbound.url == ApiUrl(dsn.host, ProjectId(dsn.pathname))
  {
    RouteParsedHeader(req, env, json, parse, header);
  }

  /** A DSN on the DSN allowlist that the URL parser rejects passes the gate and then throws. */
  lemma ListedButUnparsableThrows(req: Request, env: Env, json: JsonParser, parse: UrlParser,
                                  header: map<string, string>)
    requires req.verb == "POST" && '\n' in req.body
    requires json(HeaderLine(req.body)) == Some(header) && HasDsn(header)
    requires header["dsn"] in Entries(env.dsnWhitelist) && parse(header["dsn"]).None?
    ensures Route(req, env, json, parse) == Thrown(InvalidUrl(header["dsn"]))
  {
    RouteParsedHeader(req, env, json, parse, header);
  }

  /**
   * The response handed back for a forward whose URL `new Request` accepts
   * and whose `fetch` resolves: Sentry's own response when CORS
   * is off; with CORS on, the same status, status text and body with
   * `Access-Control-Allow-Origin: *` and `Origin` appended to `Vary`, every
   * other header unchanged.
   */
  lemma ForwardedResponse(req: Request, env: Env, json: JsonParser, parse: UrlParser, upstream: Response)
    requires Route(req, env, json, parse).Forward?
    requires parse(Route(req, env, json, parse).outbound.url).Some?
    ensures !CorsEnabled(env.enableCors) ==> Handle(req, env, json, parse, Success(upstream)) == Success(upstream)
    ensures CorsEnabled(env.enableCors) ==>
              && Handle(req, env, json, parse, Success(upstream)).Success?
              && var r := Handle(req, env, json, parse, Success(upstream)).value;
                 && r.status == upstream.status && r.body == upstream.body
                 && Get(r.headers, "Access-Control-Allow-Origin") == Some("*")
                 && Values(r.headers, "Vary") == Values(upstream.headers, "Vary") + ["Origin"]
                 && (forall n {:trigger Values(r.headers, n)} ::
                       Lower(n) != Lower("Access-Control-Allow-Origin") && Lower(n) != Lower("Vary") ==>
                         Values(r.headers, n) == Values(upstream.headers, n))
  {
  }

  /** The project id of `/123/abc` is `123`. */
  lemma ProjectIdExample()
    ensures ProjectId("/123/abc") == "123"
  {
    var rest := DropFirst("/123/abc");
    assert rest == "123/abc";
    assert rest[3] == '/' && '/' !in rest[..3];
  }

  /** The header line of `line + "\n" + rest` is `line`, for a line without a newline. */
  lemma HeaderLineOf(line: string, rest: string)
    requires '\n' !in line
    ensures '\n' in line + "\n" + rest
    ensures HeaderLine(line + "\n" + rest) == line
  {
    var body := line + "\n" + rest;
    FirstIndexAfterPrefix(line, '\n', rest);
    assert body == line + ['\n'] + rest;
    assert body[|line|] == '\n';
    assert body[..|line|] == line;
  }

  /**
   * The envelope `{"dsn":"https://examplehost/123/abc"}` + "\n" + item, with
   * `examplehost` on the host allowlist, goes to
   * `https://examplehost/api/123/envelope/`.
   */
  lemma ExampleEnvelopeForwarded(req: Request, env: Env, json: JsonParser, parse: UrlParser, line: string, item: string)
    requires line == "{\"dsn\":\"https://examplehost/123/abc\"}"
    requires req.verb == "POST" && req.body == line + "\n" + item
    requires env.dsnWhitelist == "" && env.hostWhitelist == "examplehost"
    requires json(line) == Some(map["dsn" := "https://examplehost/123/abc"])
    requires parse("https://examplehost/123/abc") == Some(Url("examplehost", "/123/abc"))
    ensures Route(req, env, json, parse).Forward?
    ensures Route(req, env, json, parse).outbound.url == "https://examplehost/api/123/envelope/"
  {
    assert '\n' !in line;
    SingleEntryExample();
    var header := map["dsn" := "https://examplehost/123/abc"];
    assert HasDsn(header);
    EnvelopeForwardedByHost(req, env, json, parse, line, item, header, Url("examplehost", "/123/abc"));
    ExampleTarget();
  }

  /** The ingestion URL for the example DSN's host and pathname. */
  lemma ExampleTarget()
    ensures SentryRequest(Url("examplehost", "/123/abc")).url == "https://examplehost/api/123/envelope/"
  {
    var dsn := Url("examplehost", "/123/abc");
    ProjectIdExample();
    assert SentryRequest(dsn).url == ApiUrl("examplehost", "123");
    ApiUrlExample("examplehost", "123");
  }

  /** The example URL, with host and id as variables so the solver does not unfold the literals. */
  lemma ApiUrlExample(host: string, id: string)
    requires host == "examplehost" && id == "123"
    ensures ApiUrl(host, id) == "https://examplehost/api/123/envelope/"
  {
  }

  /** The host allowlist "examplehost" lists `examplehost`. */
  lemma SingleEntryExample()
    ensures "examplehost" in Entries("examplehost")
  {
    assert Trimmed("examplehost") by { assert "examplehost"[0] == 'e' && "examplehost"[10] == 't'; }
    assert ',' !in "examplehost";
    SingleEntry("examplehost");
  }

  /** `HostAllowedForwards` for a body given as a header line, a newline and the items. */
  lemma EnvelopeForwardedByHost(req: Request, env: Env, json: JsonParser, parse: UrlParser, line: string, item: string,
                                header: map<string, string>, dsn: Url)
    requires '\n' !in line && req.verb == "POST" && req.body == line + "\n" + item
    requires json(line) == Some(header) && HasDsn(header)
    requires parse(header["dsn"]) == Some(dsn) && dsn.host in Entries(env.hostWhitelist)
    ensures Route(req, env, json, parse) == Forward(SentryRequest(dsn))
  {
    HeaderLineOf(line, item);
    HostAllowedForwards(req, env, json, parse, header, dsn);
  }
}
