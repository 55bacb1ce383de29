# worker-sentry-tunnel, modelled in Dafny

The worker is a tunnel for Sentry envelopes. A browser POSTs an envelope to
it. The worker reads the envelope's first line as a JSON header and takes the
header's `dsn`. It checks that DSN against two comma-separated allowlists
(`SENTRY_DSN_WHITELIST`, `SENTRY_HOST_WHITELIST`). If the DSN passes, the body
goes on to `https://{host}/api/{projectId}/envelope/`. When `ENABLE_CORS` is on,
the worker also answers `OPTIONS` preflights and adds CORS headers to Sentry's
response.

The model covers the whole decision in `src/index.ts`, as pure functions over
`seq<char>`:

| file | module | what it holds |
|---|---|---|
| `wrappers.dfy` | `Wrappers` | `Option`, `Result` |
| `strings.dfy` | `Strings` | JavaScript `split` (one-character separator), `join` and `trim` (the ECMAScript whitespace set) |
| `http.dfy` | `Http` | Fetch `Headers` as a map from lower-cased name to values; `get` joins values with ", ", plus `set`, `append`, object-literal headers and `Response` |
| `runtime.dfy` | `Runtime` | the abstract URL and JSON parsers, and the faults they throw |
| `allowlist.dfy` | `Allowlist` | `isDsnAllowed` |
| `cors.dfy` | `Cors` | `handleOptionsRequest` and the patch applied to a forwarded response |
| `tunnel.dfy` | `Tunnel` | the `fetch` handler: dispatch, envelope split, allowlist gate, project id, API URL, outbound request |

`new URL(input)` and `JSON.parse(text)` are parameters of the model:
- `parse: string -> Option<Url>`, where `Url` holds `host` and `pathname`;
- `json: string -> Option<map<string, string>>`.

`None` stands for the exception the real call throws. It becomes the outcome
`Thrown(InvalidUrl(..))` or `Thrown(InvalidJson(..))`.

Some lemmas take `ConformingParser(parse)` as a hypothesis. It states two
rules of the URL Standard's basic URL parser:
- with no base URL, an input without ':' fails (section 4.4);
- '/' is a forbidden host code point, so no parsed host contains one (section 3.5).

The outbound `fetch` is also a parameter. `Handle` receives its settled
result as `upstream`: Sentry's response, or the fault of a rejection.
`Route` yields one of three outcomes:
- `Reply(response)`: the OPTIONS answer, 405, 400 or 403;
- `Forward(outbound)`: the request sent to Sentry;
- `Thrown(fault)`.

Bad JSON in the header line throws. A missing or empty `dsn` skips the
allowlists, and `new URL` then throws on "undefined" or "".
`MissingDsnThrows` states this.

An empty allowlist still has one entry, the empty string, because
`"".split(',')` is `[""]`. With an empty `SENTRY_HOST_WHITELIST`, a DSN whose
URL has an empty host (such as `file:///123/x`) is therefore allowed.
`EmptyHostListAllowsEmptyHost` states this.

A forward can still fail in two places. `new Request(apiUrl, …)` parses the
built URL again and throws when that URL is invalid. `await fetch` can reject.
`Handle` checks the built URL with the same `parse`. It takes the settled
`fetch` as `upstream: Result<Response, Fault>`, where `NetworkError` stands
for a rejection.

## Model

| member | source | states |
|---|---|---|
| Strings.Trim | src/index.ts:2 | the trimmed entry neither starts nor ends with whitespace, and it sits in the original with only whitespace before and after it |
| Strings.TrimUnique | src/index.ts:2 | conversely, any trimmed piece of a string with only whitespace around it is exactly what `trim` returns |
| Strings.TrimWrapped | src/index.ts:9 | whitespace added around a trimmed entry is removed again by `trim` |
| Strings.TrimIdempotent | src/index.ts:2 | trimming twice gives the same as trimming once |
| Strings.Split | src/index.ts:75 | `split` gives at least one piece, no piece contains the separator, and the first piece is the text before the first separator |
| Strings.JoinSplit | src/index.ts:75 | joining the pieces of a split with the separator gives back the original string |
| Strings.SplitJoin | src/index.ts:2 | splitting comma-free items joined by commas gives back exactly those items |
| Strings.SplitHasTwoPieces | src/index.ts:75-78 | a string splits into two or more pieces exactly when it contains the separator |
| Http.Get | src/index.ts:27-29 | `headers.get` is null exactly when no value is stored under the name; a single value is returned as is |
| Http.Set | src/index.ts:120 | after `set`, the name has exactly the one new value and every other name keeps its values |
| Http.Append | src/index.ts:123 | after `append`, the new value follows the old ones, `get` yields the old combined value, ", " and the new value, and other names are unchanged |
| Http.FromPairsKeys | src/index.ts:33-42 | headers built from an object literal hold exactly the literal's (lower-cased) names |
| Http.FromPairsValues | src/index.ts:33-42 | with distinct names, each name of the literal maps to exactly its value |
| Http.TextResponse | src/index.ts:66-68 | a text response carries the given status and text and the default `text/plain;charset=UTF-8` content type |
| Allowlist.Entries | src/index.ts:2 | the configured allowlist has one entry per comma-separated piece, and every entry is trimmed |
| Allowlist.IsDsnAllowed | src/index.ts:1-13 | a DSN listed verbatim is allowed; otherwise an unparsable DSN throws, and a parsable one is allowed exactly when its host is listed |
| Allowlist.EntriesOfItems | src/index.ts:2 | an allowlist of comma-free items has exactly the trimmed items as entries, in order |
| Allowlist.SpacedListExample | src/index.ts:2 | the allowlist " a , b" has exactly the entries "a" and "b" |
| Allowlist.ListedIff | src/index.ts:5 | a string is on an item allowlist exactly when some item, trimmed, equals it |
| Allowlist.AllowedIffConfigured | src/index.ts:1-13 | against item allowlists, a DSN is allowed iff it equals a trimmed DSN item, or it parses and its host equals a trimmed host item; it throws iff it matches no DSN item and does not parse |
| Allowlist.DsnListShortCircuits | src/index.ts:4-7 | a DSN on the DSN allowlist is allowed, whatever the host allowlist holds and whatever its URL parses to |
| Allowlist.UntrimmedNeverListed | src/index.ts:2-5 | a DSN with whitespace at either end is never on an allowlist |
| Allowlist.EmptyHostListAllowsEmptyHost | src/index.ts:9-12 | an empty host allowlist has the one entry "", so a DSN that parses to an empty host is allowed |
| Allowlist.SingleEntry | src/index.ts:9 | a one-item allowlist holding a trimmed, comma-free item has that item as its only entry |
| Cors.PreflightIffStored | src/index.ts:26-30 | a request is a preflight (`IsPreflight`) exactly when `Origin`, `Access-Control-Request-Method` and `Access-Control-Request-Headers` each have at least one stored value |
| Cors.PreflightHeaders | src/index.ts:33-38 | the preflight headers are exactly max-age 86400, origin `*`, methods `POST,OPTIONS`, and the requested headers |
| Cors.HandleOptions | src/index.ts:21-52 | OPTIONS gets status 200 with a null body; a preflight (all three request headers present) gets exactly the three CORS headers plus `Access-Control-Allow-Headers` echoing the request verbatim; anything else gets exactly `Allow: POST,OPTIONS` |
| Cors.AllowAnyOrigin | src/index.ts:115-125 | the patched response keeps status, status text and body, sets `Access-Control-Allow-Origin: *`, appends `Origin` after the existing `Vary` values, and leaves every other header as it was |
| Tunnel.CorsFlagStrict | src/index.ts:57 | CORS is on (`CorsEnabled`) only for the boolean `true` and the exact string "true"; a missing binding, `false`, "TRUE" or "1" leave it off |
| Tunnel.ProjectId | src/index.ts:98 | the project id has no '/', is a prefix of the pathname without its first character, and stops at the first '/' or at the end |
| Tunnel.ProjectIdExample | src/index.ts:98 | the project id of `/123/abc` is `123` |
| Tunnel.ApiUrl | src/index.ts:101 | the ingestion URL starts with `https://` followed by the host, ends with `/envelope/`, and is 23 characters longer than host and project id together |
| Tunnel.ApiUrlRoundTrip | src/index.ts:101 | host and project id, both without '/', are read back from the ingestion URL built from them |
| Tunnel.ApiUrlInjective | src/index.ts:101 | two different (host, project) pairs never build the same ingestion URL |
| Tunnel.SentryRequest | src/index.ts:103-110 | the outbound request is a POST whose only header is `Content-Type: application/x-sentry-envelope` |
| Tunnel.ForwardTo | src/index.ts:94-110 | `new URL` of the input either throws `InvalidUrl(input)` or, exactly when it parses, yields a POST to `ApiUrl(host, ProjectId(pathname))` of the parsed DSN |
| Tunnel.Admit | src/index.ts:87-110 | the answer is a reply exactly when the header has a truthy `dsn` that the allowlists reject, and that reply is 403 Forbidden; it is a forward exactly when the DSN input parses and a truthy `dsn`, if any, was accepted |
| Tunnel.Route | src/index.ts:55-110 | only a POST whose body has a newline is forwarded or throws; it throws `InvalidJson` exactly when its first line does not parse; local answers are 200, 400, 403 or 405, and 200 only for OPTIONS with CORS on. `CorsOptionsAnswered`, `OtherMethodsRejected`, `BadRequestIffNoNewline`, `ForbiddenIff` and `ForwardShape` carry the rest |
| Tunnel.RouteParsedHeader | src/index.ts:75-85 | once a POST has a newline and its first line parses, the outcome depends on the parsed header alone |
| Tunnel.CorsOptionsAnswered | src/index.ts:57-62 | with CORS on, OPTIONS is always answered by the options handler with status 200, never 405 |
| Tunnel.OtherMethodsRejected | src/index.ts:64-69 | a method other than POST, except OPTIONS with CORS on, gets 405 whatever the body |
| Tunnel.BadRequestIffNoNewline | src/index.ts:71-82 | a POST gets 400 exactly when its body has no newline, whatever the parsers and allowlists |
| Tunnel.ForbiddenIff | src/index.ts:84-92 | a POST gets 403 exactly when its first line parses to a header with a non-empty `dsn` that the allowlists reject |
| Tunnel.ForwardShape | src/index.ts:94-110 | a forward is a POST with a newline and a parsed header whose DSN, if present, was allowed; it goes to `"https://" + host + "/api/" + projectId + "/envelope/"` of the parsed DSN, with a '/'-free project id, method POST and only the envelope content type |
| Tunnel.ForwardNeedsApproval | src/index.ts:87-95 | with a conforming URL parser, nothing is forwarded unless the header has a DSN and the allowlists accept it |
| Tunnel.ForwardTargetApproved | src/index.ts:1-13 | with a conforming URL parser, every forward target reads back as the host and project of a DSN that is on the DSN allowlist or whose host is on the host allowlist |
| Tunnel.MissingDsnFails | src/index.ts:95 | with a conforming URL parser, the URL input for a missing or empty `dsn` fails to parse |
| Tunnel.MissingDsnThrows | src/index.ts:88-95 | a header without a truthy `dsn` skips the allowlists and throws at `new URL` |
| Tunnel.HostAllowedForwards | src/index.ts:9-12 | a DSN whose parsed host is on the host allowlist is forwarded to that host's ingestion URL |
| Tunnel.DsnListedForwards | src/index.ts:4-7 | a DSN on the DSN allowlist that parses is forwarded to its ingestion URL, whatever the host allowlist holds |
| Tunnel.ListedButUnparsableThrows | src/index.ts:94-95 | a DSN that passes the DSN allowlist but does not parse throws rather than forwarding |
| Tunnel.Handle | src/index.ts:103-128 | the handler fails exactly when the route throws, when `new Request` rejects the built URL, or when `fetch` rejects; each failure carries its own fault, and local replies are returned unchanged |
| Tunnel.ForwardedResponse | src/index.ts:113-128 | for a forward whose URL parses and whose `fetch` resolves: with CORS off, Sentry's response comes back untouched; with CORS on, it keeps status and body, gains `Access-Control-Allow-Origin: *` and `Origin` appended to `Vary`, and every other header is unchanged |
| Tunnel.ExampleEnvelopeForwarded | src/index.ts:75-101 | the envelope `{"dsn":"https://examplehost/123/abc"}` followed by a newline and an item, with `examplehost` on the host allowlist, goes to `https://examplehost/api/123/envelope/` |

## Left out

- The outbound `fetch` and all body streaming (`request.clone().text()`, `request.body`, `sentryResponse.body`). These are network I/O. The body is read as a text parameter, the settled `fetch` is the `upstream` parameter, and the forward is an `Outbound` value without its body.
- `JSON.parse` is an abstract parser that yields a record of string fields or fails. JSON values that are not strings (`"dsn": null`, numbers) and top-level values that are not objects are not represented.
- `new URL` is an abstract partial function yielding host and pathname. No host normalisation or port rules are modelled. Only the two facts in `ConformingParser` are assumed, and only by the lemmas that name it.
- Cloudflare `Env` bindings are plain fields. A binding that is missing (`undefined.split` throws) is not modelled, and `ENABLE_CORS` is modelled as missing, a boolean or a string.
- Tunnel.ProjectId: `Outbound.url` is the URL string as built, before `new Request` parses and normalises it. For a DSN with a non-special scheme, the pathname can keep `\` (as in `foo://h/..\..\x/1`). Its project id `..\..\x` has no '/', but the URL Standard parser reads `\` in an `https` URL as a path separator and resolves the dot segments, so the request goes to `https://h/x/envelope/`. The '/'-free project id in `ForwardShape` and the read-back in `ForwardTargetApproved` hold for the built string, not for the path finally requested. The parser's normalisation is outside the model.
- Request method normalisation by the runtime is left out. The method is compared as the exact string the handler sees.
- Strings are sequences of Unicode scalar values, not UTF-16 code units. So `substring(1)` drops one character, where JavaScript drops one code unit.
- Fetch header values are assumed to be already normalised (no leading or trailing HTTP whitespace). The order of a header list across names is not represented; iteration order does not affect the handler.
- The runtime turns a thrown exception into an error response. That response is not modelled; the model stops at the `Thrown` outcome.
