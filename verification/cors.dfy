/**
 * Cross-origin handling: the answer to an `OPTIONS` request
 * (`handleOptionsRequest`) and the headers added to a forwarded response.
 * The preflight exchange is the CORS protocol of section 3.2 of the WHATWG
 * Fetch Standard; `Vary` is section 12.5.5 of RFC 9110.
 */
module Cors {
  import opened Wrappers
  import opened Http

  const MaxAgeName := "Access-Control-Max-Age"
  const AllowOriginName := "Access-Control-Allow-Origin"
  const AllowMethodsName := "Access-Control-Allow-Methods"
  const AllowHeadersName := "Access-Control-Allow-Headers"

  const MaxAge := "86400"
  const AnyOrigin := "*"
  const AllowedMethods := "POST,OPTIONS"

  /** The fixed `corsHeaders` object, in declaration order. */
  const CorsHeaders: seq<(string, string)> :=
    [(MaxAgeName, MaxAge), (AllowOriginName, AnyOrigin), (AllowMethodsName, AllowedMethods)]

  /** A request carrying all three headers of a CORS preflight. */
  predicate IsPreflight(requestHeaders: HeaderMap) {
    && Get(requestHeaders, "Origin").Some?
    && Get(requestHeaders, "Access-Control-Request-Method").Some?
    && Get(requestHeaders, "Access-Control-Request-Headers").Some?
  }

  /**
   * `headers.get(name) !== null` for the three names says exactly that each
   * name, lower-cased, has at least one stored value.
   */
  lemma PreflightIffStored(requestHeaders: HeaderMap)
    ensures IsPreflight(requestHeaders) <==>
              && Lower("Origin") in requestHeaders && requestHeaders[Lower("Origin")] != []
              && Lower("Access-Control-Request-Method") in requestHeaders
              && requestHeaders[Lower("Access-Control-Request-Method")] != []
              && Lower("Access-Control-Request-Headers") in requestHeaders
              && requestHeaders[Lower("Access-Control-Request-Headers")] != []
  {
  }

  lemma PreflightNamesDistinct(requested: string)
    ensures DistinctNames(CorsHeaders + [(AllowHeadersName, requested)])
  {
    var ps := CorsHeaders + [(AllowHeadersName, requested)];
    assert Lower(AllowMethodsName)[21] == 'm';
    assert Lower(AllowHeadersName)[21] == 'h';
    assert |Lower(MaxAgeName)| == 22 && |Lower(AllowOriginName)| == 27;
    assert |Lower(AllowMethodsName)| == 28 && |Lower(AllowHeadersName)| == 28;
    assert forall i :: 0 <= i < |ps| ==> ps[i].0 in {MaxAgeName, AllowOriginName, AllowMethodsName, AllowHeadersName};
  }

  /** The header list of a preflight answer: the fixed CORS headers and the echoed request headers. */
  function PreflightHeaders(requested: string): (h: HeaderMap)
    ensures h.Keys == {Lower(MaxAgeName), Lower(AllowOriginName), Lower(AllowMethodsName), Lower(AllowHeadersName)}
    ensures Get(h, MaxAgeName) == Some("86400")
    ensures Get(h, AllowOriginName) == Some("*")
    ensures Get(h, AllowMethodsName) == Some("POST,OPTIONS")
    ensures Get(h, AllowHeadersName) == Some(requested)
  {
    var pairs := CorsHeaders + [(AllowHeadersName, requested)];
    PreflightNamesDistinct(requested);
    FourPairs(pairs);
    assert pairs[0] == (MaxAgeName, MaxAge) && pairs[1] == (AllowOriginName, AnyOrigin);
    assert pairs[2] == (AllowMethodsName, AllowedMethods) && pairs[3] == (AllowHeadersName, requested);
    FromPairs(pairs)
  }

  /** The header list of a plain `OPTIONS` answer: `Allow` and nothing else. */
  function AllowOnlyHeaders(): (h: HeaderMap)
    ensures h.Keys == {Lower("Allow")}
    ensures Get(h, "Allow") == Some("POST,OPTIONS")
  {
    var pairs := [("Allow", AllowedMethods)];
    FromPairsKeys(pairs);
    assert Names(pairs) == {Lower("Allow")};
    FromPairs(pairs)
  }

  /**
   * `handleOptionsRequest`: a status-200 response with a null body. For a
   * preflight its headers are exactly the three fixed CORS headers plus
   * `Access-Control-Allow-Headers` echoing the requested headers verbatim;
   * for any other `OPTIONS` request they are exactly `Allow: POST,OPTIONS`.
   */
  function HandleOptions(requestHeaders: HeaderMap): (r: Response)
    ensures r.status == 200 && r.statusText == "" && r.body == None
    ensures IsPreflight(requestHeaders) ==>
              && r.headers.Keys == {Lower(MaxAgeName), Lower(AllowOriginName), Lower(AllowMethodsName), Lower(AllowHeadersName)}
              && Get(r.headers, MaxAgeName) == Some("86400")
              && Get(r.headers, AllowOriginName) == Some("*")
              && Get(r.headers, AllowMethodsName) == Some("POST,OPTIONS")
              && Get(r.headers, AllowHeadersName) == Get(requestHeaders, "Access-Control-Request-Headers")
    ensures !IsPreflight(requestHeaders) ==>
              && r.headers.Keys == {Lower("Allow")}
              && Get(r.headers, "Allow") == Some("POST,OPTIONS")
  {
    if IsPreflight(requestHeaders) then
      Response(200, "", None, PreflightHeaders(Get(requestHeaders, "Access-Control-Request-Headers").value))
    else
      Response(200, "", None, AllowOnlyHeaders())
  }

  /**
   * The patch applied to a forwarded response when CORS is on: a copy of the
   * response whose `Access-Control-Allow-Origin` is set to `*` and whose
   * `Vary` gains `Origin` after the values it already had. Status, status
   * text, body and every other header are those of the original.
   */
  function AllowAnyOrigin(response: Response): (r: Response)
    ensures r.status == response.status && r.statusText == response.statusText && r.body == response.body
    ensures Get(r.headers, AllowOriginName) == Some("*")
    ensures Values(r.headers, "Vary") == Values(response.headers, "Vary") + ["Origin"]
    ensures Get(r.headers, "Vary") == Some(if Values(response.headers, "Vary") == [] then "Origin"
                                           else Combine(Values(response.headers, "Vary")) + ", Origin")
    ensures forall n {:trigger Values(r.headers, n)} ::
              Lower(n) != Lower(AllowOriginName) && Lower(n) != Lower("Vary") ==>
                Values(r.headers, n) == Values(response.headers, n)
    ensures r.headers.Keys == response.headers.Keys + {Lower(AllowOriginName), Lower("Vary")}
  {
    var withOrigin := Set(response.headers, AllowOriginName, AnyOrigin);
    assert |Lower(AllowOriginName)| != |Lower("Vary")|;
    assert Values(withOrigin, "Vary") == Values(response.headers, "Vary");
    assert forall x: string :: x + ", " + "Origin" == x + ", Origin";
    Response(response.status, response.statusText, response.body, Append(withOrigin, "Vary", "Origin"))
  }
}
