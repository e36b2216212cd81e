/**
 * The CORS reverse proxy of a single Cloudflare Worker: the fetch listener
 * sorts every inbound request into one of five routes by its path and method,
 * answers OPTIONS requests itself (a CORS preflight when the three preflight
 * headers are present, a plain `Allow` answer otherwise), refuses methods it
 * does not forward with 405, serves a demo page off the proxy path, and on
 * the forward route rewrites the outbound `Origin` and decorates the upstream
 * response with `Access-Control-Allow-Origin: *` and `Vary: Origin`.
 *
 * The upstream fetch (with redirects followed) is a function parameter; the
 * URL parser's results for the inbound URL (its path, its `apiurl` query
 * parameter and that URL's origin) are given in the request record.
 */
module CorsProxy {
  import opened Wrappers
  import opened Headers

  /** The path prefix the proxy answers on. */
  const ProxyEndpoint: string := "/corsproxy/"

  /** The headers of a preflight answer, as configured, in this order. */
  const CorsHeaders: seq<Header> := [
    ("Access-Control-Allow-Origin", "*"),
    ("Access-Control-Allow-Credentials", "*"),
    ("Access-Control-Allow-Methods", "GET, HEAD, POST, PUT, OPTIONS"),
    ("Access-Control-Allow-Headers", "*")
  ]

  /** The `Allow` value of an OPTIONS answer that is not a preflight. */
  const AllowedMethods: string := "GET, HEAD, PUT, POST, OPTIONS"

  const AllowOrigin: string := "Access-Control-Allow-Origin"

  /** A message body, carried through untouched; the demo page's HTML is not modelled. */
  datatype Body = Null | DemoPageHtml | Stream(data: seq<bv8>)

  /** What the URL parser yields for the `apiurl` query parameter: the URL and its origin. */
  datatype Target = Target(url: string, origin: string)

  /** An inbound request: method, the path of its URL, its `apiurl` target, headers and body. */
  datatype Request = Request(verb: string, path: string, target: Target, headers: seq<Header>, body: Body)

  /** The request the proxy sends upstream. */
  datatype Outbound = Outbound(url: string, verb: string, headers: seq<Header>, body: Body)

  /** A response; a fresh Response without an explicit status has 200 and an empty status text. */
  datatype Response = Response(status: nat, statusText: string, headers: seq<Header>, body: Body)

  /** The five things the listener can do with a request. */
  datatype Route = DemoPage | Preflight | PlainOptions | Forward | MethodNotAllowed

  predicate StartsWith(s: string, prefix: string) {
    |prefix| <= |s| && s[..|prefix|] == prefix
  }

  /** The methods the proxy forwards upstream. */
  predicate IsForwardMethod(m: string) {
    m == "GET" || m == "HEAD" || m == "POST" || m == "PUT"
  }

  /** `headers.get(name) !== null`. */
  predicate HasHeader(h: seq<Header>, name: string) {
    Lookup(h, name) != None
  }

  /** A CORS preflight carries all three headers; only their presence is checked. */
  predicate IsPreflight(h: seq<Header>) {
    && HasHeader(h, "Origin")
    && HasHeader(h, "Access-Control-Request-Method")
    && HasHeader(h, "Access-Control-Request-Headers")
  }

  /**
   * The listener's decision, by path prefix and method: off the prefix any
   * method gets the demo page; on the prefix OPTIONS is a preflight or a plain
   * answer, the four forwarded methods go upstream and every other method
   * gets 405.
   */
  function Dispatch(req: Request): (r: Route)
    ensures r == DemoPage <==> !StartsWith(req.path, ProxyEndpoint)
    ensures r == Preflight <==>
      StartsWith(req.path, ProxyEndpoint) && req.verb == "OPTIONS" && IsPreflight(req.headers)
    ensures r == PlainOptions <==>
      StartsWith(req.path, ProxyEndpoint) && req.verb == "OPTIONS" && !IsPreflight(req.headers)
    ensures r == Forward <==> StartsWith(req.path, ProxyEndpoint) && IsForwardMethod(req.verb)
    ensures r == MethodNotAllowed <==>
      StartsWith(req.path, ProxyEndpoint) && req.verb != "OPTIONS" && !IsForwardMethod(req.verb)
  {
    if StartsWith(req.path, ProxyEndpoint) then
      if req.verb == "OPTIONS" then
        if IsPreflight(req.headers) then Preflight else PlainOptions
      else if IsForwardMethod(req.verb) then Forward
      else MethodNotAllowed
    else DemoPage
  }

  /** The answer to an OPTIONS request on the proxy path. */
  function HandleOptions(req: Request): Response {
    if IsPreflight(req.headers) then Response(200, "", CorsHeaders, Null)
    else Response(200, "", [("Allow", AllowedMethods)], Null)
  }

  /** The answer to a method the proxy does not forward. */
  function NotAllowedResponse(): Response {
    Response(405, "Method Not Allowed", [], Null)
  }

  /** The demo page, served with a fixed content type and the default status. */
  function DemoResponse(): Response {
    Response(200, "", [("content-type", "text/html;charset=UTF-8")], DemoPageHtml)
  }

  /** The outbound request: the target URL, the inbound method, headers and body, and the target's origin. */
  function ForwardRequest(req: Request): Outbound {
    Outbound(req.target.url, req.verb, SetEntry(req.headers, "Origin", req.target.origin), req.body)
  }

  /** The upstream response with `Access-Control-Allow-Origin` set to `*` and `Origin` appended to `Vary`. */
  function DecorateResponse(upstream: Response): Response {
    upstream.(headers := SetEntry(upstream.headers, AllowOrigin, "*") + [("Vary", "Origin")])
  }

  /** The forward route: rewrite the request, fetch it, recreate and decorate the response. */
  method HandleRequest(req: Request, fetch: Outbound -> Response) returns (outbound: Outbound, response: Response)
    ensures outbound == ForwardRequest(req)
    ensures response == DecorateResponse(fetch(outbound))
  {
    var outHeaders := new HeaderList(req.headers);
    outHeaders.Set("Origin", req.target.origin);
    outbound := Outbound(req.target.url, req.verb, outHeaders.entries, req.body);
    var upstream := fetch(outbound);
    var responseHeaders := new HeaderList(upstream.headers);
    responseHeaders.Set(AllowOrigin, "*");
    responseHeaders.Append("Vary", "Origin");
    response := Response(upstream.status, upstream.statusText, responseHeaders.entries, upstream.body);
  }

  /** The fetch listener: the response it gives to each route. */
  method OnFetch(req: Request, fetch: Outbound -> Response) returns (response: Response)
    ensures Dispatch(req) == DemoPage ==> response == DemoResponse()
    ensures Dispatch(req) == Preflight ==> response == Response(200, "", CorsHeaders, Null)
    ensures Dispatch(req) == PlainOptions ==> response == Response(200, "", [("Allow", AllowedMethods)], Null)
    ensures Dispatch(req) == Forward ==> response == DecorateResponse(fetch(ForwardRequest(req)))
    ensures Dispatch(req) == MethodNotAllowed ==> response == NotAllowedResponse()
  {
    match Dispatch(req)
    case Preflight =>
      response := HandleOptions(req);
    case PlainOptions =>
      response := HandleOptions(req);
    case Forward =>
      var _, r := HandleRequest(req, fetch);
      response := r;
    case MethodNotAllowed =>
      response := NotAllowedResponse();
    case DemoPage =>
      response := DemoResponse();
  }
}
