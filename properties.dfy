/**
 * What the proxy promises, stated over the model: the answer off the proxy
 * path, the two OPTIONS answers, the forward rewrite of the request and the
 * decoration of the upstream response.
 */
module CorsProperties {
  import opened Wrappers
  import opened Headers
  import opened CorsProxy

  /** Off the proxy path every method gets the demo page as HTML with status 200. */
  lemma OffPrefixServesDemoPage(req: Request)
    requires !StartsWith(req.path, ProxyEndpoint)
    ensures Dispatch(req) == DemoPage
    ensures DemoResponse().status == 200 && DemoResponse().body == DemoPageHtml
    ensures DemoResponse().headers == [("content-type", "text/html;charset=UTF-8")]
    ensures Lookup(DemoResponse().headers, "Content-Type") == Some("text/html;charset=UTF-8")
  {
  }

  lemma CorsHeaderNamesDistinct()
    ensures DistinctNames(CorsHeaders)
  {
    var methods, headers := CorsHeaders[2].0, CorsHeaders[3].0;
    assert Lower(methods)[21] == 'm' && Lower(headers)[21] == 'h';
  }

  /**
   * A preflight gets a null body, status 200 and exactly the four configured
   * headers, each with its configured value. The last clause follows from the
   * one before it; it is stated to flag that the credentials value is `*`,
   * not the `true` that section 3.2.3 of the Fetch Standard accepts.
   */
  lemma PreflightAnswer(req: Request)
    requires Dispatch(req) == Preflight
    ensures HandleOptions(req) == Response(200, "", CorsHeaders, Null)
    ensures forall i :: 0 <= i < |CorsHeaders| ==>
      Lookup(HandleOptions(req).headers, CorsHeaders[i].0) == Some(CorsHeaders[i].1)
    ensures Lookup(HandleOptions(req).headers, "Access-Control-Allow-Credentials") == Some("*")
    ensures Lookup(HandleOptions(req).headers, "Access-Control-Allow-Credentials") != Some("true")
  {
    CorsHeaderNamesDistinct();
    forall i | 0 <= i < |CorsHeaders|
      ensures Lookup(CorsHeaders, CorsHeaders[i].0) == Some(CorsHeaders[i].1)
    {
      ValuesOfDistinct(CorsHeaders, i);
    }
    assert CorsHeaders[1].0 == "Access-Control-Allow-Credentials";
  }

  /** An OPTIONS request missing a preflight header gets only `Allow` and no `Access-Control-Allow-Origin`. */
  lemma PlainOptionsAnswer(req: Request)
    requires Dispatch(req) == PlainOptions
    ensures HandleOptions(req) == Response(200, "", [("Allow", AllowedMethods)], Null)
    ensures Lookup(HandleOptions(req).headers, "Allow") == Some(AllowedMethods)
    ensures !HasHeader(HandleOptions(req).headers, AllowOrigin)
  {
    var allow: seq<Header> := [("Allow", AllowedMethods)];
    assert allow[1..] == [];
    assert ValuesOf(allow, "Allow") == [AllowedMethods];
    assert !SameName("Allow", AllowOrigin);
    assert ValuesOf(allow, AllowOrigin) == [];
  }

  /** A method the proxy does not forward gets 405 with a null body and no header at all. */
  lemma NotAllowedAnswer(req: Request)
    requires Dispatch(req) == MethodNotAllowed
    ensures StartsWith(req.path, ProxyEndpoint) && req.verb != "OPTIONS" && !IsForwardMethod(req.verb)
    ensures NotAllowedResponse() == Response(405, "Method Not Allowed", [], Null)
    ensures !HasHeader(NotAllowedResponse().headers, AllowOrigin)
  {
  }

  /** Whether a request is a preflight depends on its header names only, never on their values. */
  lemma {:induction false} PreflightIgnoresValues(h: seq<Header>, g: seq<Header>)
    requires |h| == |g|
    requires forall i :: 0 <= i < |h| ==> h[i].0 == g[i].0
    ensures IsPreflight(h) <==> IsPreflight(g)
  {
    LookupNoneByNames(h, g, "Origin");
    LookupNoneByNames(h, g, "Access-Control-Request-Method");
    LookupNoneByNames(h, g, "Access-Control-Request-Headers");
  }

  /**
   * The outbound request goes to the target URL with the inbound method and
   * body; its `Origin` is exactly the target's origin, whatever the caller
   * sent, and every other header is copied in place and in order.
   */
  lemma {:induction false} ForwardRequestRewritesOrigin(req: Request)
    ensures ForwardRequest(req).url == req.target.url
    ensures ForwardRequest(req).verb == req.verb && ForwardRequest(req).body == req.body
    ensures ValuesOf(ForwardRequest(req).headers, "Origin") == [req.target.origin]
    ensures Lookup(ForwardRequest(req).headers, "Origin") == Some(req.target.origin)
    ensures Without(ForwardRequest(req).headers, "Origin") == Without(req.headers, "Origin")
  {
    SetEntryValues(req.headers, "Origin", req.target.origin);
    SetEntryKeepsOthers(req.headers, "Origin", req.target.origin);
  }

  /** After decoration `Access-Control-Allow-Origin` has exactly one entry, `*`, whatever upstream sent. */
  lemma {:induction false} DecoratedAllowsAnyOrigin(upstream: Response)
    ensures ValuesOf(DecorateResponse(upstream).headers, AllowOrigin) == ["*"]
    ensures Lookup(DecorateResponse(upstream).headers, AllowOrigin) == Some("*")
  {
    var rewritten := SetEntry(upstream.headers, AllowOrigin, "*");
    SetEntryValues(upstream.headers, AllowOrigin, "*");
    ValuesOfConcat(rewritten, [("Vary", "Origin")], AllowOrigin);
    assert [("Vary", "Origin")][1..] == [];
  }

  /**
   * Decoration keeps status, status text and body, keeps every upstream
   * `Vary` value and adds `Origin` after them, and leaves every other
   * header where and as it was.
   */
  lemma {:induction false} DecorationKeepsTheRest(upstream: Response)
    ensures DecorateResponse(upstream).status == upstream.status
    ensures DecorateResponse(upstream).statusText == upstream.statusText
    ensures DecorateResponse(upstream).body == upstream.body
    ensures ValuesOf(DecorateResponse(upstream).headers, "Vary") == ValuesOf(upstream.headers, "Vary") + ["Origin"]
    ensures Without(Without(DecorateResponse(upstream).headers, AllowOrigin), "Vary")
         == Without(Without(upstream.headers, AllowOrigin), "Vary")
    ensures forall name :: !SameName(name, AllowOrigin) && !SameName(name, "Vary") ==>
      ValuesOf(DecorateResponse(upstream).headers, name) == ValuesOf(upstream.headers, name)
  {
    var h := upstream.headers;
    var rewritten := SetEntry(h, AllowOrigin, "*");
    var vary: seq<Header> := [("Vary", "Origin")];
    assert !SameName("Vary", AllowOrigin);
    AppendEntry(rewritten, "Vary", "Origin");
    SetEntryOtherValues(h, AllowOrigin, "*", "Vary");
    SetEntryKeepsOthers(h, AllowOrigin, "*");
    WithoutConcat(rewritten, vary, AllowOrigin);
    assert Without(vary, AllowOrigin) == vary;
    WithoutConcat(Without(h, AllowOrigin), vary, "Vary");
    assert Without(vary, "Vary") == [];
    forall name | !SameName(name, AllowOrigin) && !SameName(name, "Vary")
      ensures ValuesOf(rewritten + vary, name) == ValuesOf(h, name)
    {
      ValuesOfConcat(rewritten, vary, name);
      assert ValuesOf(vary, name) == [];
      SetEntryOtherValues(h, AllowOrigin, "*", name);
    }
  }
}
