# CORS reverse proxy: Dafny model

This project models the decision-and-rewrite core of a Cloudflare Worker.
The Worker is a CORS reverse proxy: it forwards browser requests to an API
named in the `apiurl` query parameter, and it adds the headers that let
browsers on other origins read the answer.

- `wrappers.dfy`: module `Wrappers`. It holds `Option`, the result of a header
  lookup. `None` stands for JavaScript's `null`.
- `headers.dfy`: module `Headers`. It holds the header list the proxy reads and
  rewrites, an ordered `seq` of (name, value) pairs. It defines the
  specification functions `ValuesOf`, `Without`, `Lookup` (the Fetch "get") and
  `SetEntry` (the Fetch "set"), with lemmas about each. It also holds the class
  `HeaderList`. Its field `entries` is changed in place by `Set` and `Append`,
  and is read by `Get`. `Set` and `Get` are loops over the list, proved against
  `SetEntry` and `Lookup`. The semantics follow section 2.2.2 of the WHATWG
  Fetch Standard. Names are matched after ASCII lower-casing.
- `corsproxy.dfy`: module `CorsProxy`. It holds the configured constants
  (`ProxyEndpoint`, `CorsHeaders`, the `Allow` value) and the request and
  response records. `Dispatch` sorts a request into one of the five routes.
  `HandleOptions`, `DemoResponse` and `NotAllowedResponse` give the answers the
  proxy makes itself. `HandleRequest` is the forward path, written
  imperatively with `HeaderList`. `OnFetch` is the fetch listener.
- `properties.dfy`: module `CorsProperties`. It holds the promises about the
  routes and the two rewrites.

The upstream `fetch` is a parameter `fetch: Outbound -> Response`. It is
applied to the rewritten request and stands for the network round trip with
redirects followed. The URL parser's results are fields of the request:
`path` is the inbound URL's path, and `target` is the `apiurl` URL together
with its origin.

The preflight value `Access-Control-Allow-Credentials: *` is reproduced as the
code has it (`PreflightAnswer` states it). Section 3.2.3 of the Fetch Standard
accepts only `true` for that header, so a browser sending credentials will
reject this preflight.

## Model

| member | source | states |
|---|---|---|
| `CorsProxy.Dispatch` | corsproxy.js:45-68 | Each of the five routes holds exactly under its own path-and-method condition. Off `/corsproxy/` the route is the demo page. On the prefix, `OPTIONS` is a preflight iff all three preflight headers are present, and a plain answer otherwise. `GET`/`HEAD`/`POST`/`PUT` are forwarded. Every other method gets 405. The routes are distinct constructors, so the routing is total and exclusive. |
| `CorsProxy.OnFetch` | corsproxy.js:42-69 | The listener's response for each route: the demo page; 200 with exactly the four CORS headers and a null body; 200 with only `Allow` and a null body; the decorated upstream answer to the rewritten request; 405 `Method Not Allowed`. |
| `CorsProxy.HandleRequest` | corsproxy.js:1-17 | The request sent upstream is `ForwardRequest(req)`. The response returned is `DecorateResponse` of what `fetch` answers to that request. |
| `CorsProxy.HandleOptions` | corsproxy.js:18-41 | Has no contract of its own. Its behaviour is stated by the `CorsProperties.PreflightAnswer` and `CorsProperties.PlainOptionsAnswer` rows, and by `CorsProperties.PreflightIgnoresValues` for the presence-only test. |
| `CorsProxy.ForwardRequest` | corsproxy.js:7-8 | Has no contract of its own. Its behaviour is stated by the `CorsProperties.ForwardRequestRewritesOrigin` row. |
| `CorsProxy.DecorateResponse` | corsproxy.js:11-15 | Has no contract of its own. Its behaviour is stated by the `CorsProperties.DecoratedAllowsAnyOrigin` and `CorsProperties.DecorationKeepsTheRest` rows. |
| `CorsProxy.DemoResponse` | corsproxy.js:86-91 | Has no contract of its own. Its behaviour is stated by the `CorsProperties.OffPrefixServesDemoPage` row. |
| `CorsProxy.NotAllowedResponse` | corsproxy.js:59-62 | Has no contract of its own. Its behaviour is stated by the `CorsProperties.NotAllowedAnswer` row. |
| `CorsProperties.OffPrefixServesDemoPage` | corsproxy.js:86-91 | A path without the prefix is routed to the demo page for any method. That page is served with status 200 and exactly one header, `content-type: text/html;charset=UTF-8`, which a case-insensitive `get` of `Content-Type` also finds. |
| `CorsProperties.PreflightAnswer` | corsproxy.js:21-31 | A preflight gets status 200, a null body and exactly the four configured headers, each with its configured value. This includes `Access-Control-Allow-Credentials: *`, which is not `true`. |
| `CorsProperties.PlainOptionsAnswer` | corsproxy.js:32-39 | An `OPTIONS` request missing any preflight header gets status 200, a null body and the single header `Allow: GET, HEAD, PUT, POST, OPTIONS`. It has no `Access-Control-Allow-Origin`. |
| `CorsProperties.NotAllowedAnswer` | corsproxy.js:57-63 | Only a prefix-path method other than `OPTIONS` and the four forwarded ones reaches 405. That answer has status text `Method Not Allowed`, a null body and no `Access-Control-Allow-Origin`. |
| `CorsProperties.PreflightIgnoresValues` | corsproxy.js:21-25 | Two header lists with the same names in the same order are both preflights or both not, whatever their values. |
| `CorsProperties.ForwardRequestRewritesOrigin` | corsproxy.js:7-8 | The outbound request goes to the `apiurl` URL with the inbound method and body. Its only `Origin` value is the target's origin, replacing the caller's. Every other header keeps its place and value. |
| `CorsProperties.DecoratedAllowsAnyOrigin` | corsproxy.js:13 | After decoration, `Access-Control-Allow-Origin` has exactly one entry, `*`, whether or not the upstream sent one. |
| `CorsProperties.DecorationKeepsTheRest` | corsproxy.js:11-15 | Decoration keeps status, status text and body. The `Vary` values are the upstream's followed by `Origin`. Every other header keeps its values, and the list without `Access-Control-Allow-Origin` and `Vary` is unchanged. |
| `Headers.HeaderList.constructor` | corsproxy.js:11 | A header list made from an existing one holds that one's entries, so every `get` on the copy returns what it returns on the original. The runtime's copy is laid out differently (see the `Headers.HeaderList.constructor` line under Left out). |
| `Headers.HeaderList.Get` | corsproxy.js:22-24 | `get` returns `Lookup` of the list: null when no entry has the name, else the values joined by ", ". |
| `Headers.HeaderList.Set` | corsproxy.js:8 | After `set`, the entries are `SetEntry` of the old entries: the first entry with the name keeps its place and takes the new value, the later ones go, and when none existed the pair is added at the end. |
| `Headers.HeaderList.Append` | corsproxy.js:15 | After `append`, the entries are the old ones followed by the new pair. |
| `Headers.SetEntryValues` | corsproxy.js:13 | After `set`, the name has exactly one value, the one set, whatever the list held before. |
| `Headers.SetEntryKeepsOthers` | corsproxy.js:8 | `set` leaves every entry of every other name in place and in order. |
| `Headers.SetEntryOtherValues` | corsproxy.js:13 | `set` of one name changes no value of any other name. |
| `Headers.SetEntryWhenAbsent` | corsproxy.js:13 | On a list without the name, `set` adds the pair at the end. |
| `Headers.LookupAfterSet` | corsproxy.js:8 | `get` after `set` returns exactly the value set. |
| `Headers.AppendEntry` | corsproxy.js:15 | `append` adds its value after the name's earlier values and leaves every other entry alone. |
| `Headers.LookupNoneIff` | corsproxy.js:22-24 | `get` is null exactly when no entry has the name. |
| `Headers.LookupNoneByNames` | corsproxy.js:22-24 | Whether `get` is null depends only on the list's names, not its values. |
| `Headers.ValuesOfDistinct` | corsproxy.js:74-79 | In a list with distinct names, such as the configured CORS headers, each entry's name has that entry's value and no other. |

## Left out

- The network fetch with `redirect: 'follow'` (corsproxy.js:9) is network I/O. It is the parameter `fetch`, which gives the final response after redirects.
- A failed fetch is not modelled. In the source, a network failure at corsproxy.js:9 rejects the promise, nothing handles it, and the Worker answers with the runtime's own error. `fetch` here is total and always yields a response.
- Body streaming is left out. A body is an opaque value (`Body`) that is carried through untouched.
- URL parsing and origin serialisation (corsproxy.js:2-3, 8, 44) are URL Standard machinery. Their results are given: the request's `path`, and `target` with the `apiurl` URL and its origin. A missing or invalid `apiurl` makes the source throw. That case is not modelled.
- `addEventListener`, `event.respondWith` and async wrapping are runtime plumbing. At line 58 the source passes an async function, not a response, to `respondWith`. `respondWith` takes a Response or a promise of one, so the runtime does not deliver that 405 to the caller as written. The model, and the `NotAllowedAnswer` and `OnFetch` rows, give the 405 response that function builds: the evidently intended answer, not the observed one.
- The demo page's HTML and embedded script (corsproxy.js:93-142) are UI. The body is the opaque `DemoPageHtml`. The demo `apiurl` constant (corsproxy.js:82) is used only there.
- Header-name matching is modelled as equality after ASCII lower-casing. Fetch's validation of names and values, its whitespace normalisation of values, and the header guards (forbidden request and response header names) are not modelled. The Workers runtime lets the proxy set `Origin`.
- `Headers.HeaderList.constructor`: copies the entries as they are. In the source, `new Request(apiurl, request)` (corsproxy.js:7) and `new Response(response.body, response)` (corsproxy.js:11) fill the new list from the old `Headers` object through its iterator. That iterator yields the sort-and-combine of the list: names lower-cased and sorted, and each name's values joined by ", " into one entry. Every `get` result is the same either way. The claims about place, order and entry count hold only for the model's list: "every other header keeps its place" (`ForwardRequestRewritesOrigin`), "the list without `Access-Control-Allow-Origin` and `Vary` is unchanged" and the number of `Vary` entries (`DecorationKeepsTheRest`).
- `Headers.HeaderList.Append`: keeps the case of the name as given. Fetch reuses the case of the first entry with that name, which no case-insensitive `get` can tell apart.
- Method names are compared exactly as the runtime delivers them. Method normalisation is not modelled.
