# google-search-agent: the search tool handler and the request-logging wrapper

google-search-agent is a small MCP server written in Go. It exposes one tool,
`google_search`, which forwards a query to the Google Custom Search JSON API
and returns the titles and links of the hits. This project models the
deterministic logic of `main.go` and proves what it promises.

- **The handler's decision pipeline** (`googleSearchHandler`).
  - Modelled in `search.dfy` as the function `Search.Handle`, plus a method
    `Search.GoogleSearchHandler` that follows the handler's early returns and
    is proved equal to it.
  - The order of checks is as in the handler:
    1. the `query` argument must be present and be a string;
    2. both credentials must still be non-empty after trimming;
    3. the request must be built and sent;
    4. the status must be 200;
    5. the body must decode.
  - Only then are the items copied one for one into the result list.
  - The network is a parameter `fetch`, a function from the requested URL to
    what the GET produced. This lets the model say which URL is requested,
    and that no URL is requested when validation fails.
  - The copy loop is the method `Search.MapItems`. It fills a preallocated
    array, as the handler fills its preallocated slice.
- **The Go library behaviour the handler relies on** (`go_std.dfy`).
  - Strings are byte sequences, as Go strings are.
  - `strings.TrimSpace` is defined over bytes. It recognises the UTF-8
    encodings of the runes `unicode.IsSpace` accepts:
    - ASCII `\t` `\n` `\v` `\f` `\r` and space;
    - U+0085 and U+00A0;
    - U+1680;
    - U+2000 to U+200A, U+2028, U+2029 and U+202F;
    - U+205F;
    - U+3000.
  - `url.QueryEscape` is defined as Go's query-component escaping:
    - letters, digits and `-_.~` are kept;
    - space becomes `+`;
    - every other byte becomes `%XX` in upper-case hex.
  - `url.QueryUnescape` is given as its inverse, and the round trip is proved.
- **`shortID` and `statusWriter`** from the logging middleware
  (`logging.dfy`).
  - `statusWriter` is the class `Logging.StatusWriter`. Its `status` and
    `written` fields are updated in place. A ghost log records what it
    forwards to the underlying `ResponseWriter`.
  - The state machine is specified by the pure step functions
    `Logging.StepWriteHeader` and `Logging.StepWrite`, and by `Logging.Replay`
    for a whole sequence of calls. The class methods are proved to follow
    these functions.
  - `Logging.Middleware` runs a handler's sequence of writer calls against a
    fresh wrapper. It returns the status that the middleware logs.

Three behaviours of the code that a reader might not expect:

- **The empty query is accepted.** `req.RequireString` accepts `""`, and the
  handler performs no further check (main.go:43-46). `Search.RequireString`
  therefore yields `Some([])` for an empty string argument.
- **Control characters are not trimmed**, whatever the comment at
  main.go:48-49 says. `strings.TrimSpace` removes only Unicode white space.
  `GoStd.TrimSpaceKeepsControlBytes` shows that a value that begins and ends
  with another control byte (NUL, ESC, DEL, …) is left unchanged.
- **The key and the engine id are put into the URL unescaped**
  (main.go:59-62). `Search.EndpointQueryRoundTrip` shows that the escaped
  query still follows the URL's last `&` and unescapes to the query exactly.
  `Search.EndpointHasNoFragment` shows that the URL holds no `#`, so
  `url.Parse` cuts nothing off as a fragment, as long as neither credential
  holds one.

## Model

| member | source | states |
|---|---|---|
| GoStd.TrimSpace | main.go:50-51 | the trimmed value is never longer than the original |
| GoStd.TrimSpaceShape | main.go:50-51 | the original is the trimmed value with only white space before and after it; the result neither starts nor ends with a white-space rune |
| GoStd.TrimSpaceEmptyIff | main.go:50-52 | the trimmed value is empty exactly when the original is white space only, or empty (unset) |
| GoStd.TrimSpaceKeepsAsciiEnds | main.go:50-51 | a value that begins and ends with an ASCII byte that is not white space is left unchanged |
| GoStd.TrimSpaceKeepsControlBytes | main.go:48-51 | a value that begins and ends with a control byte other than `\t`..`\r` is left unchanged: the comment's claim that control characters are trimmed does not hold |
| GoStd.FirstNonSpaceSkipsSpace | main.go:50-51 | everything the leading trim skips is white space |
| GoStd.LastNonSpaceEndDropsSpace | main.go:50-51 | everything the trailing trim drops is white space |
| GoStd.FirstNonSpaceOfSpace | main.go:50-51 | on a white-space-only range the leading trim skips everything |
| GoStd.SpaceOnlyJoin | main.go:50-51 | two adjacent white-space runs form one |
| GoStd.QueryEscape | main.go:61 | url.QueryEscape in query-component mode; what it promises is stated by the lemmas below, above all the round trip through `GoStd.QueryUnescape` |
| GoStd.QueryUnescape | main.go:61 | the library's inverse, against which the round trip is proved; a successful unescape is never longer than its input |
| GoStd.QueryEscapeAppend | main.go:61 | escaping a concatenation is the concatenation of the escapes (bytes are escaped independently) |
| GoStd.QueryEscapeUnreserved | main.go:61 | letters, digits and `-_.~` pass through unescaped |
| GoStd.QueryEscapeSafe | main.go:61 | the escaped query holds only unreserved bytes, `+` and `%`, so it contains no `&`, `=` or space |
| GoStd.QueryRoundTrip | main.go:61 | unescaping the escaped query gives back exactly the query, for every byte string |
| GoStd.QueryEscapeSpace | main.go:61 | a space between two unreserved words becomes `+` |
| GoStd.QueryEscapeTestQuery | main_test.go:66 | "test query" escapes to "test+query" |
| Search.RequireString | main.go:43-44 | the argument is found exactly when the key is present and holds a string; the empty string counts |
| Search.Endpoint | main.go:59-62 | the URL begins with the fixed prefix and the key, and `&cx=` and the engine id follow right after the key |
| Search.Respond | main.go:67-100 | once the GET was attempted: success exactly on 200 with a decodable body; a hard error exactly when the request cannot be built, the call fails, or a 200 body cannot be decoded |
| Search.Handle | main.go:42-109 | the handler as a decision function; whenever validation stops it before the network, its answer is a tool-level error (the other lemmas below pin down each path) |
| Search.Reshape | main.go:97-100 | the result list has one entry per item, with the same title and link, in the same order |
| Search.MapItems | main.go:97-100 | the loop over the preallocated array yields as many results as items, the i-th carrying the i-th item's title and link |
| Search.GoogleSearchHandler | main.go:42-100 | the handler with its early returns computes exactly `Search.Handle` |
| Search.QueryRequiredIff | main.go:43-46 | "query parameter is required" is returned exactly when the argument is missing or not a string, whatever the credentials and the network |
| Search.CredentialsRequiredIff | main.go:50-54 | with a query present, the credentials message is returned exactly when either variable is white space only or empty |
| Search.CredentialsMessageNamesBoth | main.go:53 | the credentials message names GOOGLE_API_KEY and GOOGLE_CSE_ID and says they "must be set" |
| Search.MessagesStartApart | main.go:45-81 | the three tool-level messages differ in their first byte, so none can be mistaken for another |
| Search.NoRequestOnInvalidInput | main.go:43-54 | when validation fails the result is a tool-level error and is the same for every network: nothing is requested |
| Search.OnlyEndpointRequested | main.go:59-72 | when validation passes, the result depends on the network only through the answer for the endpoint built from the trimmed credentials |
| Search.AfterLastAmpersandOf | main.go:59-62 | what follows an `&` that no other `&` follows is what the URL's last parameter reads as |
| Search.EndpointQueryRoundTrip | main.go:59-62 | the bytes after the URL's last `&` are `q=` and the escaped query, which unescapes to the query exactly, whatever the key and engine id contain |
| Search.EndpointPrefixHasNoHash | main.go:60 | the fixed part of the URL holds no `#` |
| Search.EndpointHasNoFragment | main.go:59-67 | when neither credential holds a `#`, the URL holds none, so `url.Parse` keeps the whole query string and every parameter reaches the API |
| Search.HardErrorIff | main.go:67-94 | a hard error happens exactly when the request cannot be built, the call fails, or a 200 body cannot be decoded |
| Search.StatusErrorCarriesStatus | main.go:79-82 | a status other than 200 gives a tool-level error ending with the upstream status text, whatever the body holds: the body is not decoded |
| Search.SuccessIff | main.go:79-100 | success happens exactly when the API answers 200 with a decodable body, and the result list then matches the items one for one, in order |
| Search.EmptyItemsSucceed | main.go:97-100 | an empty `items` array is a success with an empty list |
| Search.EnvCheckScenario | main_test.go:26-46 | unset credentials give a tool-level error containing "must be set" |
| Search.MockedSuccessScenario | main_test.go:51-108 | with dummy credentials and "test query", the URL carries key, cx and `q=test+query`, and a one-item answer yields exactly that item |
| Search.ApiFailureScenario | main_test.go:130-136 | an answer with status "403 Forbidden" gives a tool-level error whose message contains "403 Forbidden" |
| Search.ApiFailureStubScenario | main_test.go:118-136 | the failure test's stub answer, 403 with no status text, gives a message that is the bare prefix, the same as for any other failing code without a status text, and that does not contain "403 Forbidden" |
| Logging.ShortId | main.go:211-216 | the result is the suffix of the id of length min(|id|, 6), and is the id itself when it has at most 6 bytes |
| Logging.ShortIdIdempotent | main.go:211-216 | shortening a shortened id changes nothing |
| Logging.ShortIdDependsOnTail | main.go:211-216 | any id ending in six given bytes shortens to those six bytes |
| Logging.StepWriteHeader | main.go:225-231 | after WriteHeader something is written, and once something was written a further WriteHeader changes nothing |
| Logging.StepWrite | main.go:233-237 | after Write something is written, the status of an already-written wrapper is unchanged, and the bytes are forwarded last |
| Logging.StepKeepsCoherent | main.go:225-237 | each call keeps the invariant: before any write the status is 200 and nothing was forwarded; afterwards exactly one header was forwarded, first, and it equals the status |
| Logging.StepEffect | main.go:225-237 | a call on an unwritten wrapper commits its own code (WriteHeader) or 200 (Write); on a written one it keeps the status; the headers forwarded are just the status, and Write adds its bytes to what was forwarded |
| Logging.ReplayCommitsFirst | main.go:198-237 | after any sequence of calls the status is the first call's code, or 200 when the first call is Write or there is none; exactly one header, that status, reaches the underlying writer when any call was made; every written chunk reaches it unchanged and in order |
| Logging.CommittedStatusIsFinal | main.go:225-237 | once a call has been made, later calls never change the status |
| Logging.StatusWriter.constructor | main.go:198 | the wrapper starts with status 200, nothing written and nothing forwarded |
| Logging.StatusWriter.WriteHeader | main.go:225-231 | the new state is the WriteHeader step of the old one, and the invariant is kept |
| Logging.StatusWriter.Write | main.go:233-237 | the new state is the Write step of the old one, and the invariant is kept |
| Logging.Middleware | main.go:192-206 | the status the middleware logs is the one the handler's first writer call commits, 200 by default |

## Findings

| source | as written | input that shows it | evidently intended | confidence | as-written member | corrected member |
|---|---|---|---|---|---|---|
| main_test.go:118-136 | the failure test's stub response sets `StatusCode: 403` but no `Status` text, and the handler's message carries only `resp.Status` | the stub's own response: the message is "Google Search API returned an error: " with nothing after it, and it does not contain "403 Forbidden" | a response whose status text is "403 Forbidden", as a real server sends | not executed; the handler builds its own client (main.go:66), so the stub is never consulted at all | Search.ApiFailureStubScenario | Search.ApiFailureScenario |

## Left out

- The HTTP exchange itself is not modelled: client timeout, context cancellation and `resp.Body.Close` (main.go:66-77). It is the `fetch` parameter. The exact conditions under which `http.NewRequestWithContext` rejects a URL are abstracted as the `RequestRejected` outcome.
- JSON decoding is not modelled (main.go:85-94). The decoded body is either `Decoded(items)` or `Malformed(reason)`.
- `json.Marshal` of the result list is not modelled (main.go:103-108). The success result carries the list itself. Marshalling a slice of string pairs cannot fail, so the marshal-error return is not modelled either.
- Search.EndpointQueryRoundTrip: does not say which `q` parameter the API reads when a credential itself holds `&q=`. The credentials are put into the URL unescaped (main.go:59-62), so such a key adds an earlier `q`. The lemma proves only that the handler's own `q` comes last and is intact.
- Search.EndpointHasNoFragment: covers only credentials without `#`. A `#` in the key or engine id makes `url.Parse` treat the rest of the URL as a fragment, and the model does not parse URLs.
- The `%w` wrapping of errors is modelled as prefix + the inner error's text. Error identity (`errors.Is`/`errors.As`) is not modelled.
- `os.Getenv`: the environment values are parameters. An unset variable is the empty string.
- Logging calls are not modelled: `logger.Printf` in the handler and the middleware, the request method, path and remote address, and `time.Now`/`time.Since`. They are output and clock side effects. Only the logged status and `shortID` are modelled.
- Logging.StatusWriter.Write: the underlying writer's `(n, err)` result is not modelled, because it is the foreign writer's return value. The wrapper's own state and the forwarded bytes are modelled.
- The `http.Flusher` and other optional interfaces of the wrapped writer are not modelled. Neither are the headers set through `Header()`.
- `main()`, the MCP server, tool registration, the `/health` and `/version` handlers and the HTTP server's concurrency are not modelled (main.go:111-189). They are process setup and constant responses.
- The test harness's `mockRoundTripper` is not modelled. Its answers appear as `fetch` functions in the scenario lemmas.
- Invalid UTF-8 is not treated specially by the model's TrimSpace. A white-space rune is recognised only by its exact encoding, so a malformed sequence is never white space, just as it decodes to U+FFFD in Go.
