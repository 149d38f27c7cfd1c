/** The `google_search` tool handler: validate the query argument, read and
    trim the two credentials, request one Custom Search URL, and reshape the
    answer. The network call is the parameter `fetch`: given the URL it
    yields what issuing the GET produced, so the model can say which URL is
    requested and when nothing is requested at all. */
module Search {
  import opened GoStd

  /** A value in the tool call's argument map, as RequireString sees it. */
  datatype Argument = StringArg(s: GoString) | OtherArg

  /** One element of the decoded `items` array of the API's JSON answer. */
  datatype ApiItem = ApiItem(title: GoString, link: GoString)

  /** One entry of the tool's result list. */
  datatype SearchResult = SearchResult(title: GoString, link: GoString)

  /** The response body as json.Decoder sees it. */
  datatype Body = Malformed(reason: GoString) | Decoded(items: seq<ApiItem>)

  /** What issuing the GET for one URL produced: the request could not be
      built, the client could not complete the call, or a response arrived
      with a status code, its status line text (such as "403 Forbidden") and
      a body. */
  datatype Upstream =
    | RequestRejected(reason: GoString)
    | TransportFailed(reason: GoString)
    | Response(code: int, status: GoString, body: Body)

  /** The handler's two return values: a hard error (nil result, non-nil
      error), a tool-level error result, or a successful result carrying the
      list that is serialised as its text. */
  datatype ToolOutcome =
    | HardError(err: GoString)
    | ToolError(message: GoString)
    | ToolSuccess(results: seq<SearchResult>)

  const QueryRequiredMessage: GoString := Ascii("query parameter is required")

  const ApiKeyVariable: GoString := Ascii("GOOGLE_API_KEY")

  const CseIdVariable: GoString := Ascii("GOOGLE_CSE_ID")

  const MustBeSet: GoString := Ascii("must be set")

  const CredentialsMessage: GoString :=
    Ascii("environment variables ") + ApiKeyVariable + Ascii(" and ") + CseIdVariable +
    Ascii(" ") + MustBeSet

  const StatusErrorPrefix: GoString := Ascii("Google Search API returned an error: ")

  const TransportErrorPrefix: GoString := Ascii("failed to call Google Search API: ")

  const DecodeErrorPrefix: GoString := Ascii("failed to decode API response: ")

  const EndpointPrefix: GoString :=
    Ascii("https://www.googleapis.com") + Ascii("/customsearch/v1?key=")

  /** req.RequireString: the argument's text, or None when it is missing or
      is not a string (the empty string is accepted). */
  function RequireString(args: map<string, Argument>, key: string): (r: Option<GoString>)
    ensures r.Some? <==> key in args && args[key].StringArg?
    ensures r.Some? ==> r.value == args[key].s
  {
    if key in args && args[key].StringArg? then Some(args[key].s) else None
  }

  /** The Custom Search URL for the trimmed credentials and the raw query. */
  function Endpoint(key: GoString, cx: GoString, query: GoString): (url: GoString)
    ensures OccursAt(url, EndpointPrefix + key, 0)
    ensures OccursAt(url, Ascii("&cx=") + cx, |EndpointPrefix| + |key|)
  {
    EndpointPrefix + key + Ascii("&cx=") + cx + Ascii("&q=") + QueryEscape(query)
  }

  /** The result list: one entry per decoded item, in the same order. */
  function Reshape(items: seq<ApiItem>): (results: seq<SearchResult>)
    ensures |results| == |items|
    ensures forall i :: 0 <= i < |items| ==>
      results[i].title == items[i].title && results[i].link == items[i].link
    decreases |items|
  {
    if items == [] then []
    else [SearchResult(items[0].title, items[0].link)] + Reshape(items[1..])
  }

  /** How the handler answers once the GET has been attempted. */
  function Respond(u: Upstream): (r: ToolOutcome)
    ensures r.ToolSuccess? <==> u.Response? && u.code == StatusOK && u.body.Decoded?
    ensures r.HardError? <==>
      u.RequestRejected? || u.TransportFailed? ||
      (u.Response? && u.code == StatusOK && u.body.Malformed?)
  {
    match u
    case RequestRejected(reason) => HardError(reason)
    case TransportFailed(reason) => HardError(TransportErrorPrefix + reason)
    case Response(code, status, body) =>
      if code != StatusOK then ToolError(StatusErrorPrefix + status)
      else
        match body
        case Malformed(reason) => HardError(DecodeErrorPrefix + reason)
        case Decoded(items) => ToolSuccess(Reshape(items))
  }

  /** googleSearchHandler, for the argument map, the raw values of
      GOOGLE_API_KEY and GOOGLE_CSE_ID ("" when unset) and the network. */
  function Handle(args: map<string, Argument>, envKey: GoString, envCx: GoString,
                  fetch: GoString -> Upstream): (r: ToolOutcome)
    ensures !ReachesUpstream(args, envKey, envCx) ==> r.ToolError?
  {
    match RequireString(args, "query")
    case None => ToolError(QueryRequiredMessage)
    case Some(query) =>
      var key := TrimSpace(envKey);
      var cx := TrimSpace(envCx);
      if key == [] || cx == [] then ToolError(CredentialsMessage)
      else Respond(fetch(Endpoint(key, cx, query)))
  }

  /** The handler gets as far as the network call. */
  predicate ReachesUpstream(args: map<string, Argument>, envKey: GoString, envCx: GoString)
  {
    RequireString(args, "query").Some? && TrimSpace(envKey) != [] && TrimSpace(envCx) != []
  }

  /** The one URL the handler requests when it gets that far. */
  function RequestedUrl(args: map<string, Argument>, envKey: GoString, envCx: GoString): GoString
    requires ReachesUpstream(args, envKey, envCx)
  {
    Endpoint(TrimSpace(envKey), TrimSpace(envCx), RequireString(args, "query").value)
  }

  /** Fills a preallocated array with one result per item, as the handler's
      range loop fills its slice. */
  method MapItems(items: seq<ApiItem>) returns (results: seq<SearchResult>)
    ensures |results| == |items|
    ensures forall i :: 0 <= i < |items| ==>
      results[i].title == items[i].title && results[i].link == items[i].link
  {
    var a := new SearchResult[|items|](_ => SearchResult([], []));
    for i := 0 to |items|
      invariant forall k :: 0 <= k < i ==>
        a[k].title == items[k].title && a[k].link == items[k].link
    {
      a[i] := SearchResult(items[i].title, items[i].link);
    }
    results := a[..];
  }

  /** googleSearchHandler step by step, with its early returns; `Handle` is
      its specification. */
  method GoogleSearchHandler(args: map<string, Argument>, envKey: GoString, envCx: GoString,
                             fetch: GoString -> Upstream) returns (r: ToolOutcome)
    ensures r == Handle(args, envKey, envCx, fetch)
  {
    var query := RequireString(args, "query");
    if query.None? {
      return ToolError(QueryRequiredMessage);
    }
    var apiKey := TrimSpace(envKey);
    var cseId := TrimSpace(envCx);
    if apiKey == [] || cseId == [] {
      return ToolError(CredentialsMessage);
    }
    var endpoint := Endpoint(apiKey, cseId, query.value);
    var resp := fetch(endpoint);
    match resp {
      case RequestRejected(reason) =>
        return HardError(reason);
      case TransportFailed(reason) =>
        return HardError(TransportErrorPrefix + reason);
      case Response(code, status, body) =>
        if code != StatusOK {
          return ToolError(StatusErrorPrefix + status);
        }
        match body {
          case Malformed(reason) =>
            return HardError(DecodeErrorPrefix + reason);
          case Decoded(items) =>
            var results := MapItems(items);
            assert results == Reshape(items);
            return ToolSuccess(results);
        }
    }
  }

  // ---------------------------------------------------------------------------
  // Properties of the handler
  // ---------------------------------------------------------------------------

  /** A missing or non-string query is answered with the tool-level error
      "query parameter is required", whatever the credentials and the
      network would have done; no other path produces that message. */
  lemma QueryRequiredIff(args: map<string, Argument>, envKey: GoString, envCx: GoString,
                         fetch: GoString -> Upstream)
    ensures Handle(args, envKey, envCx, fetch) == ToolError(QueryRequiredMessage)
      <==> RequireString(args, "query").None?
  {
    MessagesStartApart();
    assert forall status :: (StatusErrorPrefix + status)[0] == StatusErrorPrefix[0];
  }

  /** The credential check comes second: when the query is present, the
      tool-level error naming both variables is returned exactly when one of
      the two values is white space only, or empty. */
  lemma CredentialsRequiredIff(args: map<string, Argument>, envKey: GoString, envCx: GoString,
                               fetch: GoString -> Upstream)
    requires RequireString(args, "query").Some?
    ensures Handle(args, envKey, envCx, fetch) == ToolError(CredentialsMessage)
      <==> SpaceOnly(envKey, 0, |envKey|) || SpaceOnly(envCx, 0, |envCx|)
  {
    TrimSpaceEmptyIff(envKey);
    TrimSpaceEmptyIff(envCx);
    MessagesStartApart();
    assert forall status :: (StatusErrorPrefix + status)[0] == StatusErrorPrefix[0];
  }

  /** The credentials message says they "must be set" and names both
      environment variables. */
  lemma CredentialsMessageNamesBoth()
    ensures Contains(CredentialsMessage, ApiKeyVariable)
    ensures Contains(CredentialsMessage, CseIdVariable)
    ensures Contains(CredentialsMessage, MustBeSet)
  {
    var lead := Ascii("environment variables ");
    var mid := Ascii(" and ");
    var space := Ascii(" ");
    OccursInSplice(lead, ApiKeyVariable, mid + CseIdVariable + space + MustBeSet);
    assert CredentialsMessage == lead + ApiKeyVariable + (mid + CseIdVariable + space + MustBeSet);
    OccursInSplice(lead + ApiKeyVariable + mid, CseIdVariable, space + MustBeSet);
    assert CredentialsMessage == lead + ApiKeyVariable + mid + CseIdVariable + (space + MustBeSet);
    OccursInSplice(lead + ApiKeyVariable + mid + CseIdVariable + space, MustBeSet, []);
    assert CredentialsMessage == lead + ApiKeyVariable + mid + CseIdVariable + space + MustBeSet + [];
  }

  /** The three tool-level messages differ in their first byte. */
  lemma MessagesStartApart()
    ensures QueryRequiredMessage[0] == 113
    ensures CredentialsMessage[0] == 101
    ensures StatusErrorPrefix[0] == 71
  {
    assert CredentialsMessage[0] == Ascii("environment variables ")[0];
  }

  /** When validation fails, the network is never consulted: any two
      networks give the same answer. */
  lemma NoRequestOnInvalidInput(args: map<string, Argument>, envKey: GoString, envCx: GoString,
                                fetch1: GoString -> Upstream, fetch2: GoString -> Upstream)
    requires !ReachesUpstream(args, envKey, envCx)
    ensures Handle(args, envKey, envCx, fetch1) == Handle(args, envKey, envCx, fetch2)
    ensures Handle(args, envKey, envCx, fetch1).ToolError?
  {
  }

  /** When validation passes, the only URL consulted is the endpoint built
      from the trimmed credentials: networks that agree on it give the same
      answer. */
  lemma OnlyEndpointRequested(args: map<string, Argument>, envKey: GoString, envCx: GoString,
                              fetch1: GoString -> Upstream, fetch2: GoString -> Upstream)
    requires ReachesUpstream(args, envKey, envCx)
    requires fetch1(RequestedUrl(args, envKey, envCx)) == fetch2(RequestedUrl(args, envKey, envCx))
    ensures Handle(args, envKey, envCx, fetch1) == Handle(args, envKey, envCx, fetch2)
  {
  }

  /** The bytes after the last '&' of `s` (all of `s` when it has none). */
  function AfterLastAmpersand(s: GoString): (r: GoString)
    ensures |r| <= |s| && r == s[|s| - |r|..]
    decreases |s|
  {
    if s == [] then []
    else if s[|s| - 1] == 38 then []
    else AfterLastAmpersand(s[..|s| - 1]) + [s[|s| - 1]]
  }

  /** What follows the last '&' of a string is the part after an '&' that
      is followed by no other. */
  lemma {:induction false} AfterLastAmpersandOf(p: GoString, t: GoString)
    requires forall i :: 0 <= i < |t| ==> t[i] != 38
    ensures AfterLastAmpersand(p + [38] + t) == t
    decreases |t|
  {
    var s := p + [38] + t;
    if t != [] {
      var t' := t[..|t| - 1];
      AfterLastAmpersandOf(p, t');
      assert s[..|s| - 1] == p + [38] + t';
      assert t == t' + [t[|t| - 1]];
    }
  }

  /** The query travels as the last parameter of the URL: everything after
      the endpoint's last '&' is "q=" and the escaped query, and unescaping
      that gives back the query exactly. */
  lemma EndpointQueryRoundTrip(key: GoString, cx: GoString, query: GoString)
    ensures AfterLastAmpersand(Endpoint(key, cx, query)) == Ascii("q=") + QueryEscape(query)
    ensures QueryUnescape(QueryEscape(query)) == Some(query)
  {
    var escaped := QueryEscape(query);
    var tail := Ascii("q=") + escaped;
    var head := EndpointPrefix + key + Ascii("&cx=") + cx;
    assert Ascii("&q=") == [38] + Ascii("q=");
    assert Endpoint(key, cx, query) == head + [38] + tail;
    QueryEscapeSafe(query);
    assert forall i :: 0 <= i < |tail| ==> tail[i] != 38 by {
      forall i | 0 <= i < |tail| ensures tail[i] != 38 {
        if i >= 2 {
          assert tail[i] == escaped[i - 2];
        }
      }
    }
    AfterLastAmpersandOf(head, tail);
    QueryRoundTrip(query);
  }

  /** When neither credential holds a '#', the URL holds none, so url.Parse
      cuts nothing off as a fragment and every parameter reaches the API. */
  lemma EndpointHasNoFragment(key: GoString, cx: GoString, query: GoString)
    requires forall i :: 0 <= i < |key| ==> key[i] != 35
    requires forall i :: 0 <= i < |cx| ==> cx[i] != 35
    ensures forall i :: 0 <= i < |Endpoint(key, cx, query)| ==> Endpoint(key, cx, query)[i] != 35
  {
    var escaped := QueryEscape(query);
    var url := Endpoint(key, cx, query);
    EndpointPrefixHasNoHash();
    QueryEscapeSafe(query);
    var p := |EndpointPrefix|;
    var c := Ascii("&cx=");
    var q := Ascii("&q=");
    assert url == EndpointPrefix + key + c + cx + q + escaped;
    forall i | 0 <= i < |url| ensures url[i] != 35 {
      if i < p {
        assert url[i] == EndpointPrefix[i];
      } else if i < p + |key| {
        assert url[i] == key[i - p];
      } else if i < p + |key| + 4 {
        assert url[i] == c[i - p - |key|];
      } else if i < p + |key| + 4 + |cx| {
        assert url[i] == cx[i - p - |key| - 4];
      } else if i < p + |key| + 4 + |cx| + 3 {
        assert url[i] == q[i - p - |key| - 4 - |cx|];
      } else {
        assert url[i] == escaped[i - p - |key| - 4 - |cx| - 3];
      }
    }
  }

  /** The fixed part of the URL holds no '#'. */
  lemma EndpointPrefixHasNoHash()
    ensures forall i :: 0 <= i < |EndpointPrefix| ==> EndpointPrefix[i] != 35
  {
    var host := Ascii("https://www.googleapis.com");
    var path := Ascii("/customsearch/v1?key=");
    assert forall i :: 0 <= i < |host| ==> host[i] != 35;
    assert forall i :: 0 <= i < |path| ==> path[i] != 35;
    forall i | 0 <= i < |EndpointPrefix| ensures EndpointPrefix[i] != 35 {
      if i >= |host| {
        assert EndpointPrefix[i] == path[i - |host|];
      }
    }
  }

  /** A transport failure, a request that cannot be built and an unreadable
      body are hard errors; nothing else is. */
  lemma HardErrorIff(args: map<string, Argument>, envKey: GoString, envCx: GoString,
                     fetch: GoString -> Upstream)
    ensures Handle(args, envKey, envCx, fetch).HardError? <==>
      ReachesUpstream(args, envKey, envCx) &&
      var u := fetch(RequestedUrl(args, envKey, envCx));
      u.RequestRejected? || u.TransportFailed? ||
      (u.Response? && u.code == StatusOK && u.body.Malformed?)
  {
  }

  /** A status other than 200 is a tool-level error that ends with the
      upstream status text; the body is not looked at. */
  lemma StatusErrorCarriesStatus(code: int, status: GoString, body1: Body, body2: Body)
    requires code != StatusOK
    ensures Respond(Response(code, status, body1)) == Respond(Response(code, status, body2))
    ensures Respond(Response(code, status, body1)).ToolError?
    ensures var m := Respond(Response(code, status, body1)).message;
      Contains(m, status) && m[|m| - |status|..] == status
  {
    var m := StatusErrorPrefix + status;
    assert OccursAt(m, status, |StatusErrorPrefix|);
  }

  /** The handler succeeds exactly when the API answers 200 with a decodable
      body; the result list then matches the items one for one, in order,
      with nothing filtered. */
  lemma SuccessIff(args: map<string, Argument>, envKey: GoString, envCx: GoString,
                   fetch: GoString -> Upstream)
    ensures Handle(args, envKey, envCx, fetch).ToolSuccess? <==>
      ReachesUpstream(args, envKey, envCx) &&
      var u := fetch(RequestedUrl(args, envKey, envCx));
      u.Response? && u.code == StatusOK && u.body.Decoded?
    ensures Handle(args, envKey, envCx, fetch).ToolSuccess? ==>
      var items := fetch(RequestedUrl(args, envKey, envCx)).body.items;
      var results := Handle(args, envKey, envCx, fetch).results;
      |results| == |items| &&
      forall i :: 0 <= i < |items| ==>
        results[i].title == items[i].title && results[i].link == items[i].link
  {
  }

  /** An empty `items` array is a success with an empty list, not an error. */
  lemma EmptyItemsSucceed(status: GoString)
    ensures Respond(Response(StatusOK, status, Decoded([]))) == ToolSuccess([])
  {
  }

  // ---------------------------------------------------------------------------
  // The scenarios of the handler's tests
  // ---------------------------------------------------------------------------

  /** Both variables empty, query "test": a tool-level error saying the
      credentials "must be set", and no hard error. */
  lemma EnvCheckScenario(fetch: GoString -> Upstream)
    ensures var r := Handle(map["query" := StringArg(Ascii("test"))], [], [], fetch);
      r.ToolError? && Contains(r.message, MustBeSet)
  {
    CredentialsMessageNamesBoth();
  }

  /** Credentials "dummy-key" and "dummy-cx", query "test query", an API that
      answers 200 (with no status text, as the test's stub does) and one item: the URL carries both credentials and
      "q=test+query", and the result is that one item. */
  lemma MockedSuccessScenario(fetch: GoString -> Upstream)
    requires forall url :: (fetch(url) ==
      Response(StatusOK, [],
               Decoded([ApiItem(Ascii("Test Title"), Ascii("https://example.com"))])))
    ensures var args := map["query" := StringArg(Ascii("test query"))];
      && ReachesUpstream(args, Ascii("dummy-key"), Ascii("dummy-cx"))
      && RequestedUrl(args, Ascii("dummy-key"), Ascii("dummy-cx")) ==
           EndpointPrefix + Ascii("dummy-key") + Ascii("&cx=") + Ascii("dummy-cx") +
           Ascii("&q=") + Ascii("test+query")
      && Handle(args, Ascii("dummy-key"), Ascii("dummy-cx"), fetch) ==
           ToolSuccess([SearchResult(Ascii("Test Title"), Ascii("https://example.com"))])
  {
    var key, cx := Ascii("dummy-key"), Ascii("dummy-cx");
    assert key[0] == 100 && key[|key| - 1] == 121;
    assert cx[0] == 100 && cx[|cx| - 1] == 120;
    TrimSpaceKeepsAsciiEnds(key);
    TrimSpaceKeepsAsciiEnds(cx);
    QueryEscapeTestQuery();
    var args := map["query" := StringArg(Ascii("test query"))];
    assert RequireString(args, "query") == Some(Ascii("test query"));
    var items := [ApiItem(Ascii("Test Title"), Ascii("https://example.com"))];
    var url := Endpoint(key, cx, Ascii("test query"));
    assert Handle(args, key, cx, fetch) == Respond(fetch(url));
    assert Reshape(items) == [SearchResult(Ascii("Test Title"), Ascii("https://example.com"))];
  }

  /** An API that answers "403 Forbidden": a tool-level error whose message
      contains that status text, and no hard error. */
  lemma ApiFailureScenario(envKey: GoString, envCx: GoString, fetch: GoString -> Upstream)
    requires ReachesUpstream(map["query" := StringArg(Ascii("test"))], envKey, envCx)
    requires forall url :: (fetch(url) ==
      Response(403, Ascii("403 Forbidden"), Decoded([])))
    ensures var r := Handle(map["query" := StringArg(Ascii("test"))], envKey, envCx, fetch);
      r.ToolError? && Contains(r.message, Ascii("403 Forbidden"))
  {
    StatusErrorCarriesStatus(403, Ascii("403 Forbidden"), Decoded([]), Decoded([]));
  }

  /** The failure test's stub answers 403 without a status text; through
      the handler that yields a tool-level error whose message is the fixed
      prefix alone, the same as for any other failing code without a status
      text, and it does not contain "403 Forbidden", the text the test looks
      for. */
  lemma ApiFailureStubScenario(envKey: GoString, envCx: GoString,
                               fetch: GoString -> Upstream, other: GoString -> Upstream)
    requires ReachesUpstream(map["query" := StringArg(Ascii("test"))], envKey, envCx)
    requires forall url :: (fetch(url) == Response(403, [], Decoded([])))
    requires forall url ::
      other(url).Response? && other(url).code != StatusOK && other(url).status == []
    ensures Handle(map["query" := StringArg(Ascii("test"))], envKey, envCx, fetch) ==
      ToolError(StatusErrorPrefix)
    ensures Handle(map["query" := StringArg(Ascii("test"))], envKey, envCx, fetch) ==
      Handle(map["query" := StringArg(Ascii("test"))], envKey, envCx, other)
    ensures !Contains(Handle(map["query" := StringArg(Ascii("test"))], envKey, envCx, fetch).message,
                      Ascii("403 Forbidden"))
  {
    assert StatusErrorPrefix + [] == StatusErrorPrefix;
    assert forall i :: 0 <= i < |StatusErrorPrefix| ==> StatusErrorPrefix[i] != 52;
    assert Ascii("403 Forbidden")[0] == 52;
    AbsentFirstByte(StatusErrorPrefix, Ascii("403 Forbidden"));
  }
}
