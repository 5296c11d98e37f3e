/**
 * The client core: an ordered endpoint registry and a default-header map, with the rules
 * that build request URLs, merge headers and decide what a request returns.
 * The HTTP transport is an input (`Outcome`): the status the server answered, or a failure.
 */
module ApiCore {
  import opened Wrappers
  import opened Text
  import opened ApiEndpoint
  import opened Credentials
  import opened UrlEncoding

  const BaseApiUrl := "/check_mk/api/1.0"
  const AuthorizationKey := "Authorization"
  const ContentTypeKey := "Content-Type"
  /** What every diagnostic copy of the headers shows in place of the bearer token. */
  const RedactedBearer := "Bearer <:This is was redacted by my l33t :):>"

  /** `_build_api_url`: `f"{server_url}/{site_id}/check_mk/api/1.0"`. */
  function BuildApiUrl(serverUrl: string, siteId: string): (url: string)
    ensures |url| == |serverUrl| + 1 + |siteId| + |BaseApiUrl|
    ensures url[..|serverUrl| + 1] == serverUrl + "/"
    ensures url[|serverUrl| + 1..|url| - |BaseApiUrl|] == siteId
    ensures url[|url| - |BaseApiUrl|..] == BaseApiUrl
  {
    serverUrl + "/" + siteId + BaseApiUrl
  }

  /** `_build_api_call_url`: `api_url/path`, then `/quote(url_data)` and `?urlencode(params)` when given. */
  function BuildApiCallUrl(apiUrl: string, endpointPath: string, urlData: Option<string>, params: Option<Params>): (url: string)
  {
    apiUrl + "/" + endpointPath + SegmentPart(urlData) + QueryPart(params)
  }

  /** The `/segment` part of a call URL: present exactly when `url_data` is given. */
  function SegmentPart(urlData: Option<string>): (part: string)
  {
    if urlData.Some? then "/" + Quote(urlData.value) else ""
  }

  /** The `?query` part of a call URL: present exactly when `params` is given, even when empty. */
  function QueryPart(params: Option<Params>): (part: string)
  {
    if params.Some? then "?" + Urlencode(params.value) else ""
  }

  /** A call URL is `api_url/path` followed by the segment part and the query part. */
  lemma CallUrlParts(apiUrl: string, endpointPath: string, urlData: Option<string>, params: Option<Params>)
    ensures var url := BuildApiCallUrl(apiUrl, endpointPath, urlData, params);
            && |url| >= |apiUrl| + 1 + |endpointPath|
            && url[..|apiUrl| + 1 + |endpointPath|] == apiUrl + "/" + endpointPath
            && url[|apiUrl| + 1 + |endpointPath|..] == SegmentPart(urlData) + QueryPart(params)
  {
    var base := apiUrl + "/" + endpointPath;
    Associate(base, SegmentPart(urlData), QueryPart(params));
    DropPrefix(base, SegmentPart(urlData) + QueryPart(params));
    TakePrefix(base, SegmentPart(urlData) + QueryPart(params));
  }

  lemma SplitParts(urlData: Option<string>, params: Option<Params>)
    ensures var tail := SegmentPart(urlData) + QueryPart(params);
            var q := IndexOf(tail, '?');
            && (q < |tail| <==> params.Some?)
            && tail[..q] == SegmentPart(urlData)
            && (params.Some? ==> tail[q + 1..] == Urlencode(params.value))
  {
    var segment := SegmentPart(urlData);
    assert '?' !in segment by {
      if urlData.Some? {
        QuoteHasNoDelimiters(urlData.value);
      }
    }
    if params.Some? {
      var query := Urlencode(params.value);
      Associate(segment, "?", query);
      SplitAtFirst(segment, '?', query);
    } else {
      IndexOfAbsent(segment, '?');
      assert segment + "" == segment;
    }
  }

  /**
   * What follows `api_url/path` in a call URL: `/` and the quoted segment exactly when
   * `url_data` is given, then `?` and the query exactly when `params` is given; the segment
   * and the query decode back to what was given.
   */
  lemma CallUrlShape(apiUrl: string, endpointPath: string, urlData: Option<string>, params: Option<Params>)
    ensures var url := BuildApiCallUrl(apiUrl, endpointPath, urlData, params);
            var tail := url[|apiUrl| + 1 + |endpointPath|..];
            var q := IndexOf(tail, '?');
            && (q < |tail| <==> params.Some?)
            && tail[..q] == SegmentPart(urlData)
            && (urlData.Some? ==> Unquote(tail[1..q], false) == Some(Utf8(urlData.value)))
            && (params.Some? ==> tail[q + 1..] == Urlencode(params.value))
            && (params.Some? ==> ParseQuery(tail[q + 1..]) == Some(Utf8Pairs(params.value)))
  {
    CallUrlParts(apiUrl, endpointPath, urlData, params);
    SplitParts(urlData, params);
    var tail := SegmentPart(urlData) + QueryPart(params);
    var q := IndexOf(tail, '?');
    if urlData.Some? {
      assert tail[1..q] == tail[..q][1..];
      QuoteRoundTrip(urlData.value);
    }
    if params.Some? {
      UrlencodeRoundTrip(params.value);
    }
  }

  /** The call URL determines `url_data` and `params`: two calls to one endpoint path with different ones differ. */
  lemma CallUrlDetermines(apiUrl: string, endpointPath: string, urlData: Option<string>, params: Option<Params>,
                          urlData': Option<string>, params': Option<Params>)
    requires BuildApiCallUrl(apiUrl, endpointPath, urlData, params) == BuildApiCallUrl(apiUrl, endpointPath, urlData', params')
    ensures urlData == urlData' && params == params'
  {
    CallUrlShape(apiUrl, endpointPath, urlData, params);
    CallUrlShape(apiUrl, endpointPath, urlData', params');
    assert SegmentPart(urlData) == SegmentPart(urlData');
    if urlData.Some? || urlData'.Some? {
      assert urlData.Some? && urlData'.Some?;
      Utf8Injective(urlData.value, urlData'.value);
    }
    if params.Some? {
      Utf8PairsInjective(params.value, params'.value);
    }
  }

  /** An empty `params` dict is still "given": the call URL then ends in a bare `?`. */
  lemma EmptyParamsLeaveQuestionMark(apiUrl: string, endpointPath: string, urlData: Option<string>)
    ensures var url := BuildApiCallUrl(apiUrl, endpointPath, urlData, Some([]));
            |url| > 0 && url[|url| - 1] == '?'
  {
    assert Urlencode([]) == "";
    assert QueryPart(Some([])) == "?";
  }

  /** `_get_endpoint`: the first registered endpoint with this name. */
  function FindEndpoint(endpoints: seq<APIEndpoint>, name: string): (found: Option<APIEndpoint>)
  {
    if |endpoints| == 0 then None
    else if endpoints[0].name == name then Some(endpoints[0])
    else FindEndpoint(endpoints[1..], name)
  }

  /** Lookup fails exactly when no endpoint has the name; otherwise it gives a registered endpoint with it. */
  lemma {:induction false} FindEndpointSpec(endpoints: seq<APIEndpoint>, name: string)
    ensures var r := FindEndpoint(endpoints, name);
            && (r.None? <==> forall i :: 0 <= i < |endpoints| ==> endpoints[i].name != name)
            && (r.Some? ==> r.value in endpoints && r.value.name == name)
  {
    if |endpoints| > 0 && endpoints[0].name != name {
      var tail := endpoints[1..];
      FindEndpointSpec(tail, name);
      assert forall i :: 1 <= i < |endpoints| ==> endpoints[i] == tail[i - 1];
    }
  }

  /** Lookup returns the earliest match in registry order; later duplicates are shadowed. */
  lemma {:induction false} FindIsFirstMatch(endpoints: seq<APIEndpoint>, name: string, i: nat)
    requires i < |endpoints| && endpoints[i].name == name
    requires forall j :: 0 <= j < i ==> endpoints[j].name != name
    ensures FindEndpoint(endpoints, name) == Some(endpoints[i])
  {
    if i > 0 {
      FindIsFirstMatch(endpoints[1..], name, i - 1);
    }
  }

  /** Appending an endpoint only changes lookups of a name that was not registered yet. */
  lemma {:induction false} FindAfterAppend(endpoints: seq<APIEndpoint>, e: APIEndpoint, name: string)
    ensures FindEndpoint(endpoints + [e], name)
         == if FindEndpoint(endpoints, name).Some? then FindEndpoint(endpoints, name)
            else if e.name == name then Some(e) else None
  {
    if |endpoints| > 0 {
      assert (endpoints + [e])[1..] == endpoints[1..] + [e];
      FindAfterAppend(endpoints[1..], e, name);
    } else {
      assert endpoints + [e] == [e];
    }
  }

  /**
   * One element of the endpoint definition file, as the JSON decoder produced it: each of
   * `name`, `path`, `method` and `headers` is `None` when the key is missing; a present
   * `headers` is JSON `null` (None) or an object.
   */
  datatype Descriptor = Descriptor(name: Option<string>, path: Option<string>, httpMethod: Option<string>, headers: Option<Option<Headers>>)

  /** What reading and decoding the definition file gave. */
  datatype EndpointFile = Unreadable | InvalidJson | Descriptors(items: seq<Descriptor>)

  predicate Complete(d: Descriptor)
  {
    d.name.Some? && d.path.Some? && d.httpMethod.Some? && d.headers.Some?
  }

  /** `e` is the endpoint built from descriptor `d`. */
  predicate Describes(d: Descriptor, e: APIEndpoint)
  {
    d.name == Some(e.name) && d.path == Some(e.path) && d.httpMethod == Some(e.httpMethod) && d.headers == Some(e.headers)
  }

  /** The list comprehension of `load_endpoints`: one endpoint per descriptor, or None when a key is missing. */
  function DecodeDescriptors(ds: seq<Descriptor>): (r: Option<seq<APIEndpoint>>)
    ensures r.Some? <==> forall i :: 0 <= i < |ds| ==> Complete(ds[i])
    ensures r.Some? ==> |r.value| == |ds| && forall i :: 0 <= i < |ds| ==> Describes(ds[i], r.value[i])
  {
    if |ds| == 0 then Some([])
    else
      var d := ds[0];
      if !Complete(d) then None
      else
        match DecodeDescriptors(ds[1..])
        case None => None
        case Some(rest) => Some([APIEndpoint(d.name.value, d.path.value, d.httpMethod.value, d.headers.value)] + rest)
  }

  /** The new registry `load_endpoints` installs, or None when it fails. */
  function DecodeEndpointFile(f: EndpointFile): (r: Option<seq<APIEndpoint>>)
    ensures f.Unreadable? || f.InvalidJson? ==> r.None?
    ensures f.Descriptors? ==> r == DecodeDescriptors(f.items)
  {
    match f
    case Unreadable => None
    case InvalidJson => None
    case Descriptors(items) => DecodeDescriptors(items)
  }

  /** The position of the first endpoint with this name, or the registry's length when there is none. */
  ghost function FirstIndex(es: seq<APIEndpoint>, name: string): (i: nat)
    ensures i <= |es|
    ensures i < |es| ==> es[i].name == name
    ensures forall j :: 0 <= j < i ==> es[j].name != name
  {
    if |es| == 0 then 0
    else if es[0].name == name then 0
    else 1 + FirstIndex(es[1..], name)
  }

  /**
   * After a successful load, looking a name up gives the endpoint built from the first
   * descriptor with that name, and None when no descriptor has it.
   */
  lemma LoadedLookup(ds: seq<Descriptor>, name: string)
    requires DecodeDescriptors(ds).Some?
    ensures var found := FindEndpoint(DecodeDescriptors(ds).value, name);
            && (found.None? <==> forall i :: 0 <= i < |ds| ==> ds[i].name != Some(name))
            && (found.Some? ==>
                  exists i :: (0 <= i < |ds| && Describes(ds[i], found.value) && ds[i].name == Some(name)
                               && forall j :: 0 <= j < i ==> ds[j].name != Some(name)))
  {
    var es := DecodeDescriptors(ds).value;
    var found := FindEndpoint(es, name);
    FindEndpointSpec(es, name);
    forall i | 0 <= i < |ds|
      ensures ds[i].name == Some(es[i].name)
    {
      assert Describes(ds[i], es[i]);
    }
    var i := FirstIndex(es, name);
    if i < |es| {
      FindIsFirstMatch(es, name, i);
      assert Describes(ds[i], es[i]);
    }
  }

  /** The header map the constructor installs. */
  function DefaultHeaders(token: Option<string>): (h: Headers)
    ensures h.Keys == {ContentTypeKey, AuthorizationKey}
    ensures h[ContentTypeKey] == "application/json"
    ensures h[AuthorizationKey] == BearerValue(token)
  {
    map[ContentTypeKey := "application/json", AuthorizationKey := BearerValue(token)]
  }

  /**
   * The headers `api_request` sends: the defaults (or none, with `no_default_headers`),
   * updated with the endpoint's own headers, which win on a clash.
   */
  function MergeHeaders(defaults: Headers, noDefaultHeaders: bool, endpointHeaders: Option<Headers>): (merged: Headers)
  {
    var base := if noDefaultHeaders then map[] else defaults;
    if endpointHeaders.Some? then base + endpointHeaders.value else base
  }

  /** A merged header is the endpoint's when it has one under that key, and the default otherwise. */
  lemma MergeHeadersContents(defaults: Headers, noDefaultHeaders: bool, endpointHeaders: Option<Headers>)
    ensures var h := MergeHeaders(defaults, noDefaultHeaders, endpointHeaders);
            && (forall k :: k in h <==> (endpointHeaders.Some? && k in endpointHeaders.value) || (!noDefaultHeaders && k in defaults))
            && (forall k :: k in h ==>
                  h[k] == if endpointHeaders.Some? && k in endpointHeaders.value then endpointHeaders.value[k] else defaults[k])
  {
  }

  /** The copy of the headers that diagnostics show: `Authorization` replaced, everything else kept. */
  function Redact(h: Headers): (redacted: Headers)
  {
    h[AuthorizationKey := RedactedBearer]
  }

  /** The redacted copy has the same keys plus `Authorization`, which holds the redaction text. */
  lemma RedactContents(h: Headers)
    ensures var r := Redact(h);
            && r.Keys == h.Keys + {AuthorizationKey}
            && r[AuthorizationKey] == RedactedBearer
            && (forall k :: k in h && k != AuthorizationKey ==> r[k] == h[k])
  {
  }

  /** The statuses `raise_for_status` turns into an `HTTPError`: client and server errors. */
  predicate IsHttpError(status: int)
  {
    400 <= status < 600
  }

  /** What the transport did with the request. */
  datatype Outcome = Answered(status: int) | TransportFailure

  /** The request handed to the transport. */
  datatype Request = Request(httpMethod: string, url: string, headers: Headers, data: Option<string>)

  /** The raw response `api_request` returns on success. */
  datatype Response = Response(status: int, request: Request)

  /**
   * Appending one more copy keeps a list of copies a list of copies.
   * A solver aid: stated over plain variables, so a call site gets it without regrouping concatenations.
   */
  lemma AppendCopy(copies: seq<Headers>, r: Headers)
    requires forall i :: 0 <= i < |copies| ==> copies[i] == r
    ensures forall i :: 0 <= i < |copies + [r]| ==> (copies + [r])[i] == r
  {
  }

  /** `SamaApiClientCore`: its registry and its default headers are the state its methods change. */
  class Client {
    const siteId: string
    const apiUrl: string
    const user: Option<string>
    const secret: Option<string>
    var headers: Headers
    var endpoints: seq<APIEndpoint>

    /**
     * `__init__`. The credential sources are inputs: what the keyring holds, the process
     * environment and the variables of the `.env` file.
     */
    constructor (siteId: string, serverUrl: string, user: Option<string>, secret: Option<string>,
                 keyring: Keyring, process: Environment, dotenv: Environment)
      ensures this.siteId == siteId && this.user == user && this.secret == secret
      ensures apiUrl == BuildApiUrl(serverUrl, siteId)
      ensures endpoints == []
      ensures headers == DefaultHeaders(GetToken(user, secret, keyring, LoadDotenv(process, dotenv)))
    {
      this.siteId := siteId;
      this.user := user;
      this.secret := secret;
      apiUrl := BuildApiUrl(serverUrl, siteId);
      endpoints := [];
      headers := DefaultHeaders(GetToken(user, secret, keyring, LoadDotenv(process, dotenv)));
    }

    /** `load_endpoints`: all-or-nothing replacement of the registry. */
    method LoadEndpoints(file: EndpointFile) returns (ok: bool)
      modifies this`endpoints
      ensures ok == DecodeEndpointFile(file).Some?
      ensures endpoints == if ok then DecodeEndpointFile(file).value else old(endpoints)
    {
      var loaded := DecodeEndpointFile(file);
      if loaded.None? {
        return false;
      }
      endpoints := loaded.value;
      return true;
    }

    /** `register_endpoint`: appends one endpoint built from the arguments. */
    method RegisterEndpoint(endpointName: string, endpointPath: string, httpMethod: string, endpointHeaders: Option<Headers>)
      modifies this`endpoints
      ensures endpoints == old(endpoints) + [APIEndpoint(endpointName, endpointPath, httpMethod, endpointHeaders)]
    {
      endpoints := endpoints + [New(endpointName, endpointPath, httpMethod, endpointHeaders)];
    }

    /** `add_endpoint`: appends the given endpoint. */
    method AddEndpoint(endpoint: APIEndpoint)
      modifies this`endpoints
      ensures endpoints == old(endpoints) + [endpoint]
    {
      endpoints := endpoints + [endpoint];
    }

    /**
     * `api_request`. Returns the response (None on an unknown endpoint, an HTTP error or a
     * transport failure), the request handed to the transport (None when none was made) and
     * the redacted header copies the diagnostics build, one per `headers.copy()` reached.
     * With default headers in use, the endpoint's headers are written into the client's own
     * map and stay there.
     */
    method ApiRequest(endpointName: string, noDefaultHeaders: bool, data: Option<string>,
                      urlData: Option<string>, params: Option<Params>, logAccess: bool, debug: bool,
                      outcome: Outcome)
      returns (response: Option<Response>, sent: Option<Request>, copies: seq<Headers>)
      modifies this`headers
      ensures FindEndpoint(endpoints, endpointName).None? ==>
                response.None? && sent.None? && copies == [] && headers == old(headers)
      ensures FindEndpoint(endpoints, endpointName).Some? ==>
                var e := FindEndpoint(endpoints, endpointName).value;
                var h := MergeHeaders(old(headers), noDefaultHeaders, e.headers);
                && sent == Some(Request(e.httpMethod, BuildApiCallUrl(apiUrl, e.path, urlData, params), h, data))
                && headers == (if noDefaultHeaders then old(headers) else h)
                && response == (if outcome.Answered? && !IsHttpError(outcome.status)
                                then Some(Response(outcome.status, sent.value)) else None)
                && |copies| == (if debug then 1 else 0) + (if logAccess then 1 else 0)
                              + (if outcome.Answered? && IsHttpError(outcome.status) then 1 else 0)
                && (forall i :: 0 <= i < |copies| ==> copies[i] == Redact(h))
    {
      var found := FindEndpoint(endpoints, endpointName);
      if found.None? {
        return None, None, [];
      }
      var endpoint := found.value;
      var url := BuildApiCallUrl(apiUrl, endpoint.path, urlData, params);
      var sending: Headers;
      if noDefaultHeaders {
        sending := map[];
        if endpoint.headers.Some? {
          sending := sending + endpoint.headers.value;
        }
      } else {
        // the local `headers` aliases the client's own map, so `update` writes into it
        if endpoint.headers.Some? {
          headers := headers + endpoint.headers.value;
        }
        sending := headers;
      }
      var redacted := Redact(sending);
      copies := [];
      if debug {
        AppendCopy(copies, redacted);
        copies := copies + [redacted];
      }
      if logAccess {
        AppendCopy(copies, redacted);
        copies := copies + [redacted];
      }
      assert |copies| == (if debug then 1 else 0) + (if logAccess then 1 else 0);
      var request := Request(endpoint.httpMethod, url, sending, data);
      sent := Some(request);
      match outcome {
        case TransportFailure =>
          response := None;
        case Answered(status) =>
          if IsHttpError(status) {
            AppendCopy(copies, redacted);
            copies := copies + [redacted];
            response := None;
          } else {
            response := Some(Response(status, request));
          }
      }
    }
  }

  /**
   * Two calls in a row: headers an endpoint adds to the defaults are still sent, and still
   * copied only redacted, by a later call to an endpoint that has none of its own.
   */
  method EndpointHeadersPersist()
  {
    var client := new Client("site", "https://monitor", Some("automation"), Some("s3cret"), map[], map[], map[]);
    var auth := client.headers[AuthorizationKey];
    var update := APIEndpoint("Update", "objects/host", "PUT", Some(map["If-Match" := "etag-1"]));
    var version := APIEndpoint("Version", "version", "GET", None);
    client.AddEndpoint(update);
    client.AddEndpoint(version);
    assert client.endpoints == [update, version];
    FindIsFirstMatch(client.endpoints, "Version", 1);
    var r1, s1, d1 := client.ApiRequest("Update", false, None, None, None, false, false, Answered(204));
    assert r1.Some?;
    var r2, s2, d2 := client.ApiRequest("Version", false, None, None, None, true, false, Answered(404));
    assert r2.None? && s2.Some?;
    assert s2.value.headers["If-Match"] == "etag-1";
    assert s2.value.headers[AuthorizationKey] == auth;
    assert |d2| == 2 && d2[0][AuthorizationKey] == RedactedBearer;
  }
}
