# A verified model of the SAMA API client core

The SAMA API client is a Python library for the REST API of a Checkmk monitoring
site. Its core, `SamaApiClientCore`, does the following:

- builds the site's API base URL;
- resolves a bearer token from constructor arguments, the OS keyring, a `.env` file or the process environment;
- keeps an ordered registry of named endpoints (`APIEndpoint` records: name, path, HTTP method, optional extra headers);
- builds each call's URL from the endpoint path, an optional quoted path segment and an optional query string;
- merges default and endpoint headers;
- makes the request and returns the response, or `None` on an HTTP error or a transport failure.

A companion function turns an HTTP error response into a single log message.

This project models those parts in Dafny and proves what they promise.

Modules:

- `ApiEndpoint` (`api_endpoint.dfy`) is the endpoint record, its constructor, and its `__str__`/`__repr__` text. The string form is proved to give back name, path and method when neither the name nor the path contains a comma; with commas, two different endpoints can have the same string form.
- `Credentials` (`credentials.dfy`) covers the token sources and the precedence rule. The keyring, the process environment and the variables of the `.env` file are inputs (maps).
- `UrlEncoding` (`url_encoding.dfy`) models `urllib.parse.quote` (safe characters `/`) and `urlencode` (`quote_plus` on keys and values, `k=v` joined by `&`), over the UTF-8 encoding of section 3 of RFC 3629. It also holds decoders that both round trips are proved against, down to a UTF-8 decoder, so the call URL gives back `url_data` and `params` themselves.
- `ApiCore` (`api_core.dfy`) is the client.
  - The URL rules, the registry lookup, the definition-file decoding and the header merge are functions, each with lemmas.
  - `Client` is a class whose `headers` map and `endpoints` sequence are the state its methods change.
  - `api_request` is a method over an abstract transport outcome. It returns the response, the request it sent and the redacted header copies the diagnostics build (one per `headers.copy()` reached).
- `FormatHttpError` (`format_http_error.dfy`) covers `format_http_error_for_logging`:
  - a specification function over the decoded response body;
  - the source's `for` loop as a method proved against that function;
  - lemmas on the message's shape, on its lack of surrounding whitespace, and on exactly when it raises.
- `Text` (`text.dfy`) and `Wrappers` (`wrappers.dfy`) are shared helpers: `join`, `strip` with Python's whitespace set, and `Option`.

Where the code and its comments disagree, the model follows the code:

- `load_dotenv(".env")` is called with python-dotenv's default `override=False`, so a variable already in the process environment keeps its value. The comment at `api_core.py:183-184` and the docstring at `:225-226` say the `.env` file takes precedence. `Credentials.LoadDotenv` and `Credentials.DotenvFillsGaps` state what the code does.
- `raise_for_status` only rejects statuses 400-599, so any other status, 1xx and 3xx included, is returned as a response.
- `_get_endpoint` returns the first endpoint with the name. A later registration under the same name is never found.
- `api_request` takes no per-call headers. When default headers are in use, the local `headers` is the client's own dict, and `update` writes the endpoint's headers into it for good. `Client.ApiRequest` states this, and `EndpointHeadersPersist` shows a later call still sending them.
- `_build_api_call_url` tests `params is not None`, so an empty `params` dict still appends `?`.

## Model

| member | source | states |
|---|---|---|
| ApiCore.BuildApiUrl | src/sama_api_client/api_core.py:146-159 | the API URL is the server URL, `/`, the site id and `/check_mk/api/1.0`, each at its own position |
| ApiCore.BuildApiCallUrl | src/sama_api_client/api_core.py:247-276 | `api_url/path`, then `/quote(url_data)` and `?urlencode(params)` when given; its shape is stated by CallUrlParts, SplitParts, CallUrlShape and CallUrlDetermines |
| ApiCore.CallUrlParts | src/sama_api_client/api_core.py:264 | a call URL starts with `api_url/path`, and the rest is exactly the segment part followed by the query part |
| ApiCore.SplitParts | src/sama_api_client/api_core.py:266-274 | after the path, the first `?` is present iff `params` is given; what precedes it is the segment part and what follows it is `urlencode(params)` |
| ApiCore.CallUrlShape | src/sama_api_client/api_core.py:247-276 | after `api_url/path`, a `?` appears exactly when `params` is given; the segment decodes back to the UTF-8 of `url_data` and the query decodes back to the parameters in order |
| ApiCore.CallUrlDetermines | src/sama_api_client/api_core.py:247-276 | the call URL for one endpoint path determines `url_data` and `params`: different ones give different URLs |
| ApiCore.EmptyParamsLeaveQuestionMark | src/sama_api_client/api_core.py:270-274 | an empty `params` dict still counts as given: the URL ends in `?` |
| ApiCore.FindEndpoint | src/sama_api_client/api_core.py:278-290 | first match by name, or None; stated by FindEndpointSpec, FindIsFirstMatch and FindAfterAppend |
| ApiCore.FindEndpointSpec | src/sama_api_client/api_core.py:278-290 | lookup gives None iff no registered endpoint has the name; otherwise a registered endpoint with that name |
| ApiCore.FindIsFirstMatch | src/sama_api_client/api_core.py:290 | lookup gives the earliest endpoint with the name, so later duplicates are shadowed |
| ApiCore.FindAfterAppend | src/sama_api_client/api_core.py:290 | appending an endpoint changes only the lookup of a name that was not registered before |
| ApiCore.DecodeDescriptors | src/sama_api_client/api_core.py:318-327 | the comprehension succeeds iff every descriptor has all four keys; it then gives one endpoint per descriptor, in order, built from that descriptor |
| ApiCore.DecodeEndpointFile | src/sama_api_client/api_core.py:316-331 | an unreadable file or invalid JSON gives no registry; a descriptor list gives the comprehension's result |
| ApiCore.LoadedLookup | src/sama_api_client/api_core.py:306-331 | after a load, a lookup finds nothing iff no descriptor has the name; otherwise it finds the endpoint built from the first descriptor with that name |
| ApiCore.DefaultHeaders | src/sama_api_client/api_core.py:138-142 | the default headers are exactly `Content-Type: application/json` and `Authorization: Bearer <token>` |
| ApiCore.MergeHeaders | src/sama_api_client/api_core.py:449-453 | the defaults or `{}`, updated with the endpoint's headers; stated by MergeHeadersContents |
| ApiCore.MergeHeadersContents | src/sama_api_client/api_core.py:449-453 | a header is sent iff the endpoint has it, or defaults are in use and the defaults have it; the endpoint's value wins a clash |
| ApiCore.Redact | src/sama_api_client/api_core.py:459-460 | a copy of the headers with `Authorization` overwritten; stated by RedactContents |
| ApiCore.RedactContents | src/sama_api_client/api_core.py:459-460 | the redacted copy keeps every other header, adds `Authorization` if it was missing, and holds the fixed redaction text there |
| ApiCore.IsHttpError | src/sama_api_client/api_core.py:477 | the statuses `raise_for_status` rejects, 400-599; used by Client.ApiRequest's contract |
| ApiCore.Client.constructor | src/sama_api_client/api_core.py:109-144 | the new client holds its arguments, the built API URL, an empty registry, and default headers carrying the token `_get_token` resolves |
| ApiCore.Client.LoadEndpoints | src/sama_api_client/api_core.py:306-331 | returns True iff the file decodes; on success the registry becomes the decoded list, and on failure it is unchanged |
| ApiCore.Client.RegisterEndpoint | src/sama_api_client/api_core.py:333-359 | the registry is the old one followed by the endpoint built from the arguments |
| ApiCore.Client.AddEndpoint | src/sama_api_client/api_core.py:361-371 | the registry is the old one followed by the given endpoint |
| ApiCore.Client.ApiRequest | src/sama_api_client/api_core.py:412-499 | an unknown endpoint sends nothing, returns None and changes nothing; otherwise the request carries the endpoint's method, the call URL, the merged headers and the data; with defaults in use the client's header map becomes the merged map; a response is returned iff the transport answered with a status outside 400-599; one redacted copy of the headers is built per enabled diagnostic (debug, access log) plus one for an HTTP error |
| Credentials.GetPassword | src/sama_api_client/api_core.py:206-213 | the keyring lookup gives the stored password iff the (service, user) entry exists |
| Credentials.GetEnv | src/sama_api_client/api_core.py:188-194 | `os.getenv` gives the variable's value iff it is set |
| Credentials.LoadDotenv | src/sama_api_client/api_core.py:183-185 | after `load_dotenv`, the environment holds the variables of both sources; the process environment's values win, and `.env` only fills in missing names |
| Credentials.KeyringToken | src/sama_api_client/api_core.py:196-216 | a keyring token exists iff both keyring entries exist, and it is `user secret` |
| Credentials.EnvToken | src/sama_api_client/api_core.py:175-194 | an environment token exists iff both variables are set, and it is `user secret` |
| Credentials.ArgumentToken | src/sama_api_client/api_core.py:231-232 | the constructor arguments give a token iff both are given, and it is `user secret` |
| Credentials.GetToken | src/sama_api_client/api_core.py:218-245 | both arguments given means their token; no token iff the arguments are incomplete and neither the keyring nor the environment has a complete pair |
| Credentials.FirstToken | src/sama_api_client/api_core.py:225-226 | the reference precedence rule: a token exists iff some source yields one, and it is the token of a source that every earlier source fails to yield |
| Credentials.GetTokenIsFirstSource | src/sama_api_client/api_core.py:218-245 | `_get_token` is the first of arguments, keyring and environment that yields a token |
| Credentials.ArgumentsShortCircuit | src/sama_api_client/api_core.py:231-232 | with both arguments given, the keyring and the environment do not affect the token |
| Credentials.KeyringBeforeEnvironment | src/sama_api_client/api_core.py:234-237 | with incomplete arguments, a complete keyring pair wins whatever the environment holds |
| Credentials.EnvironmentFallback | src/sama_api_client/api_core.py:239-245 | with incomplete arguments and an incomplete keyring pair, the token is the environment's (None when that is incomplete too) |
| Credentials.DotenvFillsGaps | src/sama_api_client/api_core.py:183-194 | variables missing from the process environment are taken from `.env` |
| Credentials.BearerValue | src/sama_api_client/api_core.py:141 | the `Authorization` value is `Bearer <token>`, or `Bearer None` when no token was found |
| UrlEncoding.EncodeChar | src/sama_api_client/api_core.py:58 | a character encodes to 1-4 UTF-8 bytes; ASCII maps to itself, and other characters give only bytes of 0x80 and above |
| UrlEncoding.Quote | src/sama_api_client/api_core.py:267 | `quote(s)` with `safe='/'` over the UTF-8 of `s`; stated by QuoteBytesOutput, QuoteHasNoDelimiters, QuoteRoundTrip and QuoteExample |
| UrlEncoding.QuotePlus | src/sama_api_client/api_core.py:274 | `quote_plus(s)`: space becomes `+` and `/` is escaped; stated by QuoteBytesOutput and QuoteHasNoDelimiters |
| UrlEncoding.Urlencode | src/sama_api_client/api_core.py:274 | `k=v` items joined by `&`, with keys and values through `quote_plus`; stated by UrlencodeRoundTrip and UrlencodeExample |
| UrlEncoding.QuoteBytesOutput | src/sama_api_client/api_core.py:266-268 | quoting emits only unreserved characters, `/` for `quote`, `+` for `quote_plus`, and `%XX` escapes |
| UrlEncoding.QuoteHasNoDelimiters | src/sama_api_client/api_core.py:266-274 | a quoted segment holds no `?` or `#`; a `quote_plus`-encoded key or value holds no `?`, `&`, `=` or `#` |
| UrlEncoding.EncodeCharDecodes | src/sama_api_client/api_core.py:267 | a character's UTF-8 lead byte announces the sequence length, and the sequence gives the code point back |
| UrlEncoding.Utf8RoundTrip | src/sama_api_client/api_core.py:267 | UTF-8 decoding of `s.encode("utf-8")` gives back `s` |
| UrlEncoding.Utf8Injective | src/sama_api_client/api_core.py:267 | distinct texts have distinct UTF-8 encodings |
| UrlEncoding.Utf8PairsInjective | src/sama_api_client/api_core.py:274 | distinct parameter lists have distinct byte forms |
| UrlEncoding.QuoteRoundTrip | src/sama_api_client/api_core.py:267 | percent-decoding `quote(s)` gives back the UTF-8 of `s` |
| UrlEncoding.UrlencodeRoundTrip | src/sama_api_client/api_core.py:274 | parsing `urlencode(params)` gives back every (key, value) pair in order, as UTF-8 |
| UrlEncoding.ParseEncodedPair | src/sama_api_client/api_core.py:274 | an encoded pair holds no `&`, and the pair decodes back to its key and value |
| UrlEncoding.QuoteExample | src/sama_api_client/api_core.py:267 | `quote("a b")` is `a%20b` |
| UrlEncoding.UrlencodeExample | src/sama_api_client/api_core.py:274 | `urlencode({"k": "v 1"})` is `k=v+1` |
| ApiEndpoint.New | src/sama_api_client/object_schemas/api_endpoint.py:52-70 | the record holds exactly the given name, path, method and headers |
| ApiEndpoint.NewHeadersDefault | src/sama_api_client/object_schemas/api_endpoint.py:57 | headers default to None |
| ApiEndpoint.Str | src/sama_api_client/object_schemas/api_endpoint.py:72-76 | `ApiEndpoint(name=…, path=…, method=…)`; stated by StrIgnoresHeaders and StrRoundTrip |
| ApiEndpoint.Repr | src/sama_api_client/object_schemas/api_endpoint.py:78-82 | `__repr__` is `__str__` |
| ApiEndpoint.StrIgnoresHeaders | src/sama_api_client/object_schemas/api_endpoint.py:72-76 | the string form does not depend on the headers |
| ApiEndpoint.StrRoundTrip | src/sama_api_client/object_schemas/api_endpoint.py:72-76 | name, path and method can be read back from the string form whenever neither name nor path contains a comma |
| Text.Join | src/sama_api_client/format_http_error.py:68 | `', '.join(errors)`: the parts with the separator between them; used by FieldLine |
| Text.Strip | src/sama_api_client/format_http_error.py:70 | `strip()` leaves the empty string or a string with no whitespace at either end |
| Text.StripRemovesSurroundingSpaces | src/sama_api_client/format_http_error.py:70 | `strip()` gives a slice of `s`, and every character outside the slice is whitespace |
| Text.RStripRemovesSpaces | src/sama_api_client/format_http_error.py:70 | what trailing stripping removes is whitespace only |
| FormatHttpError.ErrorMessage | src/sama_api_client/format_http_error.py:56-74 | unparsable JSON gives the raw-text message; a body that is not an object gives the unexpected-structure message |
| FormatHttpError.AppendFieldLines | src/sama_api_client/format_http_error.py:65-68 | the loop appends the field lines in order, or stops exactly when a field's errors cannot be joined |
| FormatHttpError.FormatForLogging | src/sama_api_client/format_http_error.py:56-74 | the line-by-line construction returns the specified message, or raises, for every body |
| FormatHttpError.FieldLinesAppend | src/sama_api_client/format_http_error.py:67-68 | the field section of a concatenation is the two sections in order, and fails iff either fails |
| FormatHttpError.FieldLinesFail | src/sama_api_client/format_http_error.py:67-68 | the field section fails iff some field's value is one `join` rejects |
| FormatHttpError.RaisesExactly | src/sama_api_client/format_http_error.py:65-74 | the function raises iff the body is an object whose `fields` is an object with a value that `join` rejects |
| FormatHttpError.ObjectMessage | src/sama_api_client/format_http_error.py:58-70 | for an object body whose field section does not fail, the message is the stripped headline, detail and field text |
| FormatHttpError.DetailOnlyShape | src/sama_api_client/format_http_error.py:61-70 | without `fields`, the message is the headline, a newline and `Detail:`, then the detail with its trailing whitespace removed |
| FormatHttpError.WithFieldsShape | src/sama_api_client/format_http_error.py:61-70 | with `fields`, the headline and the detail line stay whole, the heading follows, and only the field lines lose their trailing whitespace |
| FormatHttpError.FieldSection | src/sama_api_client/format_http_error.py:60-70 | states the two message shapes above at the level of the decoded body |
| FormatHttpError.ObjectTextOpening | src/sama_api_client/format_http_error.py:61-62 | the object message opens with the headline, a newline and `Detail:` |
| FormatHttpError.HeadlineKept | src/sama_api_client/format_http_error.py:61-62 | for an object body whose `fields` is absent, or an object whose values `join` accepts, the message opens with `HTTP Error <status>: <title>`, a newline and `Detail:` |
| FormatHttpError.ObjectTextTrimmed | src/sama_api_client/format_http_error.py:70 | the object message is non-empty and has no whitespace at either end |
| FormatHttpError.NoSurroundingWhitespace | src/sama_api_client/format_http_error.py:70 | for an object body whose `fields` is absent, or an object whose values `join` accepts, the message is non-empty and has no surrounding whitespace |

## Left out

- The HTTP transport (`requests.Session`), `connect`, `close` and `get_version` are not modelled, because they are network I/O. `api_request` takes the transport's result as an `Outcome` input: an answered status, or a failure. `TransportFailure` stands for every exception other than `HTTPError` that the request raises, which `api_request` logs and answers with None.
- Logging and printing are not modelled: `_init_logger`, the text of every log and print line, and `print_http_error`. `api_request` models only the redacted header copies those lines would contain.
- The client's `__str__`, `__repr__`, `__enter__` and `__exit__` are not part of this model.
- `ApiCore.Client.ApiRequest`: states how many redacted copies are built and what each contains, but not how often each is output or in what order. On an HTTP error with `debug` set, the error message carrying its copy is both logged and printed. The response's headers, body and reason are also left out.
- `ApiCore.Client.LoadEndpoints`: file reading and JSON parsing are an input (`EndpointFile`). Logging the failure is left out.
  - A top-level value that is not a list is given by what the comprehension makes of it. `{}` and `""` iterate to nothing, build an empty registry and return True: `Descriptors([])`. A number, a boolean, `null`, a non-empty string or a non-empty object makes the comprehension raise `TypeError`, and the method returns False. So does a list element that is not an object. Each of these is a descriptor with no keys, which fails to decode.
  - Descriptor values that are not strings (a numeric name, a headers list) are not modelled, because the source stores them unchecked.
- `Credentials`: a keyring backend that raises is not modelled. Neither are `load_dotenv`'s lasting changes to the process environment and its `.env` file lookup rules; the file's variables are an input.
- `UrlEncoding`: a Python `str` may hold lone surrogates, which a Dafny `char` cannot. On such a `url_data`, or such a key or value, `quote` and `urlencode` raise `UnicodeEncodeError` under strict UTF-8. The URL is built at `api_core.py:445`, before the `try`, so this exception escapes `api_request` instead of giving None. The model does not capture this error path.
- `UrlEncoding`: `quote` and `urlencode` are modelled for string arguments only. `urlencode` with sequence values (`doseq`) and non-string keys or values is left out.
- `FormatHttpError`: JSON decoding is an input. Member values appear as Python's `str()` of the value. A `fields` value that `join` accepts (a list of strings, a string as its characters, or an object as its keys) is given as the sequence of strings it iterates. `str(http_error)` is an input string.
- `api_client.py`, `configuration.py` and the other object schemas are not part of this model.
