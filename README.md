# yt-dlp `requests` handler and image sniffer, modelled in Dafny

This project models two parts of yt-dlp.

The first is the core of the `requests` request handler (`yt_dlp/networking/_requests.py`). It is the
backend that sends yt-dlp's HTTP requests through the requests library and urllib3. The model covers:

- how the handler turns the many exceptions of requests, urllib3, `http.client`, the SOCKS layer and
  the OS into yt-dlp's closed error taxonomy (`CertificateVerifyError`, `SSLError`, `ProxyError`,
  `TransportError`, `IncompleteRead`, `HTTPError`, `RequestError`);
- the 2xx gate that decides whether a response is returned;
- the keyword arguments the transport adapter passes on to urllib3's pool managers;
- the extension check, the percent-encoding override, the urllib3 log routing and the handler's
  capability constants.

The second is the image-format sniffer (`yt_dlp/compat/imghdr.py`). It is a table of byte-signature
tests tried in the order webp, png, jpeg, gif.

## Layout

| file | module | models |
|---|---|---|
| `wrappers.dfy` | `Wrappers` | `Option` |
| `backend_errors.dfy` | `BackendErrors` | backend exception classes, their hierarchy, first-match `except` semantics |
| `networking.dfy` | `Networking` | the handler's response object and error taxonomy |
| `response_read.dfy` | `ResponseRead` | `RequestsResponseAdapter.read` |
| `requests_send.dfy` | `RequestsSend` | `RequestsRH._send` |
| `socks_connection.dfy` | `SocksConnection` | `SocksHTTPConnection._new_conn` |
| `http_adapter.dfy` | `HttpAdapter` | `RequestsHTTPAdapter` (a class, its fields set in the constructor) |
| `percent_override.dfy` | `PercentOverride` | `Urllib3PercentREOverride.subn` |
| `log_routing.dfy` | `LogRouting` | `Urllib3LoggingHandler.emit` |
| `requests_handler.dfy` | `RequestsHandler` | capability constants, preference, `_check_extensions` |
| `imghdr.dfy` | `ImgHdr` | the signature table and `what` |

A backend exception is an `Exc` value with these parts:

- its concrete class (`Kind`), which carries the attributes the handler reads: `partial` and
  `expected` of incomplete reads, and the response attached to `TooManyRedirects`;
- its message (`str(e)`);
- its `__context__` and `__cause__`;
- its `args`.

`Ancestors` lists the named classes each concrete class is an instance of, as the libraries define
them. For example, requests' `SSLError` and `ProxyError` are both `ConnectionError`s. urllib3's
`IncompleteRead` is both a urllib3 `HTTPError` and an `http.client.IncompleteRead`.

Every `try`/`except` chain is a table of clauses. `FirstMatch` picks the first clause that catches
the exception, as Python does, so order matters whenever one class is a subclass of another.

Where the code does something other than what a stated contract suggests, the model follows the code:

- `_send` and `read` translate only exceptions from requests and urllib3. Any other exception
  propagates unchanged (`Propagated` and `ReadEscaped`), so "no backend-native error escapes" holds
  only for those two libraries. `SendTranslatesLibraryErrors` and `ReadTranslatesUrllib3Errors`
  state exactly this.
- `_new_conn` maps SOCKS tunnel failures to three urllib3 exceptions, not to taxonomy errors. The
  taxonomy translation happens later, in layers not modelled here.

## Model

| member | source | states |
|---|---|---|
| `Search.FirstIndex` | yt_dlp/compat/imghdr.py:16 | the index found satisfies the test and no earlier element does; `None` exactly when no element does |
| `BackendErrors.FirstMatch` | yt_dlp/networking/_requests.py:301-320 | Python's rule for an `except` chain: `FirstIndex` over the clauses with `Catches`, so the clause chosen catches the exception and no earlier one does; `None`, the exception propagates, exactly when none catches it |
| `BackendErrors.NoBackendExceptionIsTaxonomy` | yt_dlp/networking/_requests.py:202 | no library exception is an instance of the handler's own `SSLError`, `ProxyError` or `HTTPError` |
| `ResponseRead.FirstIncompleteRead` | yt_dlp/networking/_requests.py:148-150 | `FirstIndex` over the candidates: the index found holds an `http.client.IncompleteRead` and no earlier candidate does; `None` exactly when none does |
| `ResponseRead.ProtocolErrorTranslation` | yt_dlp/networking/_requests.py:145-156 | the translation of a protocol error; characterised by `ReadProtocolError` and `ReadIncompleteRead` |
| `ResponseRead.Read` | yt_dlp/networking/_requests.py:136-160 | the adapter's `read`; characterised by `ReadReturnsData`, `ReadSslError`, `ReadProtocolError`, `ReadIncompleteRead`, `ReadOtherUrllib3Error` and `ReadTranslatesUrllib3Errors` |
| `ResponseRead.ReadReturnsData` | yt_dlp/networking/_requests.py:139 | bytes read without error are returned unchanged |
| `ResponseRead.ReadSslError` | yt_dlp/networking/_requests.py:142-143 | a urllib3 SSL error while reading becomes `SSLError` whose cause is the original |
| `ResponseRead.ReadProtocolError` | yt_dlp/networking/_requests.py:145-156 | a protocol error becomes `IncompleteRead` exactly when an incomplete-read record is among its context, cause and args, and `TransportError(e)` otherwise |
| `ResponseRead.ReadIncompleteRead` | yt_dlp/networking/_requests.py:148-155 | the first record in the order context, cause, args supplies `expected`, and `partial` is the int itself or the length of the bytes |
| `ResponseRead.ReadOtherUrllib3Error` | yt_dlp/networking/_requests.py:158-160 | any other urllib3 error while reading becomes `TransportError(e)` |
| `ResponseRead.ReadTranslatesUrllib3Errors` | yt_dlp/networking/_requests.py:136-160 | an exception escapes `read` exactly when it is not a urllib3 error, and then unchanged; every translated error has the original as cause |
| `Networking.Adapt` | yt_dlp/networking/_requests.py:129-134 | wraps the library's response, keeping status, final URL and reason; used by the status check at line 322 |
| `RequestsSend.StatusGate` | yt_dlp/networking/_requests.py:322-327 | the status check after the `try`; characterised by `SendStatusCheck` and `SendRedirectLimit` |
| `RequestsSend.SendSpec` | yt_dlp/networking/_requests.py:301-327 | `_send` after the request, with the library's classes in its clauses; characterised by the `Send*` lemmas below |
| `RequestsSend.SendAsWritten` | yt_dlp/networking/_requests.py:301-327 | `_send` with the clause names as line 202 binds them; characterised by `ShadowedClausesNeverMatch`, `CertificateFailureAsWritten`, `Urllib3FailureAsWritten` and `AsWrittenAgreesElsewhere` |
| `RequestsSend.Send` | yt_dlp/networking/_requests.py:282-327 | the method, with its redirect flag and reassigned response, computes the translation that the lemmas below characterise |
| `RequestsSend.SendRedirectLimit` | yt_dlp/networking/_requests.py:301-303 | exceeding the redirect limit raises nothing itself; the attached response goes through the status gate with the loop flag set |
| `RequestsSend.SendSslFailure` | yt_dlp/networking/_requests.py:305-308 | an SSL failure becomes `CertificateVerifyError` exactly when its message contains `CERTIFICATE_VERIFY_FAILED`, else `SSLError` |
| `RequestsSend.SendProxyFailure` | yt_dlp/networking/_requests.py:310-311 | a proxy failure becomes `ProxyError`, although it is also a connection error |
| `RequestsSend.SendConnectionFailure` | yt_dlp/networking/_requests.py:313-314 | connection errors and timeouts that are not SSL or proxy failures become `TransportError` |
| `RequestsSend.SendUrllib3Failure` | yt_dlp/networking/_requests.py:316-317 | a urllib3 error reaching `_send` becomes `TransportError`, even one that is also a requests error |
| `RequestsSend.SendOtherRequestsFailure` | yt_dlp/networking/_requests.py:319-320 | any other requests error becomes `RequestError` |
| `RequestsSend.SendTranslatesLibraryErrors` | yt_dlp/networking/_requests.py:301-320 | exactly the exceptions that are neither requests nor urllib3 errors propagate, unchanged; every translated error has the original as cause |
| `RequestsSend.SendStatusCheck` | yt_dlp/networking/_requests.py:322-327 | the library's response itself, adapted, is returned iff its status is in [200, 300): the one `session.request` returned, or the one attached to `TooManyRedirects`; otherwise, for the response `session.request` returned as well, `HTTPError` carries it, with `redirect_loop` true iff it came from exceeding the redirect limit |
| `RequestsSend.ShadowedClausesNeverMatch` | yt_dlp/networking/_requests.py:301-320 | with the names as line 202 binds them, the SSL, proxy and urllib3 clauses never catch anything |
| `RequestsSend.CertificateFailureAsWritten` | yt_dlp/networking/_requests.py:305-314 | as written, every requests SSL or proxy failure, certificate-verification failures included, becomes `TransportError` |
| `RequestsSend.CertificateFailureExample` | yt_dlp/networking/_requests.py:305-314 | a requests `SSLError` whose message names `CERTIFICATE_VERIFY_FAILED` gives `TransportError` as written and `CertificateVerifyError` as meant |
| `RequestsSend.Urllib3FailureAsWritten` | yt_dlp/networking/_requests.py:316-320 | as written, every urllib3 error that is not also a requests error propagates untranslated (requests' hybrid `ContentDecodingError` still reaches the clause at line 319) |
| `RequestsSend.Urllib3FailureExample` | yt_dlp/networking/_requests.py:316-320 | a urllib3 `ProtocolError` propagates as written and becomes `TransportError` as meant |
| `RequestsSend.AsWrittenAgreesElsewhere` | yt_dlp/networking/_requests.py:301-320 | outside SSL, proxy and urllib3 errors, the code as written and as meant agree on every outcome |
| `SocksConnection.NewConn` | yt_dlp/networking/_requests.py:338-353 | `_new_conn`; characterised by `SocksConnected`, `SocksTimeout`, `SocksRejection`, `SocksOsFailure` and `SocksFailuresAreUrllib3Errors` |
| `SocksConnection.SocksConnected` | yt_dlp/networking/_requests.py:340-345 | an opened tunnel socket is returned as it is |
| `SocksConnection.SocksTimeout` | yt_dlp/networking/_requests.py:346-348 | a timeout becomes urllib3's `ConnectTimeoutError`, chained to the original, naming the origin host |
| `SocksConnection.SocksRejection` | yt_dlp/networking/_requests.py:349-350 | a SOCKS rejection, although an `OSError`, becomes urllib3's `ProxyError` with message and original as arguments |
| `SocksConnection.SocksOsFailure` | yt_dlp/networking/_requests.py:351-353 | any other OS failure becomes `NewConnectionError`, whose message ends with the original's |
| `SocksConnection.SocksFailuresAreUrllib3Errors` | yt_dlp/networking/_requests.py:338-353 | exactly non-OS errors propagate unchanged; the others become three distinct urllib3 errors, each chained to the original |
| `HttpAdapter.RequestsHTTPAdapter.constructor` | yt_dlp/networking/_requests.py:164-171 | `ssl_context` is kept iff given, `source_address` as `(address, 0)` iff non-empty, and the proxy TLS context defaults to the TLS context; no other key is stored (`Valid`) |
| `HttpAdapter.RequestsHTTPAdapter.PoolManagerKwargs` | yt_dlp/networking/_requests.py:173-174 | the keywords `init_poolmanager` passes on; characterised by `PoolManagerGetsAdapterArgs` |
| `HttpAdapter.RequestsHTTPAdapter.ProxyExtraKwargs` | yt_dlp/networking/_requests.py:177-179 | the extra keyword of `proxy_manager_for`; characterised by `ProxySslContextOnlyForNonSocks` |
| `HttpAdapter.RequestsHTTPAdapter.ProxyManagerKwargs` | yt_dlp/networking/_requests.py:176-180 | the keywords `proxy_manager_for` passes on; characterised by `ProxySslContextOnlyForNonSocks` and `Splat3Disjoint` |
| `HttpAdapter.IsSocksProxy` | yt_dlp/networking/_requests.py:178 | the test `proxy.lower().startswith('socks')`; characterised by `SocksTestIgnoresCase` and `ProxySchemesSplit` |
| `HttpAdapter.RequestsHTTPAdapter.PoolManagerGetsAdapterArgs` | yt_dlp/networking/_requests.py:173-174 | a pool manager receives the caller's and the adapter's arguments unchanged; a repeated keyword is a `TypeError` |
| `HttpAdapter.RequestsHTTPAdapter.ProxySslContextOnlyForNonSocks` | yt_dlp/networking/_requests.py:176-180 | a proxy manager gets the adapter's proxy TLS context iff the proxy is not SOCKS and a context is known; the call's keywords are exactly the caller's, the adapter's and that context, and the caller's and adapter's keep their values |
| `HttpAdapter.Splat3Disjoint` | yt_dlp/networking/_requests.py:180 | three `**` expansions succeed iff no keyword repeats, and then every keyword keeps its value |
| `HttpAdapter.SocksTestIgnoresCase` | yt_dlp/networking/_requests.py:178 | on ASCII input the SOCKS test accepts exactly the proxies starting with `socks` in any case |
| `PercentOverride.ReSubn` | yt_dlp/networking/_requests.py:92 | the wrapped pattern's `subn` for `%XX` escapes; characterised by `SubnCount`, `EscapeCountBound`, `EscapeCountZero` and `LowerCaseEscapeKept` |
| `PercentOverride.Subn` | yt_dlp/networking/_requests.py:91-92 | the string is returned unchanged with the real match count: at most a third of its length, zero iff no escape occurs |
| `PercentOverride.SubnCount` | yt_dlp/networking/_requests.py:92 | the count of the real substitution does not depend on the replacement |
| `PercentOverride.EscapeCountBound` | yt_dlp/networking/_requests.py:92 | each counted escape takes three characters |
| `PercentOverride.EscapeCountZero` | yt_dlp/networking/_requests.py:92 | the count is zero exactly when no `%XX` escape occurs anywhere |
| `PercentOverride.LowerCaseEscapeKept` | yt_dlp/networking/_requests.py:91-92 | urllib3's own call would turn `%2f` into `%2F`; the override keeps `%2f` and still reports one match |
| `LogRouting.Emit` | yt_dlp/networking/_requests.py:224-233 | the handler's `emit`; characterised by `EmitRoutesByLevel` and `StandardLevels` |
| `LogRouting.EmitRoutesByLevel` | yt_dlp/networking/_requests.py:224-233 | a formatted record goes unchanged to the error call iff its level is at least ERROR, else to info; any failure goes to `handleError` |
| `LogRouting.StandardLevels` | yt_dlp/networking/_requests.py:227-230 | DEBUG, INFO and WARNING records go to info; ERROR and CRITICAL go to error |
| `RequestsHandler.Capabilities` | yt_dlp/networking/_requests.py:237-241 | every URL scheme (http, https) is also a proxy scheme; the two distinct features `NO_PROXY` and `ALL_PROXY`; the name `requests`; and `Preference`, the fixed score 100 that lines 329-331 give every request |
| `RequestsHandler.SupportedEncodings` | yt_dlp/networking/_requests.py:58-63 | the encodings list as first built; characterised by `BrotliOfferedWhenAvailable` |
| `RequestsHandler.SupportedEncodingsAsWritten` | yt_dlp/networking/_requests.py:204 | the list as rebound before the handler reads it; characterised by `BrotliDroppedAsWritten` |
| `RequestsHandler.BrotliOfferedWhenAvailable` | yt_dlp/networking/_requests.py:58-63 | `br` is offered iff brotli is available; gzip and deflate always are |
| `RequestsHandler.BrotliDroppedAsWritten` | yt_dlp/networking/_requests.py:204 | as written, `br` is never offered, even when brotli is available |
| `RequestsHandler.ProxySchemesSplit` | yt_dlp/networking/_requests.py:239 | of the supported proxy schemes, exactly the four SOCKS variants count as SOCKS, so only http and https proxies get the proxy TLS context |
| `RequestsHandler.ExtensionMap.Pop` | yt_dlp/networking/_requests.py:264-265 | `pop(key, None)` returns the value or `None` and removes the key, changing nothing else |
| `RequestsHandler.CheckExtensions` | yt_dlp/networking/_requests.py:262-265 | the extension map loses `cookiejar` and `timeout` and every other entry keeps its value |
| `ImgHdr.Accepts` | yt_dlp/compat/imghdr.py:1-6 | the table's tests, with the jpeg slice corrected; characterised by `WebpExactly`, `PngExactly`, `JpegExactly` and `GifExactly` |
| `ImgHdr.AcceptsAsWritten` | yt_dlp/compat/imghdr.py:1-6 | the table's tests as written; characterised by `JpegAsWrittenAcceptsNothing` |
| `ImgHdr.What` | yt_dlp/compat/imghdr.py:16 | `what(h=h)`; characterised by `WhatFirst`, `ShortHeaderIsUnknown` and `OrderDecidesOverlap` |
| `ImgHdr.WhatAsWritten` | yt_dlp/compat/imghdr.py:16 | `what(h=h)` with the table as written; characterised by `JpegAsWrittenAcceptsNothing` and `JfifHeaderMissed` |
| `ImgHdr.WhatOf` | yt_dlp/compat/imghdr.py:9-16 | `what(file, h)`; characterised by `HeaderDecides` |
| `ImgHdr.WebpExactly` | yt_dlp/compat/imghdr.py:2 | webp iff the header starts with `RIFF` and its suffix from byte 8 is `WEBP`, which forces exactly 12 bytes |
| `ImgHdr.WebpWindow` | yt_dlp/compat/imghdr.py:2 | for headers of at most 12 bytes the suffix test equals the window test on bytes 8 to 11 |
| `ImgHdr.WebpLongHeader` | yt_dlp/compat/imghdr.py:2 | a 13-byte header with `RIFF` and `WEBP` in place is not recognised |
| `ImgHdr.PngExactly` | yt_dlp/compat/imghdr.py:3 | png iff the first 8 bytes are `\x89PNG\r\n\x1a\n` |
| `ImgHdr.JpegExactly` | yt_dlp/compat/imghdr.py:4 | jpeg iff bytes 6 to 10 are `JFIF\x00` or `Exif\x00` |
| `ImgHdr.GifExactly` | yt_dlp/compat/imghdr.py:5 | gif iff the first 6 bytes are `GIF87a` or `GIF89a` |
| `ImgHdr.WhatFirst` | yt_dlp/compat/imghdr.py:1-16 | `what` returns the first format in the order webp, png, jpeg, gif whose test accepts, and `None` iff none does |
| `ImgHdr.ShortHeaderIsUnknown` | yt_dlp/compat/imghdr.py:2-5 | headers shorter than six bytes, including the empty one, yield `None` |
| `ImgHdr.SignaturesOverlapOnlyForJpegAndGif` | yt_dlp/compat/imghdr.py:1-6 | a webp or png header matches no other test; only jpeg and gif can both accept |
| `ImgHdr.OrderDecidesOverlap` | yt_dlp/compat/imghdr.py:16 | every header accepted by both the gif and the jpeg test is reported as jpeg |
| `ImgHdr.GifJfifOverlap` | yt_dlp/compat/imghdr.py:4-5 | the overlap is real: `GIF89a` followed by `JFIF\x00` passes both tests and is reported as jpeg |
| `ImgHdr.HeaderDecides` | yt_dlp/compat/imghdr.py:13-16 | a supplied header alone decides; otherwise only the file's first 12 bytes matter |
| `ImgHdr.JpegAsWrittenAcceptsNothing` | yt_dlp/compat/imghdr.py:4 | as written, the jpeg test accepts no header and `what` never returns jpeg |
| `ImgHdr.JfifHeaderMissed` | yt_dlp/compat/imghdr.py:4 | the 12-byte header of a JFIF file yields `None` as written and jpeg with the five-byte slice |

## Left out

- Network I/O is left out: the `session.request` call (lines 290-299), opening a SOCKS tunnel
  (`create_connection`, `create_socks_proxy_socket`) and the body stream's `read`. Their results are
  parameters (`SessionOutcome`, `ConnectOutcome`, `ReadOutcome`).
- `_helper` and the handler framework's `common` module are not part of this model. This covers
  `select_proxy`, `add_accept_encoding_header`, `make_socks_proxy_opts`, the instance store,
  `_merge_headers` and the base `_check_extensions` that `CheckExtensions` calls first.
- Session and adapter construction is left out (`_create_instance`, lines 267-280), and so are the
  connection, pool and pool-manager classes (lines 355-373). They only configure libraries.
- Line 194 rebinds `RequestsHTTPAdapter` to requests' own `HTTPAdapter`, so the call at lines
  269-273 reaches a constructor that does not take `ssl_context` or `source_address` and raises
  `TypeError`. That call runs from line 287, before the `try` at line 289, so as written every
  `_send` would fail there before `session.request`. The model describes the adapter class defined
  at lines 163-184, and `RequestsSend` starts from the outcome of `session.request`. This failure
  is not modelled.
- Process-wide patching of urllib3 and requests globals is left out (lines 97-104, 117-119, 125,
  373). Only `subn` is modelled.
- `close`, the instance store and its thread safety are left out.
- The choice of cookie jar, timeout and proxies in `_send` is left out (lines 287 and 295-296),
  including the float conversion of the timeout.
- Logger set-up is left out (lines 243-257). The filter class `Urllib3LoggingFilter` named at line
  249 is neither defined nor imported in the file, so as written every `RequestsRH.__init__` raises
  `NameError` there, before a handler is ever built. This failure is not modelled; `LogRouting`
  describes the `emit` of lines 224-233 on its own.
- `CustomLogHandler` is left out (lines 207-217). The handler never uses it.
- The version gates on imports (lines 12-24) are left out.
- `cert_verify` is left out (lines 182-184). It does nothing, and certificate checking is left to
  the TLS context.
- Line 205 reads `Features` from `requests.adapters`, which defines no such name, so as written
  importing the module raises `AttributeError` and the handler is never available. This failure is
  not modelled. The model uses the handler's two feature flags, `NO_PROXY` and `ALL_PROXY`, by name.
- Response headers and the body stream are left out. `Networking.Response` keeps status, final URL
  and reason.
- The class hierarchy of the libraries' exceptions is written out in `BackendErrors.Ancestors`.
  `yt_dlp/socks.py` is not part of this model. Its `ProxyError` is taken to be an `OSError`
  subclass.
- An exception's message is its single message argument. For urllib3 exceptions built with two
  arguments, Python's `str(e)` would print a tuple instead.
- `HttpAdapter.RequestsHTTPAdapter.constructor`: the remaining `**kwargs`, which line 171 passes on
  to the library adapter's constructor, are dropped; the model keeps only the adapter's own fields.
- `PercentOverride.Subn`: the extra `*args, **kwargs` passed through to `re.subn` are dropped. Among
  them `count` would cap the reported number of substitutions. urllib3 passes none of them.
- `ResponseRead.ReadIncompleteRead`: a `bool` `partial` is not modelled. Python counts it as an
  int and passes it through.
- `HttpAdapter.IsSocksProxy`: `str.lower` is modelled only for ASCII letters and the Kelvin sign.
  The Kelvin sign is the one non-ASCII character whose lower-case form is a letter of `socks`.
- `ImgHdr.WhatOf`: the file branch takes the file's content as a parameter. Opening and reading
  the file, and any error from doing so, are left out.

## Findings

| source | as written | input that shows it | evidently intended | confidence | as-written member | corrected member |
|---|---|---|---|---|---|---|
| yt_dlp/networking/_requests.py:202 | the import at line 202 rebinds `SSLError` to the handler's own class, so the clause at line 305 catches nothing and requests' `SSLError` falls through to the `ConnectionError` clause | a requests `SSLError` whose message is `[SSL: CERTIFICATE_VERIFY_FAILED] certificate verify failed` gives `TransportError` | `CertificateVerifyError` (and `SSLError` for other TLS failures, `ProxyError` for proxy failures) | high (not executed) | `RequestsSend.CertificateFailureExample` | `RequestsSend.SendSslFailure` |
| yt_dlp/networking/_requests.py:202 | the same import rebinds `HTTPError`, so the clause at line 316 no longer catches urllib3's errors | a urllib3 `ProtocolError` raised from `session.request` propagates untranslated | `TransportError` | high (not executed) | `RequestsSend.Urllib3FailureExample` | `RequestsSend.SendUrllib3Failure` |
| yt_dlp/networking/_requests.py:204 | `SUPPORTED_ENCODINGS` is rebound to gzip and deflate before the handler reads it at line 238 and for the `Accept-Encoding` header at line 284 | brotli available: `br` is not offered | `br` offered when brotli is available (lines 58-63) | medium (not executed) | `RequestsHandler.BrotliDroppedAsWritten` | `RequestsHandler.BrotliOfferedWhenAvailable` |
| yt_dlp/compat/imghdr.py:4 | `h[6:10]` is four bytes and is compared with the five-byte `JFIF\x00` and `Exif\x00`, so the test never passes | the 12-byte JFIF header `FF D8 FF E0 00 10 4A 46 49 46 00 01` gives `None` | `h[6:11]`, recognising the header as jpeg | high (not executed) | `ImgHdr.JfifHeaderMissed` | `ImgHdr.JpegExactly` |

The rest of the model uses the corrected forms: `RequestsSend.Send` and `SendSpec` use the library
classes, `ImgHdr.What` uses the five-byte jpeg slice, and `SupportedEncodings` includes brotli when
it is available.
