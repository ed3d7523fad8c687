/**
 * The handler-facing side of the boundary: the response object the handler hands out and
 * the closed set of errors it raises. Each error that translates a backend exception keeps
 * that exception (the `from e` chain); `HTTPError` carries the response instead.
 */
module Networking {
  import opened Wrappers
  import opened BackendErrors

  /** `RequestsResponseAdapter`: status, final URL and reason of the library's response. */
  datatype Response = Response(status: int, url: string, reason: string)

  /** Wraps the library's response (the adapter's constructor). */
  function Adapt(res: BackendResponse): Response
  {
    Response(res.status, res.url, res.reason)
  }

  datatype NetError =
    | CertificateVerifyError(cause: Exc)
    | SSLError(cause: Exc)
    | ProxyError(cause: Exc)
    | TransportError(cause: Exc)
    | IncompleteRead(partial: int, expected: Option<int>, cause: Exc)
    | HTTPError(response: Response, redirectLoop: bool)
    | RequestError(cause: Exc)
}
