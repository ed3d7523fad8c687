/**
 * The exceptions that the transport libraries underneath the `requests` handler can raise:
 * the Python builtins, `http.client`, the SOCKS layer, urllib3 and requests.
 *
 * A raised exception is an `Exc`: its concrete class (`Kind`, carrying the attributes that
 * the handler reads), its message (`str(e)`), its implicit `__context__`, its explicit
 * `__cause__` and its `args`. The names that `except` clauses and `isinstance` tests
 * mention are `Class` values, and `Ancestors` gives, for each concrete class, every named
 * class it is an instance of (its method resolution order restricted to the named classes).
 */
module BackendErrors {
  import opened Wrappers
  import opened Search

  /** `http.client.IncompleteRead.partial`: bytes in the standard library, an int in urllib3's subclasses. */
  datatype Partial = PartialCount(n: int) | PartialBytes(bytes: seq<bv8>)

  /** The response object that requests attaches to a `TooManyRedirects`. */
  datatype BackendResponse = BackendResponse(status: int, url: string, reason: string)

  /** The concrete class of a raised backend exception. */
  datatype Kind =
    // builtins (socket.error and IOError are OSError; socket.timeout is TimeoutError)
    | OSError
    | ConnectionRefusedError
    | TimeoutError
    | ValueError
      // http.client
    | HttpClientIncompleteRead(partial: Partial, expected: Option<int>)
      // yt_dlp.socks
    | SocksProxyError
      // urllib3.exceptions
    | Urllib3HTTPError
    | Urllib3SSLError
    | Urllib3ProtocolError
    | Urllib3ProxyError
    | Urllib3DecodeError
    | Urllib3ConnectTimeoutError
    | Urllib3NewConnectionError
    | Urllib3ReadTimeoutError
    | Urllib3IncompleteRead(partial: Partial, expected: Option<int>)
    | Urllib3InvalidChunkLength(partial: Partial, expected: Option<int>)
      // requests.exceptions
    | RequestsRequestException
    | RequestsConnectionError
    | RequestsProxyError
    | RequestsSSLError
    | RequestsTimeout
    | RequestsConnectTimeout
    | RequestsReadTimeout
    | RequestsTooManyRedirects(response: BackendResponse)
    | RequestsInvalidURL
    | RequestsChunkedEncodingError
    | RequestsContentDecodingError
    | RequestsRetryError

  /**
   * A class named by an `except` clause or an `isinstance` test. The last three are the
   * handler's own error taxonomy, which no backend exception is an instance of.
   */
  datatype Class =
    | OSError
    | TimeoutError
    | HttpClientIncompleteRead
    | SocksProxyError
    | Urllib3HTTPError
    | Urllib3SSLError
    | Urllib3ProtocolError
    | Urllib3ProxyError
    | Urllib3ConnectTimeoutError
    | Urllib3NewConnectionError
    | RequestsRequestException
    | RequestsConnectionError
    | RequestsProxyError
    | RequestsSSLError
    | RequestsTimeout
    | RequestsTooManyRedirects
    | TaxonomySSLError
    | TaxonomyProxyError
    | TaxonomyHTTPError

  /** An object found in `__context__`, `__cause__` or `args`. */
  datatype Value = NoneValue | Text(s: string) | ExcValue(e: Exc) | Object(tag: string)

  datatype Exc = Exc(kind: Kind, message: string, context: Option<Exc>, cause: Option<Exc>, args: seq<Value>)

  /** Every named class that an exception of concrete class `k` is an instance of. */
  function Ancestors(k: Kind): set<Class>
  {
    match k
    case OSError => {Class.OSError}
    case ConnectionRefusedError => {Class.OSError}
    case TimeoutError => {Class.TimeoutError, Class.OSError}
    case ValueError => {}
    case HttpClientIncompleteRead(_, _) => {Class.HttpClientIncompleteRead}
    case SocksProxyError => {Class.SocksProxyError, Class.OSError}
    case Urllib3HTTPError => {Class.Urllib3HTTPError}
    case Urllib3SSLError => {Class.Urllib3SSLError, Class.Urllib3HTTPError}
    case Urllib3ProtocolError => {Class.Urllib3ProtocolError, Class.Urllib3HTTPError}
    case Urllib3ProxyError => {Class.Urllib3ProxyError, Class.Urllib3HTTPError}
    case Urllib3DecodeError => {Class.Urllib3HTTPError}
    case Urllib3ConnectTimeoutError => {Class.Urllib3ConnectTimeoutError, Class.Urllib3HTTPError}
    case Urllib3NewConnectionError =>
      {Class.Urllib3NewConnectionError, Class.Urllib3ConnectTimeoutError, Class.Urllib3HTTPError}
    case Urllib3ReadTimeoutError => {Class.Urllib3HTTPError}
    case Urllib3IncompleteRead(_, _) => {Class.Urllib3HTTPError, Class.HttpClientIncompleteRead}
    case Urllib3InvalidChunkLength(_, _) => {Class.Urllib3HTTPError, Class.HttpClientIncompleteRead}
    case RequestsRequestException => {Class.RequestsRequestException, Class.OSError}
    case RequestsConnectionError =>
      {Class.RequestsConnectionError, Class.RequestsRequestException, Class.OSError}
    case RequestsProxyError =>
      {Class.RequestsProxyError, Class.RequestsConnectionError, Class.RequestsRequestException, Class.OSError}
    case RequestsSSLError =>
      {Class.RequestsSSLError, Class.RequestsConnectionError, Class.RequestsRequestException, Class.OSError}
    case RequestsTimeout => {Class.RequestsTimeout, Class.RequestsRequestException, Class.OSError}
    case RequestsConnectTimeout =>
      {Class.RequestsConnectionError, Class.RequestsTimeout, Class.RequestsRequestException, Class.OSError}
    case RequestsReadTimeout => {Class.RequestsTimeout, Class.RequestsRequestException, Class.OSError}
    case RequestsTooManyRedirects(_) =>
      {Class.RequestsTooManyRedirects, Class.RequestsRequestException, Class.OSError}
    case RequestsInvalidURL => {Class.RequestsRequestException, Class.OSError}
    case RequestsChunkedEncodingError => {Class.RequestsRequestException, Class.OSError}
    case RequestsContentDecodingError =>
      {Class.RequestsRequestException, Class.OSError, Class.Urllib3HTTPError}
    case RequestsRetryError => {Class.RequestsRequestException, Class.OSError}
  }

  predicate IsInstance(k: Kind, c: Class)
  {
    c in Ancestors(k)
  }

  /** The handler's own taxonomy classes are never the class of a backend exception. */
  predicate IsTaxonomyClass(c: Class)
  {
    c == Class.TaxonomySSLError || c == Class.TaxonomyProxyError || c == Class.TaxonomyHTTPError
  }

  lemma NoBackendExceptionIsTaxonomy(k: Kind, c: Class)
    requires IsTaxonomyClass(c)
    ensures !IsInstance(k, c)
  {
  }

  /** An `except (A, B, ...)` clause catches `k` when `k` is an instance of one of its classes. */
  predicate Catches(clause: set<Class>, k: Kind)
  {
    exists c :: c in clause && IsInstance(k, c)
  }

  /**
   * The index of the `except` clause that handles an exception of class `k`: Python tries the
   * clauses in order and the first one that catches wins; `None` means the exception propagates.
   */
  function FirstMatch(k: Kind, clauses: seq<set<Class>>): Option<nat>
  {
    FirstIndex(clauses, clause => Catches(clause, k))
  }

  /** A clause index determined by the first-match rule: this clause catches and no earlier one does. */
  lemma FirstMatchIs(k: Kind, clauses: seq<set<Class>>, i: nat)
    requires i < |clauses| && Catches(clauses[i], k)
    requires forall j :: 0 <= j < i ==> !Catches(clauses[j], k)
    ensures FirstMatch(k, clauses) == Some(i)
  {
  }

  /** `sub in s` for Python strings. */
  predicate OccursAt(s: string, sub: string, i: nat)
  {
    i + |sub| <= |s| && s[i..i + |sub|] == sub
  }

  predicate Contains(s: string, sub: string)
  {
    exists i: nat | i <= |s| :: OccursAt(s, sub, i)
  }
}
