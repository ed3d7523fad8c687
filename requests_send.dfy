/**
 * `RequestsRH._send`: the library's `session.request` either returns a response or raises;
 * the raised exception is classified by the first `except` clause that catches it, a
 * redirect-limit overflow keeps the last response, and the final status decides between
 * returning the response and raising `HTTPError`.
 */
module RequestsSend {
  import opened Wrappers
  import opened BackendErrors
  import opened Networking

  /** What `session.request(...)` did. */
  datatype SessionOutcome = Returned(response: BackendResponse) | Raised(e: Exc)

  /** What `_send` does: return a response, raise a handler error, or let `e` propagate. */
  datatype SendResult = Delivered(response: Response) | Failed(error: NetError) | Propagated(e: Exc)

  const CertificateVerifyFailed := "CERTIFICATE_VERIFY_FAILED"

  /**
   * The six `except` clauses, in order, naming the classes that the imports of requests'
   * and urllib3's exceptions bring in: redirects, SSL, proxy, connection or timeout,
   * urllib3 error, any other requests error.
   */
  const SendClauses: seq<set<Class>> := [
    {Class.RequestsTooManyRedirects},
    {Class.RequestsSSLError},
    {Class.RequestsProxyError},
    {Class.RequestsConnectionError, Class.RequestsTimeout},
    {Class.Urllib3HTTPError},
    {Class.RequestsRequestException}]

  /**
   * The same clauses with the names bound as the file leaves them: the import from the
   * handler's own exceptions module after the library imports rebinds `SSLError`,
   * `ProxyError` and `HTTPError` to the handler's taxonomy classes.
   */
  const SendClausesAsWritten: seq<set<Class>> := [
    {Class.RequestsTooManyRedirects},
    {Class.TaxonomySSLError},
    {Class.TaxonomyProxyError},
    {Class.RequestsConnectionError, Class.RequestsTimeout},
    {Class.TaxonomyHTTPError},
    {Class.RequestsRequestException}]

  /** The body of clause `i` for the exception `e`, clause 0 excepted. */
  function ClauseError(e: Exc, i: nat): NetError
    requires 1 <= i < 6
  {
    if i == 1 then
      if Contains(e.message, CertificateVerifyFailed) then CertificateVerifyError(e) else SSLError(e)
    else if i == 2 then ProxyError(e)
    else if i <= 4 then TransportError(e)
    else RequestError(e)
  }

  /** The status check after the `try`: only a 2xx status returns the response. */
  function StatusGate(res: BackendResponse, redirectLoop: bool): SendResult
  {
    var response := Adapt(res);
    if !(200 <= response.status < 300) then Failed(HTTPError(response, redirectLoop))
    else Delivered(response)
  }

  /** `_send` over a clause table of the shape above. */
  function SendWith(clauses: seq<set<Class>>, outcome: SessionOutcome): SendResult
    requires |clauses| == 6 && clauses[0] == {Class.RequestsTooManyRedirects}
  {
    match outcome
    case Returned(res) => StatusGate(res, false)
    case Raised(e) =>
      match FirstMatch(e.kind, clauses)
      case None => Propagated(e)
      case Some(i) =>
        if i == 0 then StatusGate(e.kind.response, true) else Failed(ClauseError(e, i))
  }

  /** `_send` with the library's exception classes in its clauses. */
  function SendSpec(outcome: SessionOutcome): SendResult
  {
    SendWith(SendClauses, outcome)
  }

  /** `_send` with the names as the file binds them. */
  function SendAsWritten(outcome: SessionOutcome): SendResult
  {
    SendWith(SendClausesAsWritten, outcome)
  }

  /** `_send`'s control flow: the redirect flag is set and the response replaced inside the handler. */
  method Send(outcome: SessionOutcome) returns (r: SendResult)
    ensures r == SendSpec(outcome)
  {
    var maxRedirectsExceeded := false;
    var requestsRes: BackendResponse;
    match outcome {
      case Returned(res) =>
        requestsRes := res;
      case Raised(e) =>
        var clause := FirstMatch(e.kind, SendClauses);
        if clause.None? {
          return Propagated(e);
        } else if clause.value == 0 {
          maxRedirectsExceeded := true;
          requestsRes := e.kind.response;
        } else {
          return Failed(ClauseError(e, clause.value));
        }
    }
    var res := Adapt(requestsRes);
    if !(200 <= res.status < 300) {
      return Failed(HTTPError(res, maxRedirectsExceeded));
    }
    return Delivered(res);
  }

  // ---------------------------------------------------------------------------------------
  // The classification

  /** Exceeding the redirect limit raises nothing by itself: the attached response goes through the status check with the flag set. */
  lemma SendRedirectLimit(e: Exc)
    requires IsInstance(e.kind, Class.RequestsTooManyRedirects)
    ensures e.kind.RequestsTooManyRedirects?
    ensures SendSpec(Raised(e)) == StatusGate(e.kind.response, true)
  {
    FirstMatchIs(e.kind, SendClauses, 0);
  }

  /** An SSL failure is a certificate error exactly when its message names the verification failure. */
  lemma SendSslFailure(e: Exc)
    requires IsInstance(e.kind, Class.RequestsSSLError)
    ensures SendSpec(Raised(e)) == Failed(CertificateVerifyError(e)) <==> Contains(e.message, CertificateVerifyFailed)
    ensures !Contains(e.message, CertificateVerifyFailed) ==> SendSpec(Raised(e)) == Failed(SSLError(e))
  {
    FirstMatchIs(e.kind, SendClauses, 1);
  }

  /** A proxy failure, although also a connection error, becomes `ProxyError`. */
  lemma SendProxyFailure(e: Exc)
    requires IsInstance(e.kind, Class.RequestsProxyError)
    ensures IsInstance(e.kind, Class.RequestsConnectionError)
    ensures SendSpec(Raised(e)) == Failed(ProxyError(e))
  {
    FirstMatchIs(e.kind, SendClauses, 2);
  }

  /** Connection failures and timeouts that are neither SSL nor proxy failures become `TransportError`. */
  lemma SendConnectionFailure(e: Exc)
    requires IsInstance(e.kind, Class.RequestsConnectionError) || IsInstance(e.kind, Class.RequestsTimeout)
    requires !IsInstance(e.kind, Class.RequestsSSLError) && !IsInstance(e.kind, Class.RequestsProxyError)
    ensures SendSpec(Raised(e)) == Failed(TransportError(e))
  {
    FirstMatchIs(e.kind, SendClauses, 3);
  }

  /** A urllib3 error that reaches `_send` becomes `TransportError`, even when it is also a requests error. */
  lemma SendUrllib3Failure(e: Exc)
    requires IsInstance(e.kind, Class.Urllib3HTTPError)
    ensures SendSpec(Raised(e)) == Failed(TransportError(e))
  {
    FirstMatchIs(e.kind, SendClauses, 4);
  }

  /** Every other requests error becomes `RequestError`. */
  lemma SendOtherRequestsFailure(e: Exc)
    requires IsInstance(e.kind, Class.RequestsRequestException)
    requires !IsInstance(e.kind, Class.RequestsTooManyRedirects) && !IsInstance(e.kind, Class.RequestsConnectionError)
    requires !IsInstance(e.kind, Class.RequestsTimeout) && !IsInstance(e.kind, Class.Urllib3HTTPError)
    ensures SendSpec(Raised(e)) == Failed(RequestError(e))
  {
    FirstMatchIs(e.kind, SendClauses, 5);
  }

  /**
   * No requests or urllib3 exception escapes `_send`: exactly the others propagate,
   * unchanged, and every translated error keeps the original exception as its cause.
   */
  lemma SendTranslatesLibraryErrors(e: Exc)
    ensures SendSpec(Raised(e)).Propagated? <==>
              !IsInstance(e.kind, Class.RequestsRequestException) && !IsInstance(e.kind, Class.Urllib3HTTPError)
    ensures SendSpec(Raised(e)).Propagated? ==> SendSpec(Raised(e)).e == e
    ensures SendSpec(Raised(e)).Failed? && !SendSpec(Raised(e)).error.HTTPError? ==>
              SendSpec(Raised(e)).error.cause == e
  {
    var r := FirstMatch(e.kind, SendClauses);
    if r.None? {
      assert !Catches(SendClauses[4], e.kind) && !Catches(SendClauses[5], e.kind);
    }
  }

  /**
   * The status check: the library's response itself is returned exactly when the final status is 2xx; otherwise
   * `HTTPError` carries that response, with `redirectLoop` set exactly when the response came
   * from exceeding the redirect limit.
   */
  lemma SendStatusCheck(outcome: SessionOutcome)
    ensures outcome.Returned? ==>
              (SendSpec(outcome).Delivered? <==> 200 <= outcome.response.status < 300)
    ensures SendSpec(outcome).Delivered? ==> 200 <= SendSpec(outcome).response.status < 300
    ensures SendSpec(outcome).Delivered? ==>
              if outcome.Returned? then SendSpec(outcome).response == Adapt(outcome.response)
              else outcome.e.kind.RequestsTooManyRedirects? &&
                   SendSpec(outcome).response == Adapt(outcome.e.kind.response)
    ensures outcome.Returned? && !(200 <= outcome.response.status < 300) ==>
              SendSpec(outcome) == Failed(HTTPError(Adapt(outcome.response), false))
    ensures SendSpec(outcome).Failed? && SendSpec(outcome).error.HTTPError? ==>
              var err := SendSpec(outcome).error;
              !(200 <= err.response.status < 300) &&
              (err.redirectLoop <==> outcome.Raised? && IsInstance(outcome.e.kind, Class.RequestsTooManyRedirects)) &&
              err.response == Adapt(if err.redirectLoop then outcome.e.kind.response else outcome.response)
  {
    if outcome.Raised? {
      var r := FirstMatch(outcome.e.kind, SendClauses);
      if IsInstance(outcome.e.kind, Class.RequestsTooManyRedirects) {
        SendRedirectLimit(outcome.e);
      } else if r.Some? {
        assert r.value != 0;
      }
    }
  }

  // ---------------------------------------------------------------------------------------
  // The clauses as written

  /** With the rebound names, the SSL, proxy and urllib3 clauses can never catch a library exception. */
  lemma ShadowedClausesNeverMatch(k: Kind)
    ensures FirstMatch(k, SendClausesAsWritten) != Some(1)
    ensures FirstMatch(k, SendClausesAsWritten) != Some(2)
    ensures FirstMatch(k, SendClausesAsWritten) != Some(4)
  {
    NoBackendExceptionIsTaxonomy(k, Class.TaxonomySSLError);
    NoBackendExceptionIsTaxonomy(k, Class.TaxonomyProxyError);
    NoBackendExceptionIsTaxonomy(k, Class.TaxonomyHTTPError);
    assert !Catches(SendClausesAsWritten[1], k);
    assert !Catches(SendClausesAsWritten[2], k);
    assert !Catches(SendClausesAsWritten[4], k);
  }

  /**
   * As written, every SSL or proxy failure of requests is reported as a plain `TransportError`:
   * both are connection errors, and the clauses meant for them catch nothing.
   */
  lemma CertificateFailureAsWritten(e: Exc)
    requires IsInstance(e.kind, Class.RequestsSSLError) || IsInstance(e.kind, Class.RequestsProxyError)
    ensures SendAsWritten(Raised(e)) == Failed(TransportError(e))
  {
    FirstMatchIs(e.kind, SendClausesAsWritten, 3);
  }

  /** The certificate-verification failure: `TransportError` as written, `CertificateVerifyError` as meant. */
  lemma CertificateFailureExample()
    ensures var e := Exc(Kind.RequestsSSLError, "[SSL: " + CertificateVerifyFailed + "] certificate verify failed", None, None, []);
      SendAsWritten(Raised(e)) == Failed(TransportError(e)) &&
      SendSpec(Raised(e)) == Failed(CertificateVerifyError(e))
  {
    var e := Exc(Kind.RequestsSSLError, "[SSL: " + CertificateVerifyFailed + "] certificate verify failed", None, None, []);
    assert e.message[6..6 + |CertificateVerifyFailed|] == CertificateVerifyFailed;
    assert OccursAt(e.message, CertificateVerifyFailed, 6);
    CertificateFailureAsWritten(e);
    SendSslFailure(e);
  }

  /** As written, a urllib3 error that is not also a requests error propagates untranslated. */
  lemma Urllib3FailureAsWritten(e: Exc)
    requires IsInstance(e.kind, Class.Urllib3HTTPError) && !IsInstance(e.kind, Class.RequestsRequestException)
    ensures SendAsWritten(Raised(e)) == Propagated(e)
  {
    forall j | 0 <= j < |SendClausesAsWritten| ensures !Catches(SendClausesAsWritten[j], e.kind) {
      NoBackendExceptionIsTaxonomy(e.kind, Class.TaxonomyHTTPError);
    }
  }

  /** A urllib3 protocol error: propagated as written, `TransportError` as meant. */
  lemma Urllib3FailureExample()
    ensures var e := Exc(Kind.Urllib3ProtocolError, "Connection aborted.", None, None, []);
      SendAsWritten(Raised(e)) == Propagated(e) && SendSpec(Raised(e)) == Failed(TransportError(e))
  {
    var e := Exc(Kind.Urllib3ProtocolError, "Connection aborted.", None, None, []);
    Urllib3FailureAsWritten(e);
    SendUrllib3Failure(e);
  }

  /** Outside SSL, proxy and urllib3 errors the two bindings agree. */
  lemma AsWrittenAgreesElsewhere(outcome: SessionOutcome)
    requires outcome.Raised? ==>
               !IsInstance(outcome.e.kind, Class.RequestsSSLError) &&
               !IsInstance(outcome.e.kind, Class.RequestsProxyError) &&
               !IsInstance(outcome.e.kind, Class.Urllib3HTTPError)
    ensures SendAsWritten(outcome) == SendSpec(outcome)
  {
    if outcome.Raised? {
      var k := outcome.e.kind;
      forall j | 0 <= j < 6
        ensures Catches(SendClausesAsWritten[j], k) == Catches(SendClauses[j], k)
      {
      }
      var a, b := FirstMatch(k, SendClausesAsWritten), FirstMatch(k, SendClauses);
      assert a == b;
    }
  }
}
