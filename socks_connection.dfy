/**
 * `SocksHTTPConnection._new_conn`: opening the tunnelled socket either succeeds or raises;
 * a timeout, a SOCKS rejection and any other OS-level failure are re-raised as three
 * urllib3 exceptions, each chained to the original, and anything else propagates unchanged.
 */
module SocksConnection {
  import opened Wrappers
  import opened BackendErrors

  /** The connection's origin and the connect timeout as its error message prints it. */
  datatype Connection = Connection(host: string, port: int, timeoutText: string)

  /** What opening the socket through the SOCKS proxy did. */
  datatype ConnectOutcome = Connected(socket: nat) | ConnectRaised(e: Exc)

  /** What `_new_conn` does: return the socket or raise. */
  datatype ConnectResult = Socket(socket: nat) | ConnectFailed(e: Exc)

  /** The three `except` clauses, in order. */
  const NewConnClauses: seq<set<Class>> := [{Class.TimeoutError}, {Class.SocksProxyError}, {Class.OSError}]

  /** A urllib3 exception raised `from e` inside the handler of `e`: `e` is both its cause and its context. */
  function Chained(kind: Kind, message: string, args: seq<Value>, e: Exc): Exc
  {
    Exc(kind, message, Some(e), Some(e), args)
  }

  function TimeoutMessage(conn: Connection): string
  {
    "Connection to " + conn.host + " timed out. (connect timeout=" + conn.timeoutText + ")"
  }

  function NewConn(conn: Connection, outcome: ConnectOutcome): ConnectResult
  {
    match outcome
    case Connected(socket) => Socket(socket)
    case ConnectRaised(e) =>
      match FirstMatch(e.kind, NewConnClauses)
      case Some(0) =>
        ConnectFailed(Chained(Kind.Urllib3ConnectTimeoutError, TimeoutMessage(conn),
                              [Object("connection"), Text(TimeoutMessage(conn))], e))
      case Some(1) =>
        ConnectFailed(Chained(Kind.Urllib3ProxyError, e.message, [Text(e.message), ExcValue(e)], e))
      case Some(_) =>
        var message := "Failed to establish a new connection: " + e.message;
        ConnectFailed(Chained(Kind.Urllib3NewConnectionError, message, [Object("connection"), Text(message)], e))
      case None => ConnectFailed(e)
  }

  /** A timeout becomes urllib3's `ConnectTimeoutError` naming the origin host. */
  lemma SocksTimeout(conn: Connection, e: Exc)
    requires IsInstance(e.kind, Class.TimeoutError)
    ensures var r := NewConn(conn, ConnectRaised(e));
      r.ConnectFailed? && r.e.kind == Kind.Urllib3ConnectTimeoutError && r.e.cause == Some(e) &&
      OccursAt(r.e.message, conn.host, |"Connection to "|)
  {
    FirstMatchIs(e.kind, NewConnClauses, 0);
    var m := TimeoutMessage(conn);
    assert m[|"Connection to "|..|"Connection to "| + |conn.host|] == conn.host;
  }

  /** A SOCKS rejection, although an OS error, becomes urllib3's `ProxyError`, whose arguments hold the original. */
  lemma SocksRejection(conn: Connection, e: Exc)
    requires IsInstance(e.kind, Class.SocksProxyError)
    ensures IsInstance(e.kind, Class.OSError)
    ensures NewConn(conn, ConnectRaised(e)) ==
              ConnectFailed(Exc(Kind.Urllib3ProxyError, e.message, Some(e), Some(e), [Text(e.message), ExcValue(e)]))
  {
    FirstMatchIs(e.kind, NewConnClauses, 1);
  }

  /** Any other OS-level failure becomes urllib3's `NewConnectionError`, whose message ends with the original's. */
  lemma SocksOsFailure(conn: Connection, e: Exc)
    requires IsInstance(e.kind, Class.OSError)
    requires !IsInstance(e.kind, Class.TimeoutError) && !IsInstance(e.kind, Class.SocksProxyError)
    ensures var r := NewConn(conn, ConnectRaised(e));
      r.ConnectFailed? && r.e.kind == Kind.Urllib3NewConnectionError && r.e.cause == Some(e) &&
      OccursAt(r.e.message, e.message, |r.e.message| - |e.message|)
  {
    FirstMatchIs(e.kind, NewConnClauses, 2);
  }

  /**
   * The three translations produce three different urllib3 exceptions, each chained to the
   * original and each an instance of urllib3's base error; exactly the non-OS errors propagate as they are.
   */
  lemma SocksFailuresAreUrllib3Errors(conn: Connection, e: Exc)
    ensures var r := NewConn(conn, ConnectRaised(e));
      r.ConnectFailed? &&
      (r.e == e <==> !IsInstance(e.kind, Class.OSError)) &&
      (r.e != e ==> IsInstance(r.e.kind, Class.Urllib3HTTPError) && r.e.cause == Some(e) && r.e.context == Some(e)) &&
      (r.e != e ==> (r.e.kind == Kind.Urllib3ConnectTimeoutError <==> IsInstance(e.kind, Class.TimeoutError))) &&
      (r.e != e ==> (r.e.kind == Kind.Urllib3ProxyError <==> IsInstance(e.kind, Class.SocksProxyError)))
  {
    var m := FirstMatch(e.kind, NewConnClauses);
    if m.None? {
      assert !Catches(NewConnClauses[2], e.kind);
    } else {
      assert Catches(NewConnClauses[m.value], e.kind);
    }
  }

  /** A socket that was opened is returned as it is. */
  lemma SocksConnected(conn: Connection, socket: nat)
    ensures NewConn(conn, Connected(socket)) == Socket(socket)
  {
  }
}
