/**
 * `RequestsResponseAdapter.read`: reading the body through urllib3 either yields bytes or
 * raises; urllib3's exceptions are translated into the handler's errors, anything else
 * propagates unchanged.
 */
module ResponseRead {
  import opened Wrappers
  import opened Search
  import opened BackendErrors
  import opened Networking

  /** What urllib3's `read(amt, decode_content=True)` did. */
  datatype ReadOutcome = Chunk(data: seq<bv8>) | ReadRaised(e: Exc)

  /** What the adapter's `read` does: return the bytes, raise a handler error, or let `e` propagate. */
  datatype ReadResult = Data(data: seq<bv8>) | ReadFailed(error: NetError) | ReadEscaped(e: Exc)

  /** The `except` clauses of `read`, in order. */
  const ReadClauses: seq<set<Class>> :=
    [{Class.Urllib3SSLError}, {Class.Urllib3ProtocolError}, {Class.Urllib3HTTPError}]

  function AsValue(o: Option<Exc>): Value
  {
    match o
    case None => NoneValue
    case Some(e) => ExcValue(e)
  }

  /** The objects searched for an incomplete read, in order: the context, the cause, then each argument. */
  function Candidates(e: Exc): seq<Value>
  {
    [AsValue(e.context), AsValue(e.cause)] + e.args
  }

  predicate IsIncompleteReadRecord(v: Value)
  {
    v.ExcValue? && IsInstance(v.e.kind, Class.HttpClientIncompleteRead)
  }

  /** The position of the first incomplete-read record among `vs`, as `next(...)` finds it. */
  function FirstIncompleteRead(vs: seq<Value>): Option<nat>
  {
    FirstIndex(vs, IsIncompleteReadRecord)
  }

  /** The `partial` reported: the value itself when it is an int, otherwise the number of bytes received. */
  function NormalizedPartial(p: Partial): int
  {
    match p
    case PartialCount(n) => n
    case PartialBytes(bytes) => |bytes|
  }

  /** The translation of a urllib3 protocol error `e`. */
  function ProtocolErrorTranslation(e: Exc): NetError
  {
    var candidates := Candidates(e);
    match FirstIncompleteRead(candidates)
    case Some(i) =>
      var record := candidates[i].e.kind;
      IncompleteRead(NormalizedPartial(record.partial), record.expected, e)
    case None => TransportError(e)
  }

  function Read(outcome: ReadOutcome): ReadResult
  {
    match outcome
    case Chunk(data) => Data(data)
    case ReadRaised(e) =>
      match FirstMatch(e.kind, ReadClauses)
      case Some(0) => ReadFailed(SSLError(e))
      case Some(1) => ReadFailed(ProtocolErrorTranslation(e))
      case Some(_) => ReadFailed(TransportError(e))
      case None => ReadEscaped(e)
  }

  /** Data read without error is returned as it is. */
  lemma ReadReturnsData(data: seq<bv8>)
    ensures Read(Chunk(data)) == Data(data)
  {
  }

  /** A urllib3 SSL error raised while reading becomes `SSLError` with the original as its cause. */
  lemma ReadSslError(e: Exc)
    requires IsInstance(e.kind, Class.Urllib3SSLError)
    ensures Read(ReadRaised(e)) == ReadFailed(SSLError(e))
  {
    FirstMatchIs(e.kind, ReadClauses, 0);
  }

  /**
   * A protocol error becomes `IncompleteRead` exactly when an incomplete-read record is among
   * its context, cause and arguments, and `TransportError` otherwise.
   */
  lemma ReadProtocolError(e: Exc)
    requires IsInstance(e.kind, Class.Urllib3ProtocolError)
    ensures Read(ReadRaised(e)).ReadFailed?
    ensures Read(ReadRaised(e)).error.IncompleteRead? <==> exists v :: v in Candidates(e) && IsIncompleteReadRecord(v)
    ensures !(exists v :: v in Candidates(e) && IsIncompleteReadRecord(v)) ==>
              Read(ReadRaised(e)) == ReadFailed(TransportError(e))
  {
    assert !Catches(ReadClauses[0], e.kind);
    FirstMatchIs(e.kind, ReadClauses, 1);
    var candidates := Candidates(e);
    if exists v :: v in candidates && IsIncompleteReadRecord(v) {
      var v :| v in candidates && IsIncompleteReadRecord(v);
      var j :| 0 <= j < |candidates| && candidates[j] == v;
      assert FirstIncompleteRead(candidates).Some?;
    }
  }

  /**
   * The first record found, in the order context, cause, arguments, supplies `expected` and
   * `partial`, the latter normalised to an integer.
   */
  lemma ReadIncompleteRead(e: Exc, i: nat)
    requires IsInstance(e.kind, Class.Urllib3ProtocolError)
    requires i < |Candidates(e)| && IsIncompleteReadRecord(Candidates(e)[i])
    requires forall j :: 0 <= j < i ==> !IsIncompleteReadRecord(Candidates(e)[j])
    ensures var record := Candidates(e)[i].e.kind;
      Read(ReadRaised(e)) == ReadFailed(IncompleteRead(
        if record.partial.PartialCount? then record.partial.n else |record.partial.bytes|,
        record.expected, e))
  {
    assert !Catches(ReadClauses[0], e.kind);
    FirstMatchIs(e.kind, ReadClauses, 1);
    var r := FirstIncompleteRead(Candidates(e));
    assert r.Some? && r.value == i;
  }

  /** Any other urllib3 error raised while reading becomes `TransportError`. */
  lemma ReadOtherUrllib3Error(e: Exc)
    requires IsInstance(e.kind, Class.Urllib3HTTPError)
    requires !IsInstance(e.kind, Class.Urllib3SSLError) && !IsInstance(e.kind, Class.Urllib3ProtocolError)
    ensures Read(ReadRaised(e)) == ReadFailed(TransportError(e))
  {
    FirstMatchIs(e.kind, ReadClauses, 2);
  }

  /**
   * No urllib3 exception escapes `read`; exactly the exceptions that are not urllib3 errors
   * propagate, unchanged. Every translated error keeps the original exception as its cause.
   */
  lemma ReadTranslatesUrllib3Errors(e: Exc)
    ensures Read(ReadRaised(e)).ReadEscaped? <==> !IsInstance(e.kind, Class.Urllib3HTTPError)
    ensures Read(ReadRaised(e)).ReadEscaped? ==> Read(ReadRaised(e)).e == e
    ensures Read(ReadRaised(e)).ReadFailed? ==> Read(ReadRaised(e)).error.cause == e
  {
    var r := FirstMatch(e.kind, ReadClauses);
    if r.None? {
      assert !Catches(ReadClauses[2], e.kind);
    }
  }
}
