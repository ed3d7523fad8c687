/**
 * `Urllib3LoggingHandler.emit`: each urllib3 log record is formatted and passed to the
 * handler's logger, at error level for records at ERROR or above and at info level otherwise;
 * a failure while formatting or logging goes to the logging module's `handleError`.
 */
module LogRouting {
  import opened Wrappers

  // The standard `logging` level numbers.
  const Debug := 10
  const Info := 20
  const Warning := 30
  const Error := 40
  const Critical := 50

  datatype LogCall = ErrorCall(msg: string) | InfoCall(msg: string) | HandleError

  /**
   * `emit` for a record of level `levelno`; `formatted` is the formatted message, `None` when
   * formatting raised, and `sinkRaises` says whether the logger call raised.
   */
  function Emit(levelno: int, formatted: Option<string>, sinkRaises: bool): LogCall
  {
    match formatted
    case None => HandleError
    case Some(msg) =>
      if sinkRaises then HandleError
      else if levelno >= Error then ErrorCall(msg)
      else InfoCall(msg)
  }

  /**
   * A formatted record reaches exactly one of the two logger calls, unchanged: the error call
   * exactly when its level is ERROR or above; any failure is handed to `handleError`.
   */
  lemma EmitRoutesByLevel(levelno: int, formatted: Option<string>, sinkRaises: bool)
    ensures Emit(levelno, formatted, sinkRaises) == HandleError <==> formatted.None? || sinkRaises
    ensures Emit(levelno, formatted, sinkRaises).ErrorCall? <==> formatted.Some? && !sinkRaises && levelno >= Error
    ensures Emit(levelno, formatted, sinkRaises).InfoCall? <==> formatted.Some? && !sinkRaises && levelno < Error
    ensures !Emit(levelno, formatted, sinkRaises).HandleError? ==> Emit(levelno, formatted, sinkRaises).msg == formatted.value
  {
  }

  /** Warnings and below go to info; errors and critical records go to error. */
  lemma StandardLevels(msg: string)
    ensures Emit(Debug, Some(msg), false) == InfoCall(msg) && Emit(Info, Some(msg), false) == InfoCall(msg)
    ensures Emit(Warning, Some(msg), false) == InfoCall(msg)
    ensures Emit(Error, Some(msg), false) == ErrorCall(msg) && Emit(Critical, Some(msg), false) == ErrorCall(msg)
  {
  }
}
