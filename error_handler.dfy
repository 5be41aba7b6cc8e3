/**
 * The error handler: the classification of PHP error codes, the handler that
 * buffers every error and reports the fatal ones, the shutdown handler for
 * fatal errors the ordinary handler never sees, and the fatal path itself
 * (status 500, one log call, then the error as JSON, and a halt unless the
 * default error log is in use).
 */
module Errors {
  import opened Wrappers
  import opened PhpArrays
  import opened HttpError
  import opened Loggers

  const E_ERROR: int := 1
  const E_WARNING: int := 2
  const E_PARSE: int := 4
  const E_NOTICE: int := 8
  const E_CORE_ERROR: int := 16
  const E_CORE_WARNING: int := 32
  const E_COMPILE_ERROR: int := 64
  const E_COMPILE_WARNING: int := 128
  const E_USER_ERROR: int := 256
  const E_USER_WARNING: int := 512
  const E_USER_NOTICE: int := 1024
  const E_STRICT: int := 2048
  const E_RECOVERABLE_ERROR: int := 4096
  const E_DEPRECATED: int := 8192
  const E_USER_DEPRECATED: int := 16384

  /** The header output_fatal_error() sends when it echoes JSON. */
  const JsonHeader: string := "Content-Type: application/json"

  /** map_error(): the type and syslog level of an error code; none for a code the switch does not list. */
  function MapError(code: int): (r: Option<(ErrorType, LogLevel)>)
    ensures r == Some((Fatal, LogErr)) <==> code in {E_PARSE, E_ERROR, E_CORE_ERROR, E_COMPILE_ERROR, E_USER_ERROR}
    ensures r == Some((Warning, LogWarning)) <==> code in {E_WARNING, E_USER_WARNING, E_COMPILE_WARNING, E_RECOVERABLE_ERROR}
    ensures r == Some((Notice, LogNotice)) <==> code in {E_NOTICE, E_USER_NOTICE}
    ensures r == Some((Strict, LogNotice)) <==> code == E_STRICT
    ensures r == Some((Deprecated, LogNotice)) <==> code in {E_DEPRECATED, E_USER_DEPRECATED}
  {
    if code == E_PARSE || code == E_ERROR || code == E_CORE_ERROR || code == E_COMPILE_ERROR || code == E_USER_ERROR then
      Some((Fatal, LogErr))
    else if code == E_WARNING || code == E_USER_WARNING || code == E_COMPILE_WARNING || code == E_RECOVERABLE_ERROR then
      Some((Warning, LogWarning))
    else if code == E_NOTICE || code == E_USER_NOTICE then
      Some((Notice, LogNotice))
    else if code == E_STRICT then
      Some((Strict, LogNotice))
    else if code == E_DEPRECATED || code == E_USER_DEPRECATED then
      Some((Deprecated, LogNotice))
    else
      None
  }

  /**
   * Codes outside the fourteen listed, E_CORE_WARNING among them, get no
   * classification; and the level is LOG_ERR exactly for fatal errors.
   */
  lemma MapErrorRest(code: int)
    ensures MapError(code).None? <==>
      code !in {E_ERROR, E_WARNING, E_PARSE, E_NOTICE, E_CORE_ERROR, E_COMPILE_ERROR, E_COMPILE_WARNING,
                E_USER_ERROR, E_USER_WARNING, E_USER_NOTICE, E_STRICT, E_RECOVERABLE_ERROR, E_DEPRECATED,
                E_USER_DEPRECATED}
    ensures MapError(E_CORE_WARNING) == None
    ensures MapError(code).Some? ==> (MapError(code).value.1 == LogErr <==> MapError(code).value.0 == Fatal)
  {
  }

  /** A code the handler treats as fatal. */
  predicate IsFatal(code: int)
  {
    MapError(code).Some? && MapError(code).value.0 == Fatal
  }

  /** The Error handle_error() builds: the mapped type and level (null when unmapped) and its four arguments. */
  function HandlerError(code: int, description: string, file: Option<string>, line: Option<int>): (e: Error)
    ensures e.errorCode == code && e.description == description && e.file == file && e.line == line
    ensures e.errorType.Some? <==> MapError(code).Some?
    ensures e.errorType == Some(Fatal) <==> IsFatal(code)
  {
    var m := MapError(code);
    Error(if m.Some? then Some(m.value.0) else None, if m.Some? then Some(m.value.1) else None,
          code, description, file, line)
  }

  /** The stored "error_type" reads "FATAL" exactly for a fatal error. */
  lemma FatalTest(e: Error)
    ensures Get(Properties(e), "error_type") == Some(Str("FATAL")) <==> e.errorType == Some(Fatal)
  {
    ProjectGet(ErrorFields, n => e.Field(n), "error_type");
  }

  /** error_get_last(): the type, message, file and line of the last error. */
  datatype LastError = LastError(errorType: int, message: string, file: string, line: int)

  /** The codes the shutdown handler reports: E_USER_ERROR is not among them. */
  const ShutdownCodes: seq<int> := [E_ERROR, E_PARSE, E_CORE_ERROR, E_COMPILE_ERROR]

  /** How a handler call ends: it returns, die() ends the script, or an exception escapes from log(). */
  datatype Stop = Continue | Die | Throw

  /** What output_fatal_error() ends with, given whether its log() call completed. */
  function FatalStop(completed: bool, defaultLog: bool): Stop
  {
    if !completed then Throw else if defaultLog then Continue else Die
  }

  /**
   * output_fatal_error(): status 500, the JSON content-type header (when echoing
   * JSON), one log() call that therefore sees both, then the error as JSON,
   * echoed when the default log is in use and passed to die() otherwise.
   */
  method OutputFatalError(logger: FileLogger, error: Dict<Value>, echoAsJson: bool, date: string)
    returns (stop: Stop, echoed: string)
    requires logger.Valid()
    modifies logger`responseCode, logger`headerLines, logger`errors, logger`written, logger.cache
    ensures logger.Valid()
    ensures logger.responseCode == Int(500)
    ensures logger.headerLines == old(logger.headerLines) + if echoAsJson then [JsonHeader] else []
    ensures var st := old(logger.State()).(code := Int(500), headerLines := logger.headerLines);
      && logger.written == old(logger.written) + LogWrites(logger.logFilter, logger.facts, st, date)
      && logger.cache.body == MemoAfterLog(logger.logFilter, logger.facts, st)
    ensures logger.errors == ErrorsAfterLog(logger.logFilter, old(logger.errors), date)
    ensures var completed := LogCompletes(logger.logFilter, old(logger.errors));
      && stop == FatalStop(completed, logger.defaultLog)
      && echoed == if completed then logger.facts.json.encode(Arr(error)) else ""
  {
    logger.responseCode := Int(500);
    if echoAsJson {
      logger.headerLines := logger.headerLines + [JsonHeader];
    }
    var completed := logger.Log(date);
    if !completed {
      return Throw, "";
    }
    echoed := logger.facts.json.encode(Arr(error));
    stop := if logger.defaultLog then Continue else Die;
  }

  /**
   * handle_error(): the error is appended to the buffer first; a fatal one then
   * goes through the fatal path, whose log call sees it. The handler returns
   * false exactly when the default log is in use.
   */
  method HandleError(logger: FileLogger, code: int, description: string, file: Option<string>, line: Option<int>, date: string)
    returns (stop: Stop, handled: bool, echoed: string)
    requires logger.Valid()
    modifies logger`responseCode, logger`headerLines, logger`errors, logger`written, logger.cache
    ensures logger.Valid()
    ensures handled == !logger.defaultLog
    ensures var stored := old(logger.errors) + [Arr(Properties(HandlerError(code, description, file, line)))];
      if IsFatal(code) then
        var st := Snapshot(stored, old(logger.cache.body), Int(500), old(logger.headerLines) + [JsonHeader]);
        && logger.responseCode == Int(500)
        && logger.headerLines == st.headerLines
        && logger.written == old(logger.written) + LogWrites(logger.logFilter, logger.facts, st, date)
        && logger.errors == ErrorsAfterLog(logger.logFilter, stored, date)
        && logger.cache.body == MemoAfterLog(logger.logFilter, logger.facts, st)
        && stop == FatalStop(LogCompletes(logger.logFilter, stored), logger.defaultLog)
        && echoed == (if LogCompletes(logger.logFilter, stored)
                      then logger.facts.json.encode(Arr(Properties(HandlerError(code, description, file, line)))) else "")
      else
        && logger.errors == stored
        && logger.written == old(logger.written)
        && logger.responseCode == old(logger.responseCode)
        && logger.headerLines == old(logger.headerLines)
        && logger.cache.body == old(logger.cache.body)
        && stop == Continue && echoed == ""
  {
    var e := HandlerError(code, description, file, line);
    var data := GetProperties(e);
    logger.StoreError(data);
    stop, echoed := Continue, "";
    FatalTest(e);
    if Get(data, "error_type") == Some(Str("FATAL")) {
      stop, echoed := OutputFatalError(logger, data, true, date);
    }
    handled := !logger.defaultLog;
  }

  /**
   * handle_fatal_errors(): when the last error is one of the four engine-fatal
   * codes, it is stored as a FATAL error at LOG_ERR and goes through the fatal
   * path; otherwise nothing happens.
   */
  method HandleFatalErrors(logger: FileLogger, last: Option<LastError>, date: string)
    returns (stop: Stop, echoed: string)
    requires logger.Valid()
    modifies logger`responseCode, logger`headerLines, logger`errors, logger`written, logger.cache
    ensures logger.Valid()
    ensures if last.Some? && last.value.errorType in ShutdownCodes then
        var l := last.value;
        var e := Error(Some(Fatal), Some(LogErr), l.errorType, l.message, Some(l.file), Some(l.line));
        var stored := old(logger.errors) + [Arr(Properties(e))];
        var st := Snapshot(stored, old(logger.cache.body), Int(500), old(logger.headerLines) + [JsonHeader]);
        && logger.responseCode == Int(500)
        && logger.headerLines == st.headerLines
        && logger.written == old(logger.written) + LogWrites(logger.logFilter, logger.facts, st, date)
        && logger.errors == ErrorsAfterLog(logger.logFilter, stored, date)
        && logger.cache.body == MemoAfterLog(logger.logFilter, logger.facts, st)
        && stop == FatalStop(LogCompletes(logger.logFilter, stored), logger.defaultLog)
        && echoed == (if LogCompletes(logger.logFilter, stored) then logger.facts.json.encode(Arr(Properties(e))) else "")
      else
        && logger.errors == old(logger.errors)
        && logger.written == old(logger.written)
        && logger.responseCode == old(logger.responseCode)
        && logger.headerLines == old(logger.headerLines)
        && logger.cache.body == old(logger.cache.body)
        && stop == Continue && echoed == ""
  {
    stop, echoed := Continue, "";
    if last.Some? && last.value.errorType in ShutdownCodes {
      var l := last.value;
      var e := Error(Some(Fatal), Some(LogErr), l.errorType, l.message, Some(l.file), Some(l.line));
      var data := GetProperties(e);
      logger.StoreError(data);
      var data' := GetProperties(e);
      stop, echoed := OutputFatalError(logger, data', true, date);
    }
  }

  /**
   * Every code the shutdown handler reports is one map_error() calls fatal, but
   * E_USER_ERROR, fatal for map_error(), is left to handle_error().
   */
  lemma ShutdownCodesFatal(code: int)
    ensures code in ShutdownCodes ==> IsFatal(code)
    ensures IsFatal(E_USER_ERROR) && E_USER_ERROR !in ShutdownCodes
  {
  }

  /**
   * On the fatal path the record logged under a filter that asks for "code"
   * holds 500, the status set just before log() is called.
   */
  lemma FatalRecordCode(names: seq<string>, facts: Facts, st: Snapshot, date: string)
    requires "code" in names
    requires st.code == Int(500)
    ensures Get(ArrayMerge(RequestRecord(names, facts, st.memo, date), ResponseRecord(names, facts, st.code, st.headerLines)), "code")
            == Some(Int(500))
  {
    RecordCode(names, facts, st, date);
  }
}
