/**
 * The error record: the classification of a PHP error (type and syslog level),
 * its code, message, file and line, and its properties in declaration order.
 */
module HttpError {
  import opened Wrappers
  import opened PhpArrays

  /** The error types the handler distinguishes. */
  datatype ErrorType = Fatal | Warning | Notice | Strict | Deprecated
  {
    /** The name written to the log. */
    function Name(): string
    {
      match this
      case Fatal => "FATAL"
      case Warning => "WARNING"
      case Notice => "NOTICE"
      case Strict => "STRICT"
      case Deprecated => "DEPRECATED"
    }
  }

  /** The syslog levels used: LOG_ERR, LOG_WARNING and LOG_NOTICE. */
  datatype LogLevel = LogErr | LogWarning | LogNotice
  {
    /** The numeric severity of section 6.2.1 of RFC 5424: error 3, warning 4, notice 5. */
    function Severity(): int
    {
      match this
      case LogErr => 3
      case LogWarning => 4
      case LogNotice => 5
    }
  }

  /** The declared properties, in declaration order. */
  const ErrorFields: seq<string> := ["error_type", "log_level", "error_code", "description", "file", "line"]

  /**
   * new Error(...): the six arguments, stored unchanged. Type and level are absent
   * (null) for a code the handler does not classify; file and line may be null.
   */
  datatype Error = Error(
    errorType: Option<ErrorType>,
    logLevel: Option<LogLevel>,
    errorCode: int,
    description: string,
    file: Option<string>,
    line: Option<int>)
  {
    /** `$this->$name`; anything else reads as null. */
    function Field(name: string): Value
    {
      if name == "error_type" then (if errorType.Some? then Str(errorType.value.Name()) else Null)
      else if name == "log_level" then (if logLevel.Some? then Int(logLevel.value.Severity()) else Null)
      else if name == "error_code" then Int(errorCode)
      else if name == "description" then Str(description)
      else if name == "file" then (if file.Some? then Str(file.value) else Null)
      else if name == "line" then (if line.Some? then Int(line.value) else Null)
      else Null
    }
  }

  /** What get_properties() returns: every declared property mapped to its value. */
  function Properties(e: Error): Dict<Value>
  {
    Project(ErrorFields, n => e.Field(n))
  }

  /** get_properties(): a loop over the declared properties filling the array. */
  method GetProperties(e: Error) returns (props: Dict<Value>)
    ensures props == Properties(e)
  {
    props := [];
    for i := 0 to |ErrorFields|
      invariant props == Project(ErrorFields[..i], n => e.Field(n))
    {
      var p := ErrorFields[i];
      props := Put(props, p, e.Field(p));
      assert ErrorFields[..i + 1][..i] == ErrorFields[..i];
    }
    assert ErrorFields[..|ErrorFields|] == ErrorFields;
  }

  /**
   * The properties are exactly the six declared names, in declaration order, each
   * holding the corresponding constructor argument.
   */
  lemma PropertiesInOrder(e: Error)
    ensures KeysOf(Properties(e)) == ErrorFields
    ensures ValuesOf(Properties(e)) ==
      [ if e.errorType.Some? then Str(e.errorType.value.Name()) else Null,
        if e.logLevel.Some? then Int(e.logLevel.value.Severity()) else Null,
        Int(e.errorCode),
        Str(e.description),
        if e.file.Some? then Str(e.file.value) else Null,
        if e.line.Some? then Int(e.line.value) else Null ]
  {
    ProjectDistinct(ErrorFields, n => e.Field(n));
  }

  /** Distinct errors have distinct property arrays: nothing is lost in the conversion. */
  lemma PropertiesInjective(e: Error, e': Error)
    requires Properties(e) == Properties(e')
    ensures e == e'
  {
    PropertiesInOrder(e);
    PropertiesInOrder(e');
    assert ValuesOf(Properties(e)) == ValuesOf(Properties(e'));
    assert e.errorType == e'.errorType by {
      if e.errorType.Some? && e'.errorType.Some? {
        assert e.errorType.value.Name() == e'.errorType.value.Name();
      }
    }
    assert e.logLevel == e'.logLevel by {
      if e.logLevel.Some? && e'.logLevel.Some? {
        assert e.logLevel.value.Severity() == e'.logLevel.value.Severity();
      }
    }
    assert ValuesOf(Properties(e))[4] == ValuesOf(Properties(e'))[4];
    assert ValuesOf(Properties(e))[5] == ValuesOf(Properties(e'))[5];
  }
}
