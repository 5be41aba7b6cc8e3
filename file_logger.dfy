/**
 * The file logger and the logging session it stands for: the filter, the error
 * buffer, the default-log switch, the response status and headers, and the log
 * file as the sequence of chunks appended to it. A call of `Log` either writes
 * one tab-separated record of the request and response (with the JSON of the
 * buffered errors at the end), or, under the "error" filter, one line per
 * buffered error.
 */
module Loggers {
  import opened Wrappers
  import opened PhpStrings
  import opened PhpArrays
  import opened ParameterFilter
  import HttpRequest
  import HttpResponse
  import HttpError

  /** The filter that selects error-only logging. */
  const ErrorFilter: string := "error"

  /** json_encode and json_decode, which are not part of this model. */
  datatype Json = Json(encode: Value -> string, decode: string -> Value)

  /** What the running script provides and the logger only reads. */
  datatype Facts = Facts(request: HttpRequest.RequestEnv, output: string, json: Json)

  /** The session state a log call depends on, besides the filter and the facts. */
  datatype Snapshot = Snapshot(errors: seq<Value>, memo: Option<string>, code: Value, headerLines: seq<string>)

  /** A name the Response answers for: one of its properties. */
  predicate IsResponseName(n: string)
  {
    n in HttpResponse.ResponseFields
  }

  /** A name handed to the Request: every name that is no response property. */
  predicate IsRequestName(n: string)
  {
    !IsResponseName(n)
  }

  /** The filter names satisfying `keep`, in filter order. */
  function NamesWhere(filters: seq<string>, keep: string -> bool): seq<string>
  {
    if |filters| == 0 then []
    else
      var init := filters[..|filters| - 1];
      var last := filters[|filters| - 1];
      if keep(last) then NamesWhere(init, keep) + [last] else NamesWhere(init, keep)
  }

  /** The filter names that go to the Request: those that are not response properties, in order. */
  function RequestNames(filters: seq<string>): seq<string>
  {
    NamesWhere(filters, IsRequestName)
  }

  /** The filter names that go to the Response: the response properties, in order. */
  function ResponseNames(filters: seq<string>): seq<string>
  {
    NamesWhere(filters, IsResponseName)
  }

  /** `$request->$name` for a Request built with the names `rn` in a log call. */
  function RequestValue(facts: Facts, memo: Option<string>, date: string, rn: seq<string>): string -> Value
  {
    n => HttpRequest.Captured(facts.request, date, memo, facts.json.decode, rn, n)
  }

  /** `$response->$name` for a Response built with the names `sn` in a log call. */
  function ResponseValue(facts: Facts, code: Value, headerLines: seq<string>, sn: seq<string>): string -> Value
  {
    n => HttpResponse.Captured(code, facts.output, headerLines, facts.json.decode, sn, n)
  }

  /** The request's get_properties() in a log call. */
  function RequestRecord(names: seq<string>, facts: Facts, memo: Option<string>, date: string): Dict<Value>
  {
    Project(RequestNames(names), RequestValue(facts, memo, date, RequestNames(names)))
  }

  /** The response's get_properties() in a log call. */
  function ResponseRecord(names: seq<string>, facts: Facts, code: Value, headerLines: seq<string>): Dict<Value>
  {
    Project(ResponseNames(names), ResponseValue(facts, code, headerLines, ResponseNames(names)))
  }

  /**
   * The values of a normal record: array_merge of the request and response
   * properties, then the JSON of the error buffer when it is not empty.
   */
  function NormalRecord(names: seq<string>, facts: Facts, st: Snapshot, date: string): seq<Value>
  {
    ValuesOf(ArrayMerge(RequestRecord(names, facts, st.memo, date), ResponseRecord(names, facts, st.code, st.headerLines)))
    + (if |st.errors| > 0 then [Str(facts.json.encode(List(st.errors)))] else [])
  }

  /** How format_output() writes one value: arrays as JSON, anything else as implode converts it. */
  function Render(v: Value, encode: Value -> string): string
  {
    if IsArray(v) then encode(v) else ScalarText(v)
  }

  function RenderAll(log: seq<Value>, encode: Value -> string): (r: seq<string>)
    ensures |r| == |log|
  {
    seq(|log|, i requires 0 <= i < |log| => Render(log[i], encode))
  }

  /** The line format_output() makes of a record. */
  function FormatLine(log: seq<Value>, encode: Value -> string): string
  {
    Join(RenderAll(log, encode), '\t')
  }

  /** implode("\t", ...) over values. */
  function Texts(values: seq<Value>): (r: seq<string>)
    ensures |r| == |values|
  {
    seq(|values|, i requires 0 <= i < |values| => ScalarText(values[i]))
  }

  /** The line log_errors() makes of one buffered error: the date, then its values, tab-joined, newlines as spaces. */
  function ErrorLine(date: string, entry: Value): (r: string)
    requires entry.Arr?
    ensures '\n' !in r
  {
    var merged := ArrayMerge([("date", Str(date))], entry.entries);
    var line := Join(Texts(ValuesOf(merged)), '\t');
    ReplaceAllAbsent(line, '\n', " ", '\n');
    ReplaceAll(line, '\n', " ")
  }

  /**
   * How many leading buffer entries are arrays. log_errors() stops at the first
   * entry that is not (one it already turned into a line), where array_merge
   * throws.
   */
  function ArrayPrefix(errors: seq<Value>): (k: nat)
    ensures k <= |errors|
    ensures forall j :: 0 <= j < k ==> errors[j].Arr?
    ensures k < |errors| ==> !errors[k].Arr?
  {
    if |errors| == 0 || !errors[0].Arr? then 0 else 1 + ArrayPrefix(errors[1..])
  }

  /** The lines of the first `k` buffered errors, each with its newline. */
  function ErrorLines(errors: seq<Value>, date: string, k: nat): (r: seq<string>)
    requires k <= ArrayPrefix(errors)
    ensures |r| == k
  {
    seq(k, i requires 0 <= i < k => ErrorLine(date, errors[i]) + "\n")
  }

  /** The chunks log_errors() appends to the file: one line per error, in buffer order. */
  function ErrorWrites(errors: seq<Value>, date: string): seq<string>
  {
    ErrorLines(errors, date, ArrayPrefix(errors))
  }

  /** The buffer after log_errors(): each entry it reached replaced by its line. */
  function ErrorsRewritten(errors: seq<Value>, date: string): (r: seq<Value>)
    ensures |r| == |errors|
  {
    var k := ArrayPrefix(errors);
    seq(|errors|, i requires 0 <= i < |errors| => if i < k then Str(ErrorLine(date, errors[i])) else errors[i])
  }

  /** Whether log() runs to its end, rather than stopping at an exception. */
  predicate LogCompletes(logFilter: string, errors: seq<Value>)
  {
    if logFilter == ErrorFilter then ArrayPrefix(errors) == |errors|
    else CreateFilters(Create(logFilter)).Success?
  }

  /** The chunks one call of log() appends to the file. */
  function LogWrites(logFilter: string, facts: Facts, st: Snapshot, date: string): seq<string>
  {
    if logFilter == ErrorFilter then ErrorWrites(st.errors, date)
    else
      match CreateFilters(Create(logFilter))
      case Failure(_) => []
      case Success(names) => [FormatLine(NormalRecord(names, facts, st, date), facts.json.encode) + "\n"]
  }

  /** The error buffer after one call of log(). */
  function ErrorsAfterLog(logFilter: string, errors: seq<Value>, date: string): seq<Value>
  {
    if logFilter == ErrorFilter then ErrorsRewritten(errors, date) else errors
  }

  /** The request-body memo after one call of log(): only a Request built for a JSON request reads it. */
  function MemoAfterLog(logFilter: string, facts: Facts, st: Snapshot): Option<string>
  {
    if logFilter != ErrorFilter && CreateFilters(Create(logFilter)).Success?
       && HttpRequest.IsJson(HttpRequest.ContentType(facts.request.server))
    then HttpRequest.RequestBody(st.memo, facts.request)
    else st.memo
  }

  class FileLogger {
    const logFilter: string
    /** The log file path; `written` is what gets appended to it. */
    const logFile: string
    const defaultLog: bool
    const facts: Facts
    /** The body memo shared by every Request of the process. */
    const cache: HttpRequest.BodyCache
    /** The error buffer. */
    var errors: seq<Value>
    /** The chunks appended to the log file, in order. */
    var written: seq<string>
    /** What http_response_code() reports. */
    var responseCode: Value
    /** What headers_list() reports. */
    var headerLines: seq<string>

    ghost predicate Valid()
      reads this, cache
    {
      cache.Valid()
    }

    function State(): Snapshot
      reads this, cache
    {
      Snapshot(errors, cache.body, responseCode, headerLines)
    }

    /** new FileLogger($filter, $path, $default_log), in a script with the given facts, status and headers. */
    constructor (filter: string, path: string, defaultLog: bool, facts: Facts, code: Value, headerLines: seq<string>)
      ensures logFilter == filter && logFile == path && this.defaultLog == defaultLog && this.facts == facts
      ensures errors == [] && written == [] && responseCode == code && this.headerLines == headerLines
      ensures cache.body == None && fresh(cache) && Valid()
    {
      logFilter := filter;
      logFile := path;
      this.defaultLog := defaultLog;
      this.facts := facts;
      errors := [];
      written := [];
      responseCode := code;
      this.headerLines := headerLines;
      cache := new HttpRequest.BodyCache();
    }

    /** store_error(): appends one error to the buffer. */
    method StoreError(data: Dict<Value>)
      modifies this`errors
      ensures errors == old(errors) + [Arr(data)]
    {
      errors := errors + [Arr(data)];
    }

    /** write_to_file(): appends the content and one newline to the log file. */
    method WriteToFile(content: string)
      modifies this`written
      ensures written == old(written) + [content + "\n"]
    {
      written := written + [content + "\n"];
    }

    /**
     * log(): error-only logging under the "error" filter; otherwise one record
     * of the request and response. `ok` is false when an exception ends the
     * call: a "+h" filter, whose list constant does not exist, or an entry of
     * the buffer that is no longer an array in error-only mode.
     */
    method Log(date: string) returns (ok: bool)
      requires Valid()
      modifies this`errors, this`written, cache
      ensures Valid()
      ensures ok == LogCompletes(logFilter, old(errors))
      ensures written == old(written) + LogWrites(logFilter, facts, old(State()), date)
      ensures errors == ErrorsAfterLog(logFilter, old(errors), date)
      ensures cache.body == MemoAfterLog(logFilter, facts, old(State()))
    {
      if logFilter == ErrorFilter {
        ok := LogErrors(date);
        return;
      }
      var filters := CreateFilters(Create(logFilter));
      if filters.Failure? {
        return false;
      }
      var log := BuildRecord(filters.value, date);
      var line := FormatOutput(log);
      WriteToFile(line);
      ok := true;
    }

    /**
     * The record of a normal log call: a Request built with the request names, a
     * Response built with the response names, their properties merged, and the
     * JSON of the buffer appended when it is not empty.
     */
    method BuildRecord(names: seq<string>, date: string) returns (log: seq<Value>)
      requires Valid()
      modifies cache
      ensures Valid()
      ensures log == NormalRecord(names, facts, old(State()), date)
      ensures cache.body == if HttpRequest.IsJson(HttpRequest.ContentType(facts.request.server))
                            then HttpRequest.RequestBody(old(cache.body), facts.request) else old(cache.body)
    {
      ghost var st := State();
      var rn := RequestNames(names);
      var sn := ResponseNames(names);
      var request := new HttpRequest.Request(rn, facts.request, date, cache, facts.json.decode);
      var response := new HttpResponse.Response(sn, responseCode, facts.output, headerLines, facts.json.decode);
      var requestProps := request.GetProperties();
      var responseProps := response.GetProperties();
      ProjectUnique(requestProps, rn, RequestValue(facts, st.memo, date, rn));
      ProjectUnique(responseProps, sn, ResponseValue(facts, responseCode, headerLines, sn));
      log := ValuesOf(ArrayMerge(requestProps, responseProps));
      if |errors| > 0 {
        log := log + [Str(facts.json.encode(List(errors)))];
      }
    }

    /** format_output(): arrays rewritten in place as JSON strings, then everything joined with tabs. */
    method FormatOutput(log: seq<Value>) returns (line: string)
      ensures line == FormatLine(log, facts.json.encode)
    {
      var items := log;
      for i := 0 to |items|
        invariant |items| == |log|
        invariant forall j :: 0 <= j < i ==> items[j] == if IsArray(log[j]) then Str(facts.json.encode(log[j])) else log[j]
        invariant forall j :: i <= j < |items| ==> items[j] == log[j]
      {
        if IsArray(items[i]) {
          items := items[i := Str(facts.json.encode(items[i]))];
        }
      }
      assert Texts(items) == RenderAll(log, facts.json.encode);
      line := Join(Texts(items), '\t');
    }

    /**
     * log_errors(): each buffered error, in order, gets the date put in front,
     * is joined with tabs, has its newlines turned into spaces, is written, and
     * replaces its entry in the buffer. An entry that is not an array ends the
     * call (`ok` false), leaving it and the rest untouched.
     */
    method LogErrors(date: string) returns (ok: bool)
      modifies this`errors, this`written
      ensures ok == (ArrayPrefix(old(errors)) == |old(errors)|)
      ensures errors == ErrorsRewritten(old(errors), date)
      ensures written == old(written) + ErrorWrites(old(errors), date)
    {
      ghost var k := ArrayPrefix(errors);
      var i := 0;
      while i < |errors|
        invariant |errors| == |old(errors)|
        invariant 0 <= i <= k == ArrayPrefix(old(errors))
        invariant forall j :: 0 <= j < i ==> errors[j] == Str(ErrorLine(date, old(errors)[j]))
        invariant forall j :: i <= j < |errors| ==> errors[j] == old(errors)[j]
        invariant written == old(written) + ErrorLines(old(errors), date, i)
      {
        if !errors[i].Arr? {
          // array_merge() throws on an entry that is not an array
          assert i == k;
          return false;
        }
        var line := ErrorLine(date, errors[i]);
        errors := errors[i := Str(line)];
        WriteToFile(line);
        i := i + 1;
      }
      return true;
    }
  }

  /** Request and response names split the filter list: every name goes to exactly one side. */
  lemma NamesPartition(filters: seq<string>)
    ensures forall n :: n in filters <==> n in RequestNames(filters) || n in ResponseNames(filters)
    ensures forall n :: !(n in RequestNames(filters) && n in ResponseNames(filters))
  {
    NamesMembership(filters);
  }

  /** A name goes to the Request exactly when it is in the filter and is no response property, and to the Response otherwise. */
  lemma NamesMembership(filters: seq<string>)
    ensures forall n :: n in RequestNames(filters) <==> n in filters && n !in HttpResponse.ResponseFields
    ensures forall n :: n in ResponseNames(filters) <==> n in filters && n in HttpResponse.ResponseFields
  {
    WhereMembers(filters, IsRequestName);
    WhereMembers(filters, IsResponseName);
  }

  /** NamesWhere keeps exactly the names satisfying `keep`. */
  lemma {:induction false} WhereMembers(filters: seq<string>, keep: string -> bool)
    ensures forall n :: n in NamesWhere(filters, keep) <==> n in filters && keep(n)
  {
    if |filters| > 0 {
      var init := filters[..|filters| - 1];
      var last := filters[|filters| - 1];
      assert filters == init + [last];
      WhereMembers(init, keep);
    }
  }

  /**
   * A normal record is the request entries followed by the response entries, each
   * side in filter order with repeated names once, and then exactly one more
   * value, the JSON of the buffer, when the buffer is not empty.
   */
  lemma RecordLayout(names: seq<string>, facts: Facts, st: Snapshot, date: string)
    ensures var req := RequestRecord(names, facts, st.memo, date);
            var resp := ResponseRecord(names, facts, st.code, st.headerLines);
            && KeysOf(ArrayMerge(req, resp)) == Dedup(RequestNames(names)) + Dedup(ResponseNames(names))
            && NormalRecord(names, facts, st, date) == ValuesOf(req) + ValuesOf(resp)
                 + (if |st.errors| > 0 then [Str(facts.json.encode(List(st.errors)))] else [])
  {
    var rn := RequestNames(names);
    var sn := ResponseNames(names);
    SidesLayout(names, RequestValue(facts, st.memo, date, rn), ResponseValue(facts, st.code, st.headerLines, sn));
  }

  /** Projecting the two sides with any value functions and merging keeps each side whole, request side first. */
  lemma SidesLayout(names: seq<string>, f: string -> Value, g: string -> Value)
    ensures var req := Project(RequestNames(names), f);
            var resp := Project(ResponseNames(names), g);
            && KeysOf(ArrayMerge(req, resp)) == Dedup(RequestNames(names)) + Dedup(ResponseNames(names))
            && ValuesOf(ArrayMerge(req, resp)) == ValuesOf(req) + ValuesOf(resp)
  {
    var rn := RequestNames(names);
    var sn := ResponseNames(names);
    NamesPartition(names);
    MergeProjections(rn, sn, f, g);
    assert ValuesOf(Project(rn, f) + Project(sn, g)) == ValuesOf(Project(rn, f)) + ValuesOf(Project(sn, g));
  }

  /** When the filter asks for "code", the record holds the status code under it. */
  lemma RecordCode(names: seq<string>, facts: Facts, st: Snapshot, date: string)
    requires "code" in names
    ensures Get(ArrayMerge(RequestRecord(names, facts, st.memo, date), ResponseRecord(names, facts, st.code, st.headerLines)), "code")
            == Some(st.code)
  {
    var sn := ResponseNames(names);
    var f := ResponseValue(facts, st.code, st.headerLines, sn);
    NamesMembership(names);
    ProjectKeys(sn, f);
    DedupProps(sn);
    ProjectGet(sn, f, "code");
    assert "code" in KeysOf(Project(sn, f));
    MergeGet(RequestRecord(names, facts, st.memo, date), Project(sn, f), "code");
  }

  /**
   * format_output() joins n values with n-1 tabs: when no rendered value holds a
   * tab, splitting the line at tabs gives back the rendered values.
   */
  lemma FormatLineColumns(log: seq<Value>, encode: Value -> string)
    requires |log| >= 1
    requires forall i :: 0 <= i < |log| ==> '\t' !in Render(log[i], encode)
    ensures Split(FormatLine(log, encode), '\t') == RenderAll(log, encode)
    ensures Count(FormatLine(log, encode), '\t') == |log| - 1
  {
    SplitJoin(RenderAll(log, encode), '\t');
    SplitCount(FormatLine(log, encode), '\t');
  }

  /**
   * The line of an error the handler stored has seven columns: the date, then
   * error_type, log_level, error_code, description, file and line, each with its
   * newlines written as spaces (provided no value holds a tab).
   */
  lemma ErrorLineColumns(date: string, e: HttpError.Error)
    requires '\t' !in date
    requires forall v :: v in ValuesOf(HttpError.Properties(e)) ==> '\t' !in ScalarText(v)
    ensures var cols := Split(ErrorLine(date, Arr(HttpError.Properties(e))), '\t');
      && |cols| == 7
      && cols == ReplaceEach(Texts([Str(date)] + ValuesOf(HttpError.Properties(e))), '\n', " ")
  {
    var props := HttpError.Properties(e);
    HttpError.PropertiesInOrder(e);
    var head: Dict<Value> := [("date", Str(date))];
    assert KeysOf(head) == ["date"];
    forall i | 0 <= i < |props|
      ensures props[i].0 !in KeysOf(head)
    {
      assert KeysOf(props)[i] == props[i].0;
    }
    MergeDisjoint(head, props);
    assert ValuesOf(head + props) == [Str(date)] + ValuesOf(props);
    var texts := Texts([Str(date)] + ValuesOf(props));
    ReplaceAllJoin(texts, '\t', '\n', " ");
    var pieces := ReplaceEach(texts, '\n', " ");
    forall i | 0 <= i < |pieces|
      ensures '\t' !in pieces[i]
    {
      if i > 0 {
        assert ValuesOf(props)[i - 1] in ValuesOf(props);
      }
      ReplaceAllAbsent(texts[i], '\n', " ", '\t');
    }
    SplitJoin(pieces, '\t');
  }
}
