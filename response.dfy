/**
 * The response snapshot: the status code, the output buffer (decoded as JSON
 * when that gives a truthy value, otherwise flattened onto one line) and the
 * response headers. `get_properties` projects it onto a list of names.
 */
module HttpResponse {
  import opened PhpStrings
  import opened PhpArrays
  import HeaderUtils

  /** The properties the constructor sets, in the order it sets them. */
  const ResponseFields: seq<string> := ["code", "body", "response_headers"]

  /** get_body(): the decoded output when it is truthy, else the raw output with each "\n" turned into " ". */
  function ResponseBody(output: string, decode: string -> Value): (r: Value)
    ensures r == decode(output) || (r.Str? && '\n' !in r.s)
  {
    if Truthy(decode(output)) then decode(output)
    else
      ReplaceAllAbsent(output, '\n', " ", '\n');
      Str(ReplaceAll(output, '\n', " "))
  }

  /**
   * A truthy decode is the body. Any other outcome, including the falsy decodes of
   * "0", "[]" and "{}", gives the output character for character, newlines
   * written as spaces.
   */
  lemma ResponseBodyCases(output: string, decode: string -> Value)
    ensures Truthy(decode(output)) ==> ResponseBody(output, decode) == decode(output)
    ensures !Truthy(decode(output)) ==>
      var r := ResponseBody(output, decode);
      && r.Str? && |r.s| == |output|
      && forall i :: 0 <= i < |output| ==> r.s[i] == if output[i] == '\n' then ' ' else output[i]
  {
    ReplaceCharPointwise(output, '\n', ' ');
  }

  /** `$this->$name` on a Response holding these properties: the four properties by name, anything else null. */
  function Lookup(filters: seq<string>, code: Value, body: Value, responseHeaders: Value, name: string): Value
  {
    if name == "filters" then StrList(filters)
    else if name == "code" then code
    else if name == "body" then body
    else if name == "response_headers" then responseHeaders
    else Null
  }

  /** The value `$this->$name` has once a Response built with `filters` is constructed; other names read as null. */
  function Captured(code: Value, output: string, headerLines: seq<string>, decode: string -> Value,
                    filters: seq<string>, name: string): Value
  {
    Lookup(filters, code, ResponseBody(output, decode), StrArray(HeaderUtils.ResponseHeaders(headerLines)), name)
  }

  /** The snapshot holds the status code, the body and the headers; nothing else is a response property. */
  lemma CapturedFields(code: Value, output: string, headerLines: seq<string>, decode: string -> Value,
                       filters: seq<string>, name: string)
    ensures name !in ResponseFields && name != "filters" ==> Captured(code, output, headerLines, decode, filters, name) == Null
    ensures Captured(code, output, headerLines, decode, filters, "code") == code
    ensures var b := Captured(code, output, headerLines, decode, filters, "body");
      b == decode(output) || (b.Str? && '\n' !in b.s)
  {
  }

  class Response {
    var filters: seq<string>
    var code: Value
    var body: Value
    var responseHeaders: Value

    /** `$this->$name`: a property by its PHP name; anything else reads as null. */
    function Field(name: string): Value
      reads this
    {
      Lookup(filters, code, body, responseHeaders, name)
    }

    /** new Response($filters): the status code, the body of the output buffer and the response headers. */
    constructor (filters: seq<string>, code: Value, output: string, headerLines: seq<string>, decode: string -> Value)
      ensures this.filters == filters
      ensures this.code == code && body == ResponseBody(output, decode)
      ensures responseHeaders == StrArray(HeaderUtils.ResponseHeaders(headerLines))
      ensures forall name :: Field(name) == Captured(code, output, headerLines, decode, filters, name)
    {
      this.filters := filters;
      var headers := HeaderUtils.ApacheResponseHeaders(headerLines);
      this.code := code;
      body := ResponseBody(output, decode);
      responseHeaders := StrArray(headers);
    }

    /** get_properties(): each filter name mapped to its property, in filter order, repeated names once. */
    method GetProperties() returns (props: Dict<Value>)
      ensures KeysOf(props) == Dedup(filters)
      ensures forall i :: 0 <= i < |props| ==> props[i].1 == Field(props[i].0)
    {
      props := [];
      for i := 0 to |filters|
        invariant KeysOf(props) == Dedup(filters[..i])
        invariant forall j :: 0 <= j < |props| ==> props[j].1 == Field(props[j].0)
      {
        var p := filters[i];
        PutKeys(props, p, Field(p));
        PutEntries(props, p, Field(p));
        props := Put(props, p, Field(p));
        assert filters[..i + 1][..i] == filters[..i];
      }
      assert filters[..|filters|] == filters;
    }
  }
}
