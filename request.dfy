/**
 * The request snapshot: the properties read from the server variables, the
 * query, form, cookie and upload arrays and the raw body, then the URL made
 * relative to the script's directory and, for JSON requests, the form data
 * replaced by the decoded body. `get_properties` projects the snapshot onto a
 * list of names.
 */
module HttpRequest {
  import opened Wrappers
  import opened PhpStrings
  import opened PhpArrays
  import HeaderUtils

  /**
   * What the constructor reads from the running request: $_SERVER, $_REQUEST
   * (only "_method" is looked at), $_GET, $_POST, $_COOKIE, $_FILES and the
   * contents of php://input.
   */
  datatype RequestEnv = RequestEnv(
    server: Dict<string>,
    requestVars: Dict<string>,
    get: Value,
    post: Value,
    cookies: Value,
    files: Value,
    input: string)

  /** The properties the constructor sets, in the order it sets them. */
  const RequestFields: seq<string> :=
    ["date", "base", "url", "referrer", "method", "ip", "port", "scheme", "user_agent", "type",
     "length", "accept", "query", "data", "cookies", "files", "is_https", "is_ajax", "request_headers"]

  /** get_variable(): the server variable if set, else the default. */
  function GetVariable(server: Dict<string>, name: string, default: string := ""): string
  {
    Get(server, name).GetOr(default)
  }

  /** get_method(): REQUEST_METHOD (default GET), overridden by the override header, then by "_method"; upper-cased. */
  function GetMethod(env: RequestEnv): (m: string)
    ensures IsUpperCase(m)
  {
    var m0 := GetVariable(env.server, "REQUEST_METHOD", "GET");
    var m1 := if Get(env.server, "HTTP_X_HTTP_METHOD_OVERRIDE").Some? then Get(env.server, "HTTP_X_HTTP_METHOD_OVERRIDE").value else m0;
    var m2 := if Get(env.requestVars, "_method").Some? then Get(env.requestVars, "_method").value else m1;
    ToUpper(m2)
  }

  /** The "_method" parameter beats the override header, which beats REQUEST_METHOD, which defaults to GET. */
  lemma MethodPrecedence(env: RequestEnv)
    ensures Get(env.requestVars, "_method").Some? ==>
      GetMethod(env) == ToUpper(Get(env.requestVars, "_method").value)
    ensures Get(env.requestVars, "_method").None? && Get(env.server, "HTTP_X_HTTP_METHOD_OVERRIDE").Some? ==>
      GetMethod(env) == ToUpper(Get(env.server, "HTTP_X_HTTP_METHOD_OVERRIDE").value)
    ensures Get(env.requestVars, "_method").None? && Get(env.server, "HTTP_X_HTTP_METHOD_OVERRIDE").None?
            && Get(env.server, "REQUEST_METHOD").Some? ==>
      GetMethod(env) == ToUpper(Get(env.server, "REQUEST_METHOD").value)
    ensures Get(env.requestVars, "_method").None? && Get(env.server, "HTTP_X_HTTP_METHOD_OVERRIDE").None?
            && Get(env.server, "REQUEST_METHOD").None? ==>
      GetMethod(env) == "GET"
  {
  }

  /** Upper-casing is idempotent: the method is already in its final form. */
  lemma MethodStable(env: RequestEnv)
    ensures ToUpper(GetMethod(env)) == GetMethod(env)
  {
    var m := GetMethod(env);
    forall i | 0 <= i < |m|
      ensures ToUpper(m)[i] == m[i]
    {
      assert !('a' <= m[i] <= 'z');
    }
  }

  /** The "base" property: dirname of SCRIPT_NAME with '\' turned into '/' and spaces into "%20". */
  function BasePath(server: Dict<string>): (r: string)
    ensures '\\' !in r && ' ' !in r
  {
    var d := Dirname(GetVariable(server, "SCRIPT_NAME"));
    ReplaceAllAbsent(d, '\\', "/", '\\');
    var a := ReplaceAll(d, '\\', "/");
    ReplaceAllAbsent(a, ' ', "%20", '\\');
    ReplaceAllAbsent(a, ' ', "%20", ' ');
    ReplaceAll(a, ' ', "%20")
  }

  /** The "url" property before formatting: REQUEST_URI (default "/") with every '@' written "%40". */
  function RawUrl(server: Dict<string>): (r: string)
    ensures '@' !in r
  {
    ReplaceAllAbsent(GetVariable(server, "REQUEST_URI", "/"), '@', "%40", '@');
    ReplaceAll(GetVariable(server, "REQUEST_URI", "/"), '@', "%40")
  }

  /** The base is stripped from the URL when it is neither "/" nor empty and the URL starts with it. */
  predicate StripsBase(url: string, base: string)
  {
    base != "/" && |base| > 0 && StartsWith(url, base)
  }

  /** format_url(): the URL relative to the base; an empty result (or "0") becomes "/". */
  function FormattedUrl(url: string, base: string): (r: string)
    ensures !IsEmpty(r)
    ensures r == "/" || (|r| <= |url| && r == url[|url| - |r|..])
  {
    var u := if StripsBase(url, base) then url[|base|..] else url;
    if IsEmpty(u) then "/" else u
  }

  /** A character other than '/' that the URL lacks is not in the formatted URL either. */
  lemma FormattedUrlLacks(url: string, base: string, x: char)
    requires x != '/' && x !in url
    ensures x !in FormattedUrl(url, base)
  {
    var r := FormattedUrl(url, base);
    if r != "/" {
      forall i | 0 <= i < |r|
        ensures r[i] != x
      {
        assert r[i] == url[|url| - |r| + i];
      }
    }
  }

  /** When the base is stripped, what follows it is the URL, or "/" if that is empty or "0". */
  lemma FormatUrlStrip(url: string, base: string)
    requires StripsBase(url, base)
    ensures url == base + url[|base|..]
    ensures FormattedUrl(url, base) == if IsEmpty(url[|base|..]) then "/" else url[|base|..]
  {
  }

  /** When the base is not stripped, the URL is kept unless it is empty or "0". */
  lemma FormatUrlKeep(url: string, base: string)
    requires !StripsBase(url, base)
    ensures FormattedUrl(url, base) == if IsEmpty(url) then "/" else url
  {
  }

  /** Formatting is idempotent once the base no longer prefixes the result. */
  lemma FormatUrlIdempotent(url: string, base: string)
    requires !StripsBase(FormattedUrl(url, base), base)
    ensures FormattedUrl(FormattedUrl(url, base), base) == FormattedUrl(url, base)
  {
  }

  /** A script in /app serving /app/items?x=1 logs /items?x=1; the base itself logs "/". */
  lemma FormatUrlExamples()
    ensures FormattedUrl("/app/items?x=1", "/app") == "/items?x=1"
    ensures FormattedUrl("/app", "/app") == "/"
    ensures FormattedUrl("/items", "/") == "/items"
  {
    assert StripsBase("/app/items?x=1", "/app");
    assert "/app/items?x=1"[4..] == "/items?x=1";
    assert StripsBase("/app", "/app");
  }

  /** The methods whose body is read. */
  predicate HasBody(m: string)
  {
    m in ["POST", "PUT", "PATCH"]
  }

  /** The "type" property. */
  function ContentType(server: Dict<string>): string
  {
    GetVariable(server, "CONTENT_TYPE")
  }

  /** A JSON request: the content type starts with "application/json". */
  predicate IsJson(contentType: string)
  {
    StartsWith(contentType, "application/json")
  }

  /**
   * get_request_body() given the memo: the memo when set; otherwise the input for
   * POST, PUT and PATCH, and nothing for any other method.
   */
  function RequestBody(memo: Option<string>, env: RequestEnv): Option<string>
  {
    if memo.Some? then memo
    else if HasBody(GetMethod(env)) then Some(env.input)
    else None
  }

  /**
   * A body exists exactly when it was remembered or the method carries one; once
   * remembered it is returned again for any later request, unchanged.
   */
  lemma RequestBodyGate(memo: Option<string>, env: RequestEnv, env': RequestEnv)
    ensures RequestBody(memo, env).Some? <==> memo.Some? || HasBody(GetMethod(env))
    ensures memo.None? && HasBody(GetMethod(env)) ==> RequestBody(memo, env) == Some(env.input)
    ensures RequestBody(RequestBody(memo, env), env') == RequestBody(memo, env) || RequestBody(memo, env).None?
  {
  }

  /**
   * format_json_request_body() on the form data: replaced by the decoded body
   * only when there is a body, it is not "", and it decodes to something other
   * than null. (json_decode of a missing body is null, so nothing changes then.)
   */
  function JsonData(body: Option<string>, data: Value, decode: string -> Value): (r: Value)
    ensures r != data ==> body.Some? && body.value != "" && r == decode(body.value) && r != Null
  {
    if body.Some? && body.value != "" && decode(body.value) != Null then decode(body.value) else data
  }

  /** The "length" property: CONTENT_LENGTH as given, or the integer 0 when unset. */
  function ContentLength(server: Dict<string>): Value
  {
    if Get(server, "CONTENT_LENGTH").Some? then Str(Get(server, "CONTENT_LENGTH").value) else Int(0)
  }

  /** The "is_https" property. */
  function HttpsFlag(server: Dict<string>): int
  {
    if GetVariable(server, "HTTPS", "off") == "on" then 1 else 0
  }

  /** The "is_ajax" property. */
  function AjaxFlag(server: Dict<string>): int
  {
    if GetVariable(server, "HTTP_X_REQUESTED_WITH") == "XMLHttpRequest" then 1 else 0
  }

  /** is_https is 1 exactly when HTTPS is "on", is_ajax exactly when X-Requested-With is "XMLHttpRequest"; else 0. */
  lemma FlagsExact(server: Dict<string>)
    ensures HttpsFlag(server) == 1 <==> Get(server, "HTTPS") == Some("on")
    ensures HttpsFlag(server) == 0 <==> Get(server, "HTTPS") != Some("on")
    ensures AjaxFlag(server) == 1 <==> Get(server, "HTTP_X_REQUESTED_WITH") == Some("XMLHttpRequest")
    ensures AjaxFlag(server) == 0 <==> Get(server, "HTTP_X_REQUESTED_WITH") != Some("XMLHttpRequest")
  {
  }

  lemma RequestFieldsDistinct()
    ensures Distinct(RequestFields)
  {
  }

  /** The nineteen request properties, by their PHP names. */
  datatype RequestProps = RequestProps(
    date: Value, base: Value, url: Value, referrer: Value, httpMethod: Value, ip: Value,
    port: Value, scheme: Value, userAgent: Value, contentType: Value, length: Value,
    accept: Value, query: Value, data: Value, cookies: Value, files: Value,
    isHttps: Value, isAjax: Value, requestHeaders: Value)

  /** `$this->$name` on a Request with these filters and properties; other names read as null. */
  function Lookup(filters: seq<string>, p: RequestProps, name: string): Value
  {
    if name == "filters" then StrList(filters)
    else if name == "date" then p.date
    else if name == "base" then p.base
    else if name == "url" then p.url
    else if name == "referrer" then p.referrer
    else if name == "method" then p.httpMethod
    else if name == "ip" then p.ip
    else if name == "port" then p.port
    else if name == "scheme" then p.scheme
    else if name == "user_agent" then p.userAgent
    else if name == "type" then p.contentType
    else if name == "length" then p.length
    else if name == "accept" then p.accept
    else if name == "query" then p.query
    else if name == "data" then p.data
    else if name == "cookies" then p.cookies
    else if name == "files" then p.files
    else if name == "is_https" then p.isHttps
    else if name == "is_ajax" then p.isAjax
    else if name == "request_headers" then p.requestHeaders
    else Null
  }

  /** The `$properties` array of the constructor, before any formatting. */
  function RawProps(env: RequestEnv, date: string): RequestProps
  {
    var s := env.server;
    RequestProps(
      Str(date),
      Str(BasePath(s)),
      Str(RawUrl(s)),
      Str(GetVariable(s, "HTTP_REFERER")),
      Str(GetMethod(env)),
      Str(GetVariable(s, "REMOTE_ADDR")),
      Str(GetVariable(s, "REMOTE_PORT")),
      Str(GetVariable(s, "SERVER_PROTOCOL", "HTTP/1.1")),
      Str(GetVariable(s, "HTTP_USER_AGENT")),
      Str(ContentType(s)),
      ContentLength(s),
      Str(GetVariable(s, "HTTP_ACCEPT")),
      env.get,
      env.post,
      env.cookies,
      env.files,
      Int(HttpsFlag(s)),
      Int(AjaxFlag(s)),
      StrArray(HeaderUtils.RequestHeaders(s)))
  }

  /**
   * The properties once the constructor is done, while the body memo held `memo`:
   * the raw ones with the URL formatted and, for a JSON request, the form data
   * replaced by the decoded body.
   */
  function CapturedProps(env: RequestEnv, date: string, memo: Option<string>, decode: string -> Value): RequestProps
  {
    var raw := RawProps(env, date);
    var s := env.server;
    raw.(url := Str(FormattedUrl(RawUrl(s), BasePath(s))),
         data := if IsJson(ContentType(s)) then JsonData(RequestBody(memo, env), env.post, decode) else env.post)
  }

  /** The value `$this->$name` has once a Request built with `filters` is constructed. */
  function Captured(env: RequestEnv, date: string, memo: Option<string>, decode: string -> Value,
                    filters: seq<string>, name: string): Value
  {
    Lookup(filters, CapturedProps(env, date, memo, decode), name)
  }

  /** The names the lemmas below read, looked up in any properties. */
  lemma LookupNames(filters: seq<string>, p: RequestProps)
    ensures Lookup(filters, p, "url") == p.url
    ensures Lookup(filters, p, "method") == p.httpMethod
    ensures Lookup(filters, p, "data") == p.data
    ensures Lookup(filters, p, "is_https") == p.isHttps
    ensures Lookup(filters, p, "is_ajax") == p.isAjax
    ensures Lookup(filters, p, "ajax") == Null
  {
  }

  /**
   * The logged URL is never empty nor "0", holds no '@', and is "/" or a suffix
   * of REQUEST_URI with its '@'s encoded.
   */
  lemma CapturedUrl(env: RequestEnv, date: string, memo: Option<string>, decode: string -> Value, filters: seq<string>)
    ensures var u := Captured(env, date, memo, decode, filters, "url");
      && u.Str? && !IsEmpty(u.s) && '@' !in u.s
      && (u.s == "/" || (|u.s| <= |RawUrl(env.server)| && u.s == RawUrl(env.server)[|RawUrl(env.server)| - |u.s|..]))
  {
    var raw := RawUrl(env.server);
    var p := CapturedProps(env, date, memo, decode);
    LookupNames(filters, p);
    assert p.url == Str(FormattedUrl(raw, BasePath(env.server)));
    FormattedUrlLacks(raw, BasePath(env.server), '@');
  }

  /**
   * The logged data is the decoded body exactly when the content type is JSON, the
   * body (read through the memo) is present and not "", and it decodes to non-null;
   * otherwise it is the form data.
   */
  lemma CapturedData(env: RequestEnv, date: string, memo: Option<string>, decode: string -> Value, filters: seq<string>)
    ensures var body := RequestBody(memo, env);
      Captured(env, date, memo, decode, filters, "data") ==
        if IsJson(ContentType(env.server)) && body.Some? && body.value != "" && decode(body.value) != Null
        then decode(body.value) else env.post
  {
    var p := CapturedProps(env, date, memo, decode);
    LookupNames(filters, p);
    assert p.data == if IsJson(ContentType(env.server)) then JsonData(RequestBody(memo, env), env.post, decode) else env.post;
  }

  /** The logged method is the upper-cased effective method. */
  lemma CapturedMethod(env: RequestEnv, date: string, memo: Option<string>, decode: string -> Value, filters: seq<string>)
    ensures Captured(env, date, memo, decode, filters, "method") == Str(GetMethod(env))
  {
    LookupNames(filters, CapturedProps(env, date, memo, decode));
  }

  /** A name that is neither "filters" nor a property of the Request, "ajax" among them, reads as null. */
  lemma CapturedMissing(env: RequestEnv, date: string, memo: Option<string>, decode: string -> Value, filters: seq<string>, name: string)
    requires name != "filters" && name !in RequestFields
    ensures Captured(env, date, memo, decode, filters, name) == Null
  {
    LookupMissing(filters, CapturedProps(env, date, memo, decode), name);
  }

  lemma LookupMissing(filters: seq<string>, p: RequestProps, name: string)
    requires name != "filters" && name !in RequestFields
    ensures Lookup(filters, p, name) == Null
  {
    assert forall i :: 0 <= i < |RequestFields| ==> RequestFields[i] != name;
  }

  /** The logged is_https flag is 1 exactly when HTTPS is "on", else 0. */
  lemma CapturedHttps(env: RequestEnv, date: string, memo: Option<string>, decode: string -> Value, filters: seq<string>)
    ensures Captured(env, date, memo, decode, filters, "is_https") == Int(if Get(env.server, "HTTPS") == Some("on") then 1 else 0)
  {
    var p := CapturedProps(env, date, memo, decode);
    LookupNames(filters, p);
    assert p.isHttps == Int(HttpsFlag(env.server));
    FlagsExact(env.server);
  }

  /** The logged is_ajax flag is 1 exactly when X-Requested-With is "XMLHttpRequest", else 0. */
  lemma CapturedAjaxFlag(env: RequestEnv, date: string, memo: Option<string>, decode: string -> Value, filters: seq<string>)
    ensures Captured(env, date, memo, decode, filters, "is_ajax") ==
      Int(if Get(env.server, "HTTP_X_REQUESTED_WITH") == Some("XMLHttpRequest") then 1 else 0)
  {
    var p := CapturedProps(env, date, memo, decode);
    LookupNames(filters, p);
    assert p.isAjax == Int(AjaxFlag(env.server));
    FlagsExact(env.server);
  }

  /** The static body memo of get_request_body(), shared by every Request of the process. */
  class BodyCache {
    var body: Option<string>
    /** How many times php://input has been read. */
    ghost var inputReads: nat

    ghost predicate Valid()
      reads this
    {
      inputReads == if body.Some? then 1 else 0
    }

    constructor ()
      ensures body == None && Valid()
    {
      body := None;
      inputReads := 0;
    }

    /** get_request_body(): returns the memo, filling it from the input for POST, PUT and PATCH. */
    method GetRequestBody(env: RequestEnv) returns (b: Option<string>)
      requires Valid()
      modifies this
      ensures b == RequestBody(old(body), env) && body == b
      ensures Valid() && inputReads <= 1
      ensures old(body).Some? ==> inputReads == old(inputReads)
    {
      if body.Some? {
        return body;
      }
      var m := GetMethod(env);
      if m in ["POST", "PUT", "PATCH"] {
        body := Some(env.input);
        inputReads := inputReads + 1;
      }
      b := body;
    }
  }

  class Request {
    var filters: seq<string>
    var date: Value
    var base: Value
    var url: Value
    var referrer: Value
    var httpMethod: Value
    var ip: Value
    var port: Value
    var scheme: Value
    var userAgent: Value
    var contentType: Value
    var length: Value
    var accept: Value
    var query: Value
    var data: Value
    var cookies: Value
    var files: Value
    var isHttps: Value
    var isAjax: Value
    var requestHeaders: Value

    /** The properties as they stand. */
    function Props(): RequestProps
      reads this
    {
      RequestProps(date, base, url, referrer, httpMethod, ip, port, scheme, userAgent, contentType,
                   length, accept, query, data, cookies, files, isHttps, isAjax, requestHeaders)
    }

    /** `$this->$name`: a property by its PHP name; anything else reads as null. */
    function Field(name: string): Value
      reads this
    {
      Lookup(filters, Props(), name)
    }

    /**
     * new Request($filters): sets every property from the environment, strips the
     * base from the URL and, for JSON requests, replaces the form data by the
     * decoded body (reading the body through the memo).
     */
    constructor (filters: seq<string>, env: RequestEnv, date: string, cache: BodyCache, decode: string -> Value)
      requires cache.Valid()
      modifies cache
      ensures this.filters == filters
      ensures Props() == CapturedProps(env, date, old(cache.body), decode)
      ensures forall name :: Field(name) == Captured(env, date, old(cache.body), decode, filters, name)
      ensures cache.body == if IsJson(ContentType(env.server)) then RequestBody(old(cache.body), env) else old(cache.body)
      ensures cache.Valid()
    {
      this.filters := filters;
      var s := env.server;
      var headers := HeaderUtils.GetAllHeaders(s);
      // the $properties array, then initialize() copying each entry to its property
      var properties := RawProps(env, date).(requestHeaders := StrArray(headers));
      this.date := properties.date;
      base := properties.base;
      url := properties.url;
      referrer := properties.referrer;
      httpMethod := properties.httpMethod;
      ip := properties.ip;
      port := properties.port;
      scheme := properties.scheme;
      userAgent := properties.userAgent;
      contentType := properties.contentType;
      length := properties.length;
      accept := properties.accept;
      query := properties.query;
      data := properties.data;
      cookies := properties.cookies;
      files := properties.files;
      isHttps := properties.isHttps;
      isAjax := properties.isAjax;
      requestHeaders := properties.requestHeaders;
      new;
      assert Props() == properties == RawProps(env, date);
      FormatUrl();
      assert Props() == RawProps(env, date).(url := Str(FormattedUrl(RawUrl(s), BasePath(s))));
      FormatJsonRequestBody(cache, env, decode);
    }

    /** format_url(): strips the base from the URL and falls back to "/". */
    method FormatUrl()
      requires url.Str? && base.Str?
      modifies this`url
      ensures url == Str(FormattedUrl(old(url).s, base.s))
    {
      var u := url.s;
      var b := base.s;
      if b != "/" && |b| > 0 && StartsWith(u, b) {
        u := u[|b|..];
      }
      if IsEmpty(u) {
        u := "/";
      }
      url := Str(u);
    }

    /** format_json_request_body(): for a JSON content type, the decoded body replaces the form data. */
    method FormatJsonRequestBody(cache: BodyCache, env: RequestEnv, decode: string -> Value)
      requires contentType.Str? && cache.Valid()
      modifies this`data, cache
      ensures data == if IsJson(contentType.s) then JsonData(RequestBody(old(cache.body), env), old(data), decode) else old(data)
      ensures cache.body == if IsJson(contentType.s) then RequestBody(old(cache.body), env) else old(cache.body)
      ensures cache.Valid()
    {
      if StartsWith(contentType.s, "application/json") {
        var body := cache.GetRequestBody(env);
        if body != Some("") {
          // json_decode of a missing (null) body is null as well
          var decoded := if body.Some? then decode(body.value) else Null;
          if decoded != Null {
            data := decoded;
          }
        }
      }
    }

    /** get_properties(): each filter name mapped to its property, in filter order, repeated names once. */
    method GetProperties() returns (props: Dict<Value>)
      ensures KeysOf(props) == Dedup(filters)
      ensures forall i :: 0 <= i < |props| ==> props[i].1 == Field(props[i].0)
    {
      props := [];
      for i := 0 to |filters|
        invariant KeysOf(props) == Dedup(filters[..i])
        invariant forall j :: 0 <= j < |props| ==> props[j].1 == Field(props[j].0)
      {
        var p := filters[i];
        PutKeys(props, p, Field(p));
        PutEntries(props, p, Field(p));
        props := Put(props, p, Field(p));
        assert filters[..i + 1][..i] == filters[..i];
      }
      assert filters[..|filters|] == filters;
    }
  }
}
