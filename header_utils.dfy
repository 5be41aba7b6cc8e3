/**
 * The fallbacks the logger installs when the web server provides no
 * getallheaders() or apache_response_headers(): request headers rebuilt from the
 * HTTP_ server variables, and response headers rebuilt from the "Name: value"
 * lines of headers_list(). Both fill an ordered array in a loop.
 */
module HeaderUtils {
  import opened Wrappers
  import opened PhpStrings
  import opened PhpArrays

  /** A server variable that carries a request header. */
  predicate IsHttpVariable(name: string)
  {
    StartsWith(name, "HTTP_")
  }

  /** The header name of an HTTP_ variable: '_' to space, lower-cased, words capitalised, space to '-'. */
  function HeaderName(name: string): string
    requires IsHttpVariable(name)
  {
    ReplaceAll(UcWords(ToLower(ReplaceAll(name[5..], '_', " "))), ' ', "-")
  }

  /** A header name never contains '_' or a space. */
  lemma HeaderNameClean(name: string)
    requires IsHttpVariable(name)
    ensures '_' !in HeaderName(name) && ' ' !in HeaderName(name)
  {
    var a := ReplaceAll(name[5..], '_', " ");
    ReplaceAllAbsent(name[5..], '_', " ", '_');
    LowerKeepsNonLetter(a, '_');
    UcWordsKeepsNonLetter(ToLower(a), '_');
    var c := UcWords(ToLower(a));
    ReplaceAllAbsent(c, ' ', "-", '_');
    ReplaceAllAbsent(c, ' ', "-", ' ');
  }

  /** HTTP_USER_AGENT names the header User-Agent. */
  lemma UserAgentExample(name: string)
    requires name == "HTTP_USER_AGENT"
    ensures IsHttpVariable(name) && HeaderName(name) == "User-Agent"
  {
    UserAgentRest(name);
    var a := ReplaceAll(name[5..], '_', " ");
    UserAgentSpaces(name[5..]);
    UserAgentLower(a);
    UserAgentWords(ToLower(a));
    UserAgentDashes(UcWords(ToLower(a)));
  }

  lemma UserAgentRest(name: string)
    requires name == "HTTP_USER_AGENT"
    ensures IsHttpVariable(name) && name[5..] == "USER_AGENT"
  {
  }

  lemma UserAgentSpaces(rest: string)
    requires rest == "USER_AGENT"
    ensures ReplaceAll(rest, '_', " ") == "USER AGENT"
  {
    ReplaceCharPointwise(rest, '_', ' ');
  }

  lemma UserAgentDashes(c: string)
    requires c == "User Agent"
    ensures ReplaceAll(c, ' ', "-") == "User-Agent"
  {
    ReplaceCharPointwise(c, ' ', '-');
  }

  lemma UserAgentLower(a: string)
    requires a == "USER AGENT"
    ensures ToLower(a) == "user agent"
  {
  }

  lemma UserAgentWords(b: string)
    requires b == "user agent"
    ensures UcWords(b) == "User Agent"
  {
  }

  /** getallheaders(): every HTTP_ variable in $_SERVER order, written under its header name. */
  function RequestHeaders(server: Dict<string>): Dict<string>
  {
    if |server| == 0 then []
    else
      var acc := RequestHeaders(server[..|server| - 1]);
      var (name, value) := server[|server| - 1];
      if IsHttpVariable(name) then Put(acc, HeaderName(name), value) else acc
  }

  /** The fallback getallheaders() as written: a loop over $_SERVER filling $headers. */
  method GetAllHeaders(server: Dict<string>) returns (headers: Dict<string>)
    ensures headers == RequestHeaders(server)
  {
    headers := [];
    for i := 0 to |server|
      invariant headers == RequestHeaders(server[..i])
    {
      var (name, value) := server[i];
      if IsHttpVariable(name) {
        headers := Put(headers, HeaderName(name), value);
      }
      assert server[..i + 1][..i] == server[..i];
    }
    assert server[..|server|] == server;
  }

  /**
   * The value header `k` should have: that of the last HTTP_ variable whose header
   * name is `k`, or none when no HTTP_ variable has that name.
   */
  function LastRequestHeader(server: Dict<string>, k: string): (r: Option<string>)
    ensures r.Some? ==> exists i :: 0 <= i < |server| && IsHttpVariable(server[i].0)
                                    && HeaderName(server[i].0) == k && server[i].1 == r.value
                                    && forall j :: i < j < |server| && IsHttpVariable(server[j].0) ==> HeaderName(server[j].0) != k
    ensures r.None? ==> forall i :: 0 <= i < |server| && IsHttpVariable(server[i].0) ==> HeaderName(server[i].0) != k
  {
    if |server| == 0 then None
    else
      var (name, value) := server[|server| - 1];
      if IsHttpVariable(name) && HeaderName(name) == k then Some(value)
      else
        var r := LastRequestHeader(server[..|server| - 1], k);
        assert forall i :: 0 <= i < |server| - 1 ==> server[..|server| - 1][i] == server[i];
        r
  }

  /**
   * Only HTTP_ variables produce headers; each header carries the variable's value
   * unchanged, and of two variables with the same header name the later one wins.
   */
  lemma {:induction false} RequestHeadersGet(server: Dict<string>, k: string)
    ensures Get(RequestHeaders(server), k) == LastRequestHeader(server, k)
  {
    if |server| > 0 {
      var (name, value) := server[|server| - 1];
      RequestHeadersGet(server[..|server| - 1], k);
      if IsHttpVariable(name) {
        PutGet(RequestHeaders(server[..|server| - 1]), HeaderName(name), value, k);
      }
    }
  }

  /** The header names produced are distinct and contain no '_' and no space. */
  lemma {:induction false} RequestHeaderNamesClean(server: Dict<string>)
    ensures Distinct(KeysOf(RequestHeaders(server)))
    ensures forall j :: 0 <= j < |RequestHeaders(server)| ==>
      '_' !in RequestHeaders(server)[j].0 && ' ' !in RequestHeaders(server)[j].0
  {
    if |server| > 0 {
      var acc := RequestHeaders(server[..|server| - 1]);
      var (name, value) := server[|server| - 1];
      RequestHeaderNamesClean(server[..|server| - 1]);
      if IsHttpVariable(name) {
        HeaderNameClean(name);
        PutKeys(acc, HeaderName(name), value);
        PutEntries(acc, HeaderName(name), value);
        var r := Put(acc, HeaderName(name), value);
        forall j | 0 <= j < |r|
          ensures '_' !in r[j].0 && ' ' !in r[j].0
        {
          if r[j] != (HeaderName(name), value) {
            assert r[j] in acc;
          }
        }
      }
    }
  }

  /** One headers_list() line: the text before the first ':' and, trimmed, everything after it. */
  function HeaderLine(line: string): (string, string)
  {
    var parts := Split(line, ':');
    (parts[0], Trim(Join(parts[1..], ':')))
  }

  /** A line "name:rest" with no ':' in name gives the name and the trimmed rest, later colons included. */
  lemma HeaderLineAtColon(name: string, rest: string)
    requires ':' !in name
    ensures HeaderLine(name + [':'] + rest) == (name, Trim(rest))
  {
    SplitAtFirst(name, rest, ':');
    assert ([name] + Split(rest, ':'))[1..] == Split(rest, ':');
    JoinSplit(rest, ':');
  }

  /** A line with no ':' is all name, with an empty value. */
  lemma HeaderLineNoColon(line: string)
    requires ':' !in line
    ensures HeaderLine(line) == (line, "")
  {
    SplitFree(line, ':');
  }

  /** apache_response_headers(): every line of headers_list() written under its name. */
  function ResponseHeaders(lines: seq<string>): Dict<string>
  {
    HeadersOfFirst(lines, |lines|)
  }

  /** The headers written by the first `n` lines. */
  function HeadersOfFirst(lines: seq<string>, n: nat): Dict<string>
    requires n <= |lines|
  {
    if n == 0 then []
    else
      var header := HeaderLine(lines[n - 1]);
      Put(HeadersOfFirst(lines, n - 1), header.0, header.1)
  }

  /** The fallback apache_response_headers() as written: a loop over the header lines filling $arh. */
  method ApacheResponseHeaders(lines: seq<string>) returns (arh: Dict<string>)
    ensures arh == ResponseHeaders(lines)
  {
    arh := [];
    for i := 0 to |lines|
      invariant arh == HeadersOfFirst(lines, i)
    {
      var header := HeaderLine(lines[i]);
      arh := Put(arh, header.0, header.1);
    }
  }

  /** Each headers_list() line as the name and the value it gives. */
  function ParsedLines(lines: seq<string>): seq<(string, string)>
  {
    seq(|lines|, i requires 0 <= i < |lines| => HeaderLine(lines[i]))
  }

  /** The value of the last of the first `n` pairs named `k`: no later one of them has that name. */
  function LastValue(pairs: seq<(string, string)>, k: string, n: nat): (r: Option<string>)
    requires n <= |pairs|
    ensures r.Some? ==> exists i :: 0 <= i < n && pairs[i] == (k, r.value)
                                    && forall j :: i < j < n ==> pairs[j].0 != k
    ensures r.None? ==> forall i :: 0 <= i < n ==> pairs[i].0 != k
  {
    if n == 0 then None
    else if pairs[n - 1].0 == k then Some(pairs[n - 1].1)
    else LastValue(pairs, k, n - 1)
  }

  /**
   * One entry per distinct name, holding the value of the last line with that
   * name: a later line overrides an earlier one.
   */
  lemma ResponseHeadersGet(lines: seq<string>, k: string)
    ensures Distinct(KeysOf(ResponseHeaders(lines)))
    ensures Get(ResponseHeaders(lines), k) == LastValue(ParsedLines(lines), k, |lines|)
  {
    HeadersOfFirstDistinct(lines, |lines|);
    HeadersOfFirstGet(lines, k, |lines|);
  }

  /** The first `n` lines never give two entries the same name. */
  lemma HeadersOfFirstDistinct(lines: seq<string>, n: nat)
    requires n <= |lines|
    ensures Distinct(KeysOf(HeadersOfFirst(lines, n)))
  {
    HeadersOfFirstWrites(lines, n);
    PutAllDistinct(ParsedLines(lines)[..n]);
  }

  /** The loop writes the parsed pairs of the first `n` lines, in order. */
  lemma {:induction false} HeadersOfFirstWrites(lines: seq<string>, n: nat)
    requires n <= |lines|
    ensures HeadersOfFirst(lines, n) == PutAll(ParsedLines(lines)[..n])
  {
    if n > 0 {
      var pairs := ParsedLines(lines)[..n];
      HeadersOfFirstWrites(lines, n - 1);
      assert pairs[..n - 1] == ParsedLines(lines)[..n - 1];
      assert pairs[n - 1] == HeaderLine(lines[n - 1]);
    }
  }

  /** The same for the entries written by the first `n` lines. */
  lemma {:induction false} HeadersOfFirstGet(lines: seq<string>, k: string, n: nat)
    requires n <= |lines|
    ensures Get(HeadersOfFirst(lines, n), k) == LastValue(ParsedLines(lines), k, n)
  {
    if n > 0 {
      var header := HeaderLine(lines[n - 1]);
      assert ParsedLines(lines)[n - 1] == header;
      HeadersOfFirstGet(lines, k, n - 1);
      PutGet(HeadersOfFirst(lines, n - 1), header.0, header.1, k);
    }
  }
}
