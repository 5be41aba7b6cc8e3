# http-logger, modelled in Dafny

http-logger is a small PHP library that logs each HTTP request/response pair
of an API as one tab-separated line in a file. It also catches PHP errors,
buffers them, and reports fatal ones. This project models the library's core
and proves properties of it:

- **Filters.** A filter selects the logged properties. It is one of the preset
  lists `STANDARD`, `FULL`, `REQUEST_ONLY` and `RESPONSE_ONLY`, or a custom
  `|`-separated list of names (`DefaultFilters`, `ParameterFilter`).
- **The request snapshot** (`HttpRequest`). It is built from the server
  variables. Steps modelled:
  - the base path is stripped from the URL, with a `/` fallback;
  - the method comes from the override chain;
  - the 0/1 HTTPS and AJAX flags;
  - the request body is read for POST/PUT/PATCH and memoised;
  - JSON form data is replaced by the decoded body;
  - `get_properties` projects the fields onto a filter list.
- **The response snapshot** (`HttpResponse`). It holds the status code, the
  output buffer (decoded when that gives a truthy value, otherwise flattened
  onto one line) and the response headers.
- **Header helpers** (`HeaderUtils`). The fallback `getallheaders` turns
  `HTTP_*` server variables into header names (`HTTP_USER_AGENT` becomes
  `User-Agent`). The fallback `apache_response_headers` splits each
  `Name: value` line at its first colon.
- **Errors** (`HttpError`, `Errors`).
  - The six-field error record and its ordered property array.
  - The mapping from PHP error codes to a type and a syslog level (section
    6.2.1 of RFC 5424: error 3, warning 4, notice 5).
  - The error handler, the shutdown handler and the fatal path. A fatal error
    sets status 500, logs once, then echoes or dies.
- **The file logger** (`Loggers`). The logging session is a class holding:
  - the filter, the error buffer and the default-log switch;
  - the response status and the header lines;
  - the log file, as the chunks appended to it.

  `Log` writes one record, or one line per buffered error under the `error`
  filter. That line is the request entries, then the response entries, then
  the JSON of the error buffer when it is not empty. Error-only logging
  rewrites each buffer entry in place with its formatted line.
- **The presets and the record** (`FilterCatalog`). Lemmas connect the preset
  lists to the properties the Request and Response actually have.

Shared modules:

- `PhpStrings` models the PHP string functions the code relies on:
  - `explode`/`implode`, `str_replace`, `strtolower`/`strtoupper`;
  - `ucwords`, `trim`, `dirname`.
- `PhpArrays` models ordered PHP arrays with string keys:
  - assignment, `array_merge`;
  - a projection onto a list of names, in which a repeated name keeps its first
    position.

Ambient state becomes explicit input. This covers:

- the `$_SERVER`, `$_REQUEST`, `$_GET`, `$_POST`, `$_COOKIE` and `$_FILES`
  arrays;
- `php://input`;
- the clock (a `date` string per call);
- `http_response_code()`, `ob_get_contents()` and `headers_list()`.

`json_encode` and `json_decode` are uninterpreted function parameters. A
`null` decode stands for a failure.

Where the code is inconsistent, the model resolves it as follows:

- **Filter field.** Request and Response assign `$this->filters` but declare
  `$filter`. The model has one `filters` field.
- **Session state.** `FileLogger` and the error handler use members that
  neither `BaseLogger` nor `HttpLogger` defines: the filter, the error buffer,
  `store_error`, `is_using_default_log`, `create_log_models` and
  `HttpLogger::get()`. All of that state lives in the `FileLogger` class, and
  the handlers take the logger as an argument.
- **Splitting the filter between Request and Response.** `create_log_models`
  is missing. A Request is built with the names that are not response
  properties. A Response is built with those of the filter's names that are
  response properties (`code`, `body`, `response_headers`).
  Under `FULL` and `REQUEST_ONLY` the name `ajax` therefore goes to the
  Request, which has no such property (its flag is `is_ajax`), and it is
  logged as null.
- **`explode` on arrays.** `create_filters` calls `explode` on preset
  constants that are arrays, so as written every preset fails (see
  "## Findings"). The rest of the model uses the intended behaviour: a preset
  selects its list as it stands.
- **The `+h` presets.** They refer to constants that do not exist, so they
  resolve to a failure. `Log` then writes nothing and reports that the call
  did not complete.
- **Other behaviour.** The model follows the code:
  - `STANDARD` is `date, ip, method, url, query, data, code, body` in that
    order;
  - custom names are not validated, and there are no "invalid filter" or
    "session closed" errors;
  - a failing write is swallowed, not reported.

## Model

| member | source | states |
|---|---|---|
| DefaultFilters.FullIsRequestThenResponse | src/Filters/DefaultFilters.php:22-34 | FULL is exactly REQUEST_ONLY followed by RESPONSE_ONLY |
| DefaultFilters.PresetsDistinct | src/Filters/DefaultFilters.php:17-34 | no preset list names a property twice |
| DefaultFilters.StandardWithinFull | src/Filters/DefaultFilters.php:17-24 | every STANDARD name is also in FULL |
| ParameterFilter.DefaultIsStandard | src/Filters/ParameterFilter.php:23-26 | with no arguments the selector is "standard" with headers on, and it resolves to STANDARD |
| ParameterFilter.PresetSelection | src/Filters/ParameterFilter.php:35-49 | each of the four existing presets selects its list whatever the header switch; the three "+h" presets fail |
| ParameterFilter.CustomResolves | src/Filters/ParameterFilter.php:50-51 | any selector that is not one of the seven preset names resolves to its custom split |
| ParameterFilter.CustomFilterSplit | src/Filters/ParameterFilter.php:60-67 | a custom selector always succeeds, with one more name than it has '\|' characters; no name holds '\|', and joining the names with '\|' gives the selector back |
| ParameterFilter.CustomFilterRoundTrip | src/Filters/ParameterFilter.php:60-67 | a non-empty list of names free of '\|', joined with '\|', resolves back to exactly that list |
| ParameterFilter.EmptyNamesKept | src/Filters/ParameterFilter.php:63 | "a\|\|b" gives three names, the middle one empty |
| ParameterFilter.CreateFiltersAsWritten | src/Filters/ParameterFilter.php:33-53 | as written, a selector resolves exactly when it names no preset, and then to its custom split; every preset fails |
| ParameterFilter.DefaultFailsAsWritten | src/Filters/ParameterFilter.php:23-37 | as written, the default selector fails on explode of STANDARD, where the intended resolution gives STANDARD |
| ParameterFilter.HeaderSwitchIgnored | src/Filters/ParameterFilter.php:25-53 | the header switch never changes what a selector resolves to |
| HeaderUtils.HeaderNameClean | src/Utils/HeaderUtils.php:25 | a generated header name contains no '_' and no space |
| HeaderUtils.UserAgentExample | src/Utils/HeaderUtils.php:24-25 | HTTP_USER_AGENT is a header variable and names the header "User-Agent" |
| HeaderUtils.GetAllHeaders | src/Utils/HeaderUtils.php:21-29 | the loop over the server variables builds exactly the fold of the header array |
| HeaderUtils.LastRequestHeader | src/Utils/HeaderUtils.php:23-26 | a value found belongs to some HTTP_ variable with that header name, and no later such variable has it; none found means no HTTP_ variable has that header name |
| HeaderUtils.RequestHeadersGet | src/Utils/HeaderUtils.php:23-26 | looking up a header name gives the value of the last HTTP_ variable with that name, and nothing when there is none: values are copied unchanged and later duplicates win |
| HeaderUtils.RequestHeaderNamesClean | src/Utils/HeaderUtils.php:23-28 | the header array has distinct keys, none of them containing '_' or a space |
| HeaderUtils.HeaderLineAtColon | src/Utils/HeaderUtils.php:48-49 | a line "name:rest" with no colon in the name gives the name and the trimmed rest, later colons kept |
| HeaderUtils.HeaderLineNoColon | src/Utils/HeaderUtils.php:48-49 | a line without a colon is all name, with an empty value |
| HeaderUtils.ApacheResponseHeaders | src/Utils/HeaderUtils.php:44-52 | the loop over the header lines builds exactly the fold of the response-header array |
| HeaderUtils.LastValue | src/Utils/HeaderUtils.php:47-50 | a value found is that of some pair with the key and no later pair has the key; none found means no pair has it |
| HeaderUtils.ResponseHeadersGet | src/Utils/HeaderUtils.php:47-50 | no two entries share a name, and looking up a name gives the value of the last line with that name: later lines override earlier ones |
| HeaderUtils.HeadersOfFirstDistinct | src/Utils/HeaderUtils.php:47-50 | after the first n lines of the loop no two entries share a name |
| HeaderUtils.HeadersOfFirstWrites | src/Utils/HeaderUtils.php:45-50 | after the first n lines the array is what writing their parsed pairs one by one, in order, gives |
| HeaderUtils.HeadersOfFirstGet | src/Utils/HeaderUtils.php:47-50 | after the first n lines, looking up a name gives the value of the last of those lines with that name |
| HttpRequest.GetMethod | src/HttpModels/Request.php:97-109 | the method is always upper case |
| HttpRequest.MethodPrecedence | src/HttpModels/Request.php:97-109 | "_method" beats the override header, which beats REQUEST_METHOD, which defaults to GET; the winner is upper-cased |
| HttpRequest.MethodStable | src/HttpModels/Request.php:108 | upper-casing the method again changes nothing |
| HttpRequest.BasePath | src/HttpModels/Request.php:44 | the base holds no backslash and no space, which are written as '/' and "%20" |
| HttpRequest.RawUrl | src/HttpModels/Request.php:45 | the URL holds no '@', which is written as "%40" |
| HttpRequest.FormattedUrl | src/HttpModels/Request.php:136-145 | the formatted URL is never empty (nor "0") and is "/" or a suffix of the input |
| HttpRequest.FormattedUrlLacks | src/HttpModels/Request.php:136-145 | formatting adds no character other than '/' |
| HttpRequest.FormatUrlStrip | src/HttpModels/Request.php:138-144 | when the base is not "/", is not empty and starts the URL, the URL becomes what follows the base, or "/" when that is empty |
| HttpRequest.FormatUrlKeep | src/HttpModels/Request.php:138-144 | otherwise the URL is kept, or becomes "/" when empty |
| HttpRequest.FormatUrlIdempotent | src/HttpModels/Request.php:136-145 | formatting a formatted URL that no longer starts with the base changes nothing |
| HttpRequest.FormatUrlExamples | src/HttpModels/Request.php:136-145 | "/app/items?x=1" under "/app" is "/items?x=1"; "/app" under "/app" is "/"; nothing is stripped under "/" |
| HttpRequest.RequestBodyGate | src/HttpModels/Request.php:116-129 | the body is present exactly when memoised or the method is POST, PUT or PATCH; it is the input when first read; a second read returns the memo |
| HttpRequest.JsonData | src/HttpModels/Request.php:151-162 | the data changes only to a non-null decode of a present, non-empty body |
| HttpRequest.FlagsExact | src/HttpModels/Request.php:59-60 | is_https is 1 exactly when HTTPS is "on" and 0 otherwise; is_ajax is 1 exactly when X-Requested-With is "XMLHttpRequest" and 0 otherwise |
| HttpRequest.RequestFieldsDistinct | src/HttpModels/Request.php:15-33 | the request properties are nineteen distinct names |
| HttpRequest.LookupNames | src/HttpModels/Request.php:171 | reading a property by name gives that field; "ajax" names no field and reads null |
| HttpRequest.CapturedUrl | src/HttpModels/Request.php:136-145 | the logged URL is non-empty, holds no '@', and is "/" or a suffix of the encoded REQUEST_URI |
| HttpRequest.CapturedData | src/HttpModels/Request.php:151-162 | the logged data is the decoded body exactly when the type is JSON and the body is present, not "" and decodes to non-null; otherwise it is the form data |
| HttpRequest.CapturedMethod | src/HttpModels/Request.php:47 | the logged method is the effective upper-cased method |
| HttpRequest.CapturedMissing | src/HttpModels/Request.php:168-175 | a Request reads any name that is neither "filters" nor one of its properties ("ajax" among them) as null |
| HttpRequest.CapturedHttps | src/HttpModels/Request.php:59 | the logged is_https is 1 or 0 according to HTTPS being "on" |
| HttpRequest.CapturedAjaxFlag | src/HttpModels/Request.php:60 | the logged is_ajax is 1 or 0 according to X-Requested-With being "XMLHttpRequest" |
| HttpRequest.BodyCache.GetRequestBody | src/HttpModels/Request.php:116-129 | returns the memo if set, else reads the input for POST, PUT and PATCH; the input is read at most once |
| HttpRequest.Request.constructor | src/HttpModels/Request.php:40-80 | every property holds the environment's value, the URL formatted and JSON data decoded; the body memo is filled only for JSON requests |
| HttpRequest.Request.FormatUrl | src/HttpModels/Request.php:136-145 | the URL field becomes the formatted URL and nothing else changes |
| HttpRequest.Request.FormatJsonRequestBody | src/HttpModels/Request.php:151-162 | for a JSON content type the data becomes the decode of the body when that body is non-empty and decodes to non-null; the body memo is read only then |
| HttpRequest.Request.GetProperties | src/HttpModels/Request.php:168-175 | the keys are the filter names in order, first position kept for repeats, each mapped to its property |
| HttpResponse.ResponseBody | src/HttpModels/Response.php:52-60 | the body is the decode, or a string holding no newline |
| HttpResponse.ResponseBodyCases | src/HttpModels/Response.php:55-59 | a truthy decode is the body; otherwise, falsy decodes included, the body is the output character for character with newlines as spaces |
| HttpResponse.CapturedFields | src/HttpModels/Response.php:15-30 | only code, body and response_headers are properties; the code is the status given; the body is the decode or newline-free |
| HttpResponse.Response.constructor | src/HttpModels/Response.php:24-45 | the code is the status, the body the decoded or flattened output, the headers those of the header lines, and every name reads as the snapshot says |
| HttpResponse.Response.GetProperties | src/HttpModels/Response.php:67-74 | the keys are the filter names in order, first position kept for repeats, each mapped to its property |
| HttpError.GetProperties | src/HttpModels/Error.php:42-49 | the loop over the declared properties builds exactly the property array |
| HttpError.PropertiesInOrder | src/HttpModels/Error.php:42-49 | the keys are error_type, log_level, error_code, description, file and line, in that order, each holding its constructor argument |
| HttpError.PropertiesInjective | src/HttpModels/Error.php:29-49 | two errors with the same property array are the same error: nothing is lost |
| Errors.MapError | src/Errors/ErrorHandler.php:70-110 | FATAL/LOG_ERR exactly for the five error codes, WARNING/LOG_WARNING for the four warning codes, NOTICE, STRICT and DEPRECATED at LOG_NOTICE for theirs |
| Errors.MapErrorRest | src/Errors/ErrorHandler.php:107-109 | every other code, E_CORE_WARNING among them, is unclassified; the level is LOG_ERR exactly for FATAL |
| Errors.HandlerError | src/Errors/ErrorHandler.php:34-35 | the error carries the code, description, file and line unchanged, and is FATAL exactly when the code is fatal |
| Errors.FatalTest | src/Errors/ErrorHandler.php:43 | the stored "error_type" is "FATAL" exactly for a fatal error |
| Errors.OutputFatalError | src/Errors/ErrorHandler.php:120-134 | the status becomes 500 and the JSON header is added before the one log call, which therefore sees both; the error is echoed when the default log is in use and passed to die otherwise |
| Errors.HandleError | src/Errors/ErrorHandler.php:33-47 | exactly one record is appended first; only a fatal one goes through the fatal path (status 500, JSON header, log seeing the new record, the error echoed as JSON when the log completed); returns false exactly when the default log is in use; a non-fatal one changes nothing else |
| Errors.HandleFatalErrors | src/Errors/ErrorHandler.php:54-62 | for E_ERROR, E_PARSE, E_CORE_ERROR and E_COMPILE_ERROR a FATAL/LOG_ERR record is stored and the fatal path runs (status 500, JSON header, log, the error echoed as JSON when the log completed); otherwise nothing changes |
| Errors.ShutdownCodesFatal | src/Errors/ErrorHandler.php:54-62 | every shutdown code is fatal for map_error, while E_USER_ERROR is fatal but no shutdown code |
| Errors.FatalRecordCode | src/Errors/ErrorHandler.php:120-134 | on the fatal path a filter asking for "code" logs 500 |
| Loggers.FileLogger.constructor | src/Loggers/FileLogger.php:24-28 | the filter, path and default-log switch are stored; the buffer and the file start empty |
| Loggers.FileLogger.StoreError | src/Errors/ErrorHandler.php:38 | the buffer gains exactly the one error at its end |
| Loggers.FileLogger.WriteToFile | src/Loggers/FileLogger.php:74-80 | the file gains the content followed by exactly one newline |
| Loggers.FileLogger.Log | src/Loggers/FileLogger.php:35-48 | under "error" only error lines are written and the buffer rewritten; otherwise exactly one record line is written and the buffer kept; a "+h" filter writes nothing |
| Loggers.FileLogger.BuildRecord | src/Loggers/FileLogger.php:41-44 | the record is the merged request and response properties, then the buffer's JSON when it is not empty |
| Loggers.FileLogger.FormatOutput | src/Loggers/FileLogger.php:56-66 | arrays are written as JSON, scalars as text, all joined with tabs |
| Loggers.FileLogger.LogErrors | src/Loggers/FileLogger.php:87-96 | one line per buffered error in buffer order, each entry replaced by its line; it stops at an entry that is not an array |
| Loggers.ErrorLine | src/Loggers/FileLogger.php:89-93 | an error line holds no newline |
| Loggers.ArrayPrefix | src/Loggers/FileLogger.php:88-89 | counts the leading entries that are arrays, up to the first that is not |
| Loggers.NamesPartition | src/Loggers/FileLogger.php:41 | every filter name goes to exactly one of Request and Response |
| Loggers.NamesMembership | src/Loggers/FileLogger.php:41 | the Request gets the names that are no response property, the Response the others |
| Loggers.RecordLayout | src/Loggers/FileLogger.php:43-44 | a record is the request entries, then the response entries, each in filter order with repeats once, then exactly one more value, the buffer's JSON, only when the buffer is not empty |
| Loggers.RecordCode | src/Loggers/FileLogger.php:43 | a filter that asks for "code" logs the status code under it |
| Loggers.FormatLineColumns | src/Loggers/FileLogger.php:56-66 | n values are joined with n-1 tabs, and splitting at tabs gives the rendered values back when none holds a tab |
| Loggers.ErrorLineColumns | src/Loggers/FileLogger.php:89-93 | an error line has seven columns: the date, then the six error properties in order, newlines as spaces |
| FilterCatalog.FullNamesAreFields | src/Filters/DefaultFilters.php:22-29 | every FULL name but "ajax" is a Request or Response property; "ajax" is neither, and the flag is "is_ajax" |
| FilterCatalog.SidesAt | src/Loggers/FileLogger.php:41 | a filter of request names followed by response names splits exactly at the boundary |
| FilterCatalog.StandardPresetSides | src/Filters/DefaultFilters.php:17-19 | STANDARD gives the Request its first six names and the Response "code" and "body" |
| FilterCatalog.FullSides | src/Filters/DefaultFilters.php:22-24 | FULL gives the Request its first nineteen names and the Response the last three |
| FilterCatalog.RequestOnlySides | src/Filters/DefaultFilters.php:27-29 | REQUEST_ONLY goes wholly to the Request |
| FilterCatalog.ResponseOnlySides | src/Filters/DefaultFilters.php:32-34 | RESPONSE_ONLY goes wholly to the Response |
| FilterCatalog.PresetRecordKeys | src/Loggers/FileLogger.php:43 | under each preset the record keys are exactly the preset, in its order |
| FilterCatalog.RecordKeysAt | src/Loggers/FileLogger.php:43 | a filter with no repeats that splits at a boundary has itself as the record keys |
| FilterCatalog.AjaxLoggedAsNull | src/Filters/DefaultFilters.php:22-29 | under FULL and REQUEST_ONLY the record holds null under "ajax" whatever the request says |
| FilterCatalog.MissingNameAt | src/HttpModels/Request.php:171 | any request-side name that is not a Request property and not a response name is logged as null |
| PhpStrings.SplitCount | src/Filters/ParameterFilter.php:63 | explode gives one more piece than there are separators |
| PhpStrings.SplitPiecesFree | src/Filters/ParameterFilter.php:63 | no piece of explode holds the separator |
| PhpStrings.JoinSplit | src/Filters/ParameterFilter.php:63 | implode of explode gives the string back |
| PhpStrings.SplitJoin | src/Loggers/FileLogger.php:65 | explode of implode gives back pieces free of the separator |
| PhpStrings.SplitAtFirst | src/Utils/HeaderUtils.php:48 | explode splits first at the first separator |
| PhpStrings.Trim | src/Utils/HeaderUtils.php:49 | trim leaves no whitespace at either end |
| PhpStrings.Dirname | src/HttpModels/Request.php:44 | dirname is "/", ".", empty, or a proper prefix without a trailing '/' |
| PhpStrings.ReplaceCharPointwise | src/HttpModels/Response.php:59 | replacing one character by another keeps the length and changes exactly those characters |
| PhpStrings.ReplaceAllJoin | src/Loggers/FileLogger.php:90-93 | replacing in a joined string is replacing in each piece |
| PhpArrays.PutKeys | src/HttpModels/Request.php:171 | assigning a key keeps the key order, adding a new key at the end |
| PhpArrays.PutGet | src/HttpModels/Request.php:171 | after an assignment the key reads the new value and other keys are unchanged |
| PhpArrays.ProjectKeys | src/HttpModels/Request.php:168-175 | a projection's keys are the names, repeats once, in first-occurrence order |
| PhpArrays.ProjectGet | src/HttpModels/Request.php:168-175 | a projection holds f(n) under each listed name and nothing else |
| PhpArrays.ProjectUnique | src/HttpModels/Response.php:67-74 | an array with a projection's keys and values is that projection |
| PhpArrays.MergeGet | src/Loggers/FileLogger.php:43 | array_merge reads a key from the second array when it has it, else from the first |
| PhpArrays.MergeDisjoint | src/Loggers/FileLogger.php:43 | merging arrays with disjoint keys is concatenation |
| PhpArrays.MergeProjections | src/Loggers/FileLogger.php:43 | merging projections onto disjoint names concatenates them, keys in order |
| PhpArrays.DedupProps | src/HttpModels/Request.php:170-171 | the deduplicated names are distinct and the same set |

## Left out

- Ambient reads are parameters, not global state. This covers the superglobals,
  `php://input`, `date()`, `http_response_code()`, `ob_get_contents()` and
  `headers_list()`. A log call takes one date, used by all its lines.
- `json_encode` and `json_decode` are uninterpreted. No JSON round trip is
  claimed.
- `file_put_contents` is the append to `written`. Its swallowed exception and
  any failure to write are not modelled.
- Registering the handlers (`create`) is not modelled.
- `echo`, `header()` and `die` are modelled only through their results:
  - `echo` is the returned string;
  - `header()` appends to the header lines, so a header that PHP would replace
    is appended instead;
  - `die` is the returned `Stop` value. Nothing after it is modelled.
- The native `getallheaders` and `apache_response_headers`, when PHP provides
  them, are not modelled. Neither are the `$as_json` variants.
- `BaseLogger` and `HttpLogger` are subsumed by the `FileLogger` class.
  `HttpLogger::echo_request` is not modelled.
- The warning PHP raises when an undefined property such as `ajax` is read is
  not modelled. The value read is null.
- PHP turns numeric-string names such as "1" into integer keys, which
  `array_merge` renumbers. The model keeps every key a string.
- A `_method` parameter that is an array is not modelled; only string values
  are.
- `dirname` follows its POSIX form. The Windows form is not modelled.
- `initialize()` loops over the property array. The model writes it out as one
  assignment per property.
- HttpRequest.Request.GetProperties and HttpResponse.Response.GetProperties
  state the result, which also holds as "projection is deterministic": the same
  snapshot and filter give the same array.
- Loggers.FileLogger.LogErrors stops when it meets a buffer entry that is no
  longer an array, where `array_merge` throws. This happens in an error-only log
  after an earlier one. The exception's effect on the caller is only the
  returned flag.

## Findings

| source | as written | input that shows it | evidently intended | confidence | as-written member | corrected member |
|---|---|---|---|---|---|---|
| src/Filters/ParameterFilter.php:37-47 | each preset case calls `explode("\|", ...)` on a `DefaultFilters` constant that is an array, which PHP 8 rejects with a TypeError | `new ParameterFilter()` (selector "standard") | the preset selects its array as it stands | not executed; follows from the constants being arrays | ParameterFilter.CreateFiltersAsWritten, ParameterFilter.DefaultFailsAsWritten | ParameterFilter.CreateFilters, ParameterFilter.PresetSelection |
