# JHttpClient in Dafny

A model of the request engine of JHttpClient (package `net.socialhub.http`), a
small synchronous HTTP client library. A caller describes a request: a method,
a URL, an optional array of `HttpParameter`s and an optional header map. Two
ways to do that are modelled: the fluent `HttpRequestBuilder` and the
`HttpClientWrapper` entry points. `HttpClientImpl.request` then does the work:

- it opens a connection, set up from an `HttpClientConfiguration` (proxy,
  proxy authenticator, timeouts, no redirects);
- for a POST it writes the body as multipart/form-data, as one raw file, or as
  an `application/x-www-form-urlencoded` form;
- it classifies the status code as success-class or failure-class, and
  returns the response, throws an `HttpException`, or sleeps and retries.

The modules follow the Java classes:

- `Common` (common.dfy): Java `null` as `Option`, unchecked exceptions as `Result`, `int` wrap-around, ASCII lower-casing, UTF-8 and `DataOutputStream.writeBytes`
- `Configuration` (configuration.dfy): `HttpClientConfiguration` as a record, and the default configuration
- `PercentEncoding` (percent.dfy): `HttpParameter.encode`: `URLEncoder` followed by the fix-up loop; a percent-decoder as its inverse
- `Parameters` (parameter.dfy): `HttpParameter`: constructors, `getContentType`, `isMultipartRequest`, `containsFile`, both `merge` overloads, `compareTo`
- `FormEncoding` (form.dfy): `encodeParameters` and a form reader that inverts it
- `Messages` (messages.dfy): the parts of `HttpRequest` and `HttpResponse` that the client reads
- `Exceptions` (exception.dfy): `HttpException`, a class with three constructors and setters
- `ClientBase` (client_base.dfy): `HttpClientBase`: the proxy predicate and `write`; `getConnection` reduced to a settings value
- `RequestBody` (request_body.dfy): the POST branch of `request`: body selection, multipart framing per section 5.1.1 of RFC 2046, and the byte-writing loops
- `ClientImpl` (client_impl.dfy): `request`: the retry loop over an oracle of network replies; `getInstance`'s cache; `equals`
- `Builder` (builder.dfy): `HttpRequestBuilder`, a class whose setters update its fields, list and map
- `Wrapper` (wrapper.dfy): `HttpClientWrapper`: header overlay, listener notification, one entry point per method

**The network is an oracle.** `request` receives a sequence of `Exchange`s,
one per attempt. An exchange holds the clock reading used for a multipart
boundary and the connection's reply:

- `Unreachable`: an IOException before the body is composed: a malformed
  URL, a refused request method, or a refused connection for a request other
  than POST or for a multipart POST, which write their body only after
  connecting;
- `Broken`: an IOException after the body was composed, perhaps after the
  status code was read. A refused connection for a url-encoded or raw POST is
  `Broken` with no code read, because those bodies are composed before
  `getOutputStream` connects (HttpClientImpl.java:154-157, 170-176);
- `Answered`: a response.

**Specification and implementation.** The pure function `ClientImpl.Run`
states the whole run as a verdict plus a ghost trace of attempts and sleeps.
The method `ClientImpl.HttpClientImpl.Request` runs the loop of the Java code,
with two corrections recorded under "## Findings": the attempt budget does not
wrap, and the POST body is the intended one. It is proved to produce exactly
that verdict and trace. The lemmas
about `Run` state what the retry policy guarantees. The same pattern is used
for:

- the body: `RequestBody.PostBody` versus `RequestBody.WritePostBody`;
- the form: `FormEncoding.FormBody` versus `FormEncoding.EncodeParameters`;
- the encoder: `PercentEncoding.PercentEncode` versus `PercentEncoding.Encode`.

**Constants.** `HttpResponseCode` is not part of this model. Its constants
take the values of section 6 of RFC 7231: OK 200, MULTIPLE_CHOICES 300, FOUND
302, BAD_REQUEST 400 and INTERNAL_SERVER_ERROR 500. ENHANCE_YOUR_CLAIM is 420.

**Where the code decides.**

- *Failure-class codes.* A failure-class code below 500, such as 404 or 301,
  is thrown at once whatever budget is left; only codes of 500 and above are
  retried (HttpClientImpl.java:202-206). See `ClientImpl.Decide`.
- *The multipart selector.* HttpClientImpl.java:110 calls a one-argument
  `isMultipartRequest(params)`, which HttpParameter.java does not define; only
  the two-argument form at lines 160-172 exists. The model passes
  `rawContentTypes` explicitly through the engine. With no raw types, the
  selector is `containsFile`.

## Model

| member | source | states |
|---|---|---|
| Common.Wrap32 | src/main/java/net/socialhub/http/HttpClientImpl.java:97 | Java `int` arithmetic: a value in range is unchanged; otherwise the result is the in-range value congruent modulo 2^32 |
| Common.ToLowerAscii | src/main/java/net/socialhub/http/HttpParameter.java:116 | lower-casing keeps the length; it maps exactly the letters A-Z to a-z and leaves every other character as it is |
| PercentEncoding.FixUpAt | src/main/java/net/socialhub/http/HttpParameter.java:280-293 | one step of the fix-up pass per branch: '*' gives "%2A", '+' gives "%20", "%7E" gives '~' and skips two more, anything else is copied |
| PercentEncoding.FixUpLoop | src/main/java/net/socialhub/http/HttpParameter.java:278-294 | the index loop, with its skip-ahead by two, computes the fix-up pass over the whole string, given input in which every '%' starts a full triplet |
| PercentEncoding.UrlEncoderWellFormed | src/main/java/net/socialhub/http/HttpParameter.java:275-287 | every '%' that URLEncoder emits starts a full %XY triplet, so the `charAt(i + 2)` read stays in bounds |
| PercentEncoding.FixUpByte | src/main/java/net/socialhub/http/HttpParameter.java:282-292 | for each byte, the fix-ups turn URLEncoder's rendering of it into its RFC 3986 rendering |
| PercentEncoding.FixUpUrlEncoder | src/main/java/net/socialhub/http/HttpParameter.java:272-295 | URLEncoder followed by the fix-ups is exactly the percent-encoding of section 2.1 of RFC 3986 with the unreserved set of section 2.3 |
| PercentEncoding.Encode | src/main/java/net/socialhub/http/HttpParameter.java:272-295 | `encode(value)` is the RFC 3986 percent-encoding of the UTF-8 bytes of value |
| PercentEncoding.EncodeVersusUrlEncode | src/main/java/net/socialhub/http/HttpClientImpl.java:238-244 | `HttpClientImpl.encode` (plain URLEncoder) and `HttpParameter.encode` differ only by the fix-up pass |
| PercentEncoding.PercentEncodeAlphabet | src/main/java/net/socialhub/http/HttpParameter.java:272-295 | the output holds only unreserved characters, '%' and upper-case hex digits; never '&', '=', '+', '*' or a space; it is ASCII |
| PercentEncoding.PercentRoundTrip | src/main/java/net/socialhub/http/HttpParameter.java:272-295 | percent-decoding the output gives back the input bytes |
| PercentEncoding.PercentEncodeAppend | src/main/java/net/socialhub/http/HttpParameter.java:280-293 | the encoding works byte by byte: it distributes over concatenation |
| PercentEncoding.EncodeExample | src/main/java/net/socialhub/http/HttpParameter.java:282-289 | " *~" encodes to "%20%2A~": space is %20 and never '+', '*' is %2A, '~' stays literal |
| Parameters.TextParam | src/main/java/net/socialhub/http/HttpParameter.java:42-45 | a text parameter: the name and value, and no file |
| Parameters.FileParam | src/main/java/net/socialhub/http/HttpParameter.java:47-50 | a file parameter with no explicit stream |
| Parameters.StreamParam | src/main/java/net/socialhub/http/HttpParameter.java:52-56 | a file parameter named by the file name, with an explicit byte stream |
| Parameters.LastIndexOf | src/main/java/net/socialhub/http/HttpParameter.java:111 | -1 exactly when the character is absent; otherwise the index of its last occurrence |
| Parameters.LookupByLength | src/main/java/net/socialhub/http/HttpParameter.java:117-137 | branching on the extension's length first agrees with the table gif, png, jpg/jpeg, json, and octet-stream for everything else |
| Parameters.ContentTypeOfName | src/main/java/net/socialhub/http/HttpParameter.java:109-139 | no dot gives application/octet-stream; otherwise the table lookup of the lower-cased text after the last dot |
| Parameters.ContentType | src/main/java/net/socialhub/http/HttpParameter.java:105-108 | a text parameter throws IllegalStateException "not a file"; a file parameter is typed by its file name |
| Parameters.ContentTypeIgnoresCase | src/main/java/net/socialhub/http/HttpParameter.java:116 | a name and its lower-cased form have the same content type (so "a.PNG" is image/png) |
| Parameters.ContentTypeOfExtension | src/main/java/net/socialhub/http/HttpParameter.java:111-116 | only the text after the last dot counts, whatever comes before it (so "a.tar.gz" is looked up as "gz") |
| Parameters.ContentTypeTrailingDot | src/main/java/net/socialhub/http/HttpParameter.java:116-137 | a trailing dot leaves an empty extension, which is application/octet-stream |
| Parameters.ContentTypeJson | src/main/java/net/socialhub/http/HttpParameter.java:128-131 | a name ending in ".json" is application/json |
| Parameters.IsMultipartRequest | src/main/java/net/socialhub/http/HttpParameter.java:160-172 | false without a file; true with a file among several parameters; for a single file, true exactly when its content type is not a raw type; with no raw types, it equals containsFile |
| Parameters.ContainsFile | src/main/java/net/socialhub/http/HttpParameter.java:174-186 | the scan with its early break is true exactly when the array is non-null and some element is a file |
| Parameters.Merge | src/main/java/net/socialhub/http/HttpParameter.java:297-312 | two arrays give their concatenation in order; two nulls give an empty array; one null gives the other array |
| Parameters.MergeOne | src/main/java/net/socialhub/http/HttpParameter.java:314-329 | the parameter is appended at the end, or wrapped alone when the array is null; a null parameter leaves the array |
| Parameters.CompareToProperties | src/main/java/net/socialhub/http/HttpParameter.java:237-245 | compareTo is antisymmetric, fails on the same inputs both ways, and is zero exactly on equal names with equal non-null values |
| FormEncoding.EncodeParameters | src/main/java/net/socialhub/http/HttpParameter.java:247-263 | a null array gives ""; otherwise the loop gives the form body, or the error of the first file ("should be text") or null value |
| FormEncoding.SegmentsSuccess | src/main/java/net/socialhub/http/HttpParameter.java:252-261 | the segments exist exactly when every parameter is text with a value; segment i is encode(name) "=" encode(value) of parameter i |
| FormEncoding.SegmentsEach | src/main/java/net/socialhub/http/HttpParameter.java:252-261 | the array succeeds exactly when every parameter does, and then holds their segments in array order |
| FormEncoding.SegmentsFirstError | src/main/java/net/socialhub/http/HttpParameter.java:252-255 | a failure is the error of a parameter that every earlier parameter passed |
| FormEncoding.JoinCount | src/main/java/net/socialhub/http/HttpParameter.java:256-258 | n strings free of the separator are joined with exactly n - 1 separators |
| FormEncoding.SplitJoin | src/main/java/net/socialhub/http/HttpParameter.java:256-260 | splitting on the separator gives back the joined strings |
| FormEncoding.SegmentRoundTrip | src/main/java/net/socialhub/http/HttpParameter.java:259-260 | a segment contains no '&' and reads back to the UTF-8 name and value |
| FormEncoding.FormBodyRoundTrip | src/main/java/net/socialhub/http/HttpParameter.java:247-263 | for n text parameters the body has n - 1 '&', and reading it back yields every name and value in array order |
| FormEncoding.FormBodyAscii | src/main/java/net/socialhub/http/HttpClientImpl.java:170-174 | the form body is ASCII, so the UTF-8 byte count sent as Content-Length equals its length |
| Exceptions.HttpException.WithCode | src/main/java/net/socialhub/http/HttpException.java:10-14 | message, code and cause set; no response |
| Exceptions.HttpException.WithResponse | src/main/java/net/socialhub/http/HttpException.java:16-19 | message and response set; the code stays at 0, not -1; no cause |
| Exceptions.HttpException.WithCause | src/main/java/net/socialhub/http/HttpException.java:21-25 | message and cause set; no response and code 0 |
| Exceptions.HttpException.SetResponse | src/main/java/net/socialhub/http/HttpException.java:31-33 | only the response changes |
| Exceptions.HttpException.SetResponseCode | src/main/java/net/socialhub/http/HttpException.java:39-41 | only the code changes |
| Exceptions.HttpException.SetMessage | src/main/java/net/socialhub/http/HttpException.java:48-50 | only the message changes |
| ClientBase.DataOutputStream.constructor | src/main/java/net/socialhub/http/HttpClientImpl.java:116 | a new stream has written nothing |
| ClientBase.DataOutputStream.WriteByte | src/main/java/net/socialhub/http/HttpClientImpl.java:127-129 | `write(int)` appends the low-order byte of its argument |
| ClientBase.DataOutputStream.WriteAll | src/main/java/net/socialhub/http/HttpClientImpl.java:144 | `write(byte[])` appends every byte in order |
| ClientBase.DataOutputStream.WriteBytes | src/main/java/net/socialhub/http/HttpClientBase.java:24 | `writeBytes` appends the low-order byte of each character |
| ClientBase.Write | src/main/java/net/socialhub/http/HttpClientBase.java:23-25 | `write` appends exactly one byte per character, the character's low-order byte |
| ClientBase.ConnectionSettings | src/main/java/net/socialhub/http/HttpClientImpl.java:266-307 | a proxy exactly when one is configured; an authenticator exactly when there is also a non-empty user; each timeout exactly when positive; redirects never followed; a proxy port outside 0..65535 fails |
| ClientBase.AuthenticatorAnswer | src/main/java/net/socialhub/http/HttpClientImpl.java:275-287 | the authenticator answers a PROXY requestor with the user and password (a null password is a NullPointerException) and no other requestor |
| ClientBase.DefaultConnection | src/main/java/net/socialhub/http/HttpClientImpl.java:268-305 | the default configuration connects directly, installs no authenticator, applies both timeouts and follows no redirect |
| RequestBody.PostBodySelection | src/main/java/net/socialhub/http/HttpClientImpl.java:109-179 | multipart exactly when the selector holds; a single raw file typed by its name; otherwise url-encoded, which fails exactly on a null value, has Content-Length equal to its length and reads back to the parameters |
| RequestBody.PostBodyAgreement | src/main/java/net/socialhub/http/HttpClientImpl.java:109-182 | the selection as written and the intended one differ exactly on a null array and on a single text parameter |
| RequestBody.SingleTextParameter | src/main/java/net/socialhub/http/HttpClientImpl.java:152-154 | as written, a POST of one text parameter a=b throws "not a file"; intended, its body is the three bytes "a=b" |
| RequestBody.NoParameters | src/main/java/net/socialhub/http/HttpClientImpl.java:110-152 | as written, a POST with a null parameter array throws a NullPointerException; intended, its body is empty |
| RequestBody.MultipartLayout | src/main/java/net/socialhub/http/HttpClientImpl.java:110-149 | the body is the multipart-body of section 5.1.1 of RFC 2046 over the header's boundary, one body part per parameter in order, epilogue CRLF; it fails exactly when a text value is null |
| RequestBody.PartsAsEncapsulation | src/main/java/net/socialhub/http/HttpClientImpl.java:117-147 | the loop's output is the dash-boundary, a CRLF, the body parts separated by delimiter lines, and a CRLF |
| RequestBody.DefaultTextPart | src/main/java/net/socialhub/http/HttpClientImpl.java:134-145 | under the default configuration a text part carries `Content-Type: text/plain; charset=UTF-8` |
| RequestBody.BoundaryWellFormed | src/main/java/net/socialhub/http/HttpClientImpl.java:111 | for every time a Java long can hold, the boundary has 1 to 70 characters, all RFC 2046 bchars, and does not end in a space |
| RequestBody.CopyStream | src/main/java/net/socialhub/http/HttpClientImpl.java:126-129 | the copy loop appends every byte of the stream, in order |
| RequestBody.WriteFilePart | src/main/java/net/socialhub/http/HttpClientImpl.java:119-131 | a file part is the delimiter line, the disposition with name and filename, the type line and a blank line, the bytes, and a CRLF |
| RequestBody.WriteTextHeaders | src/main/java/net/socialhub/http/HttpClientImpl.java:134-142 | the delimiter line, the disposition with the name, the type line only when the form text type is set, and a blank line |
| RequestBody.WriteTextPart | src/main/java/net/socialhub/http/HttpClientImpl.java:133-146 | the headers, the UTF-8 value and a CRLF; a null value fails with a NullPointerException after the headers are written |
| RequestBody.WritePart | src/main/java/net/socialhub/http/HttpClientImpl.java:117-147 | one iteration writes exactly that parameter's part, or fails on a null text value |
| RequestBody.WriteMultipart | src/main/java/net/socialhub/http/HttpClientImpl.java:117-149 | the loop writes all parts in order, then the close delimiter and a CRLF; it stops with the first part's error |
| RequestBody.WritePostBody | src/main/java/net/socialhub/http/HttpClientImpl.java:109-182 | the bytes written and the Content-Type and Content-Length set are the intended body |
| ClientImpl.IsSuccessClass | src/main/java/net/socialhub/http/HttpClientImpl.java:201-211 | a code is success-class exactly when it is in 200..299 or is 302 |
| ClientImpl.Decide | src/main/java/net/socialhub/http/HttpClientImpl.java:201-211 | break exactly on success-class; a failure-class code below 500 throws; one of 500 or more retries exactly when the attempt is not the last allowed |
| ClientImpl.AttemptBudgetAsWritten | src/main/java/net/socialhub/http/HttpClientImpl.java:97 | `retryCount + 1` as a Java int: it wraps to Integer.MIN_VALUE at Integer.MAX_VALUE |
| ClientImpl.AttemptBudget | src/main/java/net/socialhub/http/HttpClientImpl.java:97-99 | the intended budget: one attempt plus `retryCount` retries |
| ClientImpl.BudgetAgreement | src/main/java/net/socialhub/http/HttpClientImpl.java:97 | the two budgets differ only at Integer.MAX_VALUE, where the written one is negative |
| ClientImpl.SleepMillis | src/main/java/net/socialhub/http/HttpClientImpl.java:230 | the sleep is the interval times 1000 whenever that fits in an int |
| ClientImpl.IoStep | src/main/java/net/socialhub/http/HttpClientImpl.java:218-222 | an IOException is swallowed, except on the last attempt allowed, where it becomes HttpException(message, cause, responseCode) |
| ClientImpl.Respond | src/main/java/net/socialhub/http/HttpClientImpl.java:183-211 | a success-class response ends the run with it; a 5xx before the last attempt retries; anything else throws HttpException(body, response) with code 0 |
| ClientImpl.RequestBodyOf | src/main/java/net/socialhub/http/HttpClientImpl.java:109-182 | only POST has a body, and it is the intended POST body or its error |
| ClientImpl.AttemptsOf | src/main/java/net/socialhub/http/HttpClientImpl.java:99-105 | attempt k uses the oracle's exchange k |
| ClientImpl.LoopShape | src/main/java/net/socialhub/http/HttpClientImpl.java:99-234 | the loop makes between one attempt and the budget, separated by sleeps; all but the last asked for a retry, and the last one decides the verdict |
| ClientImpl.AttemptNext | src/main/java/net/socialhub/http/HttpClientImpl.java:201-222 | an attempt that retries was not the last allowed, and got an IOException or a 5xx |
| ClientImpl.AttemptExplains | src/main/java/net/socialhub/http/HttpClientImpl.java:100-230 | the attempt that ends a run explains its verdict, an IOException carrying the status code that attempt read or -1 |
| ClientImpl.RunShape | src/main/java/net/socialhub/http/HttpClientImpl.java:95-236 | a negative retryCount gives no attempt and null; otherwise 1 to retryCount + 1 attempts with one sleep between two, each earlier attempt having got an IOException or a 5xx |
| ClientImpl.RunVerdict | src/main/java/net/socialhub/http/HttpClientImpl.java:95-236 | the verdict is explained by the last attempt. A response is returned only when success-class. An IOException is thrown only on the last attempt allowed, with the status code that attempt read or -1. A failure-class response is thrown only below 500 or on the last attempt. An unchecked exception comes from the sleep, the proxy address or the POST body |
| ClientImpl.RunServerErrors | src/main/java/net/socialhub/http/HttpClientImpl.java:201-234 | a server that always answers 5xx gets exactly retryCount + 1 attempts, and the run throws the last response |
| ClientImpl.DefaultSingleAttempt | src/main/java/net/socialhub/http/HttpClientImpl.java:97-99 | with the default configuration a run is one attempt and no sleep |
| ClientImpl.BudgetOverflow | src/main/java/net/socialhub/http/HttpClientImpl.java:97-99 | at retryCount = Integer.MAX_VALUE the written loop never runs and returns null; the intended one attempts and never returns null |
| ClientImpl.HttpClientImpl.constructor | src/main/java/net/socialhub/http/HttpClientImpl.java:68-70 | the client keeps the configuration it was given |
| ClientImpl.HttpClientImpl.Compose | src/main/java/net/socialhub/http/HttpClientImpl.java:109-182 | composing the body of one attempt gives the body RequestBodyOf states |
| ClientImpl.HttpClientImpl.Caught | src/main/java/net/socialhub/http/HttpClientImpl.java:218-222 | the catch throws a new HttpException holding the message, cause and code on the last attempt, and otherwise goes on to the sleep |
| ClientImpl.HttpClientImpl.AttemptOnce | src/main/java/net/socialhub/http/HttpClientImpl.java:100-223 | one pass of the loop body does what Attempt states: the body sent, and whether it retries or leaves with which outcome |
| ClientImpl.HttpClientImpl.Request | src/main/java/net/socialhub/http/HttpClientImpl.java:95-236 | the outcome realizes the verdict of Run (the loop with the corrected budget and POST body of "## Findings") and the ghost trace is Run's trace; a thrown exception is a new object |
| ClientImpl.HttpClientImpl.Get | src/main/java/net/socialhub/http/HttpClientImpl.java:87-89 | a GET of the URL, with no parameters and no headers |
| ClientImpl.HttpClientImpl.Post | src/main/java/net/socialhub/http/HttpClientImpl.java:91-93 | a POST of the URL with the parameters and no headers |
| ClientImpl.HttpClientImpl.Equals | src/main/java/net/socialhub/http/HttpClientBase.java:27-37 | two clients are equal exactly when their configurations are |
| ClientImpl.InstanceCache.constructor | src/main/java/net/socialhub/http/HttpClientImpl.java:76 | the cache starts empty |
| ClientImpl.InstanceCache.GetInstance | src/main/java/net/socialhub/http/HttpClientImpl.java:78-85 | a hit returns the cached client and changes nothing; a miss adds exactly one new client, for that configuration; every cached client is for its key |
| Builder.ArgParam | src/main/java/net/socialhub/http/HttpRequestBuilder.java:51-58 | a File value gives a file parameter, any other object a text parameter of its toString(), null a NullPointerException |
| Builder.JsonParam | src/main/java/net/socialhub/http/HttpRequestBuilder.java:70-74 | a stream parameter named "json" carrying the bytes of the text, whose inferred type is application/json |
| Builder.UrlOf | src/main/java/net/socialhub/http/HttpRequestBuilder.java:139-146 | the URL starts with the host ("null" when unset), followed by the path when one is set |
| Builder.FinalHeaders | src/main/java/net/socialhub/http/HttpRequestBuilder.java:125-131 | Accept is set to the media type and User-Agent to the user agent, each only when set and overriding an earlier value; every other key is unchanged |
| Builder.BuiltRequest | src/main/java/net/socialhub/http/HttpRequestBuilder.java:133-135 | the request carries the method and URL; an empty parameter list or an empty header map is passed as null |
| Builder.BuiltHeadersNeverNull | src/main/java/net/socialhub/http/HttpRequestBuilder.java:129-135 | while a user agent is set, the header map sent is never null and holds User-Agent |
| Builder.ReplaceAbsent | src/main/java/net/socialhub/http/HttpRequestBuilder.java:92 | a path without the placeholder is unchanged |
| Builder.ReplaceFirstPlaceholder | src/main/java/net/socialhub/http/HttpRequestBuilder.java:91-94 | the text before the first occurrence of "{key}" is kept (other placeholders in it included), that occurrence becomes the value, and the scan goes on after it |
| Builder.SecondPlaceholder | src/main/java/net/socialhub/http/HttpRequestBuilder.java:91-94 | `pathValue("b", v)` on "/{a}/{b}" gives "/{a}/" followed by v: an earlier placeholder for another key is kept |
| Builder.HttpRequestBuilder.constructor | src/main/java/net/socialhub/http/HttpRequestBuilder.java:15-35 | a new builder has the given configuration, no host, path or media type, user agent "JHttpClient/1.0", and no parameters or headers |
| Builder.HttpRequestBuilder.WithDefaults | src/main/java/net/socialhub/http/HttpRequestBuilder.java:29-31 | the same, with the default configuration |
| Builder.HttpRequestBuilder.Target | src/main/java/net/socialhub/http/HttpRequestBuilder.java:37-40 | only the host changes |
| Builder.HttpRequestBuilder.Path | src/main/java/net/socialhub/http/HttpRequestBuilder.java:42-45 | only the path changes |
| Builder.HttpRequestBuilder.Param | src/main/java/net/socialhub/http/HttpRequestBuilder.java:47-58 | one parameter is appended at the end and nothing else changes; a null value throws and changes nothing |
| Builder.HttpRequestBuilder.File | src/main/java/net/socialhub/http/HttpRequestBuilder.java:60-63 | a file parameter is appended and nothing else changes |
| Builder.HttpRequestBuilder.FileStream | src/main/java/net/socialhub/http/HttpRequestBuilder.java:65-68 | a stream parameter is appended and nothing else changes |
| Builder.HttpRequestBuilder.Json | src/main/java/net/socialhub/http/HttpRequestBuilder.java:70-74 | the JSON parameter is appended and nothing else changes |
| Builder.HttpRequestBuilder.UserAgent | src/main/java/net/socialhub/http/HttpRequestBuilder.java:76-79 | only the user agent changes |
| Builder.HttpRequestBuilder.Request | src/main/java/net/socialhub/http/HttpRequestBuilder.java:81-84 | only the media type changes |
| Builder.HttpRequestBuilder.Header | src/main/java/net/socialhub/http/HttpRequestBuilder.java:86-89 | only that key of the header map is set or overwritten |
| Builder.HttpRequestBuilder.PathValue | src/main/java/net/socialhub/http/HttpRequestBuilder.java:91-94 | every "{key}" in the path is replaced by the value; a null path throws and changes nothing |
| Builder.HttpRequestBuilder.GetUrl | src/main/java/net/socialhub/http/HttpRequestBuilder.java:139-146 | the URL the StringBuilder assembles is UrlOf of host and path |
| Builder.HttpRequestBuilder.PutStandardHeaders | src/main/java/net/socialhub/http/HttpRequestBuilder.java:125-131 | the header writes of proceed persist in the builder's own map, as FinalHeaders states |
| Builder.HttpRequestBuilder.Proceed | src/main/java/net/socialhub/http/HttpRequestBuilder.java:96-137 | the headers are updated, and the built request is run on a new client for the builder's configuration with the outcome of Run |
| Wrapper.Notifications | src/main/java/net/socialhub/http/HttpClientWrapper.java:57-72 | exactly one event for a returned response or an HttpException, carrying it, and none for an unchecked exception |
| Wrapper.MergedHeaders | src/main/java/net/socialhub/http/HttpClientWrapper.java:98-101 | the keys of both maps; a per-call value wins; a null per-call map gives the wrapper's map |
| Wrapper.HttpClientWrapper.constructor | src/main/java/net/socialhub/http/HttpClientWrapper.java:47-51 | a client for the configuration, an empty header map, no listener |
| Wrapper.HttpClientWrapper.WithDefaults | src/main/java/net/socialhub/http/HttpClientWrapper.java:41-45 | the same with the default configuration |
| Wrapper.HttpClientWrapper.SetHttpResponseListener | src/main/java/net/socialhub/http/HttpClientWrapper.java:74-76 | the listener is replaced |
| Wrapper.HttpClientWrapper.Request | src/main/java/net/socialhub/http/HttpClientWrapper.java:57-72 | the client's outcome is passed on unchanged (the same exception object), and a set listener receives exactly the Notifications of it |
| Wrapper.HttpClientWrapper.Get | src/main/java/net/socialhub/http/HttpClientWrapper.java:80-86 | a GET with the wrapper's header map |
| Wrapper.HttpClientWrapper.Post | src/main/java/net/socialhub/http/HttpClientWrapper.java:90-96 | a POST with the wrapper's header map |
| Wrapper.HttpClientWrapper.PostWithHeaders | src/main/java/net/socialhub/http/HttpClientWrapper.java:98-102 | a POST with the merged header map; the wrapper's own map is left as it was |
| Wrapper.HttpClientWrapper.Delete | src/main/java/net/socialhub/http/HttpClientWrapper.java:106-112 | a DELETE with the wrapper's header map |
| Wrapper.HttpClientWrapper.Head | src/main/java/net/socialhub/http/HttpClientWrapper.java:116-122 | a HEAD with the wrapper's header map |
| Wrapper.HttpClientWrapper.Put | src/main/java/net/socialhub/http/HttpClientWrapper.java:126-132 | a PUT with the wrapper's header map |

## Left out

- Network and stream I/O (`HttpURLConnection`, `getOutputStream`, `getResponseCode`, `FileInputStream`) are replaced by the oracle of exchanges and by file contents given as byte sequences. `Request` requires an exchange for every attempt the budget allows.
- IO failures while the body is written are folded into the `Broken` reply, which comes after the body is composed. So a failure part-way through the writes, or a missing file, appears as an IOException of a fully composed attempt.
- `Thread.sleep` timing and `InterruptedException` are left out. Sleeps appear only as `Slept` events in the ghost trace; a negative argument is modelled as the IllegalArgumentException it raises.
- `System.currentTimeMillis` is the `millis` field of each exchange.
- Logging is left out, including the debug-only `res.asString()` and the header dumps.
- The static Android keep-alive initialiser is left out.
- The JVM-wide effect of `Authenticator.setDefault` is left out. Only the decision to install an authenticator, and its answer, are modelled.
- `HttpResponseImpl`/`HttpResponse`, `HttpRequest`, `HttpResponseCode`, `HttpClientFactory` and `HttpResponseListener` are not part of this model. A response is its code and body text; a listener is a class that records the events it receives.
- `HttpClientWrapper` obtains its client from `HttpClientFactory.getInstance`; the model gives the wrapper a fresh `HttpClientImpl` for its configuration.
- `setHeaders` copies the request headers onto the connection. Connection properties are not modelled, so those headers have no effect beyond the request value.
- `PATCH` is refused by `HttpURLConnection.setRequestMethod`. The model does not distinguish it from the other methods without a body.
- A caller's `InputStream` is drained by the first attempt. The model sends the same bytes on every attempt, so a retried multipart or raw upload with a stream is more successful in the model than in Java.
- Java strings are UTF-16, and `getBytes("UTF-8")` of an unpaired surrogate is not modelled. Characters are Unicode scalar values.
- `toLowerCase` is locale-sensitive; the model lower-cases ASCII letters only.
- `json(s)` uses `String.getBytes()` with the platform charset; the model takes UTF-8.
- `new File(fileName).getName()` drops any directory part of the name; the model uses the file name as given.
- The numeric and boolean `HttpParameter` constructors and `getParameterArray` are left out. They only render a value as text first.
- `equals`, `hashCode` and `toString` of `HttpParameter`, `HttpClientWrapper` and `HttpClientBase` are left out, apart from client equality on configurations (`Equals`).
- The `containsFile(List)` overload is left out; it is the array scan without the null check.
- Parameters.Merge: a null argument returns the other array itself in Java. The model returns an equal sequence, so aliasing is not captured.
- A configuration is a value, so the cache and `equals` compare configurations by value. The default configuration class does not override `equals`, so Java compares those by identity.
- A null name in a parameter, a null key or value in a header map, and null builder arguments other than `param`'s value and the path of `pathValue` are not modelled.
- A null `rawContentTypes` array is not modelled.
- A null element inside an `HttpParameter[]` is not modelled. In Java it throws a NullPointerException at `isFile()` in `containsFile`, in `encodeParameters` and in the multipart loop (HttpParameter.java:179-183, 252; HttpClientImpl.java:117-119).
- A null stream given to the three-argument `HttpParameter` constructor is not modelled. Java then falls back to opening the named file (HttpParameter.java:52-56; HttpClientImpl.java:123-125, 159-161); the model always carries the stream's bytes.
- Builder.UrlOf: `assert host != null` in `getUrl` is left out. The model follows a JVM run without assertions enabled (`-ea`), where an unset host makes the URL start with "null".
- ClientImpl.HttpClientImpl.Request: runs the loop with the corrected budget (`AttemptBudget`) and the corrected POST body (`PostBody` via `RequestBodyOf`), not as written. It therefore disagrees with Java on three inputs: with retryCount = Integer.MAX_VALUE Java returns null without an attempt; a POST with a null parameter array throws a NullPointerException in Java; a POST with a single text parameter throws "not a file" in Java. `Builder.HttpRequestBuilder.Proceed` and every `Wrapper.HttpClientWrapper` entry point inherit these differences. The behaviour as written is stated by `ClientImpl.RunAsWritten` (the budget) and `RequestBody.PostBodyAsWritten` (the body), with `BudgetOverflow`, `NoParameters` and `SingleTextParameter`.
- Builder.ReplaceAll models `String.replaceAll` for a key without regular-expression metacharacters and a value without `$` or `\`. Regular-expression semantics are left out.
- The fluent setters' `return this` is left out; each setter updates the receiver.
- `get`, `post`, `delete`, `head`, `put` and `patch` of the builder are all `Proceed` with the matching method.
- A text value containing the boundary is not excluded from a multipart body.
- A null IOException message is modelled as a string.
- Building the query string of a non-POST request belongs to `HttpRequest`, which is not part of this model, and is left out. The URL the model opens does not carry those parameters.
- ClientImpl.HttpClientImpl.AttemptOnce: on a `Broken` reply after the status code was read, Java has already replaced `res`; the model keeps the earlier `res`. The difference cannot be observed, because `res` is returned only after the budget is exhausted, which the intended budget never reaches with a retry.
- ClientImpl.HttpClientImpl.Shutdown has no ensures: it changes nothing, as its empty frame says.
- The `finally` that closes the output stream (and swallows the NullPointerException when there is none) is left out.
- PercentEncoding.FixUpLoop requires its input to have well-formed `%XY` triplets, as URLEncoder output does (`UrlEncoderWellFormed`). Other input could make the loop read past the end; that case is not modelled.
- ClientImpl.SleepMillis states the product only when it fits in an int; outside that range it is the wrapped value.

## Findings

| source | as written | input that shows it | evidently intended | confidence | as-written member | corrected member |
|---|---|---|---|---|---|---|
| src/main/java/net/socialhub/http/HttpClientImpl.java:152-154 | a non-multipart POST with exactly one parameter is always sent raw, via `getContentType` | a POST with the single text parameter a=b: `getContentType` throws IllegalStateException "not a file" | only a single file is sent raw; a single text parameter is url-encoded as "a=b" | high; not executed | RequestBody.SingleTextParameter | RequestBody.PostBodySelection |
| src/main/java/net/socialhub/http/HttpClientImpl.java:97-99 | `retry = retryCount + 1` is an int addition | retryCount = Integer.MAX_VALUE: retry wraps to Integer.MIN_VALUE, the loop never runs, and `request` returns null without contacting the server | at least one attempt, and never a null result | medium; not executed | ClientImpl.BudgetOverflow | ClientImpl.RunShape |
| src/main/java/net/socialhub/http/HttpClientImpl.java:152 | `req.getParameters().length` is read without a null check | `post(url)` on the wrapper or the client, or a builder `post()` with no parameters: NullPointerException | an empty url-encoded body, as `encodeParameters` gives for a null array | high; not executed | RequestBody.NoParameters | RequestBody.PostBodySelection |
