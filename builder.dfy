/**
 * HttpRequestBuilder: a fluent builder whose setters assign its fields, grow
 * its parameter list and update its header map, and whose `proceed`
 * assembles an HttpRequest and hands it to a new HttpClientImpl.
 */
module Builder {
  import opened Common
  import opened Configuration
  import opened Parameters
  import opened Messages
  import opened ClientImpl

  const DEFAULT_USER_AGENT: string := "JHttpClient/1.0"

  /** The value given to param/query: a java.io.File, another object (its toString()), or null. */
  datatype Arg = FileArg(file: File) | ObjectArg(text: string) | NullArg

  /** The fields of a builder at one moment. */
  datatype BuilderState = BuilderState(
    host: Option<string>,
    path: Option<string>,
    mediaType: Option<string>,
    userAgent: Option<string>,
    params: seq<Param>,
    header: map<string, string>)

  /** The parameter param(key, value) appends: a file parameter for a File, otherwise a text parameter. */
  function ArgParam(key: string, value: Arg): (r: Result<Param, RuntimeError>)
    ensures value.NullArg? <==> r.Failure?
    ensures r.Failure? ==> r.error == NullPointer
    ensures r.Success? ==> r.value.name == key && (r.value.IsFile() <==> value.FileArg?)
    ensures value.FileArg? ==> r == Success(FileParam(key, value.file))
    ensures value.ObjectArg? ==> r == Success(TextParam(key, value.text))
  {
    match value
    case FileArg(f) => Success(FileParam(key, f))
    case ObjectArg(t) => Success(TextParam(key, t))
    case NullArg => Failure(NullPointer)
  }

  /** The parameter json(s) appends: a stream named "json" with file name "param.json" and the bytes of s. */
  function JsonParam(json: string): (p: Param)
    ensures p.name == "json" && p.IsFile() && p.HasFileBody()
    ensures FileBytes(p) == Utf8(json)
    ensures ContentType(p) == Success(APPLICATION_JSON)
  {
    ContentTypeJson("param.json");
    StreamParam("json", "param.json", Utf8(json))
  }

  /** getUrl: the host (the text "null" when unset) followed by the path when one is set. */
  function UrlOf(host: Option<string>, path: Option<string>): (r: string)
    ensures var h := if host.Some? then host.value else "null";
      && h <= r
      && (path.None? ==> r == h)
      && (path.Some? ==> r[|h|..] == path.value)
  {
    var h := if host.Some? then host.value else "null";
    if path.Some? then h + path.value else h
  }

  /**
   * The header map after proceed: Accept set to the media type and
   * User-Agent to the user agent, each only when set and overriding an
   * earlier value; every other key as it was.
   */
  function FinalHeaders(header: map<string, string>, mediaType: Option<string>, userAgent: Option<string>): (h: map<string, string>)
    ensures mediaType.Some? ==> "Accept" in h && h["Accept"] == mediaType.value
    ensures userAgent.Some? ==> "User-Agent" in h && h["User-Agent"] == userAgent.value
    ensures mediaType.None? ==> ("Accept" in h <==> "Accept" in header)
    ensures mediaType.None? && "Accept" in header ==> h["Accept"] == header["Accept"]
    ensures userAgent.None? ==> ("User-Agent" in h <==> "User-Agent" in header)
    ensures userAgent.None? && "User-Agent" in header ==> h["User-Agent"] == header["User-Agent"]
    ensures forall k :: k != "Accept" && k != "User-Agent" ==> (k in h <==> k in header)
    ensures forall k :: k in header && k != "Accept" && k != "User-Agent" ==> h[k] == header[k]
  {
    var withAccept := if mediaType.Some? then header["Accept" := mediaType.value] else header;
    if userAgent.Some? then withAccept["User-Agent" := userAgent.value] else withAccept
  }

  /** The request proceed sends: an empty parameter list and an empty header map are passed as null. */
  function BuiltRequest(verb: RequestMethod, s: BuilderState): (req: HttpRequest)
    ensures req.verb == verb && req.url == UrlOf(s.host, s.path)
    ensures req.parameters.None? <==> s.params == []
    ensures req.parameters.Some? ==> req.parameters.value == s.params
    ensures req.requestHeaders.None? <==> s.header == map[]
    ensures req.requestHeaders.Some? ==> req.requestHeaders.value == s.header
  {
    HttpRequest(verb, UrlOf(s.host, s.path),
      if s.params == [] then None else Some(s.params),
      if s.header == map[] then None else Some(s.header))
  }

  /**
   * A builder always sends a User-Agent unless it was set to null, so the
   * header map of a request it builds is never null in that case.
   */
  lemma BuiltHeadersNeverNull(verb: RequestMethod, s: BuilderState)
    requires s.userAgent.Some?
    ensures var sent := s.(header := FinalHeaders(s.header, s.mediaType, s.userAgent));
      BuiltRequest(verb, sent).requestHeaders.Some?
  {
    var h := FinalHeaders(s.header, s.mediaType, s.userAgent);
    assert "User-Agent" in h;
  }

  /**
   * String.replaceAll of the literal `pat` by the literal `v`: occurrences
   * found left to right, each replaced, the scan going on after it.
   */
  function ReplaceAll(s: string, pat: string, v: string): string
    requires |pat| > 0
    decreases |s|
  {
    if |s| < |pat| then s
    else if s[..|pat|] == pat then v + ReplaceAll(s[|pat|..], pat, v)
    else [s[0]] + ReplaceAll(s[1..], pat, v)
  }

  /** `pat` occurs in s at index i. */
  predicate OccursAt(s: string, pat: string, i: int) {
    0 <= i && i + |pat| <= |s| && s[i..i + |pat|] == pat
  }

  /** A string in which the pattern does not occur is left unchanged. */
  lemma {:induction false} ReplaceAbsent(s: string, pat: string, v: string)
    requires |pat| > 0
    requires forall i :: !OccursAt(s, pat, i)
    ensures ReplaceAll(s, pat, v) == s
    decreases |s|
  {
    if |s| >= |pat| {
      assert !OccursAt(s, pat, 0);
      forall i
        ensures !OccursAt(s[1..], pat, i)
      {
        if OccursAt(s[1..], pat, i) {
          assert s[1..][i..i + |pat|] == s[i + 1..i + 1 + |pat|];
          assert OccursAt(s, pat, i + 1);
        }
      }
      ReplaceAbsent(s[1..], pat, v);
      assert s == [s[0]] + s[1..];
    }
  }

  /** Replacement distributes over a prefix that is the pattern itself. */
  lemma ReplaceLeading(rest: string, pat: string, v: string)
    requires |pat| > 0
    ensures ReplaceAll(pat + rest, pat, v) == v + ReplaceAll(rest, pat, v)
  {
    assert (pat + rest)[..|pat|] == pat;
    assert (pat + rest)[|pat|..] == rest;
  }

  /** The pattern pathValue(key, value) looks for: the key between braces. */
  function Placeholder(key: string): (r: string)
    ensures |r| == |key| + 2 && r[0] == '{' && r[|r| - 1] == '}'
  {
    "{" + key + "}"
  }

  /**
   * When the pattern first occurs in `before + (pat + after)` right after
   * `before`, that prefix is kept, the occurrence becomes the value, and the
   * scan goes on after it.
   */
  lemma {:induction false} ReplaceAfterPrefix(before: string, pat: string, after: string, v: string)
    requires |pat| > 0
    requires forall i :: 0 <= i < |before| ==> !OccursAt(before + (pat + after), pat, i)
    ensures ReplaceAll(before + (pat + after), pat, v) == before + (v + ReplaceAll(after, pat, v))
    decreases |before|
  {
    if before == [] {
      AppendEmpty(pat + after);
      AppendEmpty(v + ReplaceAll(after, pat, v));
      ReplaceLeading(after, pat, v);
    } else {
      var c, b1 := before[0], before[1..];
      var tail, out := pat + after, v + ReplaceAll(after, pat, v);
      var s := before + tail;
      assert !OccursAt(s, pat, 0);
      assert s[1..] == b1 + tail;
      forall i | 0 <= i < |b1|
        ensures !OccursAt(b1 + tail, pat, i)
      {
        if OccursAt(b1 + tail, pat, i) {
          assert (b1 + tail)[i..i + |pat|] == s[i + 1..i + 1 + |pat|];
          assert OccursAt(s, pat, i + 1);
        }
      }
      ReplaceAfterPrefix(b1, pat, after, v);
      assert ReplaceAll(s, pat, v) == [c] + ReplaceAll(b1 + tail, pat, v);
      assert before == [c] + b1;
      AppendAssoc([c], b1, out);
    }
  }

  /**
   * pathValue at the first occurrence of the placeholder: the text before it
   * is kept, the placeholder becomes the value, and the scan goes on after it.
   */
  lemma ReplaceFirstPlaceholder(before: string, key: string, after: string, value: string)
    requires forall i :: 0 <= i < |before| ==> !OccursAt(before + Placeholder(key) + after, Placeholder(key), i)
    ensures ReplaceAll(before + Placeholder(key) + after, Placeholder(key), value)
      == before + value + ReplaceAll(after, Placeholder(key), value)
  {
    var pat := Placeholder(key);
    AppendAssoc(before, pat, after);
    ReplaceAfterPrefix(before, pat, after, value);
    AppendAssoc(before, value, ReplaceAll(after, pat, value));
  }

  /** pathValue("b", v) on "/{a}/{b}" keeps the earlier placeholder "{a}". */
  lemma SecondPlaceholder(value: string)
    ensures ReplaceAll("/{a}/{b}", Placeholder("b"), value) == "/{a}/" + value
  {
    var before, after := "/{a}/", "";
    assert before + Placeholder("b") + after == "/{a}/{b}";
    forall i | 0 <= i < |before|
      ensures !OccursAt("/{a}/{b}", Placeholder("b"), i)
    {
      assert "/{a}/{b}"[i + 1] != 'b';
    }
    ReplaceFirstPlaceholder(before, "b", after, value);
    assert ReplaceAll(after, Placeholder("b"), value) == "";
    assert before + value + "" == before + value;
  }

  class HttpRequestBuilder {
    var host: Option<string>
    var path: Option<string>
    var mediaType: Option<string>
    var userAgent: Option<string>
    const config: Config
    var params: seq<Param>
    var header: map<string, string>

    function State(): BuilderState
      reads this
    {
      BuilderState(host, path, mediaType, userAgent, params, header)
    }

    /** HttpRequestBuilder(config): no host, path or media type, the default user agent, no parameters or headers. */
    constructor (config: Config)
      ensures this.config == config
      ensures State() == BuilderState(None, None, None, Some(DEFAULT_USER_AGENT), [], map[])
    {
      this.config := config;
      host := None;
      path := None;
      mediaType := None;
      userAgent := Some(DEFAULT_USER_AGENT);
      params := [];
      header := map[];
    }

    /** HttpRequestBuilder(): the same with the default configuration. */
    constructor WithDefaults()
      ensures config == Default
      ensures State() == BuilderState(None, None, None, Some(DEFAULT_USER_AGENT), [], map[])
    {
      config := Default;
      host := None;
      path := None;
      mediaType := None;
      userAgent := Some(DEFAULT_USER_AGENT);
      params := [];
      header := map[];
    }

    method Target(uri: Option<string>)
      modifies this
      ensures State() == old(State()).(host := uri)
    {
      host := uri;
    }

    method Path(path: Option<string>)
      modifies this
      ensures State() == old(State()).(path := path)
    {
      this.path := path;
    }

    /** param(key, value), and query, which does the same: one parameter appended at the end; a null value throws and changes nothing. */
    method Param(key: string, value: Arg) returns (r: Result<(), RuntimeError>)
      modifies this
      ensures r.Success? <==> ArgParam(key, value).Success?
      ensures r.Failure? ==> r.error == NullPointer && State() == old(State())
      ensures r.Success? ==> State() == old(State()).(params := old(params) + [ArgParam(key, value).value])
    {
      if value.FileArg? {
        params := params + [FileParam(key, value.file)];
      } else if value.ObjectArg? {
        params := params + [TextParam(key, value.text)];
      } else {
        return Failure(NullPointer);
      }
      return Success(());
    }

    /** file(key, file): a file parameter appended. */
    method File(key: string, file: Parameters.File)
      modifies this
      ensures State() == old(State()).(params := old(params) + [FileParam(key, file)])
    {
      params := params + [FileParam(key, file)];
    }

    /** file(key, fileBody, fileName): a stream parameter appended. */
    method FileStream(key: string, fileBody: seq<byte>, fileName: string)
      modifies this
      ensures State() == old(State()).(params := old(params) + [StreamParam(key, fileName, fileBody)])
    {
      params := params + [StreamParam(key, fileName, fileBody)];
    }

    /** json(s): the JSON text appended as an application/json stream. */
    method Json(json: string)
      modifies this
      ensures State() == old(State()).(params := old(params) + [JsonParam(json)])
    {
      params := params + [StreamParam("json", "param.json", Utf8(json))];
    }

    method UserAgent(userAgent: Option<string>)
      modifies this
      ensures State() == old(State()).(userAgent := userAgent)
    {
      this.userAgent := userAgent;
    }

    /** request(mediaType): the media type sent as Accept. */
    method Request(mediaType: Option<string>)
      modifies this
      ensures State() == old(State()).(mediaType := mediaType)
    {
      this.mediaType := mediaType;
    }

    /** header(key, value): key set or overwritten, every other key kept. */
    method Header(key: string, value: string)
      modifies this
      ensures State() == old(State()).(header := old(header)[key := value])
    {
      header := header[key := value];
    }

    /** pathValue(key, value): every "{key}" in the path replaced by value; a null path throws. */
    method PathValue(key: string, value: string) returns (r: Result<(), RuntimeError>)
      modifies this
      ensures r.Failure? <==> old(path).None?
      ensures r.Failure? ==> r.error == NullPointer && State() == old(State())
      ensures r.Success? ==> State() == old(State()).(path := Some(ReplaceAll(old(path).value, Placeholder(key), value)))
    {
      if path.None? {
        return Failure(NullPointer);
      }
      path := Some(ReplaceAll(path.value, Placeholder(key), value));
      return Success(());
    }

    /** getUrl */
    method GetUrl() returns (url: string)
      ensures url == UrlOf(host, path)
    {
      var builder := if host.Some? then host.value else "null";
      if path.Some? {
        builder := builder + path.value;
      }
      return builder;
    }

    /** The header writes of proceed: Accept when a media type is set, User-Agent when a user agent is set. */
    method PutStandardHeaders()
      modifies this
      ensures State() == old(State()).(header := FinalHeaders(old(header), old(mediaType), old(userAgent)))
    {
      if mediaType.Some? {
        header := header["Accept" := mediaType.value];
      }
      if userAgent.Some? {
        header := header["User-Agent" := userAgent.value];
      }
    }

    /**
     * proceed(method): put Accept and User-Agent into the builder's own
     * header map, build the request, and run it on a new client for the
     * builder's configuration.
     */
    method Proceed(verb: RequestMethod, raw: seq<string>, oracle: seq<Exchange>) returns (outcome: Outcome, ghost trace: seq<Event>)
      requires AttemptBudget(config.retryCount) <= |oracle|
      modifies this
      ensures State() == old(State()).(header := FinalHeaders(old(header), old(mediaType), old(userAgent)))
      ensures Realizes(outcome, Run(config, BuiltRequest(verb, State()), raw, oracle).0)
      ensures trace == Run(config, BuiltRequest(verb, State()), raw, oracle).1
      ensures outcome.Thrown? ==> fresh(outcome.e)
    {
      var client := new HttpClientImpl(config);
      PutStandardHeaders();
      var url := GetUrl();
      var request := HttpRequest(verb, url,
        if params == [] then None else Some(params),
        if header == map[] then None else Some(header));
      assert request == BuiltRequest(verb, State());
      outcome, trace := client.Request(request, raw, oracle);
    }
  }
}
