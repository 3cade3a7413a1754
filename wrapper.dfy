/**
 * HttpClientWrapper: a client for one configuration with a default header
 * map, one entry point per HTTP method, and an optional listener told of
 * every response or HttpException.
 */
module Wrapper {
  import opened Common
  import opened Configuration
  import opened Parameters
  import opened Messages
  import opened Exceptions
  import opened ClientImpl

  /** HttpResponseEvent(request, response, exception): exactly one of the last two is set by the wrapper, unless the response is null. */
  datatype ResponseEvent = ResponseEvent(request: HttpRequest, response: Option<Response>, error: Option<HttpException>)

  /** An HttpResponseListener that keeps the events it received, in order. */
  class Listener {
    var received: seq<ResponseEvent>

    constructor ()
      ensures received == []
    {
      received := [];
    }

    method HttpResponseReceived(event: ResponseEvent)
      modifies this
      ensures received == old(received) + [event]
    {
      received := received + [event];
    }
  }

  /**
   * The events request fires for an outcome: one for a returned response
   * (null included), one carrying the exception for an HttpException, none
   * for an unchecked exception, which the wrapper does not catch.
   */
  function Notifications(req: HttpRequest, outcome: Outcome): (events: seq<ResponseEvent>)
    ensures |events| <= 1
    ensures |events| == 1 <==> !outcome.Crashed?
    ensures outcome.Returned? ==> events == [ResponseEvent(req, outcome.response, None)]
    ensures outcome.Thrown? ==> events == [ResponseEvent(req, None, Some(outcome.e))]
  {
    match outcome
    case Returned(r) => [ResponseEvent(req, r, None)]
    case Thrown(e) => [ResponseEvent(req, None, Some(e))]
    case Crashed(_) => []
  }

  /**
   * The header map of post(url, params, headers): the wrapper's map with
   * the per-call map laid over it, the per-call value winning for a key in
   * both; a null per-call map gives a copy of the wrapper's map.
   */
  function MergedHeaders(base: map<string, string>, extra: Option<map<string, string>>): (h: map<string, string>)
    ensures extra.None? ==> h == base
    ensures forall k :: k in h <==> k in base || (extra.Some? && k in extra.value)
    ensures extra.Some? ==> forall k :: k in extra.value ==> h[k] == extra.value[k]
    ensures forall k :: k in base && (extra.None? || k !in extra.value) ==> h[k] == base[k]
  {
    if extra.None? then base else base + extra.value
  }

  class HttpClientWrapper {
    const config: Config
    const requestHeaders: map<string, string>
    const http: HttpClientImpl
    var listener: Option<Listener>

    /** HttpClientWrapper(config): an empty default header map, a client for config, no listener. */
    constructor (config: Config)
      ensures this.config == config && http.conf == config && fresh(http)
      ensures requestHeaders == map[] && listener == None
    {
      this.config := config;
      requestHeaders := map[];
      http := new HttpClientImpl(config);
      listener := None;
    }

    /** HttpClientWrapper(): the same with the default configuration. */
    constructor WithDefaults()
      ensures config == Default && http.conf == Default && fresh(http)
      ensures requestHeaders == map[] && listener == None
    {
      config := Default;
      requestHeaders := map[];
      http := new HttpClientImpl(Default);
      listener := None;
    }

    method Shutdown()
    {
      http.Shutdown();
    }

    method SetHttpResponseListener(listener: Option<Listener>)
      modifies this
      ensures this.listener == listener
    {
      this.listener := listener;
    }

    /**
     * request(req): the client's outcome, passed on unchanged (the same
     * exception object is rethrown), with the listener told of it.
     */
    method Request(req: HttpRequest, raw: seq<string>, oracle: seq<Exchange>) returns (outcome: Outcome, ghost trace: seq<Event>)
      requires AttemptBudget(http.conf.retryCount) <= |oracle|
      modifies if listener.Some? then {listener.value} else {}
      ensures Realizes(outcome, Run(http.conf, req, raw, oracle).0)
      ensures trace == Run(http.conf, req, raw, oracle).1
      ensures outcome.Thrown? ==> fresh(outcome.e)
      ensures listener.Some? ==> listener.value.received == old(listener.value.received) + Notifications(req, outcome)
    {
      outcome, trace := http.Request(req, raw, oracle);
      if outcome.Returned? {
        if listener.Some? {
          listener.value.HttpResponseReceived(ResponseEvent(req, outcome.response, None));
        }
      } else if outcome.Thrown? {
        if listener.Some? {
          listener.value.HttpResponseReceived(ResponseEvent(req, None, Some(outcome.e)));
        }
      }
    }

    /** The request a convenience method sends: its own method, the URL and parameters, and the wrapper's header map. */
    function Plain(verb: RequestMethod, url: string, parameters: Option<seq<Param>>): (req: HttpRequest)
      ensures req.verb == verb && req.url == url && req.parameters == parameters
      ensures req.requestHeaders == Some(requestHeaders)
    {
      HttpRequest(verb, url, parameters, Some(requestHeaders))
    }

    /** get(url) when parameters is null, get(url, parameters) otherwise. */
    method Get(url: string, parameters: Option<seq<Param>>, raw: seq<string>, oracle: seq<Exchange>) returns (outcome: Outcome, ghost trace: seq<Event>)
      requires AttemptBudget(http.conf.retryCount) <= |oracle|
      modifies if listener.Some? then {listener.value} else {}
      ensures Realizes(outcome, Run(http.conf, Plain(GET, url, parameters), raw, oracle).0)
      ensures trace == Run(http.conf, Plain(GET, url, parameters), raw, oracle).1
      ensures outcome.Thrown? ==> fresh(outcome.e)
      ensures listener.Some? ==> listener.value.received == old(listener.value.received) + Notifications(Plain(GET, url, parameters), outcome)
    {
      outcome, trace := Request(Plain(GET, url, parameters), raw, oracle);
    }

    /** post(url) when parameters is null, post(url, parameters) otherwise. */
    method Post(url: string, parameters: Option<seq<Param>>, raw: seq<string>, oracle: seq<Exchange>) returns (outcome: Outcome, ghost trace: seq<Event>)
      requires AttemptBudget(http.conf.retryCount) <= |oracle|
      modifies if listener.Some? then {listener.value} else {}
      ensures Realizes(outcome, Run(http.conf, Plain(POST, url, parameters), raw, oracle).0)
      ensures trace == Run(http.conf, Plain(POST, url, parameters), raw, oracle).1
      ensures outcome.Thrown? ==> fresh(outcome.e)
      ensures listener.Some? ==> listener.value.received == old(listener.value.received) + Notifications(Plain(POST, url, parameters), outcome)
    {
      outcome, trace := Request(Plain(POST, url, parameters), raw, oracle);
    }

    /** post(url, parameters, requestHeaders): a POST with the merged header map; the wrapper's own map is left as it was. */
    method PostWithHeaders(url: string, parameters: Option<seq<Param>>, headers: Option<map<string, string>>, raw: seq<string>, oracle: seq<Exchange>)
      returns (outcome: Outcome, ghost trace: seq<Event>)
      requires AttemptBudget(http.conf.retryCount) <= |oracle|
      modifies if listener.Some? then {listener.value} else {}
      ensures var req := HttpRequest(POST, url, parameters, Some(MergedHeaders(requestHeaders, headers)));
        && Realizes(outcome, Run(http.conf, req, raw, oracle).0)
        && trace == Run(http.conf, req, raw, oracle).1
        && (listener.Some? ==> listener.value.received == old(listener.value.received) + Notifications(req, outcome))
      ensures outcome.Thrown? ==> fresh(outcome.e)
    {
      var merged := requestHeaders;
      if headers.Some? {
        merged := merged + headers.value;
      }
      outcome, trace := Request(HttpRequest(POST, url, parameters, Some(merged)), raw, oracle);
    }

    /** delete(url) when parameters is null, delete(url, parameters) otherwise. */
    method Delete(url: string, parameters: Option<seq<Param>>, raw: seq<string>, oracle: seq<Exchange>) returns (outcome: Outcome, ghost trace: seq<Event>)
      requires AttemptBudget(http.conf.retryCount) <= |oracle|
      modifies if listener.Some? then {listener.value} else {}
      ensures Realizes(outcome, Run(http.conf, Plain(DELETE, url, parameters), raw, oracle).0)
      ensures trace == Run(http.conf, Plain(DELETE, url, parameters), raw, oracle).1
      ensures outcome.Thrown? ==> fresh(outcome.e)
      ensures listener.Some? ==> listener.value.received == old(listener.value.received) + Notifications(Plain(DELETE, url, parameters), outcome)
    {
      outcome, trace := Request(Plain(DELETE, url, parameters), raw, oracle);
    }

    /** head(url) when parameters is null, head(url, parameters) otherwise. */
    method Head(url: string, parameters: Option<seq<Param>>, raw: seq<string>, oracle: seq<Exchange>) returns (outcome: Outcome, ghost trace: seq<Event>)
      requires AttemptBudget(http.conf.retryCount) <= |oracle|
      modifies if listener.Some? then {listener.value} else {}
      ensures Realizes(outcome, Run(http.conf, Plain(HEAD, url, parameters), raw, oracle).0)
      ensures trace == Run(http.conf, Plain(HEAD, url, parameters), raw, oracle).1
      ensures outcome.Thrown? ==> fresh(outcome.e)
      ensures listener.Some? ==> listener.value.received == old(listener.value.received) + Notifications(Plain(HEAD, url, parameters), outcome)
    {
      outcome, trace := Request(Plain(HEAD, url, parameters), raw, oracle);
    }

    /** put(url) when parameters is null, put(url, parameters) otherwise. */
    method Put(url: string, parameters: Option<seq<Param>>, raw: seq<string>, oracle: seq<Exchange>) returns (outcome: Outcome, ghost trace: seq<Event>)
      requires AttemptBudget(http.conf.retryCount) <= |oracle|
      modifies if listener.Some? then {listener.value} else {}
      ensures Realizes(outcome, Run(http.conf, Plain(PUT, url, parameters), raw, oracle).0)
      ensures trace == Run(http.conf, Plain(PUT, url, parameters), raw, oracle).1
      ensures outcome.Thrown? ==> fresh(outcome.e)
      ensures listener.Some? ==> listener.value.received == old(listener.value.received) + Notifications(Plain(PUT, url, parameters), outcome)
    {
      outcome, trace := Request(Plain(PUT, url, parameters), raw, oracle);
    }
  }
}
