/**
 * HttpClientImpl.request: the retry loop. The network is an oracle, the
 * sequence of replies the connection would give to successive attempts; each
 * attempt opens a connection (getConnection), composes the POST body, and
 * then either fails with an IOException or reads a response whose status
 * decides between leaving the loop, throwing, and retrying after a sleep.
 *
 * The functions state one run as a value (the verdict and a trace of the
 * attempts and sleeps); the class HttpClientImpl runs the loop as the Java code
 * does and is proved to produce that verdict and trace.
 */
module ClientImpl {
  import opened Common
  import opened Configuration
  import opened Parameters
  import opened Messages
  import opened Exceptions
  import opened ClientBase
  import opened RequestBody

  // HttpResponseCode
  const OK: int := 200
  const MULTIPLE_CHOICES: int := 300
  const FOUND: int := 302
  const BAD_REQUEST: int := 400
  const ENHANCE_YOUR_CLAIM: int := 420
  const INTERNAL_SERVER_ERROR: int := 500

  /**
   * The test that leaves the loop with the response. request tests the
   * negation: a code below OK, or one from MULTIPLE_CHOICES up other than FOUND.
   */
  function IsSuccessClass(code: int): (r: bool)
    ensures r <==> (200 <= code <= 299 || code == 302)
  {
    !(code < OK || (code != FOUND && MULTIPLE_CHOICES <= code))
  }

  datatype Decision = Break | Throw | Retry

  /** What one response leads to on attempt `retriedCount` of a client configured for `retryCount` retries. */
  function Decide(code: int, retriedCount: int, retryCount: int): (d: Decision)
    ensures d == Break <==> IsSuccessClass(code)
    ensures !IsSuccessClass(code) && code < 500 ==> d == Throw
    ensures !IsSuccessClass(code) && code >= 500 ==> (d == Retry <==> retriedCount != retryCount)
  {
    if !IsSuccessClass(code) then
      if code == ENHANCE_YOUR_CLAIM || code == BAD_REQUEST || code < INTERNAL_SERVER_ERROR || retriedCount == retryCount then
        Throw
      else
        Retry
    else
      Break
  }

  /** `retry = CONF.getHttpRetryCount() + 1` as written: a Java int addition, which wraps at Integer.MAX_VALUE. */
  function AttemptBudgetAsWritten(retryCount: Int32): (r: Int32)
    ensures retryCount < INT_MAX ==> r == retryCount + 1
    ensures retryCount == INT_MAX ==> r == INT_MIN
  {
    Wrap32(retryCount + 1)
  }

  /** The budget as intended: one first attempt and `retryCount` retries. */
  function AttemptBudget(retryCount: Int32): (r: int)
    ensures r - 1 == retryCount
  {
    retryCount + 1
  }

  /** The two budgets differ only at Integer.MAX_VALUE, where the written one is negative. */
  lemma BudgetAgreement(retryCount: Int32)
    ensures AttemptBudgetAsWritten(retryCount) == AttemptBudget(retryCount) <==> retryCount != INT_MAX
    ensures retryCount == INT_MAX ==> AttemptBudgetAsWritten(retryCount) < 0 < AttemptBudget(retryCount)
  {
  }

  /** `CONF.getHttpRetryIntervalSeconds() * 1000` as a Java int: the argument given to Thread.sleep. */
  function SleepMillis(conf: Config): (r: Int32)
    ensures -2147483 <= conf.retryIntervalSeconds <= 2147483 ==> r == conf.retryIntervalSeconds * 1000
  {
    Wrap32(conf.retryIntervalSeconds * 1000)
  }

  /**
   * What the connection does on one attempt.
   * Unreachable: an IOException before the body is composed: a malformed
   * URL in getConnection, a refused request method, or a refused connection
   * for a request whose body, if any, is written only after connecting (a
   * request other than POST, or a multipart POST).
   * Broken: an IOException once the body is composed, while the connection
   * is opened (a url-encoded or raw POST composes its body before
   * getOutputStream connects), the body is sent or the response is read;
   * `codeRead` is the status code if it had already been read.
   * Answered: a response.
   */
  datatype Reply =
    | Unreachable(message: string)
    | Broken(message: string, codeRead: Option<Int32>)
    | Answered(response: Response)

  /** One entry of the oracle: the clock reading used for a multipart boundary, and the reply. */
  datatype Exchange = Exchange(millis: nat, reply: Reply)

  /** What a run ends with: the response returned (null when there were no attempts), an HttpException, or an unchecked exception. */
  datatype Verdict =
    | Done(response: Option<Response>)
    | Fail(report: Report)
    | Crash(error: RuntimeError)

  /** How an attempt ends: the run stops with a verdict, or it sleeps and tries again. */
  datatype Step = Stop(verdict: Verdict) | Next

  /** The ghost trace of a run: each attempt, with the body it sent, and each sleep. */
  datatype Event = Attempted(body: Option<Body>) | Slept(millis: int)

  datatype AttemptResult = AttemptResult(step: Step, body: Option<Body>)

  /** The catch of IOException: rethrown as HttpException(message, cause, responseCode) on the last attempt only. */
  function IoStep(conf: Config, retriedCount: int, message: string, responseCode: Int32): (s: Step)
    ensures retriedCount == conf.retryCount ==>
      s == Stop(Fail(Report(message, None, responseCode, Some(IoFailure(message)))))
    ensures retriedCount != conf.retryCount ==> s == Next
  {
    if retriedCount == conf.retryCount then
      Stop(Fail(Report(message, None, responseCode, Some(IoFailure(message)))))
    else
      Next
  }

  /** A response: break with it, throw HttpException(res.asString(), res), or retry. */
  function Respond(conf: Config, retriedCount: int, res: Response): (s: Step)
    ensures s == Stop(Done(Some(res))) <==> IsSuccessClass(res.code)
    ensures s == Next <==> !IsSuccessClass(res.code) && res.code >= 500 && retriedCount != conf.retryCount
    ensures s.Stop? && !IsSuccessClass(res.code) ==> s == Stop(Fail(Report(res.body, Some(res), 0, None)))
  {
    match Decide(res.code, retriedCount, conf.retryCount)
    case Break => Stop(Done(Some(res)))
    case Throw => Stop(Fail(Report(res.body, Some(res), 0, None)))
    case Retry => Next
  }

  /** The body of a request: only POST has one. */
  function RequestBodyOf(conf: Config, req: HttpRequest, raw: seq<string>, millis: nat): (r: Result<Option<Body>, RuntimeError>)
    ensures req.verb != POST ==> r == Success(None)
    ensures req.verb == POST ==> r.Success? == PostBody(req.parameters, raw, millis, conf.formTextContentType).Success?
    ensures req.verb == POST && r.Success? ==> r.value == Some(PostBody(req.parameters, raw, millis, conf.formTextContentType).value)
    ensures req.verb == POST && r.Failure? ==> r.error == PostBody(req.parameters, raw, millis, conf.formTextContentType).error
  {
    if req.verb == POST then
      match PostBody(req.parameters, raw, millis, conf.formTextContentType)
      case Failure(e) => Failure(e)
      case Success(b) => Success(Some(b))
    else
      Success(None)
  }

  /**
   * One pass through the loop body: open the connection (an unchecked
   * exception from the proxy address ends the run), compose the body, and
   * act on the reply.
   */
  function Attempt(conf: Config, req: HttpRequest, raw: seq<string>, retriedCount: int, ex: Exchange): AttemptResult {
    match ConnectionSettings(conf)
    case Failure(e) => AttemptResult(Stop(Crash(e)), None)
    case Success(_) =>
      match ex.reply
      case Unreachable(message) => AttemptResult(IoStep(conf, retriedCount, message, -1), None)
      case Broken(message, codeRead) =>
        (match RequestBodyOf(conf, req, raw, ex.millis)
         case Failure(e) => AttemptResult(Stop(Crash(e)), None)
         case Success(body) => AttemptResult(IoStep(conf, retriedCount, message, codeRead.GetOr(-1)), body))
      case Answered(res) =>
        (match RequestBodyOf(conf, req, raw, ex.millis)
         case Failure(e) => AttemptResult(Stop(Crash(e)), None)
         case Success(body) => AttemptResult(Respond(conf, retriedCount, res), body))
  }

  /** The result of every attempt the oracle allows for, attempt k on the oracle's entry k. */
  function AttemptsOf(conf: Config, req: HttpRequest, raw: seq<string>, oracle: seq<Exchange>): (s: seq<AttemptResult>)
    ensures |s| == |oracle|
    ensures forall k :: 0 <= k < |s| ==> s[k] == Attempt(conf, req, raw, k, oracle[k])
  {
    seq(|oracle|, k requires 0 <= k < |oracle| => Attempt(conf, req, raw, k, oracle[k]))
  }

  /**
   * The loop from attempt k on, for a budget of `budget` attempts, given what
   * each attempt does and the sleep between attempts: the verdict and the
   * trace. Thread.sleep refuses a negative argument with an unchecked
   * exception. Past the budget the loop ends and returns `res`, which is
   * still null when no attempt was made.
   */
  function Loop(steps: seq<AttemptResult>, sleep: int, budget: int, k: nat): (Verdict, seq<Event>)
    requires budget <= |steps|
    decreases budget - k
  {
    if k >= budget then (Done(None), [])
    else
      match steps[k].step
      case Stop(v) => (v, [Attempted(steps[k].body)])
      case Next =>
        if sleep < 0 then (Crash(NegativeTimeout), [Attempted(steps[k].body)])
        else
          var rest := Loop(steps, sleep, budget, k + 1);
          (rest.0, [Attempted(steps[k].body), Slept(sleep)] + rest.1)
  }

  /**
   * One turn of the loop at attempt k, within the budget, for a run whose
   * trace so far is `trace`: the step ends the run, or carries it on to
   * attempt k + 1 after a sleep.
   */
  lemma LoopTurn(steps: seq<AttemptResult>, sleep: int, budget: int, k: nat, whole: (Verdict, seq<Event>), trace: seq<Event>)
    requires k < budget <= |steps|
    requires whole.0 == Loop(steps, sleep, budget, k).0 && whole.1 == trace + Loop(steps, sleep, budget, k).1
    ensures steps[k].step.Stop? ==> whole == (steps[k].step.verdict, trace + [Attempted(steps[k].body)])
    ensures steps[k].step.Next? && sleep < 0 ==> whole == (Crash(NegativeTimeout), trace + [Attempted(steps[k].body)])
    ensures steps[k].step.Next? && 0 <= sleep ==>
      && whole.0 == Loop(steps, sleep, budget, k + 1).0
      && whole.1 == trace + [Attempted(steps[k].body), Slept(sleep)] + Loop(steps, sleep, budget, k + 1).1
  {
    if steps[k].step.Next? && 0 <= sleep {
      AppendAssoc(trace, [Attempted(steps[k].body), Slept(sleep)], Loop(steps, sleep, budget, k + 1).1);
    }
  }

  /** A whole run with the intended budget of retryCount + 1 attempts. */
  function Run(conf: Config, req: HttpRequest, raw: seq<string>, oracle: seq<Exchange>): (Verdict, seq<Event>)
    requires AttemptBudget(conf.retryCount) <= |oracle|
  {
    Loop(AttemptsOf(conf, req, raw, oracle), SleepMillis(conf), AttemptBudget(conf.retryCount), 0)
  }

  /** A whole run with the budget as written. */
  function RunAsWritten(conf: Config, req: HttpRequest, raw: seq<string>, oracle: seq<Exchange>): (Verdict, seq<Event>)
    requires AttemptBudgetAsWritten(conf.retryCount) <= |oracle|
  {
    Loop(AttemptsOf(conf, req, raw, oracle), SleepMillis(conf), AttemptBudgetAsWritten(conf.retryCount), 0)
  }

  /** The number of attempts in a trace. */
  function Attempts(trace: seq<Event>): nat {
    (|trace| + 1) / 2
  }

  /**
   * A trace of attempts from k: an odd number of events, attempt j at index
   * 2j with the body of step k + j, a sleep of `sleep` at every odd index.
   */
  ghost predicate Shaped(steps: seq<AttemptResult>, sleep: int, k: nat, trace: seq<Event>) {
    && |trace| % 2 == 1
    && k + Attempts(trace) <= |steps|
    && (forall i :: 0 <= i < |trace| && i % 2 == 0 ==> trace[i] == Attempted(steps[k + i / 2].body))
    && (forall i :: 0 <= i < |trace| && i % 2 == 1 ==> trace[i] == Slept(sleep))
  }

  /** How the last attempt ended the run: by its own verdict, or by a negative sleep after asking for a retry. */
  ghost predicate EndedBy(sleep: int, last: AttemptResult, verdict: Verdict) {
    last.step == Stop(verdict) || (last.step == Next && sleep < 0 && verdict == Crash(NegativeTimeout))
  }

  /** Prefixing an attempt and a sleep to a trace shaped from k + 1 gives a trace shaped from k. */
  lemma ShapedCons(steps: seq<AttemptResult>, sleep: int, k: nat, rest: seq<Event>)
    requires k < |steps|
    requires Shaped(steps, sleep, k + 1, rest)
    ensures var t := [Attempted(steps[k].body), Slept(sleep)] + rest;
      Shaped(steps, sleep, k, t) && Attempts(t) == Attempts(rest) + 1
  {
    var t := [Attempted(steps[k].body), Slept(sleep)] + rest;
    forall i | 0 <= i < |t| && i % 2 == 0
      ensures t[i] == Attempted(steps[k + i / 2].body)
    {
      if i >= 2 {
        assert t[i] == rest[i - 2];
      }
    }
    forall i | 0 <= i < |t| && i % 2 == 1
      ensures t[i] == Slept(sleep)
    {
      if i >= 2 {
        assert t[i] == rest[i - 2];
      }
    }
  }

  /**
   * The shape of the loop from attempt k: nothing once the budget is spent;
   * otherwise, when the last attempt allowed does not ask for a retry,
   * between one and budget - k attempts, separated by sleeps, all but the
   * last asking for a retry, and the last one deciding the verdict.
   */
  lemma {:induction false} LoopShape(steps: seq<AttemptResult>, sleep: int, budget: int, k: nat)
    requires budget <= |steps|
    requires 0 < budget ==> steps[budget - 1].step.Stop?
    ensures k >= budget ==> Loop(steps, sleep, budget, k) == (Done(None), [])
    ensures k < budget ==>
      var r := Loop(steps, sleep, budget, k);
      && Shaped(steps, sleep, k, r.1)
      && 1 <= Attempts(r.1) <= budget - k
      && (forall j :: k <= j < k + Attempts(r.1) - 1 ==> steps[j].step == Next)
      && EndedBy(sleep, steps[k + Attempts(r.1) - 1], r.0)
    decreases budget - k
  {
    if k < budget && steps[k].step.Next? && sleep >= 0 {
      LoopShape(steps, sleep, budget, k + 1);
      var rest := Loop(steps, sleep, budget, k + 1);
      ShapedCons(steps, sleep, k, rest.1);
    }
  }

  /** An attempt that asks for a retry was not the last one allowed, and failed with an IOException or a 5xx status. */
  lemma AttemptNext(conf: Config, req: HttpRequest, raw: seq<string>, retriedCount: int, ex: Exchange)
    requires Attempt(conf, req, raw, retriedCount, ex).step == Next
    ensures retriedCount != conf.retryCount
    ensures ConnectionSettings(conf).Success?
    ensures ex.reply.Answered? ==> !IsSuccessClass(ex.reply.response.code) && ex.reply.response.code >= 500
  {
  }

  /**
   * What the verdict of a run says about the attempt k that ended it on the
   * exchange ex: it returns only a success-class response that attempt
   * read; it throws the IOException only of the last attempt allowed, with
   * the status code that attempt read or -1 when it read none, and a
   * failure-class response only when it is below 500 or read on the last
   * attempt allowed; an unchecked exception comes from a negative sleep, the
   * proxy address, or the body of a POST.
   */
  ghost predicate Explains(conf: Config, req: HttpRequest, raw: seq<string>, k: int, ex: Exchange, v: Verdict) {
    && (v.Done? ==> v.response.Some? && ex.reply == Answered(v.response.value) && IsSuccessClass(v.response.value.code))
    && (v.Fail? && v.report.response.None? ==>
          && k == conf.retryCount
          && !ex.reply.Answered?
          && v.report == Report(ex.reply.message, None,
                                if ex.reply.Broken? then ex.reply.codeRead.GetOr(-1) else -1,
                                Some(IoFailure(ex.reply.message))))
    && (v.Fail? && v.report.response.Some? ==>
          && ex.reply == Answered(v.report.response.value)
          && v.report == Report(ex.reply.response.body, Some(ex.reply.response), 0, None)
          && !IsSuccessClass(ex.reply.response.code)
          && (ex.reply.response.code < 500 || k == conf.retryCount))
    && (v.Crash? ==>
          || (v.error == NegativeTimeout && SleepMillis(conf) < 0)
          || ConnectionSettings(conf) == Failure(v.error)
          || (req.verb == POST && PostBody(req.parameters, raw, ex.millis, conf.formTextContentType) == Failure(v.error)))
  }

  /** An attempt that ends the run explains the verdict. */
  lemma AttemptExplains(conf: Config, req: HttpRequest, raw: seq<string>, k: int, ex: Exchange, v: Verdict)
    requires EndedBy(SleepMillis(conf), Attempt(conf, req, raw, k, ex), v)
    ensures Explains(conf, req, raw, k, ex, v)
  {
  }

  /**
   * The shape of a run: no attempt at all when retryCount is negative;
   * otherwise between one and retryCount + 1 attempts with a sleep of
   * SleepMillis between two of them, where every attempt before the last
   * one was allowed a retry and failed with an IOException or a 5xx status.
   */
  lemma RunShape(conf: Config, req: HttpRequest, raw: seq<string>, oracle: seq<Exchange>)
    requires AttemptBudget(conf.retryCount) <= |oracle|
    ensures conf.retryCount < 0 ==> Run(conf, req, raw, oracle) == (Done(None), [])
    ensures conf.retryCount >= 0 ==>
      var r := Run(conf, req, raw, oracle);
      && Shaped(AttemptsOf(conf, req, raw, oracle), SleepMillis(conf), 0, r.1)
      && 1 <= Attempts(r.1) <= conf.retryCount + 1
      && EndedBy(SleepMillis(conf), AttemptsOf(conf, req, raw, oracle)[Attempts(r.1) - 1], r.0)
      && (forall j :: 0 <= j < Attempts(r.1) - 1 ==>
            && j < conf.retryCount
            && ConnectionSettings(conf).Success?
            && (oracle[j].reply.Answered? ==> !IsSuccessClass(oracle[j].reply.response.code) && oracle[j].reply.response.code >= 500))
  {
    var steps := AttemptsOf(conf, req, raw, oracle);
    var budget := AttemptBudget(conf.retryCount);
    if 0 < budget && steps[budget - 1].step.Next? {
      AttemptNext(conf, req, raw, budget - 1, oracle[budget - 1]);
    }
    LoopShape(steps, SleepMillis(conf), budget, 0);
    var r := Run(conf, req, raw, oracle);
    forall j | 0 <= j < Attempts(r.1) - 1
      ensures j < conf.retryCount && ConnectionSettings(conf).Success?
      ensures oracle[j].reply.Answered? ==> !IsSuccessClass(oracle[j].reply.response.code) && oracle[j].reply.response.code >= 500
    {
      AttemptNext(conf, req, raw, j, oracle[j]);
    }
  }

  /** The verdict of a run with retryCount >= 0 is explained by its last attempt. */
  lemma RunVerdict(conf: Config, req: HttpRequest, raw: seq<string>, oracle: seq<Exchange>)
    requires AttemptBudget(conf.retryCount) <= |oracle|
    requires conf.retryCount >= 0
    ensures var r := Run(conf, req, raw, oracle);
      var n := Attempts(r.1);
      && 1 <= n <= conf.retryCount + 1
      && Explains(conf, req, raw, n - 1, oracle[n - 1], r.0)
  {
    var steps := AttemptsOf(conf, req, raw, oracle);
    var budget := AttemptBudget(conf.retryCount);
    if steps[budget - 1].step.Next? {
      AttemptNext(conf, req, raw, budget - 1, oracle[budget - 1]);
    }
    LoopShape(steps, SleepMillis(conf), budget, 0);
    var r := Run(conf, req, raw, oracle);
    var n := Attempts(r.1);
    AttemptExplains(conf, req, raw, n - 1, oracle[n - 1], r.0);
  }

  /**
   * A server that answers every attempt with a 5xx status: all
   * retryCount + 1 attempts are made, and the run throws the last response.
   */
  lemma RunServerErrors(conf: Config, req: HttpRequest, raw: seq<string>, oracle: seq<Exchange>)
    requires AttemptBudget(conf.retryCount) <= |oracle|
    requires conf.retryCount >= 0 && SleepMillis(conf) >= 0 && ConnectionSettings(conf).Success?
    requires forall j :: 0 <= j <= conf.retryCount ==>
      && oracle[j].reply.Answered? && oracle[j].reply.response.code >= 500
      && RequestBodyOf(conf, req, raw, oracle[j].millis).Success?
    ensures var r := Run(conf, req, raw, oracle);
      var last := oracle[conf.retryCount].reply.response;
      && Attempts(r.1) == conf.retryCount + 1
      && r.0 == Fail(Report(last.body, Some(last), 0, None))
  {
    RunShape(conf, req, raw, oracle);
  }

  /** With the default configuration (no retries) a run is a single attempt and never sleeps. */
  lemma DefaultSingleAttempt(req: HttpRequest, raw: seq<string>, oracle: seq<Exchange>)
    requires 1 <= |oracle|
    ensures AttemptBudget(Default.retryCount) == 1
    ensures var r := Run(Default, req, raw, oracle);
      |r.1| == 1 && r.1[0] == Attempted(Attempt(Default, req, raw, 0, oracle[0]).body)
  {
    RunShape(Default, req, raw, oracle);
  }

  /**
   * A retry count of Integer.MAX_VALUE: the written budget wraps to
   * Integer.MIN_VALUE, so the loop never runs and request returns null
   * without contacting the server, while the intended budget makes at
   * least one attempt and never returns null.
   */
  lemma BudgetOverflow(conf: Config, req: HttpRequest, raw: seq<string>, oracle: seq<Exchange>)
    requires conf.retryCount == INT_MAX
    requires AttemptBudget(conf.retryCount) <= |oracle|
    ensures RunAsWritten(conf, req, raw, oracle) == (Done(None), [])
    ensures 1 <= Attempts(Run(conf, req, raw, oracle).1)
    ensures Run(conf, req, raw, oracle).0 != Done(None)
  {
    RunShape(conf, req, raw, oracle);
    RunVerdict(conf, req, raw, oracle);
  }

  /** How a call to request ends: it returns a response (or null), throws an HttpException, or throws an unchecked exception. */
  datatype Outcome =
    | Returned(response: Option<Response>)
    | Thrown(e: HttpException)
    | Crashed(error: RuntimeError)

  /** The outcome carries the verdict: a thrown exception holds exactly the verdict's report. */
  ghost predicate Realizes(o: Outcome, v: Verdict)
    reads if o.Thrown? then {o.e} else {}
  {
    match v
    case Done(r) => o == Returned(r)
    case Fail(report) => o.Thrown? && o.e.Snapshot() == report
    case Crash(err) => o == Crashed(err)
  }

  /** How the body of the loop ends: go on to the sleep (with the response read, if any), or leave request. */
  datatype Pass = Continue(read: Option<Response>) | Leave(outcome: Outcome)

  class HttpClientImpl {
    const conf: Config

    constructor (conf: Config)
      ensures this.conf == conf
    {
      this.conf := conf;
    }

    /** The body of the request for one attempt, written as request writes it. */
    method Compose(req: HttpRequest, raw: seq<string>, millis: nat) returns (r: Result<Option<Body>, RuntimeError>)
      ensures r == RequestBodyOf(conf, req, raw, millis)
    {
      if req.verb == POST {
        var b := WritePostBody(req.parameters, raw, millis, conf.formTextContentType);
        if b.Failure? {
          return Failure(b.error);
        }
        return Success(Some(b.value));
      }
      return Success(None);
    }

    /** The catch of IOException: rethrow on the last attempt allowed, otherwise carry on to the sleep. */
    method Caught(retriedCount: int, message: string, responseCode: Int32) returns (pass: Pass)
      ensures pass.Continue? <==> IoStep(conf, retriedCount, message, responseCode) == Next
      ensures pass.Continue? ==> pass.read == None
      ensures pass.Leave? ==> pass.outcome.Thrown? && fresh(pass.outcome.e)
      ensures pass.Leave? ==> Realizes(pass.outcome, IoStep(conf, retriedCount, message, responseCode).verdict)
    {
      if retriedCount == conf.retryCount {
        var e := new HttpException.WithCode(message, IoFailure(message), responseCode);
        return Leave(Thrown(e));
      }
      return Continue(None);
    }

    /**
     * One pass through the body of the loop on the exchange `ex`: open the
     * connection, write the body of a POST, read the status and decide.
     */
    method AttemptOnce(req: HttpRequest, raw: seq<string>, retriedCount: int, ex: Exchange) returns (pass: Pass, body: Option<Body>)
      ensures body == Attempt(conf, req, raw, retriedCount, ex).body
      ensures pass.Continue? <==> Attempt(conf, req, raw, retriedCount, ex).step == Next
      ensures pass.Continue? ==> pass.read == (if ex.reply.Answered? then Some(ex.reply.response) else None)
      ensures pass.Leave? ==> Realizes(pass.outcome, Attempt(conf, req, raw, retriedCount, ex).step.verdict)
      ensures pass.Leave? && pass.outcome.Thrown? ==> fresh(pass.outcome.e)
    {
      var responseCode: Int32 := -1;
      var settings := ConnectionSettings(conf);
      if settings.Failure? {
        return Leave(Crashed(settings.error)), None;
      }
      if ex.reply.Unreachable? {
        pass := Caught(retriedCount, ex.reply.message, responseCode);
        return pass, None;
      }
      var composed := Compose(req, raw, ex.millis);
      if composed.Failure? {
        return Leave(Crashed(composed.error)), None;
      }
      body := composed.value;
      if ex.reply.Broken? {
        if ex.reply.codeRead.Some? {
          responseCode := ex.reply.codeRead.value;
        }
        pass := Caught(retriedCount, ex.reply.message, responseCode);
        return;
      }
      var res := ex.reply.response;
      responseCode := res.code;
      if responseCode < OK || (responseCode != FOUND && MULTIPLE_CHOICES <= responseCode) {
        if responseCode == ENHANCE_YOUR_CLAIM || responseCode == BAD_REQUEST
          || responseCode < INTERNAL_SERVER_ERROR || retriedCount == conf.retryCount
        {
          var e := new HttpException.WithResponse(res.body, res);
          pass := Leave(Thrown(e));
        } else {
          pass := Continue(Some(res));
        }
      } else {
        pass := Leave(Returned(Some(res)));
      }
    }

    /**
     * request: up to retryCount + 1 attempts on successive exchanges of the
     * oracle, sleeping between them. The outcome is the verdict of Run and
     * the ghost trace is its trace.
     */
    method Request(req: HttpRequest, raw: seq<string>, oracle: seq<Exchange>) returns (outcome: Outcome, ghost trace: seq<Event>)
      requires AttemptBudget(conf.retryCount) <= |oracle|
      ensures Realizes(outcome, Run(conf, req, raw, oracle).0)
      ensures trace == Run(conf, req, raw, oracle).1
      ensures outcome.Thrown? ==> fresh(outcome.e)
    {
      ghost var steps := AttemptsOf(conf, req, raw, oracle);
      var retry := AttemptBudget(conf.retryCount);
      var sleep := SleepMillis(conf);
      ghost var whole := Run(conf, req, raw, oracle);
      assert whole == Loop(steps, sleep, retry, 0);
      var res: Option<Response> := None;
      var retriedCount := 0;
      trace := [];
      while retriedCount < retry
        invariant 0 <= retriedCount
        invariant retriedCount > 0 ==> retriedCount <= conf.retryCount
        invariant retriedCount == 0 ==> res == None
        invariant whole.0 == Loop(steps, sleep, retry, retriedCount).0
        invariant whole.1 == trace + Loop(steps, sleep, retry, retriedCount).1
        decreases retry - retriedCount
      {
        var pass, body := AttemptOnce(req, raw, retriedCount, oracle[retriedCount]);
        assert steps[retriedCount] == Attempt(conf, req, raw, retriedCount, oracle[retriedCount]);
        LoopTurn(steps, sleep, retry, retriedCount, whole, trace);
        if pass.Leave? {
          trace := trace + [Attempted(body)];
          return pass.outcome, trace;
        }
        AttemptNext(conf, req, raw, retriedCount, oracle[retriedCount]);
        if pass.read.Some? {
          res := pass.read;
        }
        if sleep < 0 {
          trace := trace + [Attempted(body)];
          return Crashed(NegativeTimeout), trace;
        }
        trace := trace + [Attempted(body), Slept(sleep)];
        retriedCount := retriedCount + 1;
      }
      AppendEmpty(trace);
      return Returned(res), trace;
    }

    /** get(url): request a GET with no parameters and no headers. */
    method Get(url: string, oracle: seq<Exchange>) returns (outcome: Outcome, ghost trace: seq<Event>)
      requires AttemptBudget(conf.retryCount) <= |oracle|
      ensures var req := HttpRequest(GET, url, None, None);
        Realizes(outcome, Run(conf, req, [], oracle).0) && trace == Run(conf, req, [], oracle).1
      ensures outcome.Thrown? ==> fresh(outcome.e)
    {
      outcome, trace := Request(HttpRequest(GET, url, None, None), [], oracle);
    }

    /** post(url, params): request a POST with the given parameters and no headers. */
    method Post(url: string, params: Option<seq<Param>>, raw: seq<string>, oracle: seq<Exchange>) returns (outcome: Outcome, ghost trace: seq<Event>)
      requires AttemptBudget(conf.retryCount) <= |oracle|
      ensures var req := HttpRequest(POST, url, params, None);
        Realizes(outcome, Run(conf, req, raw, oracle).0) && trace == Run(conf, req, raw, oracle).1
      ensures outcome.Thrown? ==> fresh(outcome.e)
    {
      outcome, trace := Request(HttpRequest(POST, url, params, None), raw, oracle);
    }

    /** shutdown: nothing to release, so nothing changes. */
    method Shutdown()
    {
    }

    /** equals: two clients are equal exactly when their configurations are. */
    predicate Equals(other: HttpClientImpl)
      ensures Equals(other) <==> conf == other.conf
    {
      conf == other.conf
    }
  }

  /** The static instanceMap of getInstance: one shared client per configuration. */
  class InstanceCache {
    var instanceMap: map<Config, HttpClientImpl>

    ghost predicate Valid()
      reads this, instanceMap.Values
    {
      forall c :: c in instanceMap ==> instanceMap[c].conf == c
    }

    constructor ()
      ensures instanceMap == map[] && Valid()
    {
      instanceMap := map[];
    }

    /** getInstance: the cached client for `conf`, created and cached on the first call. */
    method GetInstance(conf: Config) returns (client: HttpClientImpl)
      requires Valid()
      modifies this
      ensures Valid()
      ensures client.conf == conf
      ensures conf in old(instanceMap) ==> client == old(instanceMap)[conf] && instanceMap == old(instanceMap)
      ensures conf !in old(instanceMap) ==> fresh(client) && instanceMap == old(instanceMap)[conf := client]
    {
      if conf in instanceMap {
        client := instanceMap[conf];
      } else {
        client := new HttpClientImpl(conf);
        instanceMap := instanceMap[conf := client];
      }
    }
  }
}
