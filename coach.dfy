/** The coach request handler: the method gate, admission against the
    process-wide counters, request shaping, the single completion call and
    the cleaning of its reply. The counters live in a RateLimiter object
    whose fields the handler updates in place. */
module Coach {
  import opened Shaping
  import opened Cleaning
  import opened Errors
  import opened Limits

  /** The completion service's answer: the fetch or the reading of its body
      threw, or an HTTP status with the text segments of the reply
      (`hasContent` is false when the reply carries no content list). */
  datatype Upstream =
    | Threw
    | Replied(status: int, content: seq<string>, hasContent: bool)

  datatype Body = NoBody | ErrorBody(error: string) | ResultBody(json: string)

  /** Status and body of the handler's answer; a successful body holds the
      cleaned text that parsed as JSON. */
  datatype Response = Response(status: int, body: Body)

  datatype Exchange = Exchange(response: Response, after: Counters)

  /** The answer for an error: its fixed status and message. */
  function Fail(k: ErrorKind): Response
  {
    Response(Status(k), ErrorBody(Message(k)))
  }

  /** The error reported for an admission refusal. */
  function Rejection(v: Verdict): (k: ErrorKind)
    requires !v.Admitted?
    ensures v == Paused ==> k == ServicePaused && Status(k) == 503
    ensures v == FieldMissing ==> k == MissingField && Status(k) == 400
    ensures v == GlobalQuota ==> k == GlobalQuotaExceeded && Status(k) == 429
    ensures v == UserQuota ==> k == UserQuotaExceeded && Status(k) == 429
  {
    match v
    case Paused => ServicePaused
    case FieldMissing => MissingField
    case GlobalQuota => GlobalQuotaExceeded
    case UserQuota => UserQuotaExceeded
  }

  /** The answer built from the completion service's reply; `parses` stands
      for JSON.parse succeeding on the cleaned text. */
  function Finish(reply: Upstream, parses: string -> bool): (r: Response)
    ensures reply.Threw? ==> r == Fail(InternalError)
    ensures reply.Replied? && reply.status == 429 ==> r == Fail(UpstreamBusy)
    ensures reply.Replied? && !(200 <= reply.status <= 299) && reply.status != 429 ==>
      r == Fail(UpstreamServiceError)
    ensures r.status == 200 <==>
      reply.Replied? && 200 <= reply.status <= 299 && parses(Clean(reply.content, reply.hasContent))
    ensures r.status == 200 ==> r.body == ResultBody(Clean(reply.content, reply.hasContent))
    ensures (reply.Replied? && 200 <= reply.status <= 299 &&
             !parses(Clean(reply.content, reply.hasContent))) ==> r == Fail(ParseFailure)
  {
    match reply
    case Threw => Fail(InternalError)
    case Replied(status, content, hasContent) =>
      match ClassifyUpstream(status)
      case Busy => Fail(UpstreamBusy)
      case ServiceError => Fail(UpstreamServiceError)
      case Proceed =>
        var clean := Clean(content, hasContent);
        if parses(clean) then Response(200, ResultBody(clean)) else Fail(ParseFailure)
  }

  /** The part of an admitted request after admission: truncate, look up the
      template, choose the ceiling, call the completion service once. */
  function Generate(prompt: string, mode: string, upstream: (string, int) -> Upstream,
                    parses: string -> bool): (r: Response)
    ensures ParseMode(mode).None? ==> r == Fail(InvalidMode)
    ensures ParseMode(mode).Some? ==>
      r == Finish(upstream(Template(ParseMode(mode).value, SafePrompt(prompt)), MaxTokens(mode)), parses)
  {
    match ParseMode(mode)
    case None => Fail(InvalidMode)
    case Some(m) => Finish(upstream(Template(m, SafePrompt(prompt)), MaxTokens(mode)), parses)
  }

  /** The whole handler on a counters value. */
  function Respond(s: Counters, cfg: Config, req: Request, clock: Clock,
                   upstream: (string, int) -> Upstream, parses: string -> bool): (r: Exchange)
    // preflight and method gate: no state change
    ensures req.httpMethod == "OPTIONS" ==> r == Exchange(Response(200, NoBody), s)
    ensures req.httpMethod != "OPTIONS" && req.httpMethod != "POST" ==>
      r == Exchange(Fail(MethodNotAllowed), s)
    // a POST goes through admission, whatever happens afterwards
    ensures req.httpMethod == "POST" ==> r.after == Admission(s, cfg, req, clock).after
    ensures req.httpMethod == "POST" && cfg.killSwitch ==> r == Exchange(Fail(ServicePaused), s)
    // the answer to a POST, per admission verdict
    ensures req.httpMethod == "POST" && Admission(s, cfg, req, clock).verdict == FieldMissing ==>
      r.response == Fail(MissingField)
    ensures req.httpMethod == "POST" && Admission(s, cfg, req, clock).verdict == GlobalQuota ==>
      r.response == Fail(GlobalQuotaExceeded)
    ensures req.httpMethod == "POST" && Admission(s, cfg, req, clock).verdict == UserQuota ==>
      r.response == Fail(UserQuotaExceeded)
    ensures (req.httpMethod == "POST" && Admission(s, cfg, req, clock).verdict.Admitted? &&
             ParseMode(req.mode).None?) ==> r.response == Fail(InvalidMode)
    ensures (req.httpMethod == "POST" && Admission(s, cfg, req, clock).verdict.Admitted? &&
             ParseMode(req.mode).Some?) ==>
      r.response == Finish(upstream(Template(ParseMode(req.mode).value, SafePrompt(req.prompt)),
                                    MaxTokens(req.mode)), parses)
    // a POST succeeds exactly when admitted, with a known mode, a 2xx reply whose cleaned text parses
    ensures (req.httpMethod == "POST" && Admission(s, cfg, req, clock).verdict.Admitted? &&
             ParseMode(req.mode).Some? &&
             var reply := upstream(Template(ParseMode(req.mode).value, SafePrompt(req.prompt)), MaxTokens(req.mode));
             reply.Replied? && 200 <= reply.status <= 299 && parses(Clean(reply.content, reply.hasContent))) ==>
      r.response.status == 200
    ensures r.response.status == 200 && req.httpMethod == "POST" ==>
      Admission(s, cfg, req, clock).verdict.Admitted? && ParseMode(req.mode).Some? &&
      var reply := upstream(Template(ParseMode(req.mode).value, SafePrompt(req.prompt)), MaxTokens(req.mode));
      reply.Replied? && 200 <= reply.status <= 299 &&
      r.response.body == ResultBody(Clean(reply.content, reply.hasContent)) &&
      parses(Clean(reply.content, reply.hasContent))
  {
    if req.httpMethod == "OPTIONS" then Exchange(Response(200, NoBody), s)
    else if req.httpMethod != "POST" then Exchange(Fail(MethodNotAllowed), s)
    else
      var step := Admission(s, cfg, req, clock);
      if step.verdict.Admitted? then Exchange(Generate(req.prompt, req.mode, upstream, parses), step.after)
      else Exchange(Fail(Rejection(step.verdict)), step.after)
  }

  /** An unknown mode is answered without the completion service: the answer
      is the same whatever that service would have replied. */
  lemma UnknownModeNeverCallsUpstream(s: Counters, cfg: Config, req: Request, clock: Clock,
                                      u1: (string, int) -> Upstream, u2: (string, int) -> Upstream,
                                      parses: string -> bool)
    requires ParseMode(req.mode).None?
    ensures Respond(s, cfg, req, clock, u1, parses) == Respond(s, cfg, req, clock, u2, parses)
    ensures req.httpMethod == "POST" ==>
      Respond(s, cfg, req, clock, u1, parses).response.status in {400, 429, 503}
  {
  }

  /** Mode validation comes after admission: an admitted request with an
      unknown mode is answered 400 yet has been counted and recorded. */
  lemma InvalidModeStillCharged(s: Counters, cfg: Config, req: Request, clock: Clock,
                                upstream: (string, int) -> Upstream, parses: string -> bool)
    requires req.httpMethod == "POST"
    requires Admission(s, cfg, req, clock).verdict.Admitted?
    requires ParseMode(req.mode).None?
    ensures var r := Respond(s, cfg, req, clock, upstream, parses);
      r.response == Fail(InvalidMode) &&
      r.after.count == Rollover(s, clock.today).count + 1 &&
      var key := UserKey(req.userId, req.forwardedFor);
      r.after.userLimits[key] == Recent(HistoryOf(s.userLimits, key), clock.nowMs) + [clock.nowMs]
  {
  }

  /** A fenced JSON reply is answered 200 with the payload alone. */
  lemma FencedReplyAnswered(reply: Upstream, parses: string -> bool)
    requires reply == Replied(200, ["```json\n{\"a\":1}\n```"], true)
    requires parses("{\"a\":1}")
    ensures Finish(reply, parses) == Response(200, ResultBody("{\"a\":1}"))
  {
    CleanExample();
  }

  /** The handler's module-level state: the global daily counter and the
      per-user request histories, held for the life of the process. */
  class RateLimiter {
    var count: int
    var resetDate: string
    var userLimits: map<string, seq<int>>

    constructor ()
      ensures State() == InitialCounters
    {
      count := 0;
      resetDate := "";
      userLimits := map[];
    }

    function State(): Counters
      reads this
    {
      Counters(count, resetDate, userLimits)
    }

    /** Admission, changing the counters in place as the handler does. */
    method Admit(cfg: Config, req: Request, clock: Clock) returns (v: Verdict)
      modifies this
      ensures Step(v, State()) == Admission(old(State()), cfg, req, clock)
      ensures cfg.hourlyLimit >= 0 && old(WithinLimits(State(), cfg)) ==> WithinLimits(State(), cfg)
    {
      ghost var s0 := State();
      if cfg.hourlyLimit >= 0 && WithinLimits(s0, cfg) {
        AdmissionKeepsLimits(s0, cfg, req, clock);
      }
      if cfg.killSwitch {
        return Paused;
      }
      if req.prompt == [] || req.mode == [] {
        return FieldMissing;
      }
      if resetDate != clock.today {
        count := 0;
        resetDate := clock.today;
      }
      if count >= cfg.dailyBudget {
        return GlobalQuota;
      }
      var key := UserKey(req.userId, req.forwardedFor);
      if key !in userLimits {
        userLimits := userLimits[key := []];
      }
      var history := Recent(userLimits[key], clock.nowMs);
      assert history == Recent(HistoryOf(s0.userLimits, key), clock.nowMs);
      userLimits := userLimits[key := history];
      assert userLimits == Pruned(s0, key, clock.nowMs);
      if |history| >= cfg.hourlyLimit {
        return UserQuota;
      }
      userLimits := userLimits[key := history + [clock.nowMs]];
      count := count + 1;
      return Admitted(key);
    }

    /** One request through the handler. */
    method Handle(cfg: Config, req: Request, clock: Clock,
                  upstream: (string, int) -> Upstream, parses: string -> bool) returns (resp: Response)
      modifies this
      ensures Exchange(resp, State()) == Respond(old(State()), cfg, req, clock, upstream, parses)
    {
      if req.httpMethod == "OPTIONS" {
        return Response(200, NoBody);
      }
      if req.httpMethod != "POST" {
        return Fail(MethodNotAllowed);
      }
      var v := Admit(cfg, req, clock);
      if !v.Admitted? {
        return Fail(Rejection(v));
      }
      var safePrompt := SafePrompt(req.prompt);
      var mode := ParseMode(req.mode);
      if mode.None? {
        return Fail(InvalidMode);
      }
      var maxTokens := MaxTokens(req.mode);
      var reply := upstream(Template(mode.value, safePrompt), maxTokens);
      resp := Finish(reply, parses);
    }
  }
}
