/** The one retry loop and the judgements its three doors plug into it, as functions of the
    outcomes, delays and random draws a run meets. Each method of module Doors is proved to
    compute them. */
module Loop {
  import opened Prelude
  import opened Errors
  import opened Verdicts
  import opened Bodies
  import opened Messages
  import opened RetryAfter
  import opened Backoff

  // ---- What a run meets ----

  /** Everything outside the loop's control, by attempt: what the round trip (for Do, the
      callback) returns and how long it takes; for an attempt under its own bound, how late that
      bound's timer fires and the time between the read of the caller's context and of its own;
      the time until the context is looked at, the time the pause hook takes, the jitter draw, how
      late a sleep's timer wakes and which branch of the select it takes, and what is left of a
      request body that was sent before. */
  datatype Env = Env(
    ctx: Context, outcome: nat -> Outcome, took: nat -> nat, overdue: nat -> nat, gap: nat -> nat,
    settle: nat -> nat, hook: nat -> nat, draw: nat -> nat, late: nat -> nat, pickTimer: nat -> bool,
    leftover: nat -> seq<Byte>)

  // ---- Configuration ----

  datatype RateLimitMode = NoRateLimit | RetryRateLimit | OnlyRateLimit

  datatype DoConfig = DoConfig(
    maxAttempts: int, baseDelay: Int64, attemptTimeout: Int64, mode: RateLimitMode, maxWait: Int64, conflict: bool)

  datatype DoOption =
    | WithMaxAttempts(n: int)
    | WithBaseDelay(d: Int64)
    | WithAttemptTimeout(d: Int64)
    | WithRateLimit(only: bool, maxWait: Int64)
    | LogOnly

  const DO_DEFAULTS: DoConfig := DoConfig(DEFAULT_MAX_ATTEMPTS, 0, 0, NoRateLimit, 0, false)

  function ApplyDo(c: DoConfig, o: Option<DoOption>): DoConfig {
    match o
    case None => c
    case Some(WithMaxAttempts(n)) => c.(maxAttempts := n)
    case Some(WithBaseDelay(d)) => c.(baseDelay := d)
    case Some(WithAttemptTimeout(d)) => c.(attemptTimeout := d)
    case Some(WithRateLimit(only, maxWait)) =>
      var mode := if only then OnlyRateLimit else RetryRateLimit;
      c.(conflict := c.conflict || (c.mode != NoRateLimit && c.mode != mode), mode := mode, maxWait := maxWait)
    case Some(LogOnly) => c
  }

  function FoldDo(opts: seq<Option<DoOption>>): DoConfig {
    if opts == [] then DO_DEFAULTS else ApplyDo(FoldDo(opts[..|opts| - 1]), opts[|opts| - 1])
  }

  function Normalize(c: DoConfig): (n: DoConfig)
    ensures NormalDo(n)
  {
    c.(maxAttempts := Max(c.maxAttempts, 1),
       baseDelay := if c.baseDelay <= 0 then DEFAULT_BASE_DELAY else c.baseDelay,
       maxWait := if c.mode != NoRateLimit && c.maxWait <= 0 then RETRY_AFTER_CAP else c.maxWait)
  }

  predicate NormalDo(c: DoConfig) {
    c.maxAttempts >= 1 && c.baseDelay > 0 && (c.mode != NoRateLimit ==> c.maxWait > 0)
  }

  datatype GetConfig = GetConfig(
    maxAttempts: int, baseDelay: Int64, maxBodyBytes: Int64, header: Header, badRequest: Option<Error>)

  predicate NormalGet(c: GetConfig) {
    c.maxAttempts >= 1 && c.baseDelay > 0 && c.maxBodyBytes > 0
  }

  /** CheckRetry: the default policy, or the caller's, whose answer may differ by attempt. */
  datatype CheckRetry =
    | DefaultPolicy
    | CustomPolicy(check: (nat, Option<Response>, Option<Error>) -> (bool, Option<Error>))

  datatype Transport = Transport(
    policy: CheckRetry, prepare: Option<(nat, Header) -> Result<Header, Error>>,
    maxAttempts: int, baseDelay: Int64, maxElapsed: Int64, retryNonIdempotent: bool)

  datatype Schedule = Schedule(attempts: nat, baseDelay: Int64, maxElapsed: Int64)

  function TransportSchedule(rt: Transport): Schedule {
    Schedule(
      if rt.maxAttempts == 0 then DEFAULT_MAX_ATTEMPTS else if rt.maxAttempts < 0 then 1 else rt.maxAttempts,
      if rt.baseDelay <= 0 then DEFAULT_BASE_DELAY else rt.baseDelay,
      rt.maxElapsed)
  }

  predicate IsSafeMethod(verb: string) {
    verb in {"", "GET", "HEAD", "OPTIONS", "TRACE"}
  }

  predicate CanRetry(rt: Transport, req: Req) {
    (IsSafeMethod(req.verb) || rt.retryNonIdempotent) && (req.body.None? || req.getBody.Some?)
  }

  datatype Door =
    | DoDoor(do_: DoConfig)
    | GetDoor(get: GetConfig)
    | TransportDoor(rt: Transport, req: Req)

  function ScheduleOf(door: Door): Schedule {
    match door
    case DoDoor(c) => Schedule(Max(c.maxAttempts, 0), c.baseDelay, 0)
    case GetDoor(c) => Schedule(Max(c.maxAttempts, 0), c.baseDelay, 0)
    case TransportDoor(rt, _) => TransportSchedule(rt)
  }

  predicate NormalDoor(door: Door) {
    match door
    case DoDoor(c) => NormalDo(c)
    case GetDoor(c) => NormalGet(c)
    case TransportDoor(_, _) => true
  }

  // ---- The variables a call's closures share, and the record of its run ----

  /** A request went out (for Do, the callback ran); a response body arrived, was read or
      discarded, was closed. */
  datatype Event =
    | Sent(n: nat, header: Header, body: seq<Byte>)
    | Received(n: nat)
    | Drained(n: nat)
    | Closed(n: nat)

  datatype Waited = Waited(explicit: Int64, wait: Int64)

  /** One look of Do at a finished attempt: when it began; when the callback returned and the
      caller's context was read for the mark; when the attempt's own context was read for it; and
      when Do read the caller's context itself. */
  datatype Look = Look(n: nat, began: int, returned: int, reread: int, looked: int, marked: bool)

  /** now is the clock; held the attempt whose response (for Do, whose result) the call holds;
      then the captured variables; then, for the proofs, when each attempt started, each wait,
      each event on requests and bodies, and each look of Do. */
  datatype Vars = Vars(
    now: int, held: Option<nat>, error: Option<Error>, retryAfter: Int64, data: seq<Byte>,
    starts: seq<int>, waits: seq<Waited>, events: seq<Event>, looks: seq<Look>)

  function InitialVars(now: int): Vars {
    Vars(now, None, None, 0, [], [], [], [], [])
  }

  datatype Judgement = Judgement(v: Vars, done: bool, wait: Int64)

  function ResponseOf(env: Env, held: Option<nat>): Option<Response> {
    if held.Some? then env.outcome(held.value).response else None
  }

  predicate HasBody(r: Option<Response>) {
    r.Some? && r.value.body.Some?
  }

  /** drainResp. */
  function DrainHeld(env: Env, v: Vars): Vars {
    if HasBody(ResponseOf(env, v.held))
    then v.(events := v.events + [Drained(v.held.value), Closed(v.held.value)])
    else v
  }

  // ---- Door 1: Do ----

  /** The timer of the bound set on attempt n at began has fired by t. */
  predicate BoundFired(cfg: DoConfig, env: Env, n: nat, began: int, t: int) {
    t >= began + cfg.attemptTimeout + env.overdue(n)
  }

  /** The attempt's own context ends with its bound or with the caller's context. */
  predicate AttemptOver(cfg: DoConfig, env: Env, n: nat, began: int, t: int) {
    Over(env.ctx, t) || BoundFired(cfg, env, n, began, t)
  }

  /** Whether runAttempt marks the callback's error as the expiry of its own bound. The caller's
      context is read at first and the attempt's at second. */
  predicate MarksTimeout(cfg: DoConfig, env: Env, n: nat, began: int, first: int, second: int, e: Error) {
    cfg.attemptTimeout > 0 && !Over(env.ctx, first) && AttemptOver(cfg, env, n, began, second) &&
    Is(e, DeadlineExceeded)
  }

  /** The error of attempt n, begun at began, comes back marked. */
  predicate Marks(cfg: DoConfig, env: Env, n: nat, began: int) {
    var returned := began + env.took(n);
    var raw := env.outcome(n).error;
    raw.Some? && MarksTimeout(cfg, env, n, began, returned, returned + env.gap(n), raw.value)
  }

  function HintWait(e: Error): Int64 {
    var h := AsType(e, RetryAfterHintType);
    if h.Some? && !h.value.Value? && h.value.kind.hint.Some? then h.value.kind.hint.value else 0
  }

  function RateLimitWait(cfg: DoConfig, n: Error): Int64 {
    if !n.Value? && n.kind.tag.RateLimit? && n.kind.tag.retryAfter > 0
    then Min(n.kind.tag.retryAfter, cfg.maxWait) else cfg.maxWait
  }

  /** classify: whether to retry, and the explicit wait. */
  function Classify(cfg: DoConfig, e: Error): (bool, Int64) {
    var rl := AsType(e, RateLimitErrorType);
    if cfg.mode != NoRateLimit && rl.Some? then (true, RateLimitWait(cfg, rl.value))
    else if cfg.mode == OnlyRateLimit then (false, 0)
    else if !IsTransient(e) then (false, 0)
    else (true, HintWait(e))
  }

  /** The callback has run on attempt n, and Do has looked at what came back. */
  function Called(cfg: DoConfig, env: Env, v: Vars, n: nat): Vars {
    var returned := v.now + env.took(n);
    var reread := returned + env.gap(n);
    var looked := reread + env.settle(n);
    var raw := env.outcome(n).error;
    var marked := Marks(cfg, env, n, v.now);
    v.(now := looked, held := Some(n), error := if marked then MarkAttemptTimeout(raw) else raw,
       events := v.events + [Sent(n, map[], [])],
       looks := v.looks + [Look(n, v.now, returned, reread, looked, marked)])
  }

  function DoAttempt(cfg: DoConfig, env: Env, v: Vars, n: nat): Judgement {
    var w := Called(cfg, env, v, n);
    if w.error.None? then Judgement(w, true, 0)
    else if cfg.mode != OnlyRateLimit && Over(env.ctx, w.now) then
      Judgement(w.(error := Some(EndOf(env.ctx))), true, 0)
    else
      var (retry, wait) := Classify(cfg, w.error.value);
      Judgement(w, !retry, wait)
  }

  // ---- Door 2: GetBytes ----

  /** retryableRoundTrip. */
  predicate RetryableRoundTrip(r: Option<Response>, e: Option<Error>) {
    if e.Some? then IsTransient(e.value) else r.Some? && IsRetryableStatus(r.value.status)
  }

  function RetryAfterOf(r: Option<Response>): Int64 {
    if r.None? then 0 else ParseRetryAfter(r.value.retryAfter, r.value.until)
  }

  /** client.Do over one exchange: an error comes back in a *url.Error, and a round trip that
      returned neither response nor error is one. */
  function ClientDo(o: Outcome): Outcome {
    if o.error.Some? then Outcome(None, Some(Wrap(URL_ERROR, o.error.value)))
    else if o.response.None? then Outcome(None, Some(Wrap(URL_ERROR, Leaf(PLAIN))))
    else o
  }

  function ScriptOf(r: Response): Script {
    if r.body.Some? then r.body.value else Script([], None, false)
  }

  function ReadFailure(e: Error): Error {
    if AsType(e, ResponseTooLargeType).Some? then e else Wrap(PLAIN, e)
  }

  /** A body that arrives, is read or discarded, and is closed within the attempt. */
  function SettleBody(v: Vars, n: nat, r: Response): Vars {
    if r.body.Some? then v.(events := v.events + [Received(n)] + [Drained(n), Closed(n)]) else v
  }

  /** The GET of attempt n has been answered. */
  function Asked(cfg: GetConfig, env: Env, v: Vars, n: nat): Vars {
    v.(now := v.now + env.took(n), error := ClientDo(env.outcome(n)).error, retryAfter := 0, data := [],
       events := v.events + [Sent(n, cfg.header, [])])
  }

  /** What GetBytes makes of a response. */
  function JudgeReply(cfg: GetConfig, v: Vars, n: nat, r: Response): Judgement {
    var settled := SettleBody(v, n, r);
    if IsRetryableStatus(r.status) then
      var hint := RetryAfterOf(Some(r));
      Judgement(settled.(error := Some(StatusError(r.status)), retryAfter := hint), false, hint)
    else if CheckHTTPStatus(r.status, r.retryAfter, r.until).Some? then
      Judgement(settled.(error := Some(StatusError(r.status))), true, 0)
    else
      match Limited(ScriptOf(r), cfg.maxBodyBytes)
      case Ok(data) => Judgement(settled.(data := data), true, 0)
      case Err(e) => Judgement(settled.(error := Some(ReadFailure(e))), true, 0)
  }

  function GetAttempt(cfg: GetConfig, env: Env, v: Vars, n: nat): Judgement {
    if cfg.badRequest.Some? then Judgement(v.(error := cfg.badRequest, retryAfter := 0, data := []), true, 0)
    else
      var o := ClientDo(env.outcome(n));
      var w := Asked(cfg, env, v, n);
      if o.error.Some? then Judgement(w, !RetryableRoundTrip(o.response, o.error), 0)
      else JudgeReply(cfg, w, n, o.response.value)
  }

  // ---- Door 3: the transport ----

  function BodyOf(req: Req): seq<Byte> {
    if req.body.Some? then req.body.value else []
  }

  /** buildAttemptRequest: the header and body of attempt n, from the caller's request. A retry
      rewinds the body through GetBody; without one it would share what the first attempt left. */
  function BuildAttempt(rt: Transport, req: Req, env: Env, n: nat): Result<(Header, seq<Byte>), Error> {
    if n == 0 then Ok((req.header, BodyOf(req)))
    else
      match (if req.getBody.Some? then req.getBody.value(n)
             else Ok(if req.body.Some? then env.leftover(n) else []))
      case Err(e) => Err(Wrap(PLAIN, e))
      case Ok(body) =>
        match (if rt.prepare.Some? then rt.prepare.value(n, req.header) else Ok(req.header))
        case Err(e) => Err(Wrap(PLAIN, e))
        case Ok(header) => Ok((header, body))
  }

  function PolicyVerdict(rt: Transport, n: nat, r: Option<Response>, e: Option<Error>): (bool, Option<Error>) {
    match rt.policy
    case DefaultPolicy => (RetryableRoundTrip(r, e), None)
    case CustomPolicy(check) => check(n, r, e)
  }

  function NameHangUpIn(e: Option<Error>): Option<Error> {
    if e.Some? then Some(NameHangUp(e.value)) else None
  }

  /** roundTripOnce: sends and names a bare hang-up. */
  function SendOnce(env: Env, v: Vars, n: nat, header: Header, body: seq<Byte>): Vars {
    var o := env.outcome(n);
    v.(now := v.now + env.took(n),
       held := if o.response.Some? then Some(n) else None,
       error := NameHangUpIn(o.error),
       events := v.events + [Sent(n, header, body)] + if HasBody(o.response) then [Received(n)] else [])
  }

  /** What the policy and the context make of a round trip. */
  function JudgeTrip(rt: Transport, env: Env, w: Vars, n: nat): Judgement {
    var r := ResponseOf(env, w.held);
    var (retry, checkErr) := PolicyVerdict(rt, n, r, w.error);
    if checkErr.Some? then Judgement(DrainHeld(env, w).(held := None, error := checkErr), true, 0)
    else if !retry then Judgement(w, true, 0)
    else if Over(env.ctx, w.now) then
      Judgement(DrainHeld(env, w).(held := None, error := Some(EndOf(env.ctx))), true, 0)
    else Judgement(w, false, RetryAfterOf(r))
  }

  /** One request goes out and is judged. */
  function Try(rt: Transport, env: Env, v: Vars, n: nat, header: Header, body: seq<Byte>): Judgement {
    var sent := SendOnce(env, v, n, header, body);
    JudgeTrip(rt, env, sent.(now := sent.now + env.settle(n)), n)
  }

  function TransportAttempt(rt: Transport, req: Req, env: Env, v: Vars, n: nat): Judgement {
    match BuildAttempt(rt, req, env, n)
    case Err(e) => Judgement(v.(held := None, error := Some(e)), true, 0)
    case Ok((header, body)) =>
      Try(rt, env, v, n, header, body)
  }

  // ---- The loop ----

  /** What a door plugs into the loop: the judgement on one attempt, and the hook before a
      retry. */
  datatype Hooks = Hooks(attempt: (Vars, nat) -> Judgement, pause: (Vars, nat, Int64) -> Vars)

  /** The pause hook of Do and GetBytes logs. */
  function LogRetry(env: Env, v: Vars, retry: nat): Vars {
    v.(now := v.now + env.hook(retry))
  }

  /** The transport's calls OnRetry and drains the failed attempt's response. */
  function ReleaseRetry(env: Env, v: Vars, retry: nat): Vars {
    DrainHeld(env, v.(now := v.now + env.hook(retry)))
  }

  function HooksOf(door: Door, env: Env): Hooks {
    match door
    case DoDoor(cfg) =>
      Hooks((v: Vars, n: nat) => DoAttempt(cfg, env, v, n),
            (v: Vars, retry: nat, wait: Int64) => LogRetry(env, v, retry))
    case GetDoor(cfg) =>
      Hooks((v: Vars, n: nat) => GetAttempt(cfg, env, v, n),
            (v: Vars, retry: nat, wait: Int64) => LogRetry(env, v, retry))
    case TransportDoor(rt, req) =>
      Hooks((v: Vars, n: nat) => TransportAttempt(rt, req, env, v, n),
            (v: Vars, retry: nat, wait: Int64) => ReleaseRetry(env, v, retry))
  }

  datatype Stop = Finished | Exhausted | OverBudget | Interrupted(error: Error)

  function Start(v: Vars): Vars {
    v.(starts := v.starts + [v.now])
  }

  function Wait(v: Vars, explicit: Int64, wait: Int64): Vars {
    v.(waits := v.waits + [Waited(explicit, wait)])
  }

  /** What comes between a failed attempt and the next: the wait, the pause hook, the ceiling and
      the sleep, and whether the run stops there. */
  function Between(s: Schedule, env: Env, h: Hooks, v: Vars, explicit: Int64, n: nat, start: int, backoff: Int64)
    : (Vars, Option<Stop>)
  {
    var wait := ResolveWait(explicit, backoff, env.draw(n));
    var p := h.pause(Wait(v, explicit, wait), n + 1, wait);
    if ElapsedExceeded(s.maxElapsed, wait, start, p.now) then (p, Some(OverBudget))
    else
      var (err, woken) := SleepCtx(env.ctx, p.now, wait, env.late(n), env.pickTimer(n));
      (p.(now := woken), if err.Some? then Some(Interrupted(err.value)) else None)
  }

  /** schedule.run from attempt n on. */
  function RunFrom(s: Schedule, env: Env, h: Hooks, v: Vars, n: nat, start: int, backoff: Int64): (Vars, Stop)
    decreases if n < s.attempts then s.attempts - n else 0
  {
    if n >= s.attempts then (v, Exhausted)
    else
      var j := h.attempt(Start(v), n);
      if j.done then (j.v, Finished)
      else if n == s.attempts - 1 then (j.v, Exhausted)
      else
        var (w, stop) := Between(s, env, h, j.v, j.wait, n, start, backoff);
        if stop.Some? then (w, stop.value) else RunFrom(s, env, h, w, n + 1, start, SafeDouble(backoff))
  }

  function Run(door: Door, env: Env, start: int): (Vars, Stop) {
    var s := ScheduleOf(door);
    RunFrom(s, env, HooksOf(door, env), InitialVars(start), 0, start, s.baseDelay)
  }

  // ---- What each door returns ----

  const ELAPSED: Error := Leaf(PLAIN)
  const CONFLICT: Error := Leaf(PLAIN)

  function StopError(stop: Stop): Option<Error> {
    match stop
    case OverBudget => Some(ELAPSED)
    case Interrupted(e) => Some(e)
    case _ => None
  }

  /** Do: the number of the attempt whose result it returns, or an error. */
  function DoReturns(v: Vars, stop: Stop): Result<nat, Error> {
    if StopError(stop).Some? then Err(StopError(stop).value)
    else if v.error.None? then Ok(if v.held.Some? then v.held.value else 0)
    else Err(v.error.value)
  }

  /** Do's whole run. Conflicting rate-limit options fail before anything is called. */
  function DoRun(cfg: DoConfig, env: Env, start: int): (Vars, Result<nat, Error>) {
    if cfg.conflict then (InitialVars(start), Err(CONFLICT))
    else
      var (v, stop) := Run(DoDoor(cfg), env, start);
      (v, DoReturns(v, stop))
  }

  datatype GetReturn =
    | Body(data: seq<Byte>)
    | StoppedEarly(error: Error)
    | NotRetried(error: Error)
    | RetriesExhausted(error: Error)

  /** GetBytes, with shown the reduction of its error that is safe to log. */
  function GetReturns(v: Vars, stop: Stop, shown: Error): GetReturn {
    if StopError(stop).Some? then StoppedEarly(StopError(stop).value)
    else if v.error.None? then Body(v.data)
    else if stop != Exhausted then NotRetried(shown)
    else
      var e := Wrap(PLAIN, shown);
      RetriesExhausted(if v.retryAfter > 0 then RetryAfterErrorOver(e, v.retryAfter) else e)
  }

  /** RoundTrip: the attempt whose response it hands back, and its error. */
  datatype Trip = Trip(held: Option<nat>, error: Option<Error>)

  function TripReturns(v: Vars, stop: Stop): Trip {
    match stop
    case OverBudget => Trip(None, Some(if v.error.Some? then Wrap(PLAIN, v.error.value) else ELAPSED))
    case Interrupted(e) => Trip(None, Some(e))
    case _ => Trip(v.held, v.error)
  }

  /** RoundTrip's whole run: the loop, or a single send for a request that may not be repeated. */
  function RoundTripRun(rt: Transport, req: Req, env: Env, start: int): (Vars, Trip) {
    if !CanRetry(rt, req) then
      var v := SendOnce(env, InitialVars(start), 0, req.header, BodyOf(req));
      (v, Trip(v.held, v.error))
    else
      var (v, stop) := Run(TransportDoor(rt, req), env, start);
      (v, TripReturns(v, stop))
  }
}
