/** What GetBytes and RoundTrip hand back, read off the last attempt of a run. */
module LoopReturns {
  import opened Prelude
  import opened Errors
  import opened Verdicts
  import opened URLErrors
  import opened Bodies
  import opened Messages
  import opened RetryAfter
  import opened Backoff
  import opened Loop
  import opened LoopTiming
  import opened LoopOptions

  // ---- The last attempt of a run ----

  /** The state attempt k begins from, and the backoff then, when every attempt from n on before
      it is retried. */
  ghost function AttemptAt(s: Schedule, env: Env, h: Hooks, v: Vars, n: nat, start: int, backoff: Int64, k: nat)
    : (Vars, Int64)
    requires n <= k
    decreases k - n
  {
    if k == n then (Start(v), backoff)
    else
      var j := h.attempt(Start(v), n);
      var w := Between(s, env, h, j.v, j.wait, n, start, backoff).0;
      AttemptAt(s, env, h, w, n + 1, start, SafeDouble(backoff), k)
  }

  /** Every attempt from n on before k failed and was followed by another. */
  ghost predicate AllRetried(s: Schedule, env: Env, h: Hooks, v: Vars, n: nat, start: int, backoff: Int64, k: nat)
    requires n <= k
    decreases k - n
  {
    n < k ==>
      var j := h.attempt(Start(v), n);
      var (w, stop) := Between(s, env, h, j.v, j.wait, n, start, backoff);
      !j.done && stop.None? && AllRetried(s, env, h, w, n + 1, start, SafeDouble(backoff), k)
  }

  /** A run ends with attempt k, begun from begun: as it left things, if it is done or the last,
      else where the pause or the sleep after it was cut. */
  ghost predicate EndsAs(s: Schedule, env: Env, h: Hooks, start: int, k: nat, begun: Vars, backoff: Int64, w: Vars,
        stop: Stop)
  {
    var j := h.attempt(begun, k);
    if j.done then (w, stop) == (j.v, Finished)
    else if k == s.attempts - 1 then (w, stop) == (j.v, Exhausted)
    else (w, Some(stop)) == Between(s, env, h, j.v, j.wait, k, start, backoff)
  }

  /** A run is its attempts: all before the last were retried, the last began when the record
      says it did, and the run ends as it left it. */
  ghost predicate IsItsAttempts(s: Schedule, env: Env, h: Hooks, v: Vars, n: nat, start: int, backoff: Int64, w: Vars,
        stop: Stop)
  {
    var k := |w.starts| - 1;
    && n <= k < s.attempts
    && AllRetried(s, env, h, v, n, start, backoff, k)
    && var (begun, last) := AttemptAt(s, env, h, v, n, start, backoff, k);
       begun.starts == w.starts && begun.now == w.starts[k] && EndsAs(s, env, h, start, k, begun, last, w, stop)
  }

  lemma OneAttemptEarlier(s: Schedule, env: Env, h: Hooks, v: Vars, n: nat, start: int, backoff: Int64, next: Vars,
        w: Vars, stop: Stop)
    requires !h.attempt(Start(v), n).done
    requires var j := h.attempt(Start(v), n);
             (next, None) == Between(s, env, h, j.v, j.wait, n, start, backoff)
    requires IsItsAttempts(s, env, h, next, n + 1, start, SafeDouble(backoff), w, stop)
    ensures IsItsAttempts(s, env, h, v, n, start, backoff, w, stop)
  {
  }

  lemma {:induction false} EndsWithAttempt(s: Schedule, env: Env, h: Hooks, v: Vars, n: nat, start: int, backoff: Int64)
    requires Regular(h) && n < s.attempts && |v.starts| == n
    ensures var (w, stop) := RunFrom(s, env, h, v, n, start, backoff);
            IsItsAttempts(s, env, h, v, n, start, backoff, w, stop)
    decreases s.attempts - n
  {
    var j := h.attempt(Start(v), n);
    if !j.done && n < s.attempts - 1 {
      var (next, cut) := Between(s, env, h, j.v, j.wait, n, start, backoff);
      assert |next.starts| == n + 1;
      if cut.None? {
        EndsWithAttempt(s, env, h, next, n + 1, start, SafeDouble(backoff));
        var (w, stop) := RunFrom(s, env, h, next, n + 1, start, SafeDouble(backoff));
        OneAttemptEarlier(s, env, h, v, n, start, backoff, next, w, stop);
      }
    }
  }

  // ---- GetBytes ----

  /** One call of GetBytes: its record and what it returns, over the reduction of its error. */
  ghost function GetCall(get: GetConfig, env: Env, start: int): (Vars, GetReturn) {
    var (v, stop) := Run(GetDoor(get), env, start);
    (v, GetReturns(v, stop, if v.error.Some? then LogSafe(v.error.value) else Value(RequestFailed)))
  }

  /** What came back of attempt n is to be retried: an error that is transient inside the client's
      *url.Error, or a retryable status. */
  ghost predicate GetRetries(env: Env, n: nat) {
    match env.outcome(n).error
    case Some(c) => IsTransient(Wrap(URL_ERROR, c))
    case None => env.outcome(n).response.Some? && IsRetryableStatus(env.outcome(n).response.value.status)
  }

  /** The error of a read: the one for too large a body as it is, any other wrapped. */
  ghost function ReadErrorOf(e: Error): Error {
    if exists n :: n in Nodes(e) && !n.Value? && n.kind.tag.TooLarge? then e else Wrap(PLAIN, e)
  }

  /** What is left of the body of a 2xx: all of it, within the limit; the error its read met; or
      that it is too large. */
  ghost predicate ReadAs(body: Option<Script>, limit: Int64, data: seq<Byte>, error: Option<Error>) {
    match body
    case None => data == [] && error == None
    case Some(s) =>
      |Content(s)| <= MAX_INT64 ==>
        if MeetsFailure(s, limit) then error == Some(ReadErrorOf(s.failure.value))
        else if |Content(s)| <= limit then data == Content(s) && error == None
        else error == Some(Leaf(Bare(TooLarge(limit))))
  }

  /** What an attempt leaves, by its outcome alone. */
  ghost predicate GetLeaves(cfg: GetConfig, env: Env, n: nat, j: Judgement) {
    var o := env.outcome(n);
    if cfg.badRequest.Some? then j.done && j.v.error == cfg.badRequest
    else
      && (j.done <==> !GetRetries(env, n))
      && match o.error
         case Some(c) => j.v.error == Some(Wrap(URL_ERROR, c)) && j.v.retryAfter == 0
         case None =>
           match o.response
           case None => j.v.error == Some(Wrap(URL_ERROR, Leaf(PLAIN)))
           case Some(r) =>
             if 200 <= r.status <= 299 then ReadAs(r.body, cfg.maxBodyBytes, j.v.data, j.v.error)
             else
               j.v.error == Some(StatusError(r.status)) &&
               (!j.done ==> j.v.retryAfter == ParseRetryAfter(r.retryAfter, r.until))
  }

  lemma TooLargeStaysAsItIs(e: Error, limit: int)
    requires e == Leaf(Bare(TooLarge(limit)))
    ensures AsType(e, ResponseTooLargeType).Some?
  {
  }

  lemma GetAttemptLeaves(cfg: GetConfig, env: Env, v: Vars, n: nat)
    requires NormalGet(cfg)
    ensures GetLeaves(cfg, env, n, GetAttempt(cfg, env, v, n))
  {
    var o := env.outcome(n);
    NothingIsTerminal(Leaf(PLAIN));
    if o.error.None? && o.response.Some? {
      RetryableStatuses(o.response.value.status);
      StatusesExactly(o.response.value.status, o.response.value.retryAfter, o.response.value.until);
      ReplyLeaves(cfg, Asked(cfg, env, v, n), n, o.response.value);
    }
  }

  lemma ReplyLeaves(cfg: GetConfig, w: Vars, n: nat, r: Response)
    requires NormalGet(cfg) && w.error == None && w.data == []
    ensures var j := JudgeReply(cfg, w, n, r);
            200 <= r.status <= 299 ==> ReadAs(r.body, cfg.maxBodyBytes, j.v.data, j.v.error)
  {
    var s, limit := ScriptOf(r), cfg.maxBodyBytes;
    if 200 <= r.status <= 299 {
      RetryableStatuses(r.status);
      TooLargeStaysAsItIs(Leaf(Bare(TooLarge(limit))), limit);
      if |Content(s)| <= MAX_INT64 {
        ReadsAllOrFails(s, limit);
        if s.failure.Some? {
          AsTypeFinds(s.failure.value, ResponseTooLargeType);
          AnyHasIffMember(Nodes(s.failure.value), ResponseTooLargeType);
        }
      }
    }
  }

  ghost predicate AllGetsLeave(cfg: GetConfig, env: Env, h: Hooks) {
    forall v: Vars, n: nat {:trigger h.attempt(v, n)} :: GetLeaves(cfg, env, n, h.attempt(v, n))
  }

  lemma GetHooksLeave(cfg: GetConfig, env: Env)
    requires NormalGet(cfg)
    ensures AllGetsLeave(cfg, env, HooksOf(GetDoor(cfg), env))
  {
    var h := HooksOf(GetDoor(cfg), env);
    forall v: Vars, n: nat ensures GetLeaves(cfg, env, n, h.attempt(v, n)) {
      GetAttemptLeaves(cfg, env, v, n);
    }
  }

  /** What GetBytes returns for a failure of its last attempt k that is to be retried: exhaustion
      over shown if the budget is spent, else the end of the context it was about to wait under. */
  ghost predicate GivesUp(cfg: GetConfig, env: Env, k: int, now: int, r: GetReturn, shown: Error, hint: Int64) {
    if k == cfg.maxAttempts - 1 then
      r == RetriesExhausted(if hint > 0 then RetryAfterErrorOver(Wrap(PLAIN, shown), hint) else Wrap(PLAIN, shown))
    else r == StoppedEarly(EndOf(env.ctx)) && Over(env.ctx, now)
  }

  /** What GetBytes returns of a 2xx: its body, or the error its read met, or that it is too large. */
  ghost predicate ReturnsBody(body: Option<Script>, limit: Int64, r: GetReturn) {
    match body
    case None => r == GetReturn.Body([])
    case Some(s) =>
      |Content(s)| <= MAX_INT64 ==>
        r == if MeetsFailure(s, limit) then NotRetried(LogSafe(ReadErrorOf(s.failure.value)))
             else if |Content(s)| <= limit then GetReturn.Body(Content(s))
             else NotRetried(Leaf(Bare(TooLarge(limit))))
  }

  /** What GetBytes returns, by its last attempt k. */
  ghost predicate GetReturnsExactly(cfg: GetConfig, env: Env, k: int, now: int, r: GetReturn) {
    && 0 <= k < cfg.maxAttempts
    && if cfg.badRequest.Some? then k == 0 && r == NotRetried(LogSafe(cfg.badRequest.value))
       else
         match env.outcome(k).error
         case Some(c) =>
           var u := Wrap(URL_ERROR, c);
           if IsTransient(u) then GivesUp(cfg, env, k, now, r, LogSafe(u), 0) else r == NotRetried(LogSafe(u))
         case None =>
           match env.outcome(k).response
           case None => r == NotRetried(Leaf(PLAIN))
           case Some(reply) =>
             if IsRetryableStatus(reply.status) then
               GivesUp(cfg, env, k, now, r, StatusError(reply.status), ParseRetryAfter(reply.retryAfter, reply.until))
             else if 200 <= reply.status <= 299 then ReturnsBody(reply.body, cfg.maxBodyBytes, r)
             else r == NotRetried(StatusError(reply.status))
  }

  /** The errors of the source's own types hold no *url.Error to reduce. */
  lemma OwnErrorsAreSafe(code: int, limit: int)
    ensures LogSafe(StatusError(code)) == StatusError(code)
    ensures LogSafe(Leaf(Bare(TooLarge(limit)))) == Leaf(Bare(TooLarge(limit)))
    ensures LogSafe(Wrap(URL_ERROR, Leaf(PLAIN))) == Leaf(PLAIN)
  {
    StatusIsItsOwnReduction(StatusError(code), code);
    LeafIsURLFree(Leaf(PLAIN));
    LeafIsURLFree(Leaf(Bare(TooLarge(limit))));
    LogSafeIsURLFree(Leaf(Bare(TooLarge(limit))));
    ReductionKeepsCauseExactly(Leaf(PLAIN));
  }

  lemma StatusIsItsOwnReduction(e: Error, code: int)
    requires e == StatusError(code)
    ensures LogSafe(e) == e
  {
  }

  lemma LeafIsURLFree(c: Error)
    requires c.Leaf? && !IsURLError(c)
    ensures !HasURLError(c)
  {
    AnyHasIffMember(Nodes(c), URLErrorType);
  }

  lemma GetEndReturns(cfg: GetConfig, env: Env, s: Schedule, h: Hooks, start: int, k: nat, begun: Vars,
      backoff: Int64, v: Vars, stop: Stop)
    requires EndsAs(s, env, h, start, k, begun, backoff, v, stop) && k < s.attempts == cfg.maxAttempts &&
              s.maxElapsed == 0
    requires AllGetsLeave(cfg, env, h) && PausesKeepError(h) && (cfg.badRequest.Some? ==> k == 0)
    ensures var shown := if v.error.Some? then LogSafe(v.error.value) else Value(RequestFailed);
            GetReturnsExactly(cfg, env, k, v.now, GetReturns(v, stop, shown))
  {
    var j := h.attempt(begun, k);
    var o := env.outcome(k);
    assert GetLeaves(cfg, env, k, j);
    assert o.error.None? && o.response.Some? && 200 <= o.response.value.status <= 299 ==> !GetRetries(env, k) by {
      if o.error.None? && o.response.Some? {
        RetryableStatuses(o.response.value.status);
      }
    }
    OwnErrorsAreSafe(if o.response.Some? then o.response.value.status else 0, cfg.maxBodyBytes);
  }

  ghost predicate PausesKeepError(h: Hooks) {
    forall v: Vars, retry: nat, wait: Int64 {:trigger h.pause(v, retry, wait)} ::
      h.pause(v, retry, wait).error == v.error && h.pause(v, retry, wait).retryAfter == v.retryAfter
  }

  lemma GetRunReturns(cfg: GetConfig, env: Env, s: Schedule, h: Hooks, start: int, v: Vars, stop: Stop)
    requires Regular(h) && AllGetsLeave(cfg, env, h) && PausesKeepError(h)
    requires 0 < s.attempts == cfg.maxAttempts && s.maxElapsed == 0
    requires (v, stop) == RunFrom(s, env, h, InitialVars(start), 0, start, s.baseDelay)
    ensures var shown := if v.error.Some? then LogSafe(v.error.value) else Value(RequestFailed);
            GetReturnsExactly(cfg, env, |v.starts| - 1, v.now, GetReturns(v, stop, shown))
  {
    EndsWithAttempt(s, env, h, InitialVars(start), 0, start, s.baseDelay);
    var k := |v.starts| - 1;
    var (begun, last) := AttemptAt(s, env, h, InitialVars(start), 0, start, s.baseDelay, k);
    assert GetLeaves(cfg, env, 0, h.attempt(Start(InitialVars(start)), 0));
    GetEndReturns(cfg, env, s, h, start, k, begun, last, v, stop);
  }

  /** Every attempt before the last was one that retried tells of. */
  ghost predicate FollowsOnly(h: Hooks, retried: nat -> bool) {
    forall v: Vars, n: nat {:trigger h.attempt(v, n)} :: !h.attempt(v, n).done ==> retried(n)
  }

  lemma {:induction false} OnlyRetriedAreFollowed(s: Schedule, env: Env, h: Hooks, retried: nat -> bool, v: Vars,
        n: nat, start: int, backoff: Int64)
    requires Regular(h) && FollowsOnly(h, retried) && |v.starts| == n && n < s.attempts
    ensures forall i :: n <= i < |RunFrom(s, env, h, v, n, start, backoff).0.starts| - 1 ==> retried(i)
    decreases s.attempts - n
  {
    var j := h.attempt(Start(v), n);
    if !j.done && n < s.attempts - 1 {
      var (w, stop) := Between(s, env, h, j.v, j.wait, n, start, backoff);
      if stop.None? {
        OnlyRetriedAreFollowed(s, env, h, retried, w, n + 1, start, SafeDouble(backoff));
      }
    }
  }

  ghost function Retried(cfg: GetConfig, env: Env): nat -> bool {
    (n: nat) => cfg.badRequest.None? && GetRetries(env, n)
  }

  lemma GetFollowsOnlyRetried(cfg: GetConfig, env: Env, h: Hooks)
    requires AllGetsLeave(cfg, env, h)
    ensures FollowsOnly(h, Retried(cfg, env))
  {
    forall w: Vars, n: nat ensures !h.attempt(w, n).done ==> Retried(cfg, env)(n) {
      assert GetLeaves(cfg, env, n, h.attempt(w, n));
    }
  }

  /** What GetBytes returns, in every run and by the outcome of its last attempt alone. Of a 2xx:
      the whole body exactly when its read meets no error and it fits the limit, else that error or
      that it is too large, never a truncated one. Of a retryable outcome: exhaustion exactly when
      the budget is spent, else the end of its context. Of any other: that error, once; and every
      attempt before the last met a retryable outcome. */
  lemma GetBytesReturnsExactly(cfg: GetConfig, env: Env, start: int)
    requires NormalGet(cfg)
    ensures var (v, r) := GetCall(cfg, env, start);
            && GetReturnsExactly(cfg, env, |v.starts| - 1, v.now, r)
            && forall i :: 0 <= i < |v.starts| - 1 ==> Retried(cfg, env)(i)
  {
    var (v, stop) := Run(GetDoor(cfg), env, start);
    GetLoopReturns(cfg, env, start, v, stop);
    GetLoopRetries(cfg, env, start, v);
  }

  lemma GetLoopReturns(cfg: GetConfig, env: Env, start: int, v: Vars, stop: Stop)
    requires NormalGet(cfg) && (v, stop) == Run(GetDoor(cfg), env, start)
    ensures var shown := if v.error.Some? then LogSafe(v.error.value) else Value(RequestFailed);
            GetReturnsExactly(cfg, env, |v.starts| - 1, v.now, GetReturns(v, stop, shown))
  {
    HooksAreRegular(GetDoor(cfg), env);
    GetHooksLeave(cfg, env);
    GetRunReturns(cfg, env, ScheduleOf(GetDoor(cfg)), HooksOf(GetDoor(cfg), env), start, v, stop);
  }

  lemma GetLoopRetries(cfg: GetConfig, env: Env, start: int, v: Vars)
    requires NormalGet(cfg) && v == Run(GetDoor(cfg), env, start).0
    ensures forall i :: 0 <= i < |v.starts| - 1 ==> Retried(cfg, env)(i)
  {
    var s, h := ScheduleOf(GetDoor(cfg)), HooksOf(GetDoor(cfg), env);
    HooksAreRegular(GetDoor(cfg), env);
    GetHooksLeave(cfg, env);
    GetFollowsOnlyRetried(cfg, env, h);
    OnlyRetriedAreFollowed(s, env, h, Retried(cfg, env), InitialVars(start), 0, start, s.baseDelay);
  }

  // ---- The exhaustion error ----

  lemma RetryAfterNodeIsSilent(x: Error, e: Error, wait: Int64)
    requires x == RetryAfterErrorOver(e, wait)
    ensures NodeProfile(x) == SILENT
  {
  }

  lemma RetryAfterNodeKeepsProfile(x: Error, e: Error, wait: Int64)
    requires x == RetryAfterErrorOver(e, wait)
    ensures ProfileOf(Nodes(x)) == ProfileOf(Nodes(e))
  {
    RetryAfterNodeIsSilent(x, e, wait);
    WrapProfile(x.kind, e);
    SilentIsUnit(ProfileOf(Nodes(e)));
  }

  lemma SameProfileSameVerdicts(x: Error, e: Error)
    requires ProfileOf(Nodes(x)) == ProfileOf(Nodes(e))
    ensures (IsTransient(x) <==> IsTransient(e)) && CauseOf(x) == CauseOf(e)
  {
    IsTransientIsRule(x);
    IsTransientIsRule(e);
    CauseIsRule(x);
    CauseIsRule(e);
  }

  lemma RetryAfterNodeHints(x: Error, e: Error, wait: Int64)
    requires x == RetryAfterErrorOver(e, wait)
    ensures HintWait(x) == wait
  {
  }

  lemma PlainWrapKeepsProfile(e: Error, wrapped: Error)
    requires wrapped == Wrap(PLAIN, e)
    ensures ProfileOf(Nodes(wrapped)) == ProfileOf(Nodes(e))
  {
    assert PlainlyHolds(wrapped, e);
    PlainContextKeepsProfile(wrapped, e);
  }

  /** What an attempt that is to be retried leaves: the client's transient error, or the error of
      a retryable status with that reply's own Retry-After. */
  ghost predicate LeavesFailure(env: Env, n: nat, v: Vars) {
    GetRetries(env, n) &&
    match env.outcome(n).error
    case Some(c) => v.error == Some(Wrap(URL_ERROR, c)) && v.retryAfter == 0
    case None =>
      v.error == Some(StatusError(env.outcome(n).response.value.status)) &&
      v.retryAfter == RetryAfterOf(env.outcome(n).response)
  }

  lemma GetAttemptFails(cfg: GetConfig, env: Env, v: Vars, n: nat)
    ensures var j := GetAttempt(cfg, env, v, n); !j.done ==> LeavesFailure(env, n, j.v)
  {
    NothingIsTerminal(Leaf(PLAIN));
  }

  ghost predicate RetriesLeaveFailures(env: Env, h: Hooks) {
    forall v: Vars, n: nat {:trigger h.attempt(v, n)} ::
      !h.attempt(v, n).done ==> LeavesFailure(env, n, h.attempt(v, n).v)
  }

  lemma ExhaustedRunFails(env: Env, s: Schedule, h: Hooks, start: int, v: Vars, stop: Stop)
    requires Regular(h) && RetriesLeaveFailures(env, h) && 0 < s.attempts && stop == Exhausted
    requires (v, stop) == RunFrom(s, env, h, InitialVars(start), 0, start, s.baseDelay)
    ensures |v.starts| == s.attempts && LeavesFailure(env, s.attempts - 1, v)
  {
    EndsWithAttempt(s, env, h, InitialVars(start), 0, start, s.baseDelay);
    var k := |v.starts| - 1;
    var (begun, last) := AttemptAt(s, env, h, InitialVars(start), 0, start, s.baseDelay, k);
    assert EndsAs(s, env, h, start, k, begun, last, v, stop);
  }

  /** The last attempt of an exhausted GetBytes. */
  lemma ExhaustedGetFails(cfg: GetConfig, env: Env, start: int, v: Vars, stop: Stop)
    requires NormalGet(cfg) && (v, stop) == Run(GetDoor(cfg), env, start) && stop == Exhausted
    ensures |v.starts| == cfg.maxAttempts && LeavesFailure(env, cfg.maxAttempts - 1, v)
  {
    var h := HooksOf(GetDoor(cfg), env);
    HooksAreRegular(GetDoor(cfg), env);
    forall w: Vars, n: nat ensures !h.attempt(w, n).done ==> LeavesFailure(env, n, h.attempt(w, n).v) {
      GetAttemptFails(cfg, env, w, n);
    }
    ExhaustedRunFails(env, ScheduleOf(GetDoor(cfg)), h, start, v, stop);
  }

  lemma StatusErrorIsSilent(e: Error, code: int)
    requires e == StatusError(code)
    ensures NodeProfile(e) == SILENT && HintWait(e) == 0
  {
  }

  lemma StandInProfile(e: Error)
    requires e == Value(RequestFailed)
    ensures ProfileOf(Nodes(e)) == SILENT
  {
    assert Nodes(e) == [e];
    GatherOfOne(e, NodeProfile);
  }

  lemma SilentIsTerminal(e: Error)
    requires ProfileOf(Nodes(e)) == SILENT
    ensures !IsTransient(e) && CauseOf(e) == Unknown
  {
    IsTransientIsRule(e);
    CauseIsRule(e);
  }

  lemma ReducedIsTransientExactly(e: Error)
    ensures IsTransient(LogSafe(e)) <==> Envelopes(e) <= MAX_URL_ERROR_DEPTH && IsTransient(Innermost(e))
  {
    if Envelopes(e) > MAX_URL_ERROR_DEPTH {
      StandInProfile(LogSafe(e));
      SilentIsTerminal(LogSafe(e));
    }
  }

  /** What the exhaustion error x, over the reduction of the last failure e, says to an enclosing
      loop, by the outcome o of the last attempt. A status keeps its verdict, which is terminal,
      and its cause, and hands on the reply's Retry-After. A transport error c, transient behind
      the client's envelope, names no wait but its own. It stays transient exactly when its
      envelopes are no deeper than the reduction goes and what is left is transient; and where the
      client's envelope is the only one, verdict and cause are kept exactly when the transport
      would read c as GetBytes did. */
  ghost predicate ExhaustionMeans(o: Outcome, e: Error, x: Error) {
    match o.error
    case None =>
      && o.response.Some? && e == StatusError(o.response.value.status)
      && !IsTransient(x) && CauseOf(x) == Unknown && !IsTransient(e) && CauseOf(e) == Unknown
      && HintWait(x) == RetryAfterOf(o.response)
    case Some(c) =>
      && e == Wrap(URL_ERROR, c) && IsTransient(e)
      && HintWait(x) == HintWait(LogSafe(e)) && CauseOf(x) == CauseOf(LogSafe(e))
      && (IsTransient(x) <==> Envelopes(e) <= MAX_URL_ERROR_DEPTH && IsTransient(Innermost(e)))
      && (!HasURLError(c) ==>
            && (IsTransient(x) <==> VerdictSeenAlike(c))
            && (CauseOf(x) == CauseOf(e) <==> CauseSeenAlike(c)))
  }

  lemma StatusExhaustionMeans(o: Outcome, e: Error, wrapped: Error, x: Error)
    requires o.error.None? && o.response.Some? && e == StatusError(o.response.value.status)
    requires var wait := RetryAfterOf(o.response);
             wrapped == Wrap(PLAIN, e) && x == if wait > 0 then RetryAfterErrorOver(wrapped, wait) else wrapped
    ensures ExhaustionMeans(o, e, x)
  {
    var wait := RetryAfterOf(o.response);
    StatusErrorIsSilent(e, o.response.value.status);
    LeafProfile(e);
    RetryAfterIsBounded(o.response.value.retryAfter, o.response.value.until);
    PlainWrapKeepsProfile(e, wrapped);
    PlainWrapKeepsHint(e, wrapped);
    if wait > 0 {
      RetryAfterNodeKeepsProfile(x, wrapped, wait);
      RetryAfterNodeHints(x, wrapped, wait);
    }
    SilentIsTerminal(e);
    SilentIsTerminal(x);
  }

  lemma PlainWrapKeepsHint(e: Error, wrapped: Error)
    requires wrapped == Wrap(PLAIN, e)
    ensures HintWait(wrapped) == HintWait(e)
  {
  }

  lemma TransportExhaustionMeans(o: Outcome, c: Error, e: Error, x: Error)
    requires o.error == Some(c) && e == Wrap(URL_ERROR, c) && IsTransient(e) && x == Wrap(PLAIN, LogSafe(e))
    ensures ExhaustionMeans(o, e, x)
  {
    var shown := LogSafe(e);
    PlainWrapKeepsProfile(shown, x);
    PlainWrapKeepsHint(shown, x);
    SameProfileSameVerdicts(x, shown);
    ReducedIsTransientExactly(e);
    if !HasURLError(c) {
      ReductionKeepsCauseExactly(c);
      EnvelopeKeepsVerdictExactly(c);
      EnvelopeKeepsCauseExactly(c);
    }
  }

  /** The error an exhausted GetBytes returns hands the last reply's Retry-After to an enclosing
      Do, and claims nothing else; what it keeps of the last failure, exactly. */
  lemma ExhaustionKeepsVerdictAndHint(cfg: GetConfig, env: Env, start: int)
    requires NormalGet(cfg)
    ensures var (v, stop) := Run(GetDoor(cfg), env, start);
            stop == Exhausted ==>
              && |v.starts| == cfg.maxAttempts && v.error.Some?
              && var r := GetReturns(v, stop, LogSafe(v.error.value));
                 r.RetriesExhausted? && ExhaustionMeans(env.outcome(cfg.maxAttempts - 1), v.error.value, r.error)
  {
    var (v, stop) := Run(GetDoor(cfg), env, start);
    if stop == Exhausted {
      ExhaustedGetFails(cfg, env, start, v, stop);
      var o, e := env.outcome(cfg.maxAttempts - 1), v.error.value;
      var x := GetReturns(v, stop, LogSafe(e)).error;
      if o.error.Some? {
        TransportExhaustionMeans(o, o.error.value, e, x);
      } else {
        NothingIsTerminal(Leaf(PLAIN));
        StatusIsItsOwnReduction(e, o.response.value.status);
        StatusExhaustionMeans(o, e, Wrap(PLAIN, e), x);
      }
    }
  }

  /** One attempt is enough to lose the verdict: its error times out without being a net.Error, so
      GetBytes would have retried it, and what it returns is terminal. */
  lemma ExhaustionCanLoseTheVerdict(cfg: GetConfig, env: Env, start: int, c: Error)
    requires NormalGet(cfg) && cfg.badRequest.None? && cfg.maxAttempts == 1
    requires c == Leaf(PLAIN.(timing := TimeoutOnly(true))) && env.outcome(0).error == Some(c)
    ensures var (v, stop) := Run(GetDoor(cfg), env, start);
            && stop == Exhausted && v.error.Some? && IsTransient(v.error.value)
            && !IsTransient(GetReturns(v, stop, LogSafe(v.error.value)).error)
  {
    EnvelopeCanShowATimeout(c);
    EnvelopeKeepsVerdictExactly(c);
    LeafIsURLFree(c);
    var h := HooksOf(GetDoor(cfg), env);
    assert h.attempt(Start(InitialVars(start)), 0) == GetAttempt(cfg, env, Start(InitialVars(start)), 0);
    ExhaustionKeepsVerdictAndHint(cfg, env, start);
  }

  // ---- The transport ----

  /** The round trip's error, a bare hang-up named. */
  function NamedError(env: Env, n: nat): Option<Error> {
    match env.outcome(n).error
    case Some(e) => Some(if e == Value(EndOfFile) then Value(ServerClosed) else e)
    case None => None
  }

  /** The verdict on the outcome of attempt n: the caller's policy is asked about exactly what came
      back, its own error included; the default retries a transient error or a retryable status. */
  function TripVerdict(rt: Transport, env: Env, n: nat): (bool, Option<Error>) {
    var r := env.outcome(n).response;
    match rt.policy
    case CustomPolicy(check) => check(n, r, NamedError(env, n))
    case DefaultPolicy =>
      match NamedError(env, n)
      case Some(e) => (IsTransient(e), None)
      case None => (r.Some? && IsRetryableStatus(r.value.status), None)
  }

  function AsItCame(env: Env, n: nat): Trip {
    Trip(if env.outcome(n).response.Some? then Some(n) else None, NamedError(env, n))
  }

  /** The error of a retry that could not be built: GetBody's, else PrepareRetry's, wrapped. */
  function BuildError(rt: Transport, req: Req, n: nat): Option<Error> {
    if n == 0 then None
    else if req.getBody.Some? && req.getBody.value(n).Err? then Some(Wrap(PLAIN, req.getBody.value(n).error))
    else if rt.prepare.Some? && rt.prepare.value(n, req.header).Err? then
      Some(Wrap(PLAIN, rt.prepare.value(n, req.header).error))
    else None
  }

  lemma BuildFailsExactly(rt: Transport, req: Req, env: Env, n: nat)
    ensures match BuildAttempt(rt, req, env, n)
            case Err(e) => BuildError(rt, req, n) == Some(e)
            case Ok(_) => BuildError(rt, req, n) == None
  {
  }

  /** What an attempt means: one that cannot be built, or that the policy refuses with an error,
      ends the run with that error; else the outcome is kept as it came, unless the context ended
      under one to retry, whose place the context's end then takes. */
  ghost predicate TripMeans(rt: Transport, req: Req, env: Env, n: nat, j: Judgement) {
    var t := Trip(j.v.held, j.v.error);
    match BuildError(rt, req, n)
    case Some(e) => j.done && t == Trip(None, Some(e))
    case None =>
      var (retry, checkErr) := TripVerdict(rt, env, n);
      if checkErr.Some? then j.done && t == Trip(None, checkErr)
      else if !retry then j.done && t == AsItCame(env, n)
      else if Over(env.ctx, j.v.now) then j.done && t == Trip(None, Some(EndOf(env.ctx)))
      else !j.done && t == AsItCame(env, n)
  }

  lemma TransportAttemptMeans(rt: Transport, req: Req, env: Env, v: Vars, n: nat)
    ensures TripMeans(rt, req, env, n, TransportAttempt(rt, req, env, v, n))
  {
    BuildFailsExactly(rt, req, env, n);
  }

  /** The error that says the ceiling cut the run after attempt k. */
  function CeilingError(env: Env, k: nat): Error {
    match NamedError(env, k)
    case Some(e) => Wrap(PLAIN, e)
    case None => ELAPSED
  }

  /** What RoundTrip hands back, by its last attempt k: the error of a request that could not be
      built; the policy's own error; the outcome as it came, one to retry only after the last
      attempt; or, for one to retry, the context's end or the ceiling's error. */
  ghost predicate TripIsLastOutcome(rt: Transport, req: Req, env: Env, k: nat, now: int, trip: Trip) {
    var attempts := AttemptsOf(TransportDoor(rt, req));
    && k < attempts
    && match BuildError(rt, req, k)
       case Some(e) => trip == Trip(None, Some(e))
       case None =>
         var (retry, checkErr) := TripVerdict(rt, env, k);
         var ended := trip == Trip(None, Some(EndOf(env.ctx))) && Over(env.ctx, now);
         if checkErr.Some? then trip == Trip(None, checkErr)
         else if !retry then trip == AsItCame(env, k)
         else if k == attempts - 1 then ended || (trip == AsItCame(env, k) && !Over(env.ctx, now))
         else ended || (trip == Trip(None, Some(CeilingError(env, k))) && rt.maxElapsed > 0)
  }

  ghost predicate AllTripsMean(rt: Transport, req: Req, env: Env, h: Hooks) {
    && (forall v: Vars, n: nat {:trigger h.attempt(v, n)} :: TripMeans(rt, req, env, n, h.attempt(v, n)))
    && PausesKeepError(h)
  }

  lemma TransportHooksMean(rt: Transport, req: Req, env: Env)
    ensures AllTripsMean(rt, req, env, HooksOf(TransportDoor(rt, req), env))
  {
    var h := HooksOf(TransportDoor(rt, req), env);
    forall v: Vars, n: nat ensures TripMeans(rt, req, env, n, h.attempt(v, n)) {
      TransportAttemptMeans(rt, req, env, v, n);
    }
  }

  lemma TripEndMeans(rt: Transport, req: Req, env: Env, h: Hooks, start: int, k: nat, begun: Vars, backoff: Int64,
      v: Vars, stop: Stop)
    requires EndsAs(TransportSchedule(rt), env, h, start, k, begun, backoff, v, stop) &&
              k < TransportSchedule(rt).attempts
    requires AllTripsMean(rt, req, env, h)
    ensures TripIsLastOutcome(rt, req, env, k, v.now, TripReturns(v, stop))
  {
    var j := h.attempt(begun, k);
    ScheduleExactly(TransportDoor(rt, req));
    assert TripMeans(rt, req, env, k, j);
    if !j.done && k < TransportSchedule(rt).attempts - 1 {
      assert v.error == j.v.error;
    }
  }

  lemma TripRunMeans(rt: Transport, req: Req, env: Env, h: Hooks, start: int, v: Vars, stop: Stop)
    requires Regular(h) && AllTripsMean(rt, req, env, h)
    requires var s := TransportSchedule(rt);
             (v, stop) == RunFrom(s, env, h, InitialVars(start), 0, start, s.baseDelay)
    ensures |v.starts| > 0 && TripIsLastOutcome(rt, req, env, |v.starts| - 1, v.now, TripReturns(v, stop))
    ensures forall i :: 0 <= i < |v.starts| - 1 ==> Repeated(rt, req, env)(i)
  {
    var s := TransportSchedule(rt);
    EndsWithAttempt(s, env, h, InitialVars(start), 0, start, s.baseDelay);
    var k := |v.starts| - 1;
    var (begun, last) := AttemptAt(s, env, h, InitialVars(start), 0, start, s.baseDelay, k);
    TripEndMeans(rt, req, env, h, start, k, begun, last, v, stop);
    TransportFollowsOnlyRepeated(rt, req, env, h);
    OnlyRetriedAreFollowed(s, env, h, Repeated(rt, req, env), InitialVars(start), 0, start, s.baseDelay);
  }

  /** Attempt n was built and its verdict was to retry. */
  ghost function Repeated(rt: Transport, req: Req, env: Env): nat -> bool {
    (n: nat) => BuildError(rt, req, n).None? && TripVerdict(rt, env, n) == (true, None)
  }

  lemma TransportFollowsOnlyRepeated(rt: Transport, req: Req, env: Env, h: Hooks)
    requires AllTripsMean(rt, req, env, h)
    ensures FollowsOnly(h, Repeated(rt, req, env))
  {
    forall w: Vars, n: nat ensures !h.attempt(w, n).done ==> Repeated(rt, req, env)(n) {
      assert TripMeans(rt, req, env, n, h.attempt(w, n));
    }
  }

  /** RoundTrip, under any policy and any GetBody and PrepareRetry, hands back what its last
      attempt came to, or says what cut the run short, and made every attempt before it because the
      policy would retry what came back. A request that may not be repeated is sent once and its
      outcome handed back as it came, whatever the policy. */
  lemma RoundTripReturnsTheLastOutcome(rt: Transport, req: Req, env: Env, start: int)
    ensures var (v, trip) := RoundTripRun(rt, req, env, start);
            if MayBeRepeated(rt, req)
            then
              && |v.starts| > 0 && TripIsLastOutcome(rt, req, env, |v.starts| - 1, v.now, trip)
              && forall i :: 0 <= i < |v.starts| - 1 ==> Repeated(rt, req, env)(i)
            else trip == AsItCame(env, 0)
  {
    RepeatableExactly(rt, req);
    if MayBeRepeated(rt, req) {
      var (v, stop) := Run(TransportDoor(rt, req), env, start);
      LoopReturnsTheLastOutcome(rt, req, env, start, v, stop);
    }
  }

  lemma LoopReturnsTheLastOutcome(rt: Transport, req: Req, env: Env, start: int, v: Vars, stop: Stop)
    requires (v, stop) == Run(TransportDoor(rt, req), env, start)
    ensures |v.starts| > 0 && TripIsLastOutcome(rt, req, env, |v.starts| - 1, v.now, TripReturns(v, stop))
    ensures forall i :: 0 <= i < |v.starts| - 1 ==> Repeated(rt, req, env)(i)
  {
    var door := TransportDoor(rt, req);
    HooksAreRegular(door, env);
    TransportHooksMean(rt, req, env);
    TripRunMeans(rt, req, env, HooksOf(door, env), start, v, stop);
  }
}
