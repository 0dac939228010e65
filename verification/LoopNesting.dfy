/** GetBytes as the callback of Do: how many requests the two budgets make together, and what
    becomes of the Retry-After that GetBytes hands out on its error. */
module LoopNesting {
  import opened Prelude
  import opened Errors
  import opened Verdicts
  import opened URLErrors
  import opened Messages
  import opened Backoff
  import opened Loop
  import opened LoopTiming
  import opened LoopAgreement
  import opened LoopReturns

  function ErrorOf(r: GetReturn): Option<Error> {
    match r
    case Body(_) => None
    case StoppedEarly(e) => Some(e)
    case NotRetried(e) => Some(e)
    case RetriesExhausted(e) => Some(e)
  }

  /** The worlds the calls of GetBytes meet, and when each begins. */
  datatype Calls = Calls(world: nat -> Env, begun: nat -> int)

  /** Attempt n of Do is call n of GetBytes, whose error the callback hands on as it is, or as
      MarkTransient makes it. */
  ghost predicate RunsGetBytes(env: Env, get: GetConfig, calls: Calls, marks: bool) {
    forall n: nat :: env.outcome(n).error == HandedOn(get, calls, marks, n)
  }

  ghost function HandedOn(get: GetConfig, calls: Calls, marks: bool, n: nat): Option<Error> {
    var e := ErrorOf(GetCall(get, calls.world(n), calls.begun(n)).1);
    if marks then MarkTransient(e) else e
  }

  // ---- The two budgets ----

  ghost function Total(f: nat -> nat, k: nat): nat {
    if k == 0 then 0 else Total(f, k - 1) + f(k - 1)
  }

  lemma {:induction false} TotalIsAtMost(f: nat -> nat, k: nat, attempts: nat, most: nat)
    requires k <= attempts && forall n: nat :: f(n) <= most
    ensures Total(f, k) <= attempts * most
  {
    if k == 0 {
      assert 0 <= attempts * most;
    } else {
      TotalIsAtMost(f, k - 1, attempts - 1, most);
      assert attempts * most == (attempts - 1) * most + most;
    }
  }

  /** The requests call n of GetBytes sends. */
  ghost function RequestsIn(get: GetConfig, calls: Calls): nat -> nat {
    (n: nat) => Requests(GetCall(get, calls.world(n), calls.begun(n)).0.events)
  }

  lemma GetSendsAtMost(get: GetConfig, env: Env, start: int)
    requires NormalGet(get)
    ensures Requests(GetCall(get, env, start).0.events) <= get.maxAttempts
    ensures get.badRequest.None? ==>
              Requests(GetCall(get, env, start).0.events) == |GetCall(get, env, start).0.starts|
  {
    var s, h := ScheduleOf(GetDoor(get)), HooksOf(GetDoor(get), env);
    HooksAreRegular(GetDoor(get), env);
    AttemptsAreCounted(s, env, h, InitialVars(start), 0, start, s.baseDelay);
    if get.badRequest.None? {
      GetDoorSendsOnce(get, env);
      RequestsAreAttempts(s, env, h, InitialVars(start), 0, start, s.baseDelay);
    } else {
      assert h.attempt(Start(InitialVars(start)), 0) == GetAttempt(get, env, Start(InitialVars(start)), 0);
    }
  }

  lemma GetDoorSendsOnce(get: GetConfig, env: Env)
    requires get.badRequest.None?
    ensures SendsOnce(HooksOf(GetDoor(get), env))
  {
    var g := HooksOf(GetDoor(get), env);
    forall v: Vars, n: nat ensures Requests(g.attempt(v, n).v.events) == Requests(v.events) + 1 {
      GetSendsOnce(get, env, v, n);
    }
  }

  lemma DoCallsAtMost(cfg: DoConfig, env: Env, start: int)
    requires NormalDo(cfg)
    ensures |DoRun(cfg, env, start).0.starts| <= cfg.maxAttempts
  {
    var s := ScheduleOf(DoDoor(cfg));
    HooksAreRegular(DoDoor(cfg), env);
    AttemptsAreCounted(s, env, HooksOf(DoDoor(cfg), env), InitialVars(start), 0, start, s.baseDelay);
  }

  /** Do over GetBytes sends at most the product of the two budgets, whatever the callback makes of
      the errors; so over GetBytes with one attempt no more than its own. */
  lemma NestedBudgetsMultiply(cfg: DoConfig, env: Env, start: int, get: GetConfig, calls: Calls)
    requires NormalDo(cfg) && NormalGet(get)
    ensures Total(RequestsIn(get, calls), |DoRun(cfg, env, start).0.starts|) <= cfg.maxAttempts * get.maxAttempts
  {
    forall n: nat ensures RequestsIn(get, calls)(n) <= get.maxAttempts {
      GetSendsAtMost(get, calls.world(n), calls.begun(n));
    }
    DoCallsAtMost(cfg, env, start);
    TotalIsAtMost(RequestsIn(get, calls), |DoRun(cfg, env, start).0.starts|, cfg.maxAttempts, get.maxAttempts);
  }

  lemma {:induction false} TotalIsExactly(f: nat -> nat, k: nat, each: nat)
    requires forall n: nat :: f(n) == each
    ensures Total(f, k) == k * each
  {
    if k > 0 {
      TotalIsExactly(f, k - 1, each);
      assert k * each == (k - 1) * each + each;
    }
  }

  /** Under a live context and no ceiling, a door that never gives up spends its whole budget. */
  lemma {:induction false} EndlessRunIsExhausted(s: Schedule, env: Env, h: Hooks, v: Vars, n: nat, start: int,
        backoff: Int64)
    requires Regular(h) && env.ctx.endsAt.None? && s.maxElapsed <= 0 && n < s.attempts && |v.starts| == n
    requires forall w: Vars, i: nat {:trigger h.attempt(w, i)} :: !h.attempt(w, i).done
    ensures var (w, stop) := RunFrom(s, env, h, v, n, start, backoff); |w.starts| == s.attempts && stop == Exhausted
    decreases s.attempts - n
  {
    var j := h.attempt(Start(v), n);
    if n < s.attempts - 1 {
      var (w, stop) := Between(s, env, h, j.v, j.wait, n, start, backoff);
      EndlessRunIsExhausted(s, env, h, w, n + 1, start, SafeDouble(backoff));
    }
  }

  /** A world without an end in which every attempt meets e. */
  ghost function FailingWorld(e: Error): (env: Env)
    ensures env.ctx.endsAt.None? && forall n: nat :: env.outcome(n) == Outcome(None, Some(e))
  {
    Env(Context(None, false), n => Outcome(None, Some(e)), n => 0, n => 0, n => 0, n => 0, n => 0, n => 0, n => 0,
        n => true, n => [])
  }

  /** A reset is retried by GetBytes, and what GetBytes returns in the end by Do. */
  lemma ResetIsRetriedTwice(c: Error, u: Error, x: Error)
    requires c == Value(ConnReset) && u == Wrap(URL_ERROR, c) && x == Wrap(PLAIN, c)
    ensures IsTransient(u) && LogSafe(u) == c
    ensures IsTransient(x) && !Vetoed(x) && !Is(x, DeadlineExceeded)
  {
    ResetProfile(c);
    AnyHasIffMember(Nodes(c), URLErrorType);
    ReductionKeepsCauseExactly(c);
    HungUpIsRule(c);
    EnvelopeKeepsVerdictExactly(c);
    IsTransientIsRule(c);
    PlainWrapKeepsProfile(c, x);
    IsTransientIsRule(x);
    VetoIsRule(x);
    IsMeansSomeNode(x, DeadlineExceeded);
    ProfileOfMembers(Nodes(x));
  }

  lemma ResetProfile(c: Error)
    requires c == Value(ConnReset)
    ensures Nodes(c) == [c] && ProfileOf(Nodes(c)) == SILENT.(hungUp := true, timeout := No)
  {
    GatherOfOne(c, NodeProfile);
  }

  lemma GetIsEndless(get: GetConfig, env: Env, v: Vars, n: nat, c: Error)
    requires get.badRequest.None? && env.outcome(n) == Outcome(None, Some(c)) && IsTransient(Wrap(URL_ERROR, c))
    ensures var j := GetAttempt(get, env, v, n);
            !j.done && j.v.error == Some(Wrap(URL_ERROR, c)) && j.v.retryAfter == 0
  {
  }

  lemma FailingGetIsExhausted(get: GetConfig, env: Env, start: int, c: Error)
    requires NormalGet(get) && get.badRequest.None? && env == FailingWorld(c) && IsTransient(Wrap(URL_ERROR, c))
    ensures var (v, r) := GetCall(get, env, start);
            |v.starts| == get.maxAttempts && ErrorOf(r) == Some(Wrap(PLAIN, LogSafe(Wrap(URL_ERROR, c))))
  {
    var s, h := ScheduleOf(GetDoor(get)), HooksOf(GetDoor(get), env);
    HooksAreRegular(GetDoor(get), env);
    forall w: Vars, i: nat ensures !h.attempt(w, i).done {
      GetIsEndless(get, env, w, i, c);
    }
    EndlessRunIsExhausted(s, env, h, InitialVars(start), 0, start, s.baseDelay);
    var (v, stop) := Run(GetDoor(get), env, start);
    ExhaustedGetFails(get, env, start, v, stop);
  }

  lemma FailingDoIsExhausted(cfg: DoConfig, env: Env, start: int, x: Error)
    requires NormalDo(cfg) && !cfg.conflict && cfg.mode != OnlyRateLimit && env == FailingWorld(x)
    requires IsTransient(x) && !Is(x, DeadlineExceeded)
    ensures |DoRun(cfg, env, start).0.starts| == cfg.maxAttempts
  {
    var s, h := ScheduleOf(DoDoor(cfg)), HooksOf(DoDoor(cfg), env);
    HooksAreRegular(DoDoor(cfg), env);
    forall w: Vars, i: nat ensures !h.attempt(w, i).done {
      assert h.attempt(w, i) == DoAttempt(cfg, env, w, i);
    }
    EndlessRunIsExhausted(s, env, h, InitialVars(start), 0, start, s.baseDelay);
  }

  /** The product is reached: where every exchange is reset, each call spends its budget and Do its
      own. */
  lemma ProductIsReached(cfg: DoConfig, env: Env, get: GetConfig, calls: Calls, c: Error)
    requires NormalDo(cfg) && !cfg.conflict && cfg.mode != OnlyRateLimit && NormalGet(get) && get.badRequest.None?
    requires c == Value(ConnReset) && env == FailingWorld(Wrap(PLAIN, c))
    requires forall n: nat :: calls.world(n) == FailingWorld(c)
    ensures RunsGetBytes(env, get, calls, false)
    ensures Total(RequestsIn(get, calls), |DoRun(cfg, env, 0).0.starts|) == cfg.maxAttempts * get.maxAttempts
  {
    var x := Wrap(PLAIN, c);
    ResetIsRetriedTwice(c, Wrap(URL_ERROR, c), x);
    ResetCallsAreExhausted(get, calls, c);
    assert forall n: nat :: HandedOn(get, calls, false, n) == Some(x);
    FailingDoIsExhausted(cfg, env, 0, x);
    TotalIsExactly(RequestsIn(get, calls), cfg.maxAttempts, get.maxAttempts);
  }

  lemma ResetCallsAreExhausted(get: GetConfig, calls: Calls, c: Error)
    requires NormalGet(get) && get.badRequest.None? && IsTransient(Wrap(URL_ERROR, c))
    requires forall n: nat :: calls.world(n) == FailingWorld(c)
    ensures forall n: nat :: RequestsIn(get, calls)(n) == get.maxAttempts
    ensures forall n: nat ::
              ErrorOf(GetCall(get, calls.world(n), calls.begun(n)).1) == Some(Wrap(PLAIN, LogSafe(Wrap(URL_ERROR, c))))
  {
    forall n: nat
      ensures RequestsIn(get, calls)(n) == get.maxAttempts
      ensures ErrorOf(GetCall(get, calls.world(n), calls.begun(n)).1) ==
              Some(Wrap(PLAIN, LogSafe(Wrap(URL_ERROR, c))))
    {
      FailingGetIsExhausted(get, calls.world(n), calls.begun(n), c);
      GetSendsAtMost(get, calls.world(n), calls.begun(n));
    }
  }

  // ---- What becomes of a Retry-After ----

  predicate IsStatusError(e: Error) {
    e.Leaf? && e.kind.tag.Status? && e == StatusError(e.kind.tag.code)
  }

  /** The call failed on the status of a reply, retryable or not. */
  ghost predicate FailsOnStatus(get: GetConfig, env: Env, start: int) {
    var (v, stop) := Run(GetDoor(get), env, start);
    StopError(stop).None? && v.error.Some? && IsStatusError(v.error.value)
  }

  /** The Retry-After a call hands out: that of the last reply, once the budget is spent. */
  ghost function HandedOut(get: GetConfig, env: Env, start: int): Int64
    requires NormalGet(get)
  {
    if Run(GetDoor(get), env, start).1 == Exhausted then RetryAfterOf(env.outcome(get.maxAttempts - 1).response) else 0
  }

  /** x says nothing to any verdict; what it says of the wait is hint. */
  ghost predicate SaysOnly(x: Error, hint: Int64) {
    ProfileOf(Nodes(x)) == SILENT && HintWait(x) == Max(hint, 0)
  }

  lemma StatusSaysOnlyItsHint(e: Error, wrapped: Error, hint: Int64)
    requires IsStatusError(e) && wrapped == Wrap(PLAIN, e)
    ensures LogSafe(e) == e && SaysOnly(e, 0)
    ensures SaysOnly(if hint > 0 then RetryAfterErrorOver(wrapped, hint) else wrapped, hint)
  {
    var x := if hint > 0 then RetryAfterErrorOver(wrapped, hint) else wrapped;
    StatusErrorIsSilent(e, e.kind.tag.code);
    StatusIsItsOwnReduction(e, e.kind.tag.code);
    LeafProfile(e);
    PlainWrapKeepsProfile(e, wrapped);
    PlainWrapKeepsHint(e, wrapped);
    if hint > 0 {
      RetryAfterNodeKeepsProfile(x, wrapped, hint);
      RetryAfterNodeHints(x, wrapped, hint);
    }
  }

  /** A call that fails on a status returns an error that says nothing but the Retry-After. */
  lemma StatusCallSaysOnlyItsHint(get: GetConfig, env: Env, start: int)
    requires NormalGet(get) && FailsOnStatus(get, env, start)
    ensures var e := ErrorOf(GetCall(get, env, start).1);
            e.Some? && SaysOnly(e.value, HandedOut(get, env, start))
  {
    var (v, stop) := Run(GetDoor(get), env, start);
    StatusSaysOnlyItsHint(v.error.value, Wrap(PLAIN, v.error.value), v.retryAfter);
    if stop == Exhausted {
      ExhaustedGetFails(get, env, start, v, stop);
    }
  }

  lemma SilentIsRefused(cfg: DoConfig, x: Error)
    requires ProfileOf(Nodes(x)) == SILENT
    ensures Classify(cfg, x) == (false, 0) && !Is(x, DeadlineExceeded)
  {
    SilentIsTerminal(x);
    VetoIsRule(x);
    IsMeansSomeNode(x, DeadlineExceeded);
    ProfileOfMembers(Nodes(x));
  }

  lemma MarkedSilentIsRetried(cfg: DoConfig, x: Error, m: Error)
    requires ProfileOf(Nodes(x)) == SILENT && m == Wrap(MARKED_TRANSIENT, x)
    ensures Classify(cfg, m) == if cfg.mode == OnlyRateLimit then (false, 0) else (true, HintWait(x))
    ensures !Is(m, DeadlineExceeded)
  {
    MarkDecides(MARKED_TRANSIENT, x, m);
    SilentIsRefused(cfg, x);
    VetoIsRule(x);
    CallerContextIsRule(x);
    assert AsType(m, RateLimitErrorType) == AsType(x, RateLimitErrorType);
    assert AsType(m, RetryAfterHintType) == AsType(x, RetryAfterHintType);
  }

  /** Unmarked, a failure on a status ends Do at once: its Retry-After is never waited for. */
  lemma StatusIsTerminal(cfg: DoConfig, env: Env, get: GetConfig, calls: Calls, v: Vars, n: nat)
    requires NormalGet(get) && RunsGetBytes(env, get, calls, false)
    requires FailsOnStatus(get, calls.world(n), calls.begun(n))
    ensures DoAttempt(cfg, env, v, n).done
  {
    StatusCallSaysOnlyItsHint(get, calls.world(n), calls.begun(n));
    var x := HandedOn(get, calls, false, n).value;
    assert env.outcome(n).error == Some(x);
    SilentIsRefused(cfg, x);
  }

  /** Marked, it is retried while the caller is live, after exactly that Retry-After if there is
      one. */
  lemma MarkedStatusIsRetried(cfg: DoConfig, env: Env, get: GetConfig, calls: Calls, v: Vars, n: nat)
    requires NormalGet(get) && RunsGetBytes(env, get, calls, true)
    requires FailsOnStatus(get, calls.world(n), calls.begun(n))
    ensures var j := DoAttempt(cfg, env, v, n);
            && (j.done <==> cfg.mode == OnlyRateLimit || Over(env.ctx, j.v.now))
            && (!j.done ==> j.wait == Max(HandedOut(get, calls.world(n), calls.begun(n)), 0))
  {
    StatusCallSaysOnlyItsHint(get, calls.world(n), calls.begun(n));
    var x := HandedOn(get, calls, false, n).value;
    assert env.outcome(n).error == HandedOn(get, calls, true, n) == Some(Wrap(MARKED_TRANSIENT, x));
    RetriedAfterHint(cfg, env, v, n, x, Wrap(MARKED_TRANSIENT, x), HandedOut(get, calls.world(n), calls.begun(n)));
  }

  lemma RetriedAfterHint(cfg: DoConfig, env: Env, v: Vars, n: nat, x: Error, m: Error, hint: Int64)
    requires SaysOnly(x, hint) && m == Wrap(MARKED_TRANSIENT, x) && env.outcome(n).error == Some(m)
    ensures var j := DoAttempt(cfg, env, v, n);
            && (j.done <==> cfg.mode == OnlyRateLimit || Over(env.ctx, j.v.now))
            && (!j.done ==> j.wait == Max(hint, 0))
  {
    MarkedSilentIsRetried(cfg, x, m);
  }

  // ---- Over whole runs ----

  lemma {:induction false} RunStopsAt(s: Schedule, env: Env, h: Hooks, at: nat, v: Vars, n: nat, start: int,
        backoff: Int64)
    requires Regular(h) && n <= at && n < s.attempts && |v.starts| == n
    requires forall w: Vars {:trigger h.attempt(w, at)} :: h.attempt(w, at).done
    ensures |RunFrom(s, env, h, v, n, start, backoff).0.starts| <= at + 1
    decreases s.attempts - n
  {
    var j := h.attempt(Start(v), n);
    if !j.done && n < s.attempts - 1 {
      var (w, stop) := Between(s, env, h, j.v, j.wait, n, start, backoff);
      if stop.None? {
        RunStopsAt(s, env, h, at, w, n + 1, start, SafeDouble(backoff));
      }
    }
  }

  ghost predicate NamesHints(h: Hooks, hint: nat -> Int64) {
    forall v: Vars, n: nat {:trigger h.attempt(v, n)} ::
      !h.attempt(v, n).done && hint(n) > 0 ==> h.attempt(v, n).wait == hint(n)
  }

  ghost predicate WaitsHints(waits: seq<Waited>, hint: nat -> Int64) {
    forall i :: 0 <= i < |waits| && hint(i) > 0 ==> waits[i].wait == hint(i)
  }

  lemma {:induction false} RunWaitsHints(s: Schedule, env: Env, h: Hooks, hint: nat -> Int64, v: Vars, n: nat,
        start: int, backoff: Int64)
    requires Regular(h) && NamesHints(h, hint) && n < s.attempts && |v.waits| == n && WaitsHints(v.waits, hint)
    ensures WaitsHints(RunFrom(s, env, h, v, n, start, backoff).0.waits, hint)
    decreases s.attempts - n
  {
    var j := h.attempt(Start(v), n);
    if !j.done && n < s.attempts - 1 {
      var (w, stop) := Between(s, env, h, j.v, j.wait, n, start, backoff);
      assert w.waits == v.waits + [Waited(j.wait, ResolveWait(j.wait, backoff, env.draw(n)))];
      if stop.None? {
        RunWaitsHints(s, env, h, hint, w, n + 1, start, SafeDouble(backoff));
      }
    }
  }

  /** In every run of Do over GetBytes, under every option, a call that failed on a status was the
      last: whatever Retry-After came with it, Do does not try again. */
  lemma UnmarkedStatusEndsDo(cfg: DoConfig, env: Env, start: int, get: GetConfig, calls: Calls, n: nat)
    requires NormalDo(cfg) && NormalGet(get) && RunsGetBytes(env, get, calls, false)
    requires n < |DoRun(cfg, env, start).0.starts| && FailsOnStatus(get, calls.world(n), calls.begun(n))
    ensures n == |DoRun(cfg, env, start).0.starts| - 1
  {
    var h, s := HooksOf(DoDoor(cfg), env), ScheduleOf(DoDoor(cfg));
    HooksAreRegular(DoDoor(cfg), env);
    forall v: Vars ensures h.attempt(v, n).done {
      StatusIsTerminal(cfg, env, get, calls, v, n);
    }
    RunStopsAt(s, env, h, n, InitialVars(start), 0, start, s.baseDelay);
  }

  /** If the callback marks the errors, every wait of Do after a call that handed out a
      Retry-After is exactly that wait. */
  lemma MarkedStatusWaitsItsHint(cfg: DoConfig, env: Env, start: int, get: GetConfig, calls: Calls, n: nat)
    requires NormalDo(cfg) && NormalGet(get) && RunsGetBytes(env, get, calls, true)
    requires n < |DoRun(cfg, env, start).0.waits| && FailsOnStatus(get, calls.world(n), calls.begun(n))
    ensures var hint := HandedOut(get, calls.world(n), calls.begun(n));
            hint > 0 ==> DoRun(cfg, env, start).0.waits[n].wait == hint
  {
    var h, s := HooksOf(DoDoor(cfg), env), ScheduleOf(DoDoor(cfg));
    var hint := HandedOut(get, calls.world(n), calls.begun(n));
    HooksAreRegular(DoDoor(cfg), env);
    forall v: Vars ensures !h.attempt(v, n).done && hint > 0 ==> h.attempt(v, n).wait == hint {
      MarkedStatusIsRetried(cfg, env, get, calls, v, n);
    }
    RunWaitsHints(s, env, h, i => if i == n then hint else 0, InitialVars(start), 0, start, s.baseDelay);
  }
}
