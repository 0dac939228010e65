/** Whether a run starts attempts after its caller's context has ended. */
module LoopContext {
  import opened Prelude
  import opened Errors
  import opened Messages
  import opened RetryAfter
  import opened Backoff
  import opened Loop
  import opened LoopTiming
  import opened LoopOptions

  // ---- What every run keeps ----

  /** An attempt whose wait outlasted its timer's lateness started by the end of the context, but
      for that lateness. */
  ghost predicate SeenInTime(env: Env, starts: seq<int>, waits: seq<Waited>) {
    env.ctx.endsAt.Some? ==>
      forall i :: 0 <= i < |waits| && i < |starts| - 1 && waits[i].wait > env.late(i) ==>
        starts[i + 1] <= env.ctx.endsAt.value + env.late(i)
  }

  lemma {:induction false} EndIsSeenFrom(s: Schedule, env: Env, h: Hooks, v: Vars, n: nat, start: int, backoff: Int64)
    requires Regular(h) && |v.starts| == |v.waits| == n && SeenInTime(env, v.starts + [v.now], v.waits)
    ensures var w := RunFrom(s, env, h, v, n, start, backoff).0; SeenInTime(env, w.starts, w.waits)
    decreases if n < s.attempts then s.attempts - n else 0
  {
    assert forall i :: 0 <= i < n ==> v.starts[i] == (v.starts + [v.now])[i];
    if n < s.attempts {
      var j := h.attempt(Start(v), n);
      if !j.done && n < s.attempts - 1 {
        var wait := ResolveWait(j.wait, backoff, env.draw(n));
        var p := h.pause(Wait(j.v, j.wait, wait), n + 1, wait);
        var (err, woken) := SleepCtx(env.ctx, p.now, wait, env.late(n), env.pickTimer(n));
        if !ElapsedExceeded(s.maxElapsed, wait, start, p.now) && err.None? {
          if env.ctx.endsAt.Some? && env.late(n) < wait {
            SleepSeesTheEnd(env.ctx, p.now, wait, env.late(n), env.pickTimer(n));
          }
          OneMoreSeen(env, v.starts + [v.now], v.waits, Waited(j.wait, wait), woken);
          EndIsSeenFrom(s, env, h, p.(now := woken), n + 1, start, SafeDouble(backoff));
        } else {
          LastWaitHidesNothing(env, v.starts + [v.now], v.waits, Waited(j.wait, wait));
        }
      }
    }
  }

  lemma OneMoreSeen(env: Env, starts: seq<int>, waits: seq<Waited>, w: Waited, woken: int)
    requires |starts| == |waits| + 1 && SeenInTime(env, starts, waits)
    requires env.ctx.endsAt.Some? && env.late(|waits|) < w.wait ==> woken <= env.ctx.endsAt.value + env.late(|waits|)
    ensures SeenInTime(env, starts + [woken], waits + [w])
  {
    var more, longer := starts + [woken], waits + [w];
    assert forall i :: 0 <= i < |waits| ==> longer[i] == waits[i] && more[i + 1] == starts[i + 1];
  }

  lemma LastWaitHidesNothing(env: Env, starts: seq<int>, waits: seq<Waited>, w: Waited)
    requires |starts| == |waits| + 1 && SeenInTime(env, starts, waits)
    ensures SeenInTime(env, starts, waits + [w])
  {
    assert forall i :: 0 <= i < |waits| ==> (waits + [w])[i] == waits[i];
  }

  /** In every run of every door, an attempt after a wait longer than its timer is late starts no
      later than the context's end plus that lateness. */
  lemma EndIsSeenByEverySleep(door: Door, env: Env, start: int)
    ensures var v := Run(door, env, start).0; SeenInTime(env, v.starts, v.waits)
  {
    HooksAreRegular(door, env);
    EndIsSeenFrom(ScheduleOf(door), env, HooksOf(door, env), InitialVars(start), 0, start, ScheduleOf(door).baseDelay);
  }

  // ---- When no attempt starts late ----

  ghost predicate Punctual(env: Env) {
    forall i :: env.late(i) == 0
  }

  /** No attempt after the first starts after the context's end. */
  ghost predicate StartsLive(env: Env, starts: seq<int>) {
    env.ctx.endsAt.Some? ==> forall i :: 0 < i < |starts| ==> starts[i] <= env.ctx.endsAt.value
  }

  ghost predicate AllPositive(waits: seq<Waited>) {
    forall i :: 0 <= i < |waits| ==> waits[i].wait > 0
  }

  lemma PositiveWaitsStartLive(env: Env, starts: seq<int>, waits: seq<Waited>)
    requires Punctual(env) && SeenInTime(env, starts, waits) && AllPositive(waits) && |starts| <= |waits| + 1
    ensures StartsLive(env, starts)
  {
    if env.ctx.endsAt.Some? {
      forall i | 0 < i < |starts| ensures starts[i] <= env.ctx.endsAt.value {
        assert waits[i - 1].wait > 0 && env.late(i - 1) == 0;
      }
    }
  }

  lemma WaitsAreNoFewer(door: Door, env: Env, start: int)
    requires NormalDoor(door)
    ensures var v := Run(door, env, start).0; |v.starts| <= |v.waits| + 1
  {
    var s := ScheduleOf(door);
    HooksAreRegular(door, env);
    AttemptsAreCounted(s, env, HooksOf(door, env), InitialVars(start), 0, start, s.baseDelay);
  }

  lemma LongBasesWait(base: Int64, waits: seq<Waited>)
    requires base >= 2 && AllFollow(base, waits)
    ensures AllPositive(waits)
  {
    forall k | 0 <= k < |waits| ensures waits[k].wait > 0 {
      BaseIsCappedDoubling(base, k);
      assert WaitFollows(base, k, waits[k]);
    }
  }

  /** With a base delay of at least two nanoseconds and timers that fire on time, no door starts
      a retry after its caller's context has ended, whatever the outcomes, hooks and draws. */
  lemma NoRetryStartsAfterTheEnd(door: Door, env: Env, start: int)
    requires NormalDoor(door) && ScheduleOf(door).baseDelay >= 2 && Punctual(env)
    ensures StartsLive(env, Run(door, env, start).0.starts)
  {
    var v := Run(door, env, start).0;
    WaitsFollowTheProgression(door, env, start);
    LongBasesWait(ScheduleOf(door).baseDelay, v.waits);
    EndIsSeenByEverySleep(door, env, start);
    WaitsAreNoFewer(door, env, start);
    PositiveWaitsStartLive(env, v.starts, v.waits);
  }

  /** Every retry names its own positive wait. */
  ghost predicate NamesItsWaits(h: Hooks) {
    forall v: Vars, n: nat {:trigger h.attempt(v, n)} :: !h.attempt(v, n).done ==> h.attempt(v, n).wait > 0
  }

  lemma OnlyRateLimitNamesItsWaits(cfg: DoConfig, env: Env)
    requires NormalDo(cfg) && cfg.mode == OnlyRateLimit
    ensures NamesItsWaits(HooksOf(DoDoor(cfg), env))
  {
  }

  lemma {:induction false} NamedWaitsArePositive(s: Schedule, env: Env, h: Hooks, v: Vars, n: nat, start: int,
        backoff: Int64)
    requires Regular(h) && NamesItsWaits(h) && AllPositive(v.waits)
    ensures AllPositive(RunFrom(s, env, h, v, n, start, backoff).0.waits)
    decreases if n < s.attempts then s.attempts - n else 0
  {
    if n < s.attempts {
      var j := h.attempt(Start(v), n);
      if !j.done && n < s.attempts - 1 {
        var (w, stop) := Between(s, env, h, j.v, j.wait, n, start, backoff);
        assert w.waits == v.waits + [Waited(j.wait, j.wait)];
        if stop.None? {
          NamedWaitsArePositive(s, env, h, w, n + 1, start, SafeDouble(backoff));
        }
      }
    }
  }

  /** In rate-limit-only mode the same holds whatever the base delay. */
  lemma RateLimitRetriesStartLive(cfg: DoConfig, env: Env, start: int)
    requires NormalDo(cfg) && cfg.mode == OnlyRateLimit && Punctual(env)
    ensures StartsLive(env, Run(DoDoor(cfg), env, start).0.starts)
  {
    var door := DoDoor(cfg);
    var v, s := Run(door, env, start).0, ScheduleOf(door);
    HooksAreRegular(door, env);
    OnlyRateLimitNamesItsWaits(cfg, env);
    NamedWaitsArePositive(s, env, HooksOf(door, env), InitialVars(start), 0, start, s.baseDelay);
    EndIsSeenByEverySleep(door, env, start);
    WaitsAreNoFewer(door, env, start);
    PositiveWaitsStartLive(env, v.starts, v.waits);
  }

  // ---- When one does ----

  lemma {:induction false} StartsOnlyGrow(s: Schedule, env: Env, h: Hooks, v: Vars, n: nat, start: int, backoff: Int64)
    requires Regular(h)
    ensures var w := RunFrom(s, env, h, v, n, start, backoff).0;
            && v.starts <= w.starts
            && (n < s.attempts ==> v.starts + [v.now] <= w.starts)
    decreases if n < s.attempts then s.attempts - n else 0
  {
    if n < s.attempts {
      var j := h.attempt(Start(v), n);
      if !j.done && n < s.attempts - 1 {
        var (w, stop) := Between(s, env, h, j.v, j.wait, n, start, backoff);
        if stop.None? {
          StartsOnlyGrow(s, env, h, w, n + 1, start, SafeDouble(backoff));
        }
      }
    }
  }

  /** Every attempt meets o at once; the pause hook takes two nanoseconds, and the context ends
      after one. */
  ghost function LapsingWorld(o: Outcome): (env: Env)
    ensures env.ctx == Context(Some(1), false) && Punctual(env)
    ensures forall n :: env.outcome(n) == o && env.took(n) == env.gap(n) == env.settle(n) == 0 && env.hook(n) == 2
  {
    Env(Context(Some(1), false), n => o, n => 0, n => 0, n => 0, n => 0, n => 2, n => 0, n => 0, n => true, n => [])
  }

  /** A first attempt at time 0 that fails under a live context, then a wait of nothing. */
  lemma LapseStartsLate(s: Schedule, env: Env, h: Hooks)
    requires Regular(h) && s.attempts >= 2 && s.baseDelay == 1 && !(0 < s.maxElapsed <= 2)
    requires env.ctx == Context(Some(1), false)
    requires var j := h.attempt(Start(InitialVars(0)), 0); !j.done && j.wait <= 0 && j.v.now == 0
    requires forall v: Vars, wait: Int64 {:trigger h.pause(v, 1, wait)} :: h.pause(v, 1, wait).now == v.now + 2
    ensures !StartsLive(env, RunFrom(s, env, h, InitialVars(0), 0, 0, s.baseDelay).0.starts)
  {
    var j := h.attempt(Start(InitialVars(0)), 0);
    JitterRange(1, env.draw(0));
    ZeroWaitIgnoresContext(env.ctx, 2, 0, env.late(0), env.pickTimer(0));
    var (w, stop) := Between(s, env, h, j.v, j.wait, 0, 0, 1);
    assert stop.None? && w.now == 2;
    StartsOnlyGrow(s, env, h, w, 1, 0, SafeDouble(1));
    assert w.starts == [0];
    var starts := RunFrom(s, env, h, InitialVars(0), 0, 0, s.baseDelay).0.starts;
    assert [0] + [2] <= starts;
    assert starts[1] == ([0] + [2])[1];
  }

  /** A 503 without a body. */
  const UNAVAILABLE: Outcome := Outcome(Some(Response(503, "", _ => None, None)), None)

  const RESET: Outcome := Outcome(None, Some(Value(ConnReset)))

  lemma ResetIsRetried(cfg: DoConfig)
    requires cfg.mode != OnlyRateLimit
    ensures Classify(cfg, Value(ConnReset)) == (true, 0)
  {
    assert Is(Value(ConnReset), ConnReset);
  }

  lemma DoLapses(cfg: DoConfig, env: Env)
    requires NormalDo(cfg) && cfg.mode != OnlyRateLimit && cfg.baseDelay == 1 && cfg.maxAttempts >= 2
    requires env == LapsingWorld(RESET)
    ensures !StartsLive(env, Run(DoDoor(cfg), env, 0).0.starts)
  {
    var h := HooksOf(DoDoor(cfg), env);
    HooksAreRegular(DoDoor(cfg), env);
    ResetIsRetried(cfg);
    var j := DoAttempt(cfg, env, Start(InitialVars(0)), 0);
    assert !Is(Value(ConnReset), DeadlineExceeded);
    assert h.attempt(Start(InitialVars(0)), 0) == j && !j.done && j.wait == 0 && j.v.now == 0;
    LapseStartsLate(ScheduleOf(DoDoor(cfg)), env, h);
  }

  lemma GetRetriesUnavailable(cfg: GetConfig, env: Env, v: Vars)
    requires cfg.badRequest.None? && env.outcome(0) == UNAVAILABLE && env.took(0) == 0
    ensures var j := GetAttempt(cfg, env, v, 0); !j.done && j.wait == 0 && j.v.now == v.now
  {
  }

  lemma TransportRetriesAtOnce(rt: Transport, req: Req, env: Env, v: Vars)
    requires RetriesAtOnce(rt, env.outcome(0)) && env.took(0) == env.settle(0) == 0 && !Over(env.ctx, v.now)
    ensures var j := TransportAttempt(rt, req, env, v, 0); !j.done && j.wait == 0 && j.v.now == v.now
  {
  }

  lemma GetLapses(cfg: GetConfig, env: Env)
    requires NormalGet(cfg) && cfg.badRequest.None? && cfg.baseDelay == 1 && cfg.maxAttempts >= 2
    requires env == LapsingWorld(UNAVAILABLE)
    ensures !StartsLive(env, Run(GetDoor(cfg), env, 0).0.starts)
  {
    HooksAreRegular(GetDoor(cfg), env);
    GetRetriesUnavailable(cfg, env, Start(InitialVars(0)));
    LapseStartsLate(ScheduleOf(GetDoor(cfg)), env, HooksOf(GetDoor(cfg), env));
  }

  /** The policy would retry this outcome of a first attempt, and nothing says how long to wait. */
  predicate RetriesAtOnce(rt: Transport, o: Outcome) {
    PolicyVerdict(rt, 0, o.response, NameHangUpIn(o.error)) == (true, None) && RetryAfterOf(o.response) == 0
  }

  lemma TransportLapses(rt: Transport, req: Req, o: Outcome, env: Env)
    requires RetriesAtOnce(rt, o) && !(0 < rt.maxElapsed <= 2)
    requires TransportSchedule(rt).baseDelay == 1 && TransportSchedule(rt).attempts >= 2
    requires env == LapsingWorld(o)
    ensures !StartsLive(env, Run(TransportDoor(rt, req), env, 0).0.starts)
  {
    var door := TransportDoor(rt, req);
    HooksAreRegular(door, env);
    TransportRetriesAtOnce(rt, req, env, Start(InitialVars(0)));
    LapseStartsLate(TransportSchedule(rt), env, HooksOf(door, env));
  }

  // ---- Exactly when ----

  /** In every punctual world every retry starts under a live context. */
  ghost predicate AlwaysStartsLive(door: Door) {
    forall env: Env, start: int :: Punctual(env) ==> StartsLive(env, Run(door, env, start).0.starts)
  }

  lemma OneAttemptStartsLive(door: Door)
    requires NormalDoor(door) && ScheduleOf(door).attempts == 1
    ensures AlwaysStartsLive(door)
  {
    forall env: Env, start: int ensures StartsLive(env, Run(door, env, start).0.starts) {
      var s := ScheduleOf(door);
      HooksAreRegular(door, env);
      AttemptsAreCounted(s, env, HooksOf(door, env), InitialVars(start), 0, start, s.baseDelay);
    }
  }

  lemma LongBasesStartLive(door: Door)
    requires NormalDoor(door) && ScheduleOf(door).baseDelay >= 2
    ensures AlwaysStartsLive(door)
  {
    forall env: Env, start: int | Punctual(env) ensures StartsLive(env, Run(door, env, start).0.starts) {
      NoRetryStartsAfterTheEnd(door, env, start);
    }
  }

  lemma DoLoopStartsLiveExactly(cfg: DoConfig)
    requires NormalDo(cfg)
    ensures AlwaysStartsLive(DoDoor(cfg)) <==> cfg.baseDelay >= 2 || cfg.mode == OnlyRateLimit || cfg.maxAttempts == 1
  {
    if cfg.baseDelay >= 2 {
      LongBasesStartLive(DoDoor(cfg));
    } else if cfg.mode == OnlyRateLimit {
      forall env: Env, start: int | Punctual(env) ensures StartsLive(env, Run(DoDoor(cfg), env, start).0.starts) {
        RateLimitRetriesStartLive(cfg, env, start);
      }
    } else if cfg.maxAttempts == 1 {
      OneAttemptStartsLive(DoDoor(cfg));
    } else {
      DoLapses(cfg, LapsingWorld(RESET));
    }
  }

  /** The same, over Do as it is called: conflicting options start nothing. */
  ghost predicate DoAlwaysStartsLive(cfg: DoConfig) {
    forall env: Env, start: int :: Punctual(env) ==> StartsLive(env, DoRun(cfg, env, start).0.starts)
  }

  /** Do never starts a retry after its caller's end exactly for options that conflict, a base
      delay above one nanosecond, the rate-limit-only mode, or a single attempt. */
  lemma DoStartsLiveExactly(cfg: DoConfig)
    requires NormalDo(cfg)
    ensures DoAlwaysStartsLive(cfg) <==>
            cfg.conflict || cfg.baseDelay >= 2 || cfg.mode == OnlyRateLimit || cfg.maxAttempts == 1
  {
    if !cfg.conflict {
      assert forall env: Env, start: int ::
          StartsLive(env, DoRun(cfg, env, start).0.starts) <==> StartsLive(env, Run(DoDoor(cfg), env, start).0.starts);
      DoLoopStartsLiveExactly(cfg);
    }
  }

  lemma BadRequestStartsOnce(cfg: GetConfig, env: Env, start: int)
    requires NormalGet(cfg) && cfg.badRequest.Some?
    ensures StartsLive(env, Run(GetDoor(cfg), env, start).0.starts)
  {
    var h := HooksOf(GetDoor(cfg), env);
    assert h.attempt(Start(InitialVars(start)), 0) == GetAttempt(cfg, env, Start(InitialVars(start)), 0);
  }

  /** GetBytes never does exactly for a base delay above one nanosecond, a single attempt, or a
      request that cannot be made. */
  lemma GetStartsLiveExactly(cfg: GetConfig)
    requires NormalGet(cfg)
    ensures AlwaysStartsLive(GetDoor(cfg)) <==> cfg.baseDelay >= 2 || cfg.maxAttempts == 1 || cfg.badRequest.Some?
  {
    if cfg.baseDelay >= 2 {
      LongBasesStartLive(GetDoor(cfg));
    } else if cfg.maxAttempts == 1 {
      OneAttemptStartsLive(GetDoor(cfg));
    } else if cfg.badRequest.Some? {
      forall env: Env, start: int ensures StartsLive(env, Run(GetDoor(cfg), env, start).0.starts) {
        BadRequestStartsOnce(cfg, env, start);
      }
    } else {
      GetLapses(cfg, LapsingWorld(UNAVAILABLE));
    }
  }

  lemma RetriedTransportWasLive(rt: Transport, req: Req, env: Env, start: int)
    ensures |Run(TransportDoor(rt, req), env, start).0.starts| > 1 ==> !Over(env.ctx, start)
  {
    var h := HooksOf(TransportDoor(rt, req), env);
    var v := Start(InitialVars(start));
    var j := TransportAttempt(rt, req, env, v, 0);
    assert h.attempt(v, 0) == j;
    HooksAreRegular(TransportDoor(rt, req), env);
    assert j.v.now >= start && (!j.done ==> !Over(env.ctx, j.v.now));
  }

  lemma TightCeilingStartsLive(rt: Transport, req: Req, env: Env, start: int)
    requires 0 < rt.maxElapsed <= 2 && Punctual(env)
    ensures StartsLive(env, Run(TransportDoor(rt, req), env, start).0.starts)
  {
    EveryAttemptStartsInBudget(rt, req, env, start);
    RetriedTransportWasLive(rt, req, env, start);
  }

  lemma {:induction false} WaitsOnlyGrow(s: Schedule, env: Env, h: Hooks, v: Vars, n: nat, start: int, backoff: Int64)
    requires Regular(h)
    ensures var w := RunFrom(s, env, h, v, n, start, backoff).0;
            && v.waits <= w.waits
            && (n < s.attempts && |w.waits| > |v.waits| ==>
                  var j := h.attempt(Start(v), n); !j.done && w.waits[|v.waits|].explicit == j.wait)
    decreases if n < s.attempts then s.attempts - n else 0
  {
    if n < s.attempts {
      var j := h.attempt(Start(v), n);
      if !j.done && n < s.attempts - 1 {
        var (w, stop) := Between(s, env, h, j.v, j.wait, n, start, backoff);
        assert w.waits == v.waits + [Waited(j.wait, ResolveWait(j.wait, backoff, env.draw(n)))];
        if stop.None? {
          WaitsOnlyGrow(s, env, h, w, n + 1, start, SafeDouble(backoff));
        }
      }
    }
  }

  lemma NamedFirstWaitsWait(base: Int64, waits: seq<Waited>)
    requires base > 0 && AllFollow(base, waits) && (waits != [] ==> waits[0].explicit > 0)
    ensures AllPositive(waits)
  {
    forall k | 0 <= k < |waits| ensures waits[k].wait > 0 {
      assert WaitFollows(base, k, waits[k]);
      if k > 0 {
        BaseIsCappedDoubling(base, k - 1);
        DoubledOnceMore(base, k);
      }
    }
  }

  lemma FirstRetryIsNamed(rt: Transport, req: Req, env: Env, v: Vars)
    ensures var j := TransportAttempt(rt, req, env, v, 0);
            !j.done && !RetriesAtOnce(rt, env.outcome(0)) ==> j.wait > 0
  {
    var o := env.outcome(0);
    if o.response.Some? {
      RetryAfterIsBounded(o.response.value.retryAfter, o.response.value.until);
    }
  }

  lemma UnnamedRetriesNeverStartLate(rt: Transport, req: Req, env: Env, start: int)
    requires !RetriesAtOnce(rt, env.outcome(0)) && Punctual(env)
    ensures StartsLive(env, Run(TransportDoor(rt, req), env, start).0.starts)
  {
    var door, s := TransportDoor(rt, req), TransportSchedule(rt);
    var v, h := Run(door, env, start).0, HooksOf(door, env);
    HooksAreRegular(door, env);
    WaitsOnlyGrow(s, env, h, InitialVars(start), 0, start, s.baseDelay);
    FirstRetryIsNamed(rt, req, env, Start(InitialVars(start)));
    assert h.attempt(Start(InitialVars(start)), 0) == TransportAttempt(rt, req, env, Start(InitialVars(start)), 0);
    WaitsFollowTheProgression(door, env, start);
    NamedFirstWaitsWait(s.baseDelay, v.waits);
    EndIsSeenByEverySleep(door, env, start);
    WaitsAreNoFewer(door, env, start);
    PositiveWaitsStartLive(env, v.starts, v.waits);
  }

  /** Some outcome of a first attempt is retried with no wait of its own. */
  ghost predicate EverRetriesAtOnce(rt: Transport) {
    exists o: Outcome :: RetriesAtOnce(rt, o)
  }

  /** The default policy retries a 503 that names no wait. */
  lemma DefaultPolicyRetriesAtOnce(rt: Transport)
    requires rt.policy.DefaultPolicy?
    ensures EverRetriesAtOnce(rt)
  {
    assert RetriesAtOnce(rt, UNAVAILABLE);
  }

  lemma TransportLoopStartsLiveExactly(rt: Transport, req: Req)
    ensures AlwaysStartsLive(TransportDoor(rt, req)) <==>
            TransportSchedule(rt).baseDelay >= 2 || TransportSchedule(rt).attempts == 1 || 0 < rt.maxElapsed <= 2 ||
            !EverRetriesAtOnce(rt)
  {
    var door := TransportDoor(rt, req);
    if TransportSchedule(rt).baseDelay >= 2 {
      LongBasesStartLive(door);
    } else if TransportSchedule(rt).attempts == 1 {
      OneAttemptStartsLive(door);
    } else if 0 < rt.maxElapsed <= 2 {
      forall env: Env, start: int | Punctual(env) ensures StartsLive(env, Run(door, env, start).0.starts) {
        TightCeilingStartsLive(rt, req, env, start);
      }
    } else if !EverRetriesAtOnce(rt) {
      forall env: Env, start: int | Punctual(env) ensures StartsLive(env, Run(door, env, start).0.starts) {
        UnnamedRetriesNeverStartLate(rt, req, env, start);
      }
    } else {
      var o :| RetriesAtOnce(rt, o);
      TransportLapses(rt, req, o, LapsingWorld(o));
    }
  }

  /** The same, over RoundTrip as it is called: a request that may not be repeated is sent once. */
  ghost predicate TransportAlwaysStartsLive(rt: Transport, req: Req) {
    forall env: Env, start: int :: Punctual(env) ==> StartsLive(env, RoundTripRun(rt, req, env, start).0.starts)
  }

  /** The transport, under any policy, never does exactly for a request that may not be repeated,
      a base delay above one nanosecond, a single attempt, a ceiling of one or two nanoseconds, or
      a policy that retries no first outcome without a wait of its own. */
  lemma TransportStartsLiveExactly(rt: Transport, req: Req)
    ensures TransportAlwaysStartsLive(rt, req) <==>
            !MayBeRepeated(rt, req) || BaseOf(TransportDoor(rt, req)) >= 2 || AttemptsOf(TransportDoor(rt, req)) == 1 ||
            0 < rt.maxElapsed <= 2 || !EverRetriesAtOnce(rt)
    ensures rt.policy.DefaultPolicy? ==> EverRetriesAtOnce(rt)
  {
    if rt.policy.DefaultPolicy? {
      DefaultPolicyRetriesAtOnce(rt);
    }
    RepeatableExactly(rt, req);
    ScheduleExactly(TransportDoor(rt, req));
    if CanRetry(rt, req) {
      var door := TransportDoor(rt, req);
      assert forall env: Env, start: int ::
          StartsLive(env, RoundTripRun(rt, req, env, start).0.starts) <==>
          StartsLive(env, Run(door, env, start).0.starts);
      TransportLoopStartsLiveExactly(rt, req);
    }
  }
}
