/** Do's options, its judgement, and what it makes of its caller's budget. */
module LoopBudget {
  import opened Prelude
  import opened Errors
  import opened Verdicts
  import opened Messages
  import opened Backoff
  import opened Loop
  import opened LoopTiming

  // ---- Do: options ----

  predicate Asks(opts: seq<Option<DoOption>>, only: bool) {
    exists i :: 0 <= i < |opts| && opts[i].Some? && opts[i].value.WithRateLimit? && opts[i].value.only == only
  }

  lemma {:induction false} ModeIsLastAsked(opts: seq<Option<DoOption>>)
    ensures FoldDo(opts).mode == NoRateLimit <==> !Asks(opts, true) && !Asks(opts, false)
    ensures FoldDo(opts).mode == OnlyRateLimit ==> Asks(opts, true)
    ensures FoldDo(opts).mode == RetryRateLimit ==> Asks(opts, false)
    ensures FoldDo(opts).conflict <==> Asks(opts, true) && Asks(opts, false)
    ensures !FoldDo(opts).conflict && Asks(opts, true) ==> FoldDo(opts).mode == OnlyRateLimit
    ensures !FoldDo(opts).conflict && Asks(opts, false) ==> FoldDo(opts).mode == RetryRateLimit
  {
    if opts != [] {
      var k := |opts| - 1;
      ModeIsLastAsked(opts[..k]);
      AsksMore(opts, true);
      AsksMore(opts, false);
    }
  }

  lemma AsksMore(opts: seq<Option<DoOption>>, only: bool)
    requires opts != []
    ensures var k := |opts| - 1;
            Asks(opts, only) <==>
              Asks(opts[..k], only) ||
              (opts[k].Some? && opts[k].value.WithRateLimit? && opts[k].value.only == only)
  {
    var k := |opts| - 1;
    if i :| 0 <= i < k && opts[i].Some? && opts[i].value.WithRateLimit? && opts[i].value.only == only {
      assert opts[..k][i] == opts[i];
    }
    if Asks(opts[..k], only) {
      var i :| 0 <= i < k && opts[..k][i].Some? && opts[..k][i].value.WithRateLimit? && opts[..k][i].value.only == only;
      assert opts[i] == opts[..k][i];
    }
  }

  /** Do refuses, before calling anything, exactly the option lists that name both rate-limit
      modes, in any order and any number. */
  lemma BothModesConflict(opts: seq<Option<DoOption>>, env: Env, start: int)
    ensures Normalize(FoldDo(opts)).conflict <==> Asks(opts, true) && Asks(opts, false)
    ensures Asks(opts, true) && Asks(opts, false) ==>
              DoRun(Normalize(FoldDo(opts)), env, start) == (InitialVars(start), Err(CONFLICT))
  {
    ModeIsLastAsked(opts);
  }

  // ---- Do: the caller's budget ----

  /** The error Do judged at a look: the callback's, marked if the look says so. */
  function JudgedError(env: Env, l: Look): Option<Error> {
    if l.marked then MarkAttemptTimeout(env.outcome(l.n).error) else env.outcome(l.n).error
  }

  /** A look after which Do tried again: the attempt failed, the failure was retryable, and
      outside rate-limit-only mode the caller's context was still live. */
  ghost predicate MayRetry(cfg: DoConfig, env: Env, l: Look) {
    JudgedError(env, l).Some? &&
    Classify(cfg, JudgedError(env, l).value).0 &&
    (cfg.mode != OnlyRateLimit ==> !Over(env.ctx, l.looked))
  }

  /** The attempt's own bound had fired when its context was read. */
  ghost predicate BoundHadFired(cfg: DoConfig, env: Env, l: Look) {
    l.reread >= l.began + cfg.attemptTimeout + env.overdue(l.n)
  }

  /** The times of a look are those of its attempt; and when a mark is applied: to an error that
      matches a deadline, if the caller was live at the first read and at the second either the
      bound had fired or the caller's context was over. */
  ghost predicate MarkIsApplied(cfg: DoConfig, env: Env, l: Look) {
    && l.returned == l.began + env.took(l.n) && l.reread == l.returned + env.gap(l.n)
    && l.looked == l.reread + env.settle(l.n)
    && (l.marked <==>
          cfg.attemptTimeout > 0 && !Over(env.ctx, l.returned) &&
          (BoundHadFired(cfg, env, l) || Over(env.ctx, l.reread)) &&
          env.outcome(l.n).error.Some? && Is(env.outcome(l.n).error.value, DeadlineExceeded))
  }

  /** The caller's context ended between the two reads, before the attempt's own bound. */
  ghost predicate Raced(cfg: DoConfig, env: Env, l: Look) {
    !Over(env.ctx, l.returned) && Over(env.ctx, l.reread) && !BoundHadFired(cfg, env, l)
  }

  /** Applied while the caller was live, the attempt's own bound having fired. */
  ghost predicate MarkIsEarned(cfg: DoConfig, env: Env, l: Look) {
    l.marked ==> !Over(env.ctx, l.returned) && BoundHadFired(cfg, env, l)
  }

  /** What Do makes of its last look. */
  ghost predicate Concludes(cfg: DoConfig, env: Env, l: Look, v: Vars, done: bool) {
    var e := JudgedError(env, l);
    if e.None? then done && v.error == None && v.held == Some(l.n)
    else if cfg.mode != OnlyRateLimit && Over(env.ctx, l.looked) then done && v.error == Some(EndOf(env.ctx))
    else v.error == e && (done <==> !Classify(cfg, e.value).0)
  }

  /** One attempt adds one look, which decides as Concludes says. */
  ghost predicate LooksOnce(cfg: DoConfig, env: Env, v: Vars, n: nat, j: Judgement) {
    && |j.v.looks| == |v.looks| + 1 && j.v.looks[..|v.looks|] == v.looks
    && var l := j.v.looks[|v.looks|];
       l.n == n && l.began == v.now && l.looked == j.v.now && MarkIsApplied(cfg, env, l) &&
       Concludes(cfg, env, l, j.v, j.done) && (!j.done ==> MayRetry(cfg, env, l))
  }

  ghost predicate SameLooks(v: Vars, w: Vars) {
    v.looks == w.looks && v.error == w.error && v.held == w.held && v.now <= w.now
  }

  ghost predicate Looking(cfg: DoConfig, env: Env, h: Hooks) {
    && (forall v: Vars, n: nat {:trigger h.attempt(v, n)} :: LooksOnce(cfg, env, v, n, h.attempt(v, n)))
    && (forall v: Vars, retry: nat, wait: Int64 {:trigger h.pause(v, retry, wait)} ::
        SameLooks(v, h.pause(v, retry, wait)))
  }

  lemma AttemptLooksOnce(cfg: DoConfig, env: Env, v: Vars, n: nat)
    ensures LooksOnce(cfg, env, v, n, DoAttempt(cfg, env, v, n))
  {
  }

  lemma DoIsLooking(cfg: DoConfig, env: Env)
    ensures Looking(cfg, env, HooksOf(DoDoor(cfg), env))
  {
    var h := HooksOf(DoDoor(cfg), env);
    forall v: Vars, n: nat ensures LooksOnce(cfg, env, v, n, h.attempt(v, n)) {
      AttemptLooksOnce(cfg, env, v, n);
    }
  }

  ghost predicate LooksBefore(cfg: DoConfig, env: Env, looks: seq<Look>) {
    forall i :: 0 <= i < |looks| ==>
      looks[i].n == i && MarkIsApplied(cfg, env, looks[i]) && MayRetry(cfg, env, looks[i])
  }

  /** Each look began when its attempt started. */
  ghost predicate BeganOnStart(v: Vars) {
    |v.starts| == |v.looks| && forall i :: 0 <= i < |v.looks| ==> v.looks[i].began == v.starts[i]
  }

  /** The looks of a whole run: every one but the last allowed a retry, and the last decides. */
  ghost predicate RunOfLooks(cfg: DoConfig, env: Env, v: Vars, stop: Stop) {
    && v.looks != [] && BeganOnStart(v)
    && var k := |v.looks| - 1;
       && LooksBefore(cfg, env, v.looks[..k])
       && v.looks[k].n == k && v.looks[k].looked <= v.now && MarkIsApplied(cfg, env, v.looks[k])
       && Concludes(cfg, env, v.looks[k], v, stop == Finished)
       && (stop.Interrupted? ==> Over(env.ctx, v.now) && stop.error == EndOf(env.ctx))
       && stop != OverBudget && (stop != Finished ==> MayRetry(cfg, env, v.looks[k]))
  }

  lemma {:induction false} LooksOfRun(s: Schedule, cfg: DoConfig, env: Env, h: Hooks, v: Vars, n: nat, start: int,
        backoff: Int64)
    requires Looking(cfg, env, h) && Regular(h)
    requires s.maxElapsed == 0 && n < s.attempts && |v.looks| == n && LooksBefore(cfg, env, v.looks) && BeganOnStart(v)
    ensures var (w, stop) := RunFrom(s, env, h, v, n, start, backoff);
            && RunOfLooks(cfg, env, w, stop)
            && (stop.Interrupted? ==> |w.looks| < s.attempts) && (stop == Exhausted ==> |w.looks| == s.attempts)
    decreases s.attempts - n
  {
    var begun := Start(v);
    var j := h.attempt(begun, n);
    assert LooksOnce(cfg, env, begun, n, j);
    assert j.v.looks == v.looks + [j.v.looks[n]];
    if !j.done && n < s.attempts - 1 {
      var wait := ResolveWait(j.wait, backoff, env.draw(n));
      var waiting := Wait(j.v, j.wait, wait);
      var p := h.pause(waiting, n + 1, wait);
      assert SameLooks(waiting, p);
      var (err, woken) := SleepCtx(env.ctx, p.now, wait, env.late(n), env.pickTimer(n));
      SleepIsHonest(env.ctx, p.now, wait, env.late(n), env.pickTimer(n));
      if err.None? {
        LooksOfRun(s, cfg, env, h, p.(now := woken), n + 1, start, SafeDouble(backoff));
      }
    }
  }

  /** What Do returns, by its last look: a success; the end of a context it found over; an error
      that is not to be retried, or the last the budget allows; else the end of the context met in
      the sleep that followed. So Do never gives up before that. */
  ghost predicate ReturnsExactly(cfg: DoConfig, env: Env, l: Look, v: Vars, r: Result<nat, Error>) {
    match JudgedError(env, l)
    case None => r == Ok(l.n)
    case Some(e) =>
      if cfg.mode != OnlyRateLimit && Over(env.ctx, l.looked) then r == Err(EndOf(env.ctx))
      else if !Classify(cfg, e).0 || |v.looks| == cfg.maxAttempts then r == Err(e)
      else r == Err(EndOf(env.ctx)) && Over(env.ctx, v.now)
  }

  /** What Do returns, and every look before. */
  ghost predicate BudgetIsSafe(cfg: DoConfig, env: Env, v: Vars, r: Result<nat, Error>) {
    && v.looks != [] && |v.looks| <= cfg.maxAttempts && BeganOnStart(v)
    && ReturnsExactly(cfg, env, v.looks[|v.looks| - 1], v, r)
    && var last := |v.looks| - 1;
       && (forall i :: 0 <= i <= last ==> v.looks[i].n == i && MarkIsApplied(cfg, env, v.looks[i]))
       && (forall i :: 0 <= i < last ==> MayRetry(cfg, env, v.looks[i]))
       && (env.outcome(last).error.None? <==> r == Ok(last))
       && (env.outcome(last).error.Some? && Over(env.ctx, v.looks[last].looked) && cfg.mode != OnlyRateLimit ==>
             r == Err(EndOf(env.ctx)))
       && (env.outcome(last).error.Some? && |v.looks| == cfg.maxAttempts && cfg.mode == OnlyRateLimit ==>
             r.Err? && Some(r.error) == JudgedError(env, v.looks[last]))
       && (r.Ok? || Some(r.error) == JudgedError(env, v.looks[last]) ||
           (r == Err(EndOf(env.ctx)) && Over(env.ctx, v.now)))
  }

  lemma LooksDecide(cfg: DoConfig, env: Env, v: Vars, stop: Stop)
    requires RunOfLooks(cfg, env, v, stop) && |v.looks| <= cfg.maxAttempts
    requires (stop.Interrupted? ==> |v.looks| < cfg.maxAttempts) && (stop == Exhausted ==> |v.looks| == cfg.maxAttempts)
    ensures BudgetIsSafe(cfg, env, v, DoReturns(v, stop))
  {
    var last := |v.looks| - 1;
    assert forall i :: 0 <= i < last ==> v.looks[..last][i] == v.looks[i];
    assert JudgedError(env, v.looks[last]).None? <==> env.outcome(last).error.None?;
  }

  /** Caller-budget safety of Do. Outside rate-limit-only mode a failed attempt judged while the
      caller's context is over is the last, and Do returns that context's own error, which
      carries no mark; a success always wins; every other return is the last attempt's error, or
      the context's end met in a sleep. In rate-limit-only mode the error of the final attempt
      wins even under an ended context. Every attempt but the last failed with a retryable
      error. */
  lemma CallerBudgetIsSafe(cfg: DoConfig, env: Env, start: int)
    requires NormalDo(cfg) && !cfg.conflict
    ensures var (v, r) := DoRun(cfg, env, start); BudgetIsSafe(cfg, env, v, r)
    ensures AsType(EndOf(env.ctx), AttemptTimeoutType).None?
  {
    var s := ScheduleOf(DoDoor(cfg));
    DoIsLooking(cfg, env);
    HooksAreRegular(DoDoor(cfg), env);
    AttemptsAreCounted(s, env, HooksOf(DoDoor(cfg), env), InitialVars(start), 0, start, s.baseDelay);
    LooksOfRun(s, cfg, env, HooksOf(DoDoor(cfg), env), InitialVars(start), 0, start, s.baseDelay);
    var (v, stop) := Run(DoDoor(cfg), env, start);
    LooksDecide(cfg, env, v, stop);
  }

  /** Do retried on the error of look i, or returned it. */
  ghost predicate Kept(env: Env, v: Vars, r: Result<nat, Error>, i: int)
    requires 0 <= i < |v.looks|
  {
    i < |v.looks| - 1 || (r.Err? && Some(r.error) == JudgedError(env, v.looks[i]))
  }

  ghost predicate KeptMarksAreEarned(cfg: DoConfig, env: Env, v: Vars, r: Result<nat, Error>) {
    forall i :: 0 <= i < |v.looks| && Kept(env, v, r, i) ==> MarkIsEarned(cfg, env, v.looks[i])
  }

  lemma OnlyARaceIsUnearned(cfg: DoConfig, env: Env, l: Look)
    requires MarkIsApplied(cfg, env, l) && l.marked
    ensures MarkIsEarned(cfg, env, l) <==> !Raced(cfg, env, l)
    ensures Raced(cfg, env, l) ==> Over(env.ctx, l.looked)
  {
  }

  /** A mark that Do keeps is unearned only in rate-limit-only mode, and then exactly when the
      caller's context ended between the two reads: in every other mode Do reads it again, finds
      it over, and returns its end instead. */
  lemma UnearnedMarksAreRaces(cfg: DoConfig, env: Env, start: int, i: nat)
    requires NormalDo(cfg) && !cfg.conflict && i < |DoRun(cfg, env, start).0.looks|
    ensures var (v, r) := DoRun(cfg, env, start);
            v.looks[i].marked && Kept(env, v, r, i) ==>
              (MarkIsEarned(cfg, env, v.looks[i]) <==> !Raced(cfg, env, v.looks[i])) &&
              (cfg.mode != OnlyRateLimit ==> MarkIsEarned(cfg, env, v.looks[i]))
  {
    CallerBudgetIsSafe(cfg, env, start);
    var (v, r) := DoRun(cfg, env, start);
    if v.looks[i].marked && Kept(env, v, r, i) {
      KeptLooks(cfg, env, v, r, i);
    }
  }

  lemma KeptLooks(cfg: DoConfig, env: Env, v: Vars, r: Result<nat, Error>, i: nat)
    requires BudgetIsSafe(cfg, env, v, r) && i < |v.looks| && v.looks[i].marked && Kept(env, v, r, i)
    ensures MarkIsEarned(cfg, env, v.looks[i]) <==> !Raced(cfg, env, v.looks[i])
    ensures cfg.mode != OnlyRateLimit ==> MarkIsEarned(cfg, env, v.looks[i])
  {
    var l := v.looks[i];
    assert MarkIsApplied(cfg, env, l);
    OnlyARaceIsUnearned(cfg, env, l);
    if i < |v.looks| - 1 {
      assert MayRetry(cfg, env, l);
    }
  }

  /** Every mark that Do keeps, in every run, was earned exactly for a configuration that is not
      rate-limit-only or sets no bound. */
  lemma MarksAreEarnedExactly(cfg: DoConfig)
    requires NormalDo(cfg) && !cfg.conflict
    ensures (forall env: Env, start: int ::
               KeptMarksAreEarned(cfg, env, DoRun(cfg, env, start).0, DoRun(cfg, env, start).1)) <==>
            cfg.mode != OnlyRateLimit || cfg.attemptTimeout <= 0
  {
    if cfg.mode != OnlyRateLimit || cfg.attemptTimeout <= 0 {
      forall env: Env, start: int
        ensures KeptMarksAreEarned(cfg, env, DoRun(cfg, env, start).0, DoRun(cfg, env, start).1)
      {
        NoRaceIsKept(cfg, env, start);
      }
    } else {
      var env := RacingWorld();
      RaceIsReturned(cfg, env);
    }
  }

  lemma NoRaceIsKept(cfg: DoConfig, env: Env, start: int)
    requires NormalDo(cfg) && !cfg.conflict && (cfg.mode != OnlyRateLimit || cfg.attemptTimeout <= 0)
    ensures KeptMarksAreEarned(cfg, env, DoRun(cfg, env, start).0, DoRun(cfg, env, start).1)
  {
    var (v, r) := DoRun(cfg, env, start);
    CallerBudgetIsSafe(cfg, env, start);
    forall i | 0 <= i < |v.looks| && Kept(env, v, r, i) ensures MarkIsEarned(cfg, env, v.looks[i]) {
      assert MarkIsApplied(cfg, env, v.looks[i]);
      if v.looks[i].marked {
        KeptLooks(cfg, env, v, r, i);
      }
    }
  }

  /** The callback fails at once with a deadline of its own, and the caller's context ends one
      nanosecond later, between the two reads. */
  ghost function RacingWorld(): (env: Env)
    ensures env.ctx == Context(Some(1), false)
    ensures env.outcome(0) == Outcome(None, Some(Value(DeadlineExceeded)))
    ensures env.took(0) == 0 && env.overdue(0) == 1 && env.gap(0) == 1
  {
    Env(Context(Some(1), false), n => Outcome(None, Some(Value(DeadlineExceeded))), n => 0, n => 1, n => 1,
        n => 0, n => 0, n => 0, n => 0, n => true, n => [])
  }

  /** Do then returns the error marked as the expiry of a bound that had not fired. */
  lemma RaceIsReturned(cfg: DoConfig, env: Env)
    requires NormalDo(cfg) && !cfg.conflict && cfg.mode == OnlyRateLimit && cfg.attemptTimeout > 0
    requires env == RacingWorld()
    ensures var (v, r) := DoRun(cfg, env, 0);
            && r == Err(Wrap(ATTEMPT_TIMEOUT, Value(DeadlineExceeded)))
            && !KeptMarksAreEarned(cfg, env, v, r)
  {
    var begun := Start(InitialVars(0));
    var j := DoAttempt(cfg, env, begun, 0);
    var e := Wrap(ATTEMPT_TIMEOUT, Value(DeadlineExceeded));
    assert Is(Value(DeadlineExceeded), DeadlineExceeded);
    assert AsType(e, RateLimitErrorType) == None;
    assert j.done && j.v.error == Some(e);
    var (v, r) := DoRun(cfg, env, 0);
    assert v == j.v && |v.looks| == 1;
    assert Kept(env, v, r, 0) && !MarkIsEarned(cfg, env, v.looks[0]);
  }

  /** Do retries exactly a rate limit under a mode that names them, and a transient error
      except under rate-limit-only; without a mode a rate limit is never retried. */
  lemma RetriesExactly(cfg: DoConfig, e: Error)
    ensures Classify(cfg, e).0 <==>
            (cfg.mode != NoRateLimit && AnyHas(Nodes(e), RateLimitErrorType)) ||
                (cfg.mode != OnlyRateLimit && IsTransient(e))
    ensures cfg.mode == NoRateLimit && AnyHas(Nodes(e), RateLimitErrorType) ==> !Classify(cfg, e).0
  {
    AsTypeFinds(e, RateLimitErrorType);
  }

  /** The wait for a rate limit is the longest within the caller's bound and the hint of the
      first rate-limit node, if that is positive. It is always positive itself, so the sleep
      looks at the context. */
  lemma RateLimitWaitsArePositive(cfg: DoConfig, e: Error, n: Error)
    requires NormalDo(cfg) && cfg.mode != NoRateLimit
    requires First(Nodes(e), RateLimitErrorType) == Some(n) && Has(n, RateLimitErrorType)
    ensures var hint, wait := n.kind.tag.retryAfter, Classify(cfg, e).1;
            && 0 < wait <= cfg.maxWait
            && (hint > 0 ==> wait <= hint)
            && (wait == cfg.maxWait || wait == hint)
  {
    AsTypeIsFirst(e, RateLimitErrorType);
  }
}
