/** What the options of Do and the fields of a transport come to: the budget, the first backoff and
    the ceiling of every run. */
module LoopOptions {
  import opened Prelude
  import opened Messages
  import opened Backoff
  import opened Loop
  import opened LoopTiming

  // ---- The options of Do ----

  predicate SameKind(a: DoOption, b: DoOption) {
    || (a.WithMaxAttempts? && b.WithMaxAttempts?) || (a.WithBaseDelay? && b.WithBaseDelay?)
    || (a.WithAttemptTimeout? && b.WithAttemptTimeout?) || (a.WithRateLimit? && b.WithRateLimit?)
  }

  /** What the caller asked for with o is in force. */
  predicate InForce(c: DoConfig, o: DoOption) {
    match o
    case WithMaxAttempts(n) => c.maxAttempts == n
    case WithBaseDelay(d) => c.baseDelay == d
    case WithAttemptTimeout(d) => c.attemptTimeout == d
    case WithRateLimit(only, maxWait) =>
      c.mode == (if only then OnlyRateLimit else RetryRateLimit) && c.maxWait == maxWait
    case LogOnly => true
  }

  /** The last option of each kind is the one in force, whatever surrounds it. */
  lemma {:induction false} LaterOptionWins(opts: seq<Option<DoOption>>, o: DoOption, later: seq<Option<DoOption>>)
    requires forall x :: x in later ==> x.None? || !SameKind(x.value, o)
    ensures InForce(FoldDo(opts + [Some(o)] + later), o)
  {
    var all := opts + [Some(o)] + later;
    if later == [] {
      assert all[..|all| - 1] == opts;
    } else {
      LaterOptionWins(opts, o, later[..|later| - 1]);
      assert all[..|all| - 1] == opts + [Some(o)] + later[..|later| - 1];
      assert all[|all| - 1] == later[|later| - 1];
      assert later[|later| - 1] in later;
    }
  }

  ghost predicate Unset(opts: seq<Option<DoOption>>, o: DoOption) {
    forall x :: x in opts ==> x.None? || !SameKind(x.value, o)
  }

  /** Without an option of a kind: three attempts, no base delay yet, no attempt bound, no mode. */
  lemma {:induction false} UnsetTakesDefault(opts: seq<Option<DoOption>>)
    ensures Unset(opts, WithMaxAttempts(0)) ==> FoldDo(opts).maxAttempts == 3
    ensures Unset(opts, WithBaseDelay(0)) ==> FoldDo(opts).baseDelay == 0
    ensures Unset(opts, WithAttemptTimeout(0)) ==> FoldDo(opts).attemptTimeout == 0
    ensures Unset(opts, WithRateLimit(true, 0)) ==> FoldDo(opts).mode == NoRateLimit && FoldDo(opts).maxWait == 0
  {
    if opts != [] {
      assert opts[|opts| - 1] in opts;
      UnsetTakesDefault(opts[..|opts| - 1]);
    }
  }

  /** Fewer than one attempt is one, a base delay that is not positive is a second, a rate-limit
      bound that is not positive is a minute; nothing else changes. */
  lemma NormalizedExactly(c: DoConfig)
    ensures Normalize(c) ==
            DoConfig(
              if c.maxAttempts < 1 then 1 else c.maxAttempts,
              if c.baseDelay <= 0 then 1_000_000_000 else c.baseDelay,
              c.attemptTimeout, c.mode,
              if c.mode != NoRateLimit && c.maxWait <= 0 then 60_000_000_000 else c.maxWait,
              c.conflict)
  {
  }

  // ---- What a transport may send again ----

  /** A GET, HEAD, OPTIONS or TRACE (an empty method is GET), or any method if the caller opted in;
      and without a body, or with one that GetBody gives again. */
  predicate MayBeRepeated(rt: Transport, req: Req) {
    (rt.retryNonIdempotent || req.verb in ["", "GET", "HEAD", "OPTIONS", "TRACE"]) &&
    (req.body.None? || req.getBody.Some?)
  }

  lemma RepeatableExactly(rt: Transport, req: Req)
    ensures CanRetry(rt, req) <==> MayBeRepeated(rt, req)
  {
  }

  // ---- Every door's schedule ----

  /** The attempts a run may make. A transport's zero is three, and a negative number one. */
  function AttemptsOf(door: Door): int {
    match door
    case DoDoor(cfg) => cfg.maxAttempts
    case GetDoor(cfg) => cfg.maxAttempts
    case TransportDoor(rt, _) => if rt.maxAttempts == 0 then 3 else if rt.maxAttempts < 0 then 1 else rt.maxAttempts
  }

  /** The first backoff. A transport's that is not positive is a second. */
  function BaseOf(door: Door): Int64 {
    match door
    case DoDoor(cfg) => cfg.baseDelay
    case GetDoor(cfg) => cfg.baseDelay
    case TransportDoor(rt, _) => if rt.baseDelay <= 0 then 1_000_000_000 else rt.baseDelay
  }

  /** The elapsed ceiling, if positive: the transport alone has one. */
  function CeilingOf(door: Door): Int64 {
    if door.TransportDoor? then door.rt.maxElapsed else 0
  }

  lemma ScheduleExactly(door: Door)
    requires NormalDoor(door)
    ensures ScheduleOf(door) == Schedule(AttemptsOf(door), BaseOf(door), CeilingOf(door))
    ensures AttemptsOf(door) >= 1 && BaseOf(door) > 0
  {
  }

  ghost predicate CeilingWasMet(s: Schedule, start: int, v: Vars, stop: Stop) {
    stop == OverBudget ==>
      s.maxElapsed > 0 && v.waits != [] && (v.now - start) + v.waits[|v.waits| - 1].wait >= s.maxElapsed
  }

  lemma {:induction false} CeilingIsMet(s: Schedule, env: Env, h: Hooks, v: Vars, n: nat, start: int, backoff: Int64)
    requires Regular(h) && backoff > 0 && start <= v.now
    ensures var (w, stop) := RunFrom(s, env, h, v, n, start, backoff); CeilingWasMet(s, start, w, stop)
    decreases if n < s.attempts then s.attempts - n else 0
  {
    if n < s.attempts {
      var j := h.attempt(Start(v), n);
      if !j.done && n < s.attempts - 1 {
        var wait := ResolveWait(j.wait, backoff, env.draw(n));
        WaitIsNotNegative(j.wait, backoff, env.draw(n));
        var p := h.pause(Wait(j.v, j.wait, wait), n + 1, wait);
        CeilingIsUnbounded(s.maxElapsed, wait, start, p.now);
        var (err, woken) := SleepCtx(env.ctx, p.now, wait, env.late(n), env.pickTimer(n));
        SleepIsHonest(env.ctx, p.now, wait, env.late(n), env.pickTimer(n));
        if !ElapsedExceeded(s.maxElapsed, wait, start, p.now) && err.None? {
          CeilingIsMet(s, env, h, p.(now := woken), n + 1, start, SafeDouble(backoff));
        }
      }
    }
  }

  /** Every run of every door makes at least one attempt and at most its budget, and all of it when
      it is exhausted; and only a transport with a ceiling stops for it, where the time gone and the
      next wait would meet it. */
  lemma EveryRunIsInBudget(door: Door, env: Env, start: int)
    requires NormalDoor(door)
    ensures var (v, stop) := Run(door, env, start);
            && 1 <= |v.starts| <= AttemptsOf(door) && (stop == Exhausted ==> |v.starts| == AttemptsOf(door))
            && (stop == OverBudget ==>
                  CeilingOf(door) > 0 && v.waits != [] &&
                  (v.now - start) + v.waits[|v.waits| - 1].wait >= CeilingOf(door))
  {
    var s := ScheduleOf(door);
    ScheduleExactly(door);
    HooksAreRegular(door, env);
    AttemptsAreCounted(s, env, HooksOf(door, env), InitialVars(start), 0, start, s.baseDelay);
    CeilingIsMet(s, env, HooksOf(door, env), InitialVars(start), 0, start, s.baseDelay);
  }
}
