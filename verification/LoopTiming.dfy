/** What every run of the loop keeps about time: how many attempts, which waits, and when. */
module LoopTiming {
  import opened Prelude
  import opened Messages
  import opened RetryAfter
  import opened Backoff
  import opened Loop

  /** Hooks that leave the loop's own record alone and do not turn the clock back. */
  ghost predicate Regular(h: Hooks) {
    && (forall v: Vars, n: nat {:trigger h.attempt(v, n)} ::
          h.attempt(v, n).v.now >= v.now && h.attempt(v, n).v.starts == v.starts && h.attempt(v, n).v.waits == v.waits)
    && (forall v: Vars, retry: nat, wait: Int64 {:trigger h.pause(v, retry, wait)} ::
          h.pause(v, retry, wait).now >= v.now && h.pause(v, retry, wait).starts == v.starts
                                 && h.pause(v, retry, wait).waits == v.waits)
  }

  lemma JudgeReplyIsRegular(cfg: GetConfig, v: Vars, n: nat, r: Response)
    ensures var w := JudgeReply(cfg, v, n, r).v; w.now == v.now && w.starts == v.starts && w.waits == v.waits
  {
  }

  lemma GetAttemptIsRegular(cfg: GetConfig, env: Env, v: Vars, n: nat)
    ensures var w := GetAttempt(cfg, env, v, n).v; w.now >= v.now && w.starts == v.starts && w.waits == v.waits
  {
    var o := ClientDo(env.outcome(n));
    if o.response.Some? {
      JudgeReplyIsRegular(cfg, Asked(cfg, env, v, n), n, o.response.value);
    }
  }

  lemma TransportAttemptIsRegular(rt: Transport, req: Req, env: Env, v: Vars, n: nat)
    ensures var w := TransportAttempt(rt, req, env, v, n).v;
            w.now >= v.now && w.starts == v.starts && w.waits == v.waits
  {
  }

  lemma DoHooksAreRegular(cfg: DoConfig, env: Env)
    ensures Regular(HooksOf(DoDoor(cfg), env))
  {
  }

  lemma GetHooksAreRegular(cfg: GetConfig, env: Env)
    ensures Regular(HooksOf(GetDoor(cfg), env))
  {
    var h := HooksOf(GetDoor(cfg), env);
    forall v, n ensures h.attempt(v, n) == GetAttempt(cfg, env, v, n) {
    }
    forall v, n
      ensures var w := h.attempt(v, n).v; w.now >= v.now && w.starts == v.starts && w.waits == v.waits
    {
      GetAttemptIsRegular(cfg, env, v, n);
    }
  }

  lemma TransportHooksAreRegular(rt: Transport, req: Req, env: Env)
    ensures Regular(HooksOf(TransportDoor(rt, req), env))
  {
    var h := HooksOf(TransportDoor(rt, req), env);
    forall v, n
      ensures var w := h.attempt(v, n).v; w.now >= v.now && w.starts == v.starts && w.waits == v.waits
    {
      TransportAttemptIsRegular(rt, req, env, v, n);
    }
  }

  lemma HooksAreRegular(door: Door, env: Env)
    ensures Regular(HooksOf(door, env))
  {
    match door
    case DoDoor(cfg) => DoHooksAreRegular(cfg, env);
    case GetDoor(cfg) => GetHooksAreRegular(cfg, env);
    case TransportDoor(rt, req) => TransportHooksAreRegular(rt, req, env);
  }

  lemma WaitIsNotNegative(explicit: Int64, backoff: Int64, draw: nat)
    requires backoff > 0
    ensures ResolveWait(explicit, backoff, draw) >= 0
    ensures explicit > 0 ==> ResolveWait(explicit, backoff, draw) == explicit
    ensures explicit <= 0 ==> backoff / 2 <= ResolveWait(explicit, backoff, draw) <= 2 * (backoff / 2)
  {
    JitterRange(backoff, draw);
  }

  // ---- Counts ----

  /** Attempts and waits alternate: a run that finishes or is exhausted made one more attempt
      than it waited, any other stopped in a wait; the budget is never exceeded and is spent in
      full exactly when the run says so. */
  lemma {:induction false} AttemptsAreCounted(s: Schedule, env: Env, h: Hooks, v: Vars, n: nat, start: int,
        backoff: Int64)
    requires Regular(h) && n < s.attempts && |v.starts| == n && |v.waits| == n
    ensures var (w, stop) := RunFrom(s, env, h, v, n, start, backoff);
            && n < |w.starts| <= s.attempts
            && |w.waits| == |w.starts| - (if stop.Finished? || stop.Exhausted? then 1 else 0)
            && |w.waits| < s.attempts
            && (stop.Exhausted? ==> |w.starts| == s.attempts)
    decreases s.attempts - n
  {
    var j := h.attempt(Start(v), n);
    if !j.done && n < s.attempts - 1 {
      var (w, stop) := Between(s, env, h, j.v, j.wait, n, start, backoff);
      if stop.None? {
        AttemptsAreCounted(s, env, h, w, n + 1, start, SafeDouble(backoff));
      }
    }
  }

  // ---- The elapsed-time ceiling ----

  /** How late the timer woke that attempt i waited on; the first waited on none. */
  function Lateness(env: Env, i: nat): nat {
    if i == 0 then 0 else env.late(i - 1)
  }

  ghost predicate AllBefore(env: Env, times: seq<int>, end: int) {
    forall i :: 0 <= i < |times| ==> times[i] < end + Lateness(env, i)
  }

  lemma {:induction false} StartsStayInBudget(s: Schedule, env: Env, h: Hooks, v: Vars, n: nat, start: int,
        backoff: Int64)
    requires Regular(h) && s.maxElapsed > 0 && backoff > 0 && |v.starts| == n
    requires start <= v.now < start + s.maxElapsed + Lateness(env, n) && AllBefore(env, v.starts, start + s.maxElapsed)
    ensures AllBefore(env, RunFrom(s, env, h, v, n, start, backoff).0.starts, start + s.maxElapsed)
    decreases if n < s.attempts then s.attempts - n else 0
  {
    if n < s.attempts {
      var j := h.attempt(Start(v), n);
      if !j.done && n < s.attempts - 1 {
        var wait := ResolveWait(j.wait, backoff, env.draw(n));
        WaitIsNotNegative(j.wait, backoff, env.draw(n));
        var p := h.pause(Wait(j.v, j.wait, wait), n + 1, wait);
        CeilingIsUnbounded(s.maxElapsed, wait, start, p.now);
        var (err, woken) := SleepCtx(env.ctx, p.now, wait, env.late(n), env.pickTimer(n));
        SleepIsHonest(env.ctx, p.now, wait, env.late(n), env.pickTimer(n));
        if !ElapsedExceeded(s.maxElapsed, wait, start, p.now) && err.None? {
          assert Lateness(env, n + 1) == env.late(n);
          StartsStayInBudget(s, env, h, p.(now := woken), n + 1, start, SafeDouble(backoff));
        }
      }
    }
  }

  /** With a positive MaxElapsedTime every attempt of every run starts strictly before
      start + MaxElapsedTime, however long attempts and hooks take, but for what its own timer
      woke late. */
  lemma EveryAttemptStartsInBudget(rt: Transport, req: Req, env: Env, start: int)
    requires rt.maxElapsed > 0
    ensures AllBefore(env, Run(TransportDoor(rt, req), env, start).0.starts, start + rt.maxElapsed)
    ensures (forall i :: env.late(i) == 0) ==>
              forall i :: 0 <= i < |Run(TransportDoor(rt, req), env, start).0.starts| ==>
                Run(TransportDoor(rt, req), env, start).0.starts[i] < start + rt.maxElapsed
  {
    var s := TransportSchedule(rt);
    TransportHooksAreRegular(rt, req, env);
    StartsStayInBudget(s, env, HooksOf(TransportDoor(rt, req), env), InitialVars(start), 0, start, s.baseDelay);
    assert forall i: nat :: i > 0 ==> Lateness(env, i) == env.late(i - 1);
  }

  // ---- The backoff progression ----

  /** The k-th wait of a run with this base: its explicit wait, or a jitter of the base doubled
      k times, whatever the waits before it were. */
  ghost predicate WaitFollows(base: Int64, k: nat, w: Waited) {
    if w.explicit > 0 then w.wait == w.explicit
    else
      var b := Min(base * PowerOfTwo(k), MAX_INT64);
      b / 2 <= w.wait <= 2 * (b / 2)
  }

  ghost predicate AllFollow(base: Int64, waits: seq<Waited>) {
    forall k :: 0 <= k < |waits| ==> WaitFollows(base, k, waits[k])
  }

  lemma OneMoreFollows(base: Int64, waits: seq<Waited>, explicit: Int64, draw: nat)
    requires base > 0 && AllFollow(base, waits)
    ensures BaseAfter(base, |waits|) > 0
    ensures AllFollow(base, waits + [Waited(explicit, ResolveWait(explicit, BaseAfter(base, |waits|), draw))])
  {
    BaseIsCappedDoubling(base, |waits|);
    WaitIsNotNegative(explicit, BaseAfter(base, |waits|), draw);
  }

  lemma {:induction false} WaitsFollowFrom(s: Schedule, env: Env, h: Hooks, v: Vars, n: nat, start: int, base: Int64)
    requires Regular(h) && base > 0 && |v.waits| == n && AllFollow(base, v.waits)
    ensures AllFollow(base, RunFrom(s, env, h, v, n, start, BaseAfter(base, n)).0.waits)
    decreases if n < s.attempts then s.attempts - n else 0
  {
    if n < s.attempts {
      var j := h.attempt(Start(v), n);
      if !j.done && n < s.attempts - 1 {
        var (w, stop) := Between(s, env, h, j.v, j.wait, n, start, BaseAfter(base, n));
        assert w.waits == j.v.waits + [Waited(j.wait, ResolveWait(j.wait, BaseAfter(base, n), env.draw(n)))];
        OneMoreFollows(base, j.v.waits, j.wait, env.draw(n));
        if stop.None? {
          WaitsFollowFrom(s, env, h, w, n + 1, start, base);
        }
      }
    }
  }

  /** In every run of every door, the wait before retry k + 1 is its explicit wait or lies in
      [floor(b/2), b] for b = min(base * 2^k, 2^63 - 1): explicit waits do not disturb the
      progression, and each call has its own. */
  lemma WaitsFollowTheProgression(door: Door, env: Env, start: int)
    requires NormalDoor(door)
    ensures AllFollow(ScheduleOf(door).baseDelay, Run(door, env, start).0.waits)
  {
    var s := ScheduleOf(door);
    HooksAreRegular(door, env);
    WaitsFollowFrom(s, env, HooksOf(door, env), InitialVars(start), 0, start, s.baseDelay);
  }

  // ---- Total sleep ----

  ghost function TotalWait(waits: seq<Waited>): int {
    if waits == [] then 0 else TotalWait(waits[..|waits| - 1]) + waits[|waits| - 1].wait
  }

  ghost function SumOfBases(base: Int64, k: nat): int {
    if k == 0 then 0 else SumOfBases(base, k - 1) + Min(base * PowerOfTwo(k - 1), MAX_INT64)
  }

  ghost predicate HintsAreCapped(waits: seq<Waited>) {
    forall k :: 0 <= k < |waits| ==> waits[k].explicit <= RETRY_AFTER_CAP
  }

  lemma GetWaitIsCapped(cfg: GetConfig, env: Env, v: Vars, n: nat)
    ensures GetAttempt(cfg, env, v, n).wait <= RETRY_AFTER_CAP
  {
    var o := env.outcome(n);
    if o.response.Some? {
      RetryAfterIsBounded(o.response.value.retryAfter, o.response.value.until);
    }
  }

  lemma TransportWaitIsCapped(rt: Transport, req: Req, env: Env, v: Vars, n: nat)
    ensures TransportAttempt(rt, req, env, v, n).wait <= RETRY_AFTER_CAP
  {
    var o := env.outcome(n);
    if o.response.Some? {
      RetryAfterIsBounded(o.response.value.retryAfter, o.response.value.until);
    }
  }

  ghost predicate WaitsAreCapped(h: Hooks) {
    forall v: Vars, n: nat {:trigger h.attempt(v, n)} :: h.attempt(v, n).wait <= RETRY_AFTER_CAP
  }

  lemma JudgedWaitsAreCapped(door: Door, env: Env)
    requires !door.DoDoor?
    ensures WaitsAreCapped(HooksOf(door, env))
  {
    forall v: Vars, n: nat ensures HooksOf(door, env).attempt(v, n).wait <= RETRY_AFTER_CAP {
      match door
      case GetDoor(cfg) => GetWaitIsCapped(cfg, env, v, n);
      case TransportDoor(rt, req) => TransportWaitIsCapped(rt, req, env, v, n);
    }
  }

  lemma {:induction false} HintsStayCapped(s: Schedule, env: Env, h: Hooks, v: Vars, n: nat, start: int, backoff: Int64)
    requires Regular(h) && WaitsAreCapped(h) && HintsAreCapped(v.waits)
    ensures HintsAreCapped(RunFrom(s, env, h, v, n, start, backoff).0.waits)
    decreases if n < s.attempts then s.attempts - n else 0
  {
    if n < s.attempts {
      var j := h.attempt(Start(v), n);
      if !j.done && n < s.attempts - 1 {
        var (w, stop) := Between(s, env, h, j.v, j.wait, n, start, backoff);
        if stop.None? {
          HintsStayCapped(s, env, h, w, n + 1, start, SafeDouble(backoff));
        }
      }
    }
  }

  lemma TotalIsBoundedBy(base: Int64, waits: seq<Waited>, most: nat)
    requires base > 0 && AllFollow(base, waits) && HintsAreCapped(waits) && |waits| <= most
    ensures TotalWait(waits) <= most * RETRY_AFTER_CAP + SumOfBases(base, most)
  {
    TotalIsBounded(base, waits);
    BasesGrow(base, |waits|, most);
    assert |waits| * RETRY_AFTER_CAP <= most * RETRY_AFTER_CAP;
  }

  lemma {:induction false} TotalIsBounded(base: Int64, waits: seq<Waited>)
    requires base > 0 && AllFollow(base, waits) && HintsAreCapped(waits)
    ensures TotalWait(waits) <= |waits| * RETRY_AFTER_CAP + SumOfBases(base, |waits|)
  {
    if waits != [] {
      var n := |waits| - 1;
      TotalIsBounded(base, waits[..n]);
      assert WaitFollows(base, n, waits[n]);
      BaseIsCappedDoubling(base, n);
    }
  }

  /** At most most waits, which together stay within most Retry-After caps and the first most
      bases. */
  ghost predicate SleepsAtMost(base: Int64, waits: seq<Waited>, most: int) {
    0 <= most && |waits| <= most && TotalWait(waits) <= most * RETRY_AFTER_CAP + SumOfBases(base, most)
  }

  lemma TotalOfRun(s: Schedule, env: Env, h: Hooks, start: int)
    requires Regular(h) && s.attempts > 0 && s.baseDelay > 0 && WaitsAreCapped(h)
    ensures SleepsAtMost(s.baseDelay, RunFrom(s, env, h, InitialVars(start), 0, start, s.baseDelay).0.waits,
              s.attempts - 1)
  {
    AttemptsAreCounted(s, env, h, InitialVars(start), 0, start, s.baseDelay);
    WaitsFollowFrom(s, env, h, InitialVars(start), 0, start, s.baseDelay);
    HintsStayCapped(s, env, h, InitialVars(start), 0, start, s.baseDelay);
    TotalIsBoundedBy(s.baseDelay, RunFrom(s, env, h, InitialVars(start), 0, start, s.baseDelay).0.waits,
        s.attempts - 1);
  }

  /** The total sleep of GetBytes or the transport over N attempts is at most (N-1) times 60s
      plus the sum of the N-1 bases. */
  lemma TotalSleepIsBounded(door: Door, env: Env, start: int)
    requires NormalDoor(door) && !door.DoDoor?
    ensures var s := ScheduleOf(door); SleepsAtMost(s.baseDelay, Run(door, env, start).0.waits, s.attempts - 1)
  {
    HooksAreRegular(door, env);
    JudgedWaitsAreCapped(door, env);
    TotalOfRun(ScheduleOf(door), env, HooksOf(door, env), start);
  }

  lemma {:induction false} BasesGrow(base: Int64, m: nat, n: nat)
    requires base > 0 && m <= n
    ensures SumOfBases(base, m) <= SumOfBases(base, n)
  {
    if m < n {
      BaseIsCappedDoubling(base, n - 1);
      BasesGrow(base, m, n - 1);
    }
  }
}
