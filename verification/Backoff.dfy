/** Waiting: saturating doubling, equal jitter, the elapsed-time ceiling in int64, and a sleep
    that a context can cut short. */
module Backoff {
  import opened Prelude
  import opened Errors

  // ---- Doubling ----

  /** SafeDouble, on an int64 that wraps around. */
  function SafeDouble(d: Int64): Int64 {
    if d <= 0 then d
    else
      var doubled := WrapInt64(d * 2);
      if doubled < d then MAX_INT64 else doubled
  }

  /** The backoff base after k retries. */
  function BaseAfter(base: Int64, k: nat): Int64 {
    if k == 0 then base else SafeDouble(BaseAfter(base, k - 1))
  }

  function PowerOfTwo(k: nat): nat {
    if k == 0 then 1 else 2 * PowerOfTwo(k - 1)
  }

  /** Doubling stops at the largest int64, and leaves alone what is not positive. */
  lemma DoublingSaturates(d: Int64)
    ensures SafeDouble(d) == if d <= 0 then d else Min(2 * d, MAX_INT64)
    ensures SafeDouble(d) >= d
  {
  }

  lemma DoubledOnceMore(base: int, k: nat)
    requires k > 0
    ensures base * PowerOfTwo(k) == 2 * (base * PowerOfTwo(k - 1))
  {
    var p := PowerOfTwo(k - 1);
    assert base * (2 * p) == 2 * (base * p);
  }

  /** After k retries the base is exactly min(base * 2^k, 2^63 - 1). */
  lemma {:induction false} BaseIsCappedDoubling(base: Int64, k: nat)
    requires base > 0
    ensures BaseAfter(base, k) == Min(base * PowerOfTwo(k), MAX_INT64)
    ensures base <= BaseAfter(base, k)
  {
    if k > 0 {
      BaseIsCappedDoubling(base, k - 1);
      DoublingSaturates(BaseAfter(base, k - 1));
      DoubledOnceMore(base, k);
    }
  }

  // ---- Jitter ----

  /** JitteredBackoff. draw stands for the random source: rand.N(m) is any value in [0, m). */
  function JitteredBackoff(backoff: Int64, draw: nat): Int64 {
    if backoff <= 0 then backoff
    else
      var half := backoff / 2;
      half + draw % (half + 1)
  }

  /** The wait lies between floor(b/2) and twice that, so in [floor(b/2), b], and is nothing exactly
      for a backoff of one nanosecond. A backoff that is not positive comes back as it is. */
  lemma JitterRange(backoff: Int64, draw: nat)
    ensures backoff <= 0 ==> JitteredBackoff(backoff, draw) == backoff
    ensures backoff > 0 ==> backoff / 2 <= JitteredBackoff(backoff, draw) <= 2 * (backoff / 2) <= backoff
    ensures backoff > 0 ==> (JitteredBackoff(backoff, draw) == 0 <==> backoff == 1)
  {
  }

  /** Every wait from floor(b/2) to twice that can be drawn. */
  lemma JitterReaches(backoff: Int64, wait: int)
    requires backoff > 0 && backoff / 2 <= wait <= 2 * (backoff / 2)
    ensures exists draw :: JitteredBackoff(backoff, draw) == wait
  {
    var half := backoff / 2;
    var draw := wait - half;
    assert draw % (half + 1) == draw;
    assert JitteredBackoff(backoff, draw) == wait;
  }

  /** resolveWait: a positive explicit wait, else the jittered backoff. */
  function ResolveWait(explicit: Int64, backoff: Int64, draw: nat): Int64 {
    if explicit > 0 then explicit else JitteredBackoff(backoff, draw)
  }

  // ---- The elapsed-time ceiling ----

  /** time.Since, which saturates. */
  function Since(start: int, now: int): Int64 {
    if now - start > MAX_INT64 then MAX_INT64
    else if now - start < MIN_INT64 then MIN_INT64
    else now - start
  }

  /** elapsedExceeded, with the subtraction in int64. */
  predicate ElapsedExceeded(maxElapsed: Int64, wait: Int64, start: int, now: int) {
    maxElapsed > 0 && wait >= WrapInt64(maxElapsed - Since(start, now))
  }

  /** Comparing with what is left of the budget is the test elapsed + wait >= max over the
      unbounded integers, for every wait and every elapsed time, however large. */
  lemma CeilingIsUnbounded(maxElapsed: Int64, wait: Int64, start: int, now: int)
    requires start <= now && 0 <= wait
    ensures ElapsedExceeded(maxElapsed, wait, start, now) <==> maxElapsed > 0 && (now - start) + wait >= maxElapsed
  {
  }

  /** Summing in int64 instead would let a wait near the maximum through. */
  lemma SummingWouldOverflow()
    ensures exists maxElapsed: Int64, wait: Int64, start: int, now: int ::
              start <= now && maxElapsed > 0 && 0 <= wait && ElapsedExceeded(maxElapsed, wait, start, now) &&
              WrapInt64(Since(start, now) + wait) < maxElapsed
  {
    assert ElapsedExceeded(10, MAX_INT64, 0, 1);
    assert WrapInt64(Since(0, 1) + MAX_INT64) == MIN_INT64;
  }

  // ---- Contexts and sleep ----

  /** A context that ends at a given time, by deadline or by cancellation, or never. It does not
      come back to life. */
  datatype Context = Context(endsAt: Option<int>, byDeadline: bool)

  predicate Over(ctx: Context, t: int) {
    ctx.endsAt.Some? && ctx.endsAt.value <= t
  }

  /** The error of a context that has ended. */
  function EndOf(ctx: Context): Error {
    Value(if ctx.byDeadline then DeadlineExceeded else Canceled)
  }

  function ContextErr(ctx: Context, t: int): Option<Error> {
    if Over(ctx, t) then Some(EndOf(ctx)) else None
  }

  /** SleepCtx, from time now: the error, if any, and the time it returns. A wait that is not
      positive never looks at the context. Otherwise the select wakes late after the earlier of
      the timer and the context's end, and picks either branch when both are ready. */
  function SleepCtx(ctx: Context, now: int, d: Int64, late: nat, pickTimer: bool): (Option<Error>, int) {
    if d <= 0 then (None, now)
    else
      var fires := now + d;
      var first := if ctx.endsAt.Some? && ctx.endsAt.value < fires then Max(now, ctx.endsAt.value) else fires;
      var woken := first + late;
      if fires <= woken && (pickTimer || !Over(ctx, woken)) then (None, woken) else (ContextErr(ctx, woken), woken)
  }

  /** A sleep that succeeds has waited in full; one that fails returns the end of a context that
      is over, a deadline's or a cancellation's; it never outlasts its wait or the context's end by
      more than its timer is late, and with a timer that fires on time refuses to wait at all on a
      context already over. When both are ready either may win. */
  lemma SleepIsHonest(ctx: Context, now: int, d: Int64, late: nat, pickTimer: bool)
    ensures var (err, then_) := SleepCtx(ctx, now, d, late, pickTimer);
            && now <= then_
            && (err.None? ==> now + d <= then_ || d <= 0)
            && (err.Some? ==> d > 0 && ctx.endsAt.Some? && ctx.endsAt.value <= then_)
            && (err.Some? ==> err == Some(Value(if ctx.byDeadline then DeadlineExceeded else Canceled)))
            && (d > 0 ==> then_ <= now + d + late)
            && (d > 0 && ctx.endsAt.Some? ==> then_ <= Max(now, ctx.endsAt.value) + late)
            && (d > 0 && now + d <= then_ && Over(ctx, then_) ==> (err.None? <==> pickTimer))
            && (late == 0 && d > 0 && Over(ctx, now) ==> err == Some(EndOf(ctx)) && then_ == now)
            && (!Over(ctx, then_) ==> err.None?)
  {
  }

  /** A sleep whose timer is less late than the wait is long succeeds only if the context's end
      was seen: it wakes by then, but for that lateness. */
  lemma SleepSeesTheEnd(ctx: Context, now: int, d: Int64, late: nat, pickTimer: bool)
    requires late < d && ctx.endsAt.Some?
    ensures var (err, then_) := SleepCtx(ctx, now, d, late, pickTimer);
            err.None? ==> then_ <= ctx.endsAt.value + late
  {
  }

  /** Without a positive wait the sleep lets a loop pass any context, and takes no time. */
  lemma ZeroWaitIgnoresContext(ctx: Context, now: int, d: Int64, late: nat, pickTimer: bool)
    requires d <= 0
    ensures SleepCtx(ctx, now, d, late, pickTimer) == (None, now)
  {
  }
}
