/** Which requests a transport sends more than once: exactly which are sent a second time. */
module LoopEligibility {
  import opened Prelude
  import opened Messages
  import opened Backoff
  import opened Loop
  import opened LoopTiming
  import opened LoopOptions
  import opened LoopAgreement
  import opened LoopReturns

  /** Each attempt sends at most one request, and the pause none. */
  ghost predicate SendsAtMostOnce(h: Hooks) {
    && (forall v: Vars, n: nat {:trigger h.attempt(v, n)} ::
          Requests(v.events) <= Requests(h.attempt(v, n).v.events) <= Requests(v.events) + 1)
    && (forall v: Vars, retry: nat, wait: Int64 {:trigger h.pause(v, retry, wait)} ::
          Requests(h.pause(v, retry, wait).events) == Requests(v.events))
  }

  lemma {:induction false} RequestsOnlyGrow(s: Schedule, env: Env, h: Hooks, v: Vars, n: nat, start: int,
        backoff: Int64)
    requires SendsAtMostOnce(h)
    ensures Requests(v.events) <= Requests(RunFrom(s, env, h, v, n, start, backoff).0.events)
    decreases if n < s.attempts then s.attempts - n else 0
  {
    if n < s.attempts {
      var j := h.attempt(Start(v), n);
      if !j.done && n < s.attempts - 1 {
        var (w, stop) := Between(s, env, h, j.v, j.wait, n, start, backoff);
        if stop.None? {
          RequestsOnlyGrow(s, env, h, w, n + 1, start, SafeDouble(backoff));
        }
      }
    }
  }

  /** A transport's attempt sends one request if it can be built, and none if not. */
  lemma AttemptSends(rt: Transport, req: Req, env: Env, v: Vars, n: nat)
    ensures Requests(TransportAttempt(rt, req, env, v, n).v.events) ==
            Requests(v.events) + if BuildError(rt, req, n).None? then 1 else 0
  {
    BuildFailsExactly(rt, req, env, n);
    if BuildAttempt(rt, req, env, n).Ok? {
      TransportSendsOnce(rt, req, env, v, n);
    }
  }

  lemma TransportSendsAtMostOnce(rt: Transport, req: Req, env: Env)
    ensures SendsAtMostOnce(HooksOf(TransportDoor(rt, req), env))
  {
    var h := HooksOf(TransportDoor(rt, req), env);
    forall v: Vars, n: nat
      ensures Requests(v.events) <= Requests(h.attempt(v, n).v.events) <= Requests(v.events) + 1
    {
      AttemptSends(rt, req, env, v, n);
    }
    forall v: Vars, retry: nat, wait: Int64 ensures Requests(h.pause(v, retry, wait).events) == Requests(v.events) {
      DrainSendsNothing(env, v.(now := v.now + env.hook(retry)));
    }
  }

  /** A first attempt that goes out, and what follows it where only an attempt ends the run. */
  lemma SecondFollows(s: Schedule, env: Env, h: Hooks, start: int, second: bool)
    requires Regular(h) && SendsAtMostOnce(h) && env.ctx.endsAt.None? && s.maxElapsed <= 0 && s.attempts >= 1
    requires Requests(h.attempt(Start(InitialVars(start)), 0).v.events) == 1
    requires forall v: Vars {:trigger h.attempt(v, 1)} ::
               Requests(h.attempt(v, 1).v.events) == Requests(v.events) + if second then 1 else 0
    requires forall v: Vars {:trigger h.attempt(v, 1)} :: !second ==> h.attempt(v, 1).done
    ensures var w := RunFrom(s, env, h, InitialVars(start), 0, start, s.baseDelay).0;
            && (|w.starts| >= 2 <==> s.attempts >= 2 && !h.attempt(Start(InitialVars(start)), 0).done)
            && (Requests(w.events) >= 2 <==>
                s.attempts >= 2 && !h.attempt(Start(InitialVars(start)), 0).done && second)
            && Requests(w.events) >= 1
  {
    var v := InitialVars(start);
    var j := h.attempt(Start(v), 0);
    if !j.done && s.attempts >= 2 {
      var w := RunGoesOn(s, env, h, v, 0, start, s.baseDelay);
      var between := Between(s, env, h, j.v, j.wait, 0, start, s.baseDelay).0;
      SecondRuns(s, env, h, between, start, SafeDouble(s.baseDelay), second);
    }
  }

  lemma SecondRuns(s: Schedule, env: Env, h: Hooks, w: Vars, start: int, backoff: Int64, second: bool)
    requires SendsAtMostOnce(h) && s.attempts >= 2 && Requests(w.events) == 1
    requires forall v: Vars {:trigger h.attempt(v, 1)} ::
               Requests(h.attempt(v, 1).v.events) == Requests(v.events) + if second then 1 else 0
    requires forall v: Vars {:trigger h.attempt(v, 1)} :: !second ==> h.attempt(v, 1).done
    ensures Requests(RunFrom(s, env, h, w, 1, start, backoff).0.events) >= 2 <==> second
    ensures Requests(RunFrom(s, env, h, w, 1, start, backoff).0.events) >= 1
  {
    var j := h.attempt(Start(w), 1);
    if !j.done && s.attempts > 2 {
      var (next, stop) := Between(s, env, h, j.v, j.wait, 1, start, backoff);
      if stop.None? {
        RequestsOnlyGrow(s, env, h, next, 2, start, SafeDouble(backoff));
      }
    }
  }

  /** A request of another method without the opt-in, or with a body that cannot be rewound, goes
      out exactly once, in every run and under every policy, and comes back as it came. */
  lemma OthersAreSentOnce(rt: Transport, req: Req, env: Env, start: int)
    requires (!rt.retryNonIdempotent && req.verb !in ["", "GET", "HEAD", "OPTIONS", "TRACE"]) ||
             (req.body.Some? && req.getBody.None?)
    ensures var (v, trip) := RoundTripRun(rt, req, env, start);
            Requests(v.events) == 1 && Sent(0, req.header, BodyOf(req)) in v.events && trip == AsItCame(env, 0)
  {
    RepeatableExactly(rt, req);
    OneMoreRequest([], 0, req.header, BodyOf(req));
    var sent := Sent(0, req.header, BodyOf(req));
    assert [] + [sent] == [sent];
    assert [] + [sent] + [Received(0)] == [sent] + [Received(0)];
    assert [sent][0] == sent && ([sent] + [Received(0)])[0] == sent;
  }

  /** Under a live context and no ceiling: a second attempt follows exactly a first outcome that the
      policy retries, of a request that may be repeated, under a budget of two or more; and a second
      request goes out exactly if GetBody and PrepareRetry let it. */
  lemma SentAgainExactly(rt: Transport, req: Req, env: Env, start: int)
    requires env.ctx.endsAt.None? && rt.maxElapsed <= 0
    ensures var v := RoundTripRun(rt, req, env, start).0;
            var again := MayBeRepeated(rt, req) && AttemptsOf(TransportDoor(rt, req)) >= 2 &&
                         TripVerdict(rt, env, 0) == (true, None);
            && (|v.starts| >= 2 <==> again)
            && (Requests(v.events) >= 2 <==> again && BuildError(rt, req, 1).None?)
            && Requests(v.events) >= 1
  {
    if MayBeRepeated(rt, req) {
      RepeatableExactly(rt, req);
      LoopSendsAgainExactly(rt, req, env, start);
    } else {
      OthersAreSentOnce(rt, req, env, start);
    }
  }

  lemma LoopSendsAgainExactly(rt: Transport, req: Req, env: Env, start: int)
    requires env.ctx.endsAt.None? && rt.maxElapsed <= 0
    ensures var v := Run(TransportDoor(rt, req), env, start).0;
            var again := AttemptsOf(TransportDoor(rt, req)) >= 2 && TripVerdict(rt, env, 0) == (true, None);
            && (|v.starts| >= 2 <==> again)
            && (Requests(v.events) >= 2 <==> again && BuildError(rt, req, 1).None?)
            && Requests(v.events) >= 1
  {
    var door := TransportDoor(rt, req);
    var h := HooksOf(door, env);
    ScheduleExactly(door);
    HooksAreRegular(door, env);
    TransportHooksMean(rt, req, env);
    TransportSendsAtMostOnce(rt, req, env);
    var begun := Start(InitialVars(start));
    AttemptSends(rt, req, env, begun, 0);
    assert TripMeans(rt, req, env, 0, h.attempt(begun, 0));
    forall v: Vars
      ensures Requests(h.attempt(v, 1).v.events) ==
              Requests(v.events) + if BuildError(rt, req, 1).None? then 1 else 0
    {
      AttemptSends(rt, req, env, v, 1);
    }
    forall v: Vars ensures BuildError(rt, req, 1).Some? ==> h.attempt(v, 1).done {
      assert TripMeans(rt, req, env, 1, h.attempt(v, 1));
    }
    SecondFollows(ScheduleOf(door), env, h, start, BuildError(rt, req, 1).None?);
  }
}
