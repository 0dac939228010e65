/** GetBytes and the transport, outcome by outcome and run by run. */
module LoopAgreement {
  import opened Prelude
  import opened Errors
  import opened Verdicts
  import opened Bodies
  import opened Messages
  import opened Backoff
  import opened Loop
  import opened LoopTiming

  /** What an http.RoundTripper promises: not a response and an error both. */
  predicate KeepsContract(o: Outcome) {
    o.response.None? || o.error.None?
  }

  /** The verdict on an error of the round trip is the same behind the client's *url.Error. */
  predicate SeenAlike(o: Outcome) {
    o.error.Some? ==> VerdictSeenAlike(o.error.value)
  }

  /** The default transport, with GetBytes's budget. */
  predicate SameBudget(get: GetConfig, rt: Transport) {
    NormalGet(get) && get.badRequest.None? &&
    rt.policy.DefaultPolicy? && rt.prepare.None? && rt.maxElapsed <= 0 &&
    get.maxAttempts == (if rt.maxAttempts == 0 then 3 else Max(rt.maxAttempts, 1)) &&
    get.baseDelay == (if rt.baseDelay <= 0 then 1_000_000_000 else rt.baseDelay)
  }

  /** A GET without a body, or with one that GetBody never fails to rewind. */
  ghost predicate ReplayableGet(req: Req) {
    req.verb == "GET" && (req.body.Some? ==> req.getBody.Some?) &&
    (req.getBody.Some? ==> forall n: nat :: req.getBody.value(n).Ok?)
  }

  /** The default policy would retry what the transport now holds. */
  predicate StillRetryable(env: Env, v: Vars) {
    RetryableRoundTrip(ResponseOf(env, v.held), v.error)
  }

  ghost function AlikeIn(env: Env): nat -> bool {
    (n: nat) => SeenAlike(env.outcome(n))
  }

  function RetryableIn(env: Env): Vars -> bool {
    (v: Vars) => StillRetryable(env, v)
  }

  /** Two judgements of one outcome: the same decision and explicit wait if both doors see it
      alike, opposite decisions if not; and the second retries what retryable says. */
  ghost predicate Agree(alike: bool, retryable: Vars -> bool, g: Judgement, t: Judgement) {
    && (g.done == t.done <==> alike)
    && (!g.done && !t.done ==> g.wait == t.wait)
    && (!g.done ==> g.v.error.Some?)
    && (t.done <==> !retryable(t.v))
  }

  lemma AttemptsAgree(get: GetConfig, rt: Transport, req: Req, env: Env, g: Vars, t: Vars, n: nat)
    requires SameBudget(get, rt) && ReplayableGet(req) && env.ctx.endsAt.None? && KeepsContract(env.outcome(n))
    ensures Agree(AlikeIn(env)(n), RetryableIn(env),
                  GetAttempt(get, env, g, n), TransportAttempt(rt, req, env, t, n))
  {
    var e := env.outcome(n).error;
    if e.Some? {
      EnvelopeKeepsVerdictExactly(e.value);
    } else {
      NothingIsTerminal(Leaf(PLAIN));
    }
  }

  ghost predicate HooksAgree(alike: nat -> bool, retryable: Vars -> bool, g: Hooks, t: Hooks) {
    forall v: Vars, w: Vars, n: nat {:trigger g.attempt(v, n), t.attempt(w, n)} ::
      Agree(alike(n), retryable, g.attempt(v, n), t.attempt(w, n))
  }

  lemma DoorsAgree(get: GetConfig, rt: Transport, req: Req, env: Env)
    requires SameBudget(get, rt) && ReplayableGet(req) && env.ctx.endsAt.None? &&
              forall i :: KeepsContract(env.outcome(i))
    ensures HooksAgree(AlikeIn(env), RetryableIn(env),
                       HooksOf(GetDoor(get), env), HooksOf(TransportDoor(rt, req), env))
  {
    var g, t := HooksOf(GetDoor(get), env), HooksOf(TransportDoor(rt, req), env);
    forall v: Vars, w: Vars, n: nat
      ensures Agree(AlikeIn(env)(n), RetryableIn(env), g.attempt(v, n), t.attempt(w, n))
    {
      AttemptsAgree(get, rt, req, env, v, w, n);
    }
  }

  lemma AgreeingGetFails(alike: nat -> bool, retryable: Vars -> bool, g: Hooks, t: Hooks)
    requires HooksAgree(alike, retryable, g, t)
    ensures FailsWithError(g)
  {
    forall v: Vars, n: nat ensures !g.attempt(v, n).done ==> g.attempt(v, n).v.error.Some? {
      assert Agree(alike(n), retryable, g.attempt(v, n), t.attempt(v, n));
    }
  }

  /** The same number of requests, the same waits, and exhaustion in one run exactly when the
      other made its last attempt and holds a still-retryable outcome. */
  ghost predicate SameRun(attempts: nat, g: Vars, exhausted: bool, t: Vars, retryable: bool) {
    && |g.starts| == |t.starts| && g.waits == t.waits
    && (exhausted <==> |t.starts| == attempts && retryable)
  }

  // ---- One request an attempt ----

  ghost function Requests(events: seq<Event>): nat {
    if events == [] then 0 else Requests(events[..|events| - 1]) + if events[|events| - 1].Sent? then 1 else 0
  }

  lemma {:induction false} RequestsOfConcat(a: seq<Event>, b: seq<Event>)
    ensures Requests(a + b) == Requests(a) + Requests(b)
    decreases |b|
  {
    if b == [] {
      assert a + b == a;
    } else {
      RequestsOfConcat(a, b[..|b| - 1]);
      assert (a + b)[..|a + b| - 1] == a + b[..|b| - 1];
    }
  }

  /** Each attempt sends one request, and the pause none. */
  ghost predicate SendsOnce(h: Hooks) {
    && (forall v: Vars, n: nat {:trigger h.attempt(v, n)} ::
          Requests(h.attempt(v, n).v.events) == Requests(v.events) + 1)
    && (forall v: Vars, retry: nat, wait: Int64 {:trigger h.pause(v, retry, wait)} ::
          Requests(h.pause(v, retry, wait).events) == Requests(v.events))
  }

  lemma DrainSendsNothing(env: Env, v: Vars)
    ensures Requests(DrainHeld(env, v).events) == Requests(v.events)
  {
    if HasBody(ResponseOf(env, v.held)) {
      var closing := [Drained(v.held.value), Closed(v.held.value)];
      RequestsOfConcat(v.events, closing);
      RequestsOfConcat([closing[0]], [closing[1]]);
    }
  }

  lemma JudgingSendsNothing(rt: Transport, env: Env, w: Vars, n: nat)
    ensures Requests(JudgeTrip(rt, env, w, n).v.events) == Requests(w.events)
  {
    DrainSendsNothing(env, w);
  }

  lemma OneMoreRequest(events: seq<Event>, n: nat, header: Header, body: seq<Byte>)
    ensures Requests(events + [Sent(n, header, body)]) == Requests(events) + 1
    ensures Requests(events + [Sent(n, header, body)] + [Received(n)]) == Requests(events) + 1
    ensures Requests(events + [Sent(n, header, body)] + [Received(n)] + [Drained(n), Closed(n)]) == Requests(events) + 1
    ensures events + [Sent(n, header, body)] + [] == events + [Sent(n, header, body)]
  {
    var sent := events + [Sent(n, header, body)];
    RequestsOfConcat(events, [Sent(n, header, body)]);
    RequestsOfConcat(sent, [Received(n)]);
    RequestsOfConcat(sent + [Received(n)], [Drained(n), Closed(n)]);
    RequestsOfConcat([Drained(n)], [Closed(n)]);
    assert [Drained(n)] + [Closed(n)] == [Drained(n), Closed(n)];
  }

  lemma GetSendsOnce(get: GetConfig, env: Env, v: Vars, n: nat)
    requires get.badRequest.None?
    ensures Requests(GetAttempt(get, env, v, n).v.events) == Requests(v.events) + 1
  {
    OneMoreRequest(v.events, n, get.header, []);
    var sent := v.events + [Sent(n, get.header, [])];
    var after := GetAttempt(get, env, v, n).v.events;
    assert after == sent || after == sent + [Received(n)] + [Drained(n), Closed(n)];
  }

  lemma TransportSendsOnce(rt: Transport, req: Req, env: Env, v: Vars, n: nat)
    requires BuildAttempt(rt, req, env, n).Ok?
    ensures Requests(TransportAttempt(rt, req, env, v, n).v.events) == Requests(v.events) + 1
  {
    var (header, body) := BuildAttempt(rt, req, env, n).value;
    OneMoreRequest(v.events, n, header, body);
    var sent := SendOnce(env, v, n, header, body);
    JudgingSendsNothing(rt, env, sent.(now := sent.now + env.settle(n)), n);
  }

  lemma DoorsSendOnce(get: GetConfig, rt: Transport, req: Req, env: Env)
    requires SameBudget(get, rt) && ReplayableGet(req)
    ensures SendsOnce(HooksOf(GetDoor(get), env)) && SendsOnce(HooksOf(TransportDoor(rt, req), env))
  {
    var g, t := HooksOf(GetDoor(get), env), HooksOf(TransportDoor(rt, req), env);
    forall v: Vars, n: nat ensures Requests(g.attempt(v, n).v.events) == Requests(v.events) + 1 {
      GetSendsOnce(get, env, v, n);
    }
    forall v: Vars, n: nat ensures Requests(t.attempt(v, n).v.events) == Requests(v.events) + 1 {
      TransportSendsOnce(rt, req, env, v, n);
    }
    forall v: Vars, retry: nat, wait: Int64 ensures Requests(t.pause(v, retry, wait).events) == Requests(v.events) {
      DrainSendsNothing(env, v.(now := v.now + env.hook(retry)));
    }
  }

  lemma {:induction false} RequestsAreAttempts(s: Schedule, env: Env, h: Hooks, v: Vars, n: nat, start: int,
        backoff: Int64)
    requires Regular(h) && SendsOnce(h) && Requests(v.events) == |v.starts|
    ensures var w := RunFrom(s, env, h, v, n, start, backoff).0; Requests(w.events) == |w.starts|
    decreases if n < s.attempts then s.attempts - n else 0
  {
    if n < s.attempts {
      var j := h.attempt(Start(v), n);
      if !j.done && n < s.attempts - 1 {
        var (w, stop) := Between(s, env, h, j.v, j.wait, n, start, backoff);
        RequestsAreAttempts(s, env, h, w, n + 1, start, SafeDouble(backoff));
      }
    }
  }

  // ---- The two runs, side by side ----

  ghost predicate FailsWithError(h: Hooks) {
    forall v: Vars, n: nat {:trigger h.attempt(v, n)} :: !h.attempt(v, n).done ==> h.attempt(v, n).v.error.Some?
  }

  /** Under a live context and no ceiling, only an attempt ends a run. */
  lemma {:induction false} LiveRunIsNotCut(s: Schedule, env: Env, h: Hooks, v: Vars, n: nat, start: int, backoff: Int64)
    requires env.ctx.endsAt.None? && s.maxElapsed <= 0 && n < s.attempts
    ensures var (w, stop) := RunFrom(s, env, h, v, n, start, backoff);
            stop == Finished || (stop == Exhausted && (FailsWithError(h) ==> w.error.Some?))
    decreases s.attempts - n
  {
    var j := h.attempt(Start(v), n);
    if !j.done && n < s.attempts - 1 {
      var w := Between(s, env, h, j.v, j.wait, n, start, backoff).0;
      LiveRunIsNotCut(s, env, h, w, n + 1, start, SafeDouble(backoff));
    }
  }

  ghost predicate AllAlike(alike: nat -> bool, n: nat, end: nat) {
    forall i :: n <= i < end ==> alike(i)
  }

  /** Under a live context and no ceiling, a retryable attempt is followed by another, after the
      wait the first asks for. */
  lemma RunGoesOn(s: Schedule, env: Env, h: Hooks, v: Vars, n: nat, start: int, backoff: Int64) returns (w: Vars)
    requires Regular(h) && env.ctx.endsAt.None? && s.maxElapsed <= 0 && n < s.attempts - 1
    requires |v.starts| == |v.waits| == n && !h.attempt(Start(v), n).done
    ensures RunFrom(s, env, h, v, n, start, backoff) == RunFrom(s, env, h, w, n + 1, start, SafeDouble(backoff))
    ensures var explicit := h.attempt(Start(v), n).wait;
            w.waits == v.waits + [Waited(explicit, ResolveWait(explicit, backoff, env.draw(n)))]
    ensures |w.starts| == |w.waits| == n + 1 < |RunFrom(s, env, h, v, n, start, backoff).0.starts|
  {
    var j := h.attempt(Start(v), n);
    w := Between(s, env, h, j.v, j.wait, n, start, backoff).0;
    AttemptsAreCounted(s, env, h, w, n + 1, start, SafeDouble(backoff));
  }

  /** The two runs agree from attempt n on exactly when the outcomes the first one meets are
      seen alike. */
  ghost predicate AgreeFrom(attempts: nat, n: nat, alike: nat -> bool, retryable: Vars -> bool, g: Vars, stop: Stop,
        t: Vars)
  {
    n < |g.starts| && (SameRun(attempts, g, stop == Exhausted, t, retryable(t)) <==> AllAlike(alike, n, |g.starts|))
  }

  lemma AgreeOneEarlier(attempts: nat, n: nat, alike: nat -> bool, retryable: Vars -> bool, g: Vars, stop: Stop,
        t: Vars)
    requires AgreeFrom(attempts, n + 1, alike, retryable, g, stop, t) && alike(n)
    ensures AgreeFrom(attempts, n, alike, retryable, g, stop, t)
  {
  }

  lemma RunsPart(s: Schedule, s': Schedule, env: Env, g: Hooks, t: Hooks, alike: nat -> bool, retryable: Vars -> bool,
      v: Vars, w: Vars, n: nat, start: int, backoff: Int64)
    requires Regular(g) && Regular(t) && env.ctx.endsAt.None?
    requires s.attempts == s'.attempts && s.maxElapsed <= 0 && s'.maxElapsed <= 0 && n < s.attempts - 1
    requires |v.starts| == |w.starts| == |v.waits| == |w.waits| == n && !alike(n)
    requires g.attempt(Start(v), n).done != t.attempt(Start(w), n).done
    ensures var (v', stop) := RunFrom(s, env, g, v, n, start, backoff);
            AgreeFrom(s.attempts, n, alike, retryable, v', stop, RunFrom(s', env, t, w, n, start, backoff).0)
  {
    if g.attempt(Start(v), n).done {
      var next := RunGoesOn(s', env, t, w, n, start, backoff);
    } else {
      var next := RunGoesOn(s, env, g, v, n, start, backoff);
    }
  }

  lemma RunsEnd(s: Schedule, s': Schedule, env: Env, g: Hooks, t: Hooks, alike: nat -> bool, retryable: Vars -> bool,
      v: Vars, w: Vars, n: nat, start: int, backoff: Int64)
    requires Regular(g) && Regular(t) && s.attempts == s'.attempts && n < s.attempts
    requires |v.starts| == |w.starts| == n && v.waits == w.waits
    requires var jg, jt := g.attempt(Start(v), n), t.attempt(Start(w), n);
             Agree(alike(n), retryable, jg, jt) && (n == s.attempts - 1 || (jg.done && jt.done))
    ensures var (v', stop) := RunFrom(s, env, g, v, n, start, backoff);
            AgreeFrom(s.attempts, n, alike, retryable, v', stop, RunFrom(s', env, t, w, n, start, backoff).0)
  {
  }

  lemma {:induction false} RunsAgree(s: Schedule, s': Schedule, env: Env, g: Hooks, t: Hooks, alike: nat -> bool,
      retryable: Vars -> bool, v: Vars, w: Vars, n: nat, start: int, backoff: Int64)
    requires Regular(g) && Regular(t) && HooksAgree(alike, retryable, g, t) && env.ctx.endsAt.None?
    requires s.attempts == s'.attempts && s.maxElapsed <= 0 && s'.maxElapsed <= 0 && n < s.attempts
    requires |v.starts| == |w.starts| == |v.waits| == n && v.waits == w.waits
    ensures var (v', stop) := RunFrom(s, env, g, v, n, start, backoff);
            AgreeFrom(s.attempts, n, alike, retryable, v', stop, RunFrom(s', env, t, w, n, start, backoff).0)
    decreases s.attempts - n
  {
    var jg, jt := g.attempt(Start(v), n), t.attempt(Start(w), n);
    assert Agree(alike(n), retryable, jg, jt);
    if n == s.attempts - 1 || (jg.done && jt.done) {
      RunsEnd(s, s', env, g, t, alike, retryable, v, w, n, start, backoff);
    } else if jg.done != jt.done {
      RunsPart(s, s', env, g, t, alike, retryable, v, w, n, start, backoff);
    } else {
      var v' := RunGoesOn(s, env, g, v, n, start, backoff);
      var w' := RunGoesOn(s', env, t, w, n, start, backoff);
      RunsAgree(s, s', env, g, t, alike, retryable, v', w', n + 1, start, SafeDouble(backoff));
      var (x, stop) := RunFrom(s, env, g, v', n + 1, start, SafeDouble(backoff));
      AgreeOneEarlier(s.attempts, n, alike, retryable, x, stop,
          RunFrom(s', env, t, w', n + 1, start, SafeDouble(backoff)).0);
    }
  }

  lemma WholeRunsAgree(s: Schedule, s': Schedule, env: Env, g: Hooks, t: Hooks, alike: nat -> bool,
        retryable: Vars -> bool, start: int)
    requires Regular(g) && Regular(t) && HooksAgree(alike, retryable, g, t) && SendsOnce(g) && SendsOnce(t) &&
              env.ctx.endsAt.None?
    requires 0 < s.attempts == s'.attempts && s.maxElapsed <= 0 && s'.maxElapsed <= 0 && s.baseDelay == s'.baseDelay
    ensures var (vg, sg) := RunFrom(s, env, g, InitialVars(start), 0, start, s.baseDelay);
            var (vt, st) := RunFrom(s', env, t, InitialVars(start), 0, start, s'.baseDelay);
            && (sg == Finished || (sg == Exhausted && vg.error.Some?)) && (st == Finished || st == Exhausted)
            && Requests(vg.events) == |vg.starts| && Requests(vt.events) == |vt.starts|
            && (SameRun(s.attempts, vg, sg == Exhausted, vt, retryable(vt)) <==> AllAlike(alike, 0, |vg.starts|))
  {
    RunsAgree(s, s', env, g, t, alike, retryable, InitialVars(start), InitialVars(start), 0, start, s.baseDelay);
    RequestsAreAttempts(s, env, g, InitialVars(start), 0, start, s.baseDelay);
    RequestsAreAttempts(s', env, t, InitialVars(start), 0, start, s'.baseDelay);
    AgreeingGetFails(alike, retryable, g, t);
    LiveRunIsNotCut(s, env, g, InitialVars(start), 0, start, s.baseDelay);
    LiveRunIsNotCut(s', env, t, InitialVars(start), 0, start, s'.baseDelay);
  }

  lemma DoorsSimulate(get: GetConfig, rt: Transport, req: Req, env: Env, start: int)
    requires SameBudget(get, rt) && ReplayableGet(req) && env.ctx.endsAt.None? &&
              forall i :: KeepsContract(env.outcome(i))
    ensures var (vg, sg) := Run(GetDoor(get), env, start);
            var (vt, st) := Run(TransportDoor(rt, req), env, start);
            && (sg == Finished || (sg == Exhausted && vg.error.Some?)) && (st == Finished || st == Exhausted)
            && Requests(vg.events) == |vg.starts| && Requests(vt.events) == |vt.starts|
            && (SameRun(get.maxAttempts, vg, sg == Exhausted, vt, RetryableIn(env)(vt)) <==>
                AllAlike(AlikeIn(env), 0, |vg.starts|))
  {
    HooksAreRegular(GetDoor(get), env);
    HooksAreRegular(TransportDoor(rt, req), env);
    DoorsAgree(get, rt, req, env);
    DoorsSendOnce(get, rt, req, env);
    WholeRunsAgree(
      ScheduleOf(GetDoor(get)), TransportSchedule(rt), env,
      HooksOf(GetDoor(get), env), HooksOf(TransportDoor(rt, req), env),
      AlikeIn(env), RetryableIn(env), start);
  }

  /** GetBytes and the transport's default policy simulate each other. With the same budget, a
      replayable GET, no elapsed ceiling, a live context, the same jitter draws and the same
      outcomes, they make the same number of requests with the same waits, and GetBytes reports
      exhaustion exactly when RoundTrip hands back a still-retryable outcome after its last
      attempt: for every run whose outcomes both doors see alike, and for no other. */
  lemma GetBytesSimulatesTransport(get: GetConfig, rt: Transport, req: Req, env: Env, start: int, shown: Error)
    requires SameBudget(get, rt) && ReplayableGet(req) && env.ctx.endsAt.None? &&
              forall i :: KeepsContract(env.outcome(i))
    ensures var (vg, sg) := Run(GetDoor(get), env, start);
            var (vt, trip) := RoundTripRun(rt, req, env, start);
            && vt.held == trip.held && vt.error == trip.error
            && Requests(vg.events) == |vg.starts| && Requests(vt.events) == |vt.starts|
            && var exhausted := GetReturns(vg, sg, shown).RetriesExhausted?;
               (SameRun(get.maxAttempts, vg, exhausted, vt, StillRetryable(env, vt)) <==>
                  forall i :: 0 <= i < |vg.starts| ==> SeenAlike(env.outcome(i)))
  {
    DoorsSimulate(get, rt, req, env, start);
    var v := Run(TransportDoor(rt, req), env, start).0;
    assert RetryableIn(env)(v) <==> StillRetryable(env, v);
    assert forall i: nat {:trigger AlikeIn(env)(i)} {:trigger SeenAlike(env.outcome(i))} ::
        AlikeIn(env)(i) <==> SeenAlike(env.outcome(i));
  }
}
