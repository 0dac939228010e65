/** Every wait of every run: what it is and that it is waited. */
module LoopWaits {
  import opened Prelude
  import opened Errors
  import opened Verdicts
  import opened VerdictFields
  import opened Messages
  import opened RetryAfter
  import opened Backoff
  import opened Loop
  import opened LoopTiming
  import opened LoopOptions

  // ---- The wait an attempt names ----

  /** The wait Do takes from an error: under a mode that names rate limits, the first one's hint
      within the bound, or the bound; else the first hint of any node. */
  function WaitNamedBy(cfg: DoConfig, e: Error): Int64 {
    match FirstRateLimit(Nodes(e))
    case Some(hint) =>
      if cfg.mode == NoRateLimit then HintOf(e) else if hint > 0 then Min(hint, cfg.maxWait) else cfg.maxWait
    case None => HintOf(e)
  }

  function HintOf(e: Error): Int64 {
    if FirstHint(Nodes(e)).Some? then FirstHint(Nodes(e)).value else 0
  }

  /** What Do makes of an error: whether it tries again, and the wait the error names. */
  lemma ClassifyExactly(cfg: DoConfig, e: Error)
    ensures Classify(cfg, e) ==
            if cfg.mode != NoRateLimit && FirstRateLimit(Nodes(e)).Some? then (true, WaitNamedBy(cfg, e))
            else if cfg.mode != OnlyRateLimit && IsTransient(e) then (true, HintOf(e))
            else (false, 0)
  {
    FirstsAreFields(Nodes(e));
    AsTypeIsFirst(e, RateLimitErrorType);
    AsTypeIsFirst(e, RetryAfterHintType);
  }

  /** The wait attempt n of a door names, if it is to be followed by another: for Do its error's;
      for GetBytes and the transport the Retry-After of the reply. */
  function NamedWait(door: Door, env: Env, n: nat): Int64 {
    var o := env.outcome(n);
    match door
    case DoDoor(cfg) => if o.error.Some? then WaitNamedBy(cfg, o.error.value) else 0
    case GetDoor(_) => if o.error.Some? then 0 else ReplyWait(o.response)
    case TransportDoor(_, _) => ReplyWait(o.response)
  }

  function ReplyWait(r: Option<Response>): Int64 {
    match r
    case Some(reply) => ParseRetryAfter(reply.retryAfter, reply.until)
    case None => 0
  }

  lemma MarkNamesTheSame(cfg: DoConfig, e: Error, m: Error)
    requires m == Wrap(ATTEMPT_TIMEOUT, e)
    ensures WaitNamedBy(cfg, m) == WaitNamedBy(cfg, e) && HintOf(m) == HintOf(e)
    ensures FirstRateLimit(Nodes(m)) == FirstRateLimit(Nodes(e))
  {
    assert Nodes(m)[1..] == Nodes(e);
  }

  lemma DoNamesWait(cfg: DoConfig, env: Env, v: Vars, n: nat)
    ensures var j := DoAttempt(cfg, env, v, n); !j.done ==> j.wait == NamedWait(DoDoor(cfg), env, n)
  {
    var raw := env.outcome(n).error;
    if raw.Some? {
      ClassifyExactly(cfg, raw.value);
      ClassifyExactly(cfg, Wrap(ATTEMPT_TIMEOUT, raw.value));
      MarkNamesTheSame(cfg, raw.value, Wrap(ATTEMPT_TIMEOUT, raw.value));
    }
  }

  lemma GetNamesWait(cfg: GetConfig, env: Env, v: Vars, n: nat)
    ensures var j := GetAttempt(cfg, env, v, n); !j.done ==> j.wait == NamedWait(GetDoor(cfg), env, n)
  {
  }

  lemma TransportNamesWait(rt: Transport, req: Req, env: Env, v: Vars, n: nat)
    ensures var j := TransportAttempt(rt, req, env, v, n);
            !j.done ==> j.wait == NamedWait(TransportDoor(rt, req), env, n)
  {
  }

  ghost predicate NamesWaits(h: Hooks, name: nat -> Int64) {
    forall v: Vars, n: nat {:trigger h.attempt(v, n)} :: !h.attempt(v, n).done ==> h.attempt(v, n).wait == name(n)
  }

  lemma DoorNamesWaits(door: Door, env: Env, name: nat -> Int64)
    requires forall n: nat :: name(n) == NamedWait(door, env, n)
    ensures NamesWaits(HooksOf(door, env), name)
  {
    var h := HooksOf(door, env);
    forall v: Vars, n: nat ensures !h.attempt(v, n).done ==> h.attempt(v, n).wait == name(n) {
      match door
      case DoDoor(cfg) => DoNamesWait(cfg, env, v, n);
      case GetDoor(cfg) => GetNamesWait(cfg, env, v, n);
      case TransportDoor(rt, req) => TransportNamesWait(rt, req, env, v, n);
    }
  }

  // ---- Over whole runs ----

  ghost predicate AllNamed(waits: seq<Waited>, name: nat -> Int64) {
    forall k :: 0 <= k < |waits| ==> waits[k].explicit == name(k)
  }

  lemma {:induction false} RunNamesWaits(s: Schedule, env: Env, h: Hooks, name: nat -> Int64, v: Vars, n: nat,
        start: int, backoff: Int64)
    requires Regular(h) && NamesWaits(h, name) && |v.waits| == n && AllNamed(v.waits, name)
    ensures AllNamed(RunFrom(s, env, h, v, n, start, backoff).0.waits, name)
    decreases if n < s.attempts then s.attempts - n else 0
  {
    if n < s.attempts {
      var j := h.attempt(Start(v), n);
      if !j.done && n < s.attempts - 1 {
        var (w, stop) := Between(s, env, h, j.v, j.wait, n, start, backoff);
        assert w.waits == v.waits + [Waited(j.wait, ResolveWait(j.wait, backoff, env.draw(n)))];
        if stop.None? {
          RunNamesWaits(s, env, h, name, w, n + 1, start, SafeDouble(backoff));
        }
      }
    }
  }

  /** Each attempt after the first starts no earlier than its wait after the one before. */
  ghost predicate Spaced(starts: seq<int>, waits: seq<Waited>) {
    forall i :: 0 <= i < |starts| - 1 && i < |waits| ==> starts[i + 1] >= starts[i] + waits[i].wait
  }

  lemma OneMoreSpaced(starts: seq<int>, waits: seq<Waited>, w: Waited, woken: int)
    requires |starts| == |waits| + 1 && Spaced(starts, waits) && woken >= starts[|waits|] + w.wait
    ensures Spaced(starts + [woken], waits + [w]) && Spaced(starts, waits + [w])
  {
    var more, longer := starts + [woken], waits + [w];
    assert forall i :: 0 <= i < |waits| ==> longer[i] == waits[i];
    assert forall i :: 0 <= i < |starts| ==> more[i] == starts[i];
  }

  lemma {:induction false} RunIsSpaced(s: Schedule, env: Env, h: Hooks, v: Vars, n: nat, start: int, backoff: Int64)
    requires Regular(h) && backoff > 0 && |v.starts| == |v.waits| == n && Spaced(v.starts + [v.now], v.waits)
    ensures var w := RunFrom(s, env, h, v, n, start, backoff).0; Spaced(w.starts, w.waits)
    decreases if n < s.attempts then s.attempts - n else 0
  {
    assert forall i :: 0 <= i < n ==> v.starts[i] == (v.starts + [v.now])[i];
    if n < s.attempts {
      var j := h.attempt(Start(v), n);
      if !j.done && n < s.attempts - 1 {
        var wait := ResolveWait(j.wait, backoff, env.draw(n));
        WaitIsNotNegative(j.wait, backoff, env.draw(n));
        var p := h.pause(Wait(j.v, j.wait, wait), n + 1, wait);
        var (err, woken) := SleepCtx(env.ctx, p.now, wait, env.late(n), env.pickTimer(n));
        SleepIsHonest(env.ctx, p.now, wait, env.late(n), env.pickTimer(n));
        OneMoreSpaced(v.starts + [v.now], v.waits, Waited(j.wait, wait), Max(woken, p.now + wait));
        if !ElapsedExceeded(s.maxElapsed, wait, start, p.now) && err.None? {
          RunIsSpaced(s, env, h, p.(now := woken), n + 1, start, SafeDouble(backoff));
        }
      }
    }
  }

  /** In every run of every door: wait k is the one attempt k names, if that is positive; else it is
      drawn between half of the base doubled k times and twice that half, under one cap of int64.
      Every wait but one that is cut short is waited in full before the next attempt starts. */
  lemma EveryWaitExactly(door: Door, env: Env, start: int)
    requires NormalDoor(door)
    ensures var v := Run(door, env, start).0;
            && (forall k :: 0 <= k < |v.waits| ==>
                  v.waits[k].explicit == NamedWait(door, env, k) && WaitFollows(BaseOf(door), k, v.waits[k]))
            && Spaced(v.starts, v.waits)
  {
    var s, h := ScheduleOf(door), HooksOf(door, env);
    var name := (n: nat) => NamedWait(door, env, n);
    ScheduleExactly(door);
    HooksAreRegular(door, env);
    DoorNamesWaits(door, env, name);
    RunNamesWaits(s, env, h, name, InitialVars(start), 0, start, s.baseDelay);
    RunIsSpaced(s, env, h, InitialVars(start), 0, start, s.baseDelay);
    WaitsFollowTheProgression(door, env, start);
    var v := Run(door, env, start).0;
    forall k | 0 <= k < |v.waits| ensures v.waits[k].explicit == NamedWait(door, env, k) {
      assert v.waits[k].explicit == name(k);
    }
  }
}
