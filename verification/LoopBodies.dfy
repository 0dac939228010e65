/** What every run does with requests and response bodies, however it ends. */
module LoopBodies {
  import opened Prelude
  import opened Bodies
  import opened Messages
  import opened Backoff
  import opened Loop

  // ---- What attempts and pauses keep, runs keep ----

  /** A fact about the held response and the events, by attempt number. */
  type Fact = (Option<nat>, seq<Event>, nat) -> bool

  ghost predicate AttemptsLead(h: Hooks, before: Fact, after: Fact) {
    forall v: Vars, n: nat {:trigger h.attempt(v, n)} :: before(v.held, v.events, n) ==>
      after(h.attempt(v, n).v.held, h.attempt(v, n).v.events, n)
  }

  ghost predicate PausesReturn(h: Hooks, before: Fact, after: Fact) {
    forall v: Vars, m: nat, wait: Int64 {:trigger h.pause(v, m, wait)} :: m > 0 && after(v.held, v.events, m - 1) ==>
      before(h.pause(v, m, wait).held, h.pause(v, m, wait).events, m)
  }

  /** If every attempt takes before to after, and every pause takes after back to before of the
      next attempt, then a run that finishes or is exhausted ends in after, and one that stops
      between attempts ends in before; k is the attempt it ends at. */
  lemma {:induction false} RunKeeps(s: Schedule, env: Env, h: Hooks, before: Fact, after: Fact,
      v: Vars, n: nat, start: int, backoff: Int64) returns (k: nat)
    requires AttemptsLead(h, before, after) && PausesReturn(h, before, after)
    requires before(v.held, v.events, n) && n < s.attempts
    ensures var (w, stop) := RunFrom(s, env, h, v, n, start, backoff);
            if stop.Finished? || stop.Exhausted? then after(w.held, w.events, k) else before(w.held, w.events, k)
    decreases s.attempts - n
  {
    var begun := Start(v);
    var j := h.attempt(begun, n);
    assert after(j.v.held, j.v.events, n);
    k := n;
    if !j.done && n < s.attempts - 1 {
      var wait := ResolveWait(j.wait, backoff, env.draw(n));
      var waiting := Wait(j.v, j.wait, wait);
      var p := h.pause(waiting, n + 1, wait);
      assert before(p.held, p.events, n + 1);
      k := n + 1;
      var (err, woken) := SleepCtx(env.ctx, p.now, wait, env.late(n), env.pickTimer(n));
      if !ElapsedExceeded(s.maxElapsed, wait, start, p.now) && err.None? {
        k := RunKeeps(s, env, h, before, after, p.(now := woken), n + 1, start, SafeDouble(backoff));
      }
    }
  }

  // ---- A custodian of response bodies ----

  /** Who holds what: no body is open and none numbered below next may still arrive; body n is
      open and unread; body n was read or discarded; or a rule was broken. */
  datatype Custody = Idle(next: nat) | Open(n: nat) | Emptied(n: nat) | Broken

  /** The only moves allowed: a request goes out while nothing is open; a body arrives at most
      once; an open body is emptied, then closed. */
  function Observe(c: Custody, e: Event): Custody {
    match e
    case Sent(n, _, _) => if c.Idle? && c.next <= n then Idle(n) else Broken
    case Received(n) => if c.Idle? && c.next <= n then Open(n) else Broken
    case Drained(n) => if c == Open(n) then Emptied(n) else Broken
    case Closed(n) => if c == Emptied(n) then Idle(n + 1) else Broken
  }

  function Watch(c: Custody, events: seq<Event>): Custody {
    if events == [] then c else Observe(Watch(c, events[..|events| - 1]), events[|events| - 1])
  }

  lemma WatchOne(c: Custody, events: seq<Event>, e: Event)
    ensures Watch(c, events + [e]) == Observe(Watch(c, events), e)
  {
    assert (events + [e])[..|events|] == events;
  }

  lemma WatchTwo(c: Custody, events: seq<Event>, d: Event, e: Event)
    ensures Watch(c, events + [d, e]) == Observe(Observe(Watch(c, events), d), e)
  {
    WatchOne(c, events, d);
    WatchOne(c, events + [d], e);
    assert events + [d] + [e] == events + [d, e];
  }

  /** A record the custodian accepts counts every body at most once: each one received was
      emptied and closed exactly once, except the one still open. */
  lemma {:induction false} WatchedBodiesAreCounted(events: seq<Event>, n: nat)
    requires Watch(Idle(0), events) != Broken
    ensures var c := Watch(Idle(0), events);
            var count := multiset(events);
            && count[Received(n)] <= 1
            && count[Drained(n)] == count[Received(n)] - (if c == Open(n) then 1 else 0)
            && count[Closed(n)] == count[Received(n)] - (if c == Open(n) || c == Emptied(n) then 1 else 0)
            && (c.Idle? && c.next <= n ==> count[Received(n)] == 0)
            && ((c.Open? || c.Emptied?) && c.n < n ==> count[Received(n)] == 0)
            && (c == Open(n) || c == Emptied(n) ==> count[Received(n)] == 1)
  {
    if events != [] {
      var k := |events| - 1;
      WatchedBodiesAreCounted(events[..k], n);
      assert events == events[..k] + [events[k]];
    }
  }

  // ---- The transport ----

  /** The call holds body n open, or the response it holds has none and nothing is open. */
  predicate HoldsOnlyItsOwn(env: Env, held: Option<nat>, events: seq<Event>, n: nat) {
    var c := Watch(Idle(0), events);
    if HasBody(ResponseOf(env, held)) then held == Some(n) && c == Open(n) else c.Idle? && c.next <= n + 1
  }

  predicate HoldsNothing(events: seq<Event>, n: nat) {
    var c := Watch(Idle(0), events);
    c.Idle? && c.next <= n
  }

  lemma DrainLeavesNothing(env: Env, v: Vars, n: nat)
    requires HoldsOnlyItsOwn(env, v.held, v.events, n)
    ensures HoldsNothing(DrainHeld(env, v).events, n + 1)
  {
    if HasBody(ResponseOf(env, v.held)) {
      WatchTwo(Idle(0), v.events, Drained(n), Closed(n));
    }
  }

  lemma SendHolds(env: Env, v: Vars, n: nat, header: Header, body: seq<Byte>)
    requires HoldsNothing(v.events, n)
    ensures var w := SendOnce(env, v, n, header, body); HoldsOnlyItsOwn(env, w.held, w.events, n)
  {
    WatchOne(Idle(0), v.events, Sent(n, header, body));
    WatchTwo(Idle(0), v.events, Sent(n, header, body), Received(n));
    assert v.events + [Sent(n, header, body)] + [Received(n)] == v.events + [Sent(n, header, body), Received(n)];
    assert v.events + [Sent(n, header, body)] + [] == v.events + [Sent(n, header, body)];
  }

  lemma TransportAttemptHolds(rt: Transport, req: Req, env: Env, v: Vars, n: nat)
    requires HoldsNothing(v.events, n)
    ensures var w := TransportAttempt(rt, req, env, v, n).v; HoldsOnlyItsOwn(env, w.held, w.events, n)
  {
    match BuildAttempt(rt, req, env, n)
    case Err(_) =>
    case Ok((header, body)) =>
      SendHolds(env, v, n, header, body);
      var sent := SendOnce(env, v, n, header, body);
      DrainLeavesNothing(env, sent.(now := sent.now + env.settle(n)), n);
  }

  /** The response handed back, if it has a body, is the one open; nothing else is. */
  predicate OnlyTheReturnedIsOpen(env: Env, held: Option<nat>, events: seq<Event>) {
    var c := Watch(Idle(0), events);
    if HasBody(ResponseOf(env, held)) then c == Open(held.value) else c.Idle?
  }

  function Clear(): Fact {
    (held: Option<nat>, events: seq<Event>, n: nat) => HoldsNothing(events, n)
  }

  function Owning(env: Env): Fact {
    (held: Option<nat>, events: seq<Event>, n: nat) => HoldsOnlyItsOwn(env, held, events, n)
  }

  lemma AttemptsOwn(rt: Transport, req: Req, env: Env, h: Hooks)
    requires h.attempt == ((v: Vars, n: nat) => TransportAttempt(rt, req, env, v, n))
    ensures AttemptsLead(h, Clear(), Owning(env))
  {
    forall v: Vars, n: nat | Clear()(v.held, v.events, n)
      ensures Owning(env)(h.attempt(v, n).v.held, h.attempt(v, n).v.events, n)
    {
      TransportAttemptHolds(rt, req, env, v, n);
    }
  }

  lemma PausesClear(env: Env, h: Hooks)
    requires h.pause == ((v: Vars, retry: nat, wait: Int64) => ReleaseRetry(env, v, retry))
    ensures PausesReturn(h, Clear(), Owning(env))
  {
    forall v: Vars, m: nat, wait: Int64 | m > 0 && Owning(env)(v.held, v.events, m - 1)
      ensures Clear()(h.pause(v, m, wait).held, h.pause(v, m, wait).events, m)
    {
      DrainLeavesNothing(env, v.(now := v.now + env.hook(m)), m - 1);
    }
  }

  lemma RunHolds(s: Schedule, env: Env, h: Hooks, start: int)
    requires s.attempts > 0 && AttemptsLead(h, Clear(), Owning(env)) && PausesReturn(h, Clear(), Owning(env))
    ensures var (v, stop) := RunFrom(s, env, h, InitialVars(start), 0, start, s.baseDelay);
            OnlyTheReturnedIsOpen(env, if stop.Finished? || stop.Exhausted? then v.held else None, v.events)
  {
    var k := RunKeeps(s, env, h, Clear(), Owning(env), InitialVars(start), 0, start, s.baseDelay);
    var (v, stop) := RunFrom(s, env, h, InitialVars(start), 0, start, s.baseDelay);
    assert if stop.Finished? || stop.Exhausted? then Owning(env)(v.held, v.events, k) else Clear()(v.held, v.events, k);
    assert
      if stop.Finished? || stop.Exhausted? then HoldsOnlyItsOwn(env, v.held, v.events, k)
      else HoldsNothing(v.events, k);
  }

  lemma TransportRunHolds(rt: Transport, req: Req, env: Env, start: int)
    ensures var (v, stop) := Run(TransportDoor(rt, req), env, start);
            OnlyTheReturnedIsOpen(env, if stop.Finished? || stop.Exhausted? then v.held else None, v.events)
  {
    var h := HooksOf(TransportDoor(rt, req), env);
    AttemptsOwn(rt, req, env, h);
    PausesClear(env, h);
    RunHolds(TransportSchedule(rt), env, h, start);
  }

  /** In every run of RoundTrip, however it ends, at most one response body is open at any
      moment and none while a request goes out; at the end every body received has been drained
      and closed exactly once, except the single one handed back, which is open and untouched. */
  lemma BodiesAreSettled(rt: Transport, req: Req, env: Env, start: int)
    ensures var (v, trip) := RoundTripRun(rt, req, env, start);
            OnlyTheReturnedIsOpen(env, trip.held, v.events)
  {
    if CanRetry(rt, req) {
      TransportRunHolds(rt, req, env, start);
    } else {
      SendHolds(env, InitialVars(start), 0, req.header, BodyOf(req));
    }
  }

  /** The same, body by body: received at most once, and drained and closed exactly as often as
      received, but for the one handed back, which is neither. */
  lemma EachBodyIsClosedOnceOrReturned(rt: Transport, req: Req, env: Env, start: int, n: nat)
    ensures var (v, trip) := RoundTripRun(rt, req, env, start);
            var count := multiset(v.events);
            var returned := if trip.held == Some(n) && HasBody(ResponseOf(env, trip.held)) then 1 else 0;
            && count[Received(n)] <= 1
            && count[Drained(n)] == count[Closed(n)]
            && count[Closed(n)] + returned == count[Received(n)]
            && (returned == 1 ==> count[Received(n)] == 1)
  {
    BodiesAreSettled(rt, req, env, start);
    WatchedBodiesAreCounted(RoundTripRun(rt, req, env, start).0.events, n);
  }

  // ---- GetBytes ----

  lemma OneResponseIsSettled(events: seq<Event>, n: nat, header: Header)
    requires Watch(Idle(0), events).Idle? && Watch(Idle(0), events).next <= n
    ensures Watch(Idle(0), events + [Sent(n, header, [])]) == Idle(n)
    ensures Watch(Idle(0), events + [Sent(n, header, [])] + [Received(n)] + [Drained(n), Closed(n)]) == Idle(n + 1)
  {
    var sent := events + [Sent(n, header, [])];
    WatchOne(Idle(0), events, Sent(n, header, []));
    WatchOne(Idle(0), sent, Received(n));
    WatchTwo(Idle(0), sent + [Received(n)], Drained(n), Closed(n));
  }

  lemma GetAttemptHoldsNothing(cfg: GetConfig, env: Env, v: Vars, n: nat)
    requires HoldsNothing(v.events, n)
    ensures HoldsNothing(GetAttempt(cfg, env, v, n).v.events, n + 1)
  {
    OneResponseIsSettled(v.events, n, cfg.header);
    var sent := v.events + [Sent(n, cfg.header, [])];
    var after := GetAttempt(cfg, env, v, n).v.events;
    assert after == v.events || after == sent || after == sent + [Received(n)] + [Drained(n), Closed(n)];
  }

  /** GetBytes leaves no body open, however it ends. */
  lemma GetBytesLeavesNothingOpen(cfg: GetConfig, env: Env, start: int)
    requires NormalGet(cfg)
    ensures Watch(Idle(0), Run(GetDoor(cfg), env, start).0.events).Idle?
  {
    var h := HooksOf(GetDoor(cfg), env);
    var before: Fact := (held: Option<nat>, events: seq<Event>, n: nat) => HoldsNothing(events, n);
    var after: Fact := (held: Option<nat>, events: seq<Event>, n: nat) => HoldsNothing(events, n + 1);
    forall v: Vars, n: nat | before(v.held, v.events, n)
      ensures after(h.attempt(v, n).v.held, h.attempt(v, n).v.events, n)
    {
      GetAttemptHoldsNothing(cfg, env, v, n);
    }
    var s := ScheduleOf(GetDoor(cfg));
    var k := RunKeeps(s, env, h, before, after, InitialVars(start), 0, start, s.baseDelay);
  }

  // ---- Replay isolation ----

  /** The first request as the caller gave it; each other with the body GetBody gave it alone, and
      the original header with at most one PrepareRetry applied, never one on top of another. */
  ghost predicate IsBuiltAfresh(rt: Transport, req: Req, e: Event) {
    e.Sent? ==>
      && (if e.n > 0 && req.getBody.Some? then req.getBody.value(e.n) == Ok(e.body)
          else e.body == if req.body.Some? then req.body.value else [])
      && (if e.n > 0 && rt.prepare.Some? then rt.prepare.value(e.n, req.header) == Ok(e.header)
          else e.header == req.header)
  }

  ghost predicate AllBuiltAfresh(rt: Transport, req: Req, events: seq<Event>) {
    forall e :: e in events ==> IsBuiltAfresh(rt, req, e)
  }

  lemma DrainKeepsRequests(rt: Transport, req: Req, env: Env, v: Vars)
    requires AllBuiltAfresh(rt, req, v.events)
    ensures AllBuiltAfresh(rt, req, DrainHeld(env, v).events)
  {
  }

  lemma TransportAttemptBuilds(rt: Transport, req: Req, env: Env, v: Vars, n: nat)
    requires CanRetry(rt, req) && AllBuiltAfresh(rt, req, v.events)
    ensures AllBuiltAfresh(rt, req, TransportAttempt(rt, req, env, v, n).v.events)
  {
    match BuildAttempt(rt, req, env, n)
    case Err(_) =>
    case Ok((header, body)) =>
      assert IsBuiltAfresh(rt, req, Sent(n, header, body));
      var sent := SendOnce(env, v, n, header, body);
      DrainKeepsRequests(rt, req, env, sent.(now := sent.now + env.settle(n)));
  }

  lemma EveryRequestIsBuiltAfresh(rt: Transport, req: Req, env: Env, start: int)
    ensures AllBuiltAfresh(rt, req, RoundTripRun(rt, req, env, start).0.events)
  {
    if CanRetry(rt, req) {
      var h := HooksOf(TransportDoor(rt, req), env);
      var fact: Fact := (held: Option<nat>, events: seq<Event>, n: nat) => AllBuiltAfresh(rt, req, events);
      forall v: Vars, n: nat | fact(v.held, v.events, n)
        ensures fact(h.attempt(v, n).v.held, h.attempt(v, n).v.events, n)
      {
        TransportAttemptBuilds(rt, req, env, v, n);
      }
      forall v: Vars, m: nat, wait: Int64 | m > 0 && fact(v.held, v.events, m - 1)
        ensures fact(h.pause(v, m, wait).held, h.pause(v, m, wait).events, m)
      {
        DrainKeepsRequests(rt, req, env, v.(now := v.now + env.hook(m)));
      }
      var s := TransportSchedule(rt);
      var k := RunKeeps(s, env, h, fact, fact, InitialVars(start), 0, start, s.baseDelay);
    }
  }

  /** GetBody, when it succeeds, gives the original body again. */
  ghost predicate Faithful(req: Req) {
    req.getBody.Some? ==> forall n: nat :: req.getBody.value(n).Ok? ==> req.getBody.value(n).value == BodyOf(req)
  }

  /** The whole original body, and the original header with at most one PrepareRetry applied. */
  ghost predicate IsReplay(rt: Transport, req: Req, e: Event) {
    e.Sent? ==>
      e.body == (if req.body.Some? then req.body.value else []) &&
      if e.n == 0 || rt.prepare.None? then e.header == req.header else rt.prepare.value(e.n, req.header) == Ok(e.header)
  }

  ghost predicate AllReplays(rt: Transport, req: Req, events: seq<Event>) {
    forall e :: e in events ==> IsReplay(rt, req, e)
  }

  /** Every request RoundTrip sends is built from the caller's, never from an earlier one; so with a
      GetBody that gives the original body it carries the whole of it. */
  lemma EveryRequestIsAReplay(rt: Transport, req: Req, env: Env, start: int)
    ensures AllBuiltAfresh(rt, req, RoundTripRun(rt, req, env, start).0.events)
    ensures Faithful(req) ==> AllReplays(rt, req, RoundTripRun(rt, req, env, start).0.events)
  {
    EveryRequestIsBuiltAfresh(rt, req, env, start);
    if Faithful(req) {
      forall e | e in RoundTripRun(rt, req, env, start).0.events ensures IsReplay(rt, req, e) {
        assert IsBuiltAfresh(rt, req, e);
      }
    }
  }

  /** Every body that came with the response to a request is on the record as received. */
  ghost predicate BodiesArrive(env: Env, events: seq<Event>) {
    forall e :: e in events && e.Sent? ==>
      match env.outcome(e.n).response
      case Some(r) => r.body.Some? ==> Received(e.n) in events
      case None => true
  }

  lemma TransportAttemptReceives(rt: Transport, req: Req, env: Env, v: Vars, n: nat)
    requires BodiesArrive(env, v.events)
    ensures BodiesArrive(env, TransportAttempt(rt, req, env, v, n).v.events)
  {
    match BuildAttempt(rt, req, env, n)
    case Err(_) =>
    case Ok((header, body)) =>
      SendReceives(env, v, n, header, body);
      var sent := SendOnce(env, v, n, header, body);
      DrainKeepsBodies(env, sent.(now := sent.now + env.settle(n)));
  }

  lemma SendReceives(env: Env, v: Vars, n: nat, header: Header, body: seq<Byte>)
    requires BodiesArrive(env, v.events)
    ensures BodiesArrive(env, SendOnce(env, v, n, header, body).events)
  {
    var events := SendOnce(env, v, n, header, body).events;
    var arrived := if HasBody(env.outcome(n).response) then [Received(n)] else [];
    assert events == v.events + [Sent(n, header, body)] + arrived;
    assert forall e :: e in v.events ==> e in events;
  }

  lemma DrainKeepsBodies(env: Env, v: Vars)
    requires BodiesArrive(env, v.events)
    ensures BodiesArrive(env, DrainHeld(env, v).events)
  {
    assert forall e :: e in v.events ==> e in DrainHeld(env, v).events;
  }

  lemma EveryBodyIsReceived(rt: Transport, req: Req, env: Env, start: int)
    ensures BodiesArrive(env, RoundTripRun(rt, req, env, start).0.events)
  {
    if CanRetry(rt, req) {
      var h := HooksOf(TransportDoor(rt, req), env);
      var fact: Fact := (held: Option<nat>, events: seq<Event>, n: nat) => BodiesArrive(env, events);
      forall v: Vars, n: nat | fact(v.held, v.events, n)
        ensures fact(h.attempt(v, n).v.held, h.attempt(v, n).v.events, n)
      {
        TransportAttemptReceives(rt, req, env, v, n);
      }
      forall v: Vars, m: nat, wait: Int64 | m > 0 && fact(v.held, v.events, m - 1)
        ensures fact(h.pause(v, m, wait).held, h.pause(v, m, wait).events, m)
      {
        DrainKeepsBodies(env, v.(now := v.now + env.hook(m)));
      }
      var s := TransportSchedule(rt);
      var k := RunKeeps(s, env, h, fact, fact, InitialVars(start), 0, start, s.baseDelay);
    } else {
      SendReceives(env, InitialVars(start), 0, req.header, BodyOf(req));
    }
  }

  /** Every GET of GetBytes goes out with the header it was configured with and no body. */
  ghost predicate AllPlainGets(cfg: GetConfig, events: seq<Event>) {
    forall e :: e in events && e.Sent? ==> e.header == cfg.header && e.body == []
  }

  ghost predicate RepliesArrive(env: Env, events: seq<Event>) {
    forall e :: e in events && e.Sent? && env.outcome(e.n).error.None? ==>
      match env.outcome(e.n).response
      case Some(r) => r.body.Some? ==> Received(e.n) in events
      case None => true
  }

  lemma GetAttemptReceives(cfg: GetConfig, env: Env, v: Vars, n: nat)
    requires RepliesArrive(env, v.events)
    ensures RepliesArrive(env, GetAttempt(cfg, env, v, n).v.events)
  {
    var sent := v.events + [Sent(n, cfg.header, [])];
    var after := GetAttempt(cfg, env, v, n).v.events;
    assert after == v.events || after == sent || after == sent + [Received(n)] + [Drained(n), Closed(n)];
    assert forall e :: e in v.events ==> e in after;
    assert after == sent + [Received(n)] + [Drained(n), Closed(n)] ==> Received(n) in after;
  }

  lemma GetAttemptIsPlain(cfg: GetConfig, env: Env, v: Vars, n: nat)
    requires AllPlainGets(cfg, v.events)
    ensures AllPlainGets(cfg, GetAttempt(cfg, env, v, n).v.events)
  {
  }

  lemma EveryGetIsPlain(cfg: GetConfig, env: Env, start: int)
    requires NormalGet(cfg)
    ensures AllPlainGets(cfg, Run(GetDoor(cfg), env, start).0.events)
    ensures RepliesArrive(env, Run(GetDoor(cfg), env, start).0.events)
  {
    var h := HooksOf(GetDoor(cfg), env);
    var fact: Fact :=
      (held: Option<nat>, events: seq<Event>, n: nat) => AllPlainGets(cfg, events) && RepliesArrive(env, events);
    forall v: Vars, n: nat | fact(v.held, v.events, n)
      ensures fact(h.attempt(v, n).v.held, h.attempt(v, n).v.events, n)
    {
      GetAttemptIsPlain(cfg, env, v, n);
      GetAttemptReceives(cfg, env, v, n);
    }
    var s := ScheduleOf(GetDoor(cfg));
    var k := RunKeeps(s, env, h, fact, fact, InitialVars(start), 0, start, s.baseDelay);
  }

  predicate IsTail(tail: seq<Byte>, whole: seq<Byte>) {
    |tail| <= |whole| && tail == whole[|whole| - |tail|..]
  }

  /** What an earlier attempt leaves of the body is what it did not read of it. */
  ghost predicate LeavesTails(env: Env, req: Req) {
    forall n: nat :: IsTail(env.leftover(n), BodyOf(req))
  }

  ghost predicate RebuildsWhole(rt: Transport, req: Req, env: Env, n: nat) {
    BuildAttempt(rt, req, env, n).Ok? ==> BuildAttempt(rt, req, env, n).value.1 == BodyOf(req)
  }

  /** PrepareRetry, if there is one, lets retry n go out. */
  predicate Prepares(rt: Transport, req: Req, n: nat) {
    rt.prepare.Some? ==> rt.prepare.value(n, req.header).Ok?
  }

  /** The guard of CanRetry on bodies is exactly what replay needs: every retry a transport sends
      carries the whole body, whatever earlier attempts read, if and only if the request has no
      body, one that GetBody rewinds, or one without bytes, or PrepareRetry lets no retry go out.
      Any other goes out short once a byte was read. */
  lemma RewindIsNeeded(rt: Transport, req: Req)
    requires Faithful(req)
    ensures (forall env: Env, n: nat :: n > 0 && LeavesTails(env, req) ==> RebuildsWhole(rt, req, env, n)) <==>
            req.body.None? || req.getBody.Some? || BodyOf(req) == [] || forall n: nat :: n > 0 ==> !Prepares(rt, req, n)
  {
    if req.body.None? || req.getBody.Some? || BodyOf(req) == [] {
      forall env: Env, n: nat | n > 0 && LeavesTails(env, req) ensures RebuildsWhole(rt, req, env, n) {
        assert IsTail(env.leftover(n), BodyOf(req));
      }
    } else if n: nat :| n > 0 && Prepares(rt, req, n) {
      ReadBodiesAreLost(rt, req, ReadAllWorld(), n);
    } else {
      forall env: Env, n: nat | n > 0 ensures RebuildsWhole(rt, req, env, n) {
        assert !Prepares(rt, req, n);
      }
    }
  }

  lemma ReadBodiesAreLost(rt: Transport, req: Req, env: Env, n: nat)
    requires n > 0 && Prepares(rt, req, n) && req.body.Some? && req.getBody.None? && BodyOf(req) != []
    requires forall i: nat :: env.leftover(i) == []
    ensures LeavesTails(env, req) && !RebuildsWhole(rt, req, env, n)
  {
    assert BuildAttempt(rt, req, env, n).Ok? && BuildAttempt(rt, req, env, n).value.1 == env.leftover(n);
  }

  /** A world in which every attempt reads its body to the end. */
  ghost function ReadAllWorld(): (env: Env)
    ensures forall n: nat :: env.leftover(n) == []
  {
    Env(Context(None, false), n => Outcome(None, None), n => 0, n => 0, n => 0, n => 0, n => 0, n => 0, n => 0,
        n => true, n => [])
  }
}
