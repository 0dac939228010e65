/** The three doors as they run: one object per call holds the variables the loop's closures
    share, over request, stream and response-body objects. Each method computes what module Loop
    says, and the bodies themselves end up closed exactly once. */
module Doors {
  import opened Prelude
  import opened Errors
  import opened Verdicts
  import opened URLErrors
  import opened Bodies
  import opened Messages
  import opened RetryAfter
  import opened Backoff
  import opened Loop

  /** A request body being read by whoever sends it. */
  class Stream {
    var rest: seq<Byte>

    constructor (content: seq<Byte>)
      ensures rest == content
    {
      rest := content;
    }
  }

  /** An http.Request. */
  class Request {
    const verb: string
    var header: Header
    var body: Stream?
    const getBody: Option<nat -> Result<seq<Byte>, Error>>

    constructor (verb: string, header: Header, body: Stream?, getBody: Option<nat -> Result<seq<Byte>, Error>>)
      ensures this.verb == verb && this.header == header && this.body == body && this.getBody == getBody
    {
      this.verb, this.header, this.body, this.getBody := verb, header, body, getBody;
    }

    function Value(): Req
      reads this, body
    {
      Req(verb, header, if body == null then None else Some(body.rest), getBody)
    }
  }

  /** The response of attempt n. */
  class Reply {
    const n: nat
    const info: Response
    const body: Reader?

    constructor (n: nat, info: Response, body: Reader?)
      ensures this.n == n && this.info == info && this.body == body
    {
      this.n, this.info, this.body := n, info, body;
    }
  }

  function StreamOf(req: Request?): set<Stream>
    reads req
  {
    if req == null || req.body == null then {} else {req.body}
  }

  /** The bytes a request would send. */
  function Contents(req: Request): seq<Byte>
    reads req, req.body
  {
    if req.body == null then [] else req.body.rest
  }

  /** req is still the request the caller gave, whose value was was; before the first attempt
      its body is unread. */
  ghost predicate Carries(req: Request, was: Req, n: nat)
    reads req, req.body
  {
    && req.verb == was.verb && req.header == was.header && req.getBody == was.getBody
    && (req.body == null <==> was.body.None?)
    && (n == 0 && req.body != null ==> was.body == Some(req.body.rest))
  }

  class Call {
    const env: Env
    ghost const limit: Option<Int64>
    var now: int
    var resp: Reply?
    var result: Option<nat>
    var error: Option<Error>
    var retryAfter: Int64
    var data: seq<Byte>

    // The limit its bodies are read up to, if any; the record of the run, every body received in
    // it, and the one still open.
    ghost var starts: seq<int>
    ghost var waits: seq<Waited>
    ghost var events: seq<Event>
    ghost var looks: seq<Look>
    ghost var received: seq<Reader>
    ghost var open: Reader?

    constructor (env: Env, ghost limit: Option<Int64>, now: int)
      ensures this.env == env && this.limit == limit && this.now == now
      ensures Valid() && open == null && received == [] && View() == InitialVars(now)
    {
      this.env, this.limit, this.now := env, limit, now;
      resp, result, error, retryAfter, data := null, None, None, 0, [];
      starts, waits, events, looks, received, open := [], [], [], [], [], null;
    }

    ghost function View(): Vars
      reads this
    {
      Vars(now, if resp != null then Some(resp.n) else result, error, retryAfter, data, starts, waits, events, looks)
    }

    /** Every body received was drained or read and closed exactly once, except the open one, which
        is as it came. */
    ghost predicate Valid()
      reads this, received
    {
      && (forall b :: b in received ==> if b == open then b.Unread() else b.Settled(limit))
      && (open != null ==> open in received && resp != null && resp.body == open && resp.info.body == Some(open.whole))
      && (resp != null ==>
            env.outcome(resp.n).response == Some(resp.info) && (resp.body == null <==> resp.info.body.None?))
    }

    /** The held response has a body exactly when one is open. */
    ghost predicate HoldsOpen()
      reads this
    {
      open == if resp == null then null else resp.body
    }

    // ---- Shared steps ----

    /** SleepCtx: a timer, and a select that blocks until the timer or the context's end is
        ready, wakes late, and takes either branch if both are ready by then. */
    method Sleep(d: Int64, n: nat) returns (err: Option<Error>)
      requires Valid()
      modifies `now
      ensures Valid() && (err, now) == SleepCtx(env.ctx, old(now), d, env.late(n), env.pickTimer(n))
    {
      if d <= 0 {
        return None;
      }
      var fires := now + d;
      if !Over(env.ctx, now) {
        now := fires;
        if env.ctx.endsAt.Some? && env.ctx.endsAt.value < fires {
          now := env.ctx.endsAt.value;
        }
      }
      now := now + env.late(n);
      var timerReady, ended := now >= fires, Over(env.ctx, now);
      if timerReady && (!ended || env.pickTimer(n)) {
        return None;
      }
      return Some(EndOf(env.ctx));
    }

    /** drainResp: drains and closes the held response's body, if there is one. */
    method DrainResp()
      requires Valid() && HoldsOpen() && result.None?
      modifies this`events, this`open, open
      ensures Valid() && open == null && View() == DrainHeld(env, old(View()))
    {
      if resp != null && resp.body != null {
        DrainClose(resp.body);
        events := events + [Drained(resp.n), Closed(resp.n)];
        open := null;
      }
    }

    /** The response of attempt n arrives: a new object over the outcome, its body new too. */
    method Arrive(n: nat, info: Response) returns (r: Reply)
      requires Valid() && open == null && env.outcome(n).response == Some(info)
      modifies this`resp, this`received, this`open, this`events
      ensures Valid() && HoldsOpen() && resp == r && r.n == n && r.info == info
      ensures open != null ==> fresh(open)
      ensures received == old(received) + if open == null then [] else [open]
      ensures events == old(events) + if info.body.Some? then [Received(n)] else []
    {
      var reader: Reader? := null;
      if info.body.Some? {
        reader := new Reader(info.body.value);
        received := received + [reader];
        events := events + [Received(n)];
      }
      r := new Reply(n, info, reader);
      resp, open := r, reader;
    }

    // ---- Door 1: Do ----

    /** One call of fn under the per-attempt bound, marked when that bound seems to be what
        expired: the caller's context was live, and then the attempt's own was not. */
    method RunAttempt(cfg: DoConfig, n: nat) returns (err: Option<Error>, ghost marked: bool)
      requires Valid()
      modifies `now
      ensures Valid() && now == old(now) + env.took(n) + env.gap(n)
      ensures marked <==> Marks(cfg, env, n, old(now))
      ensures err == if marked then MarkAttemptTimeout(env.outcome(n).error) else env.outcome(n).error
    {
      var began := now;
      now := now + env.took(n);
      err := env.outcome(n).error;
      marked := false;
      var callerLive := !Over(env.ctx, now);
      now := now + env.gap(n);
      if cfg.attemptTimeout <= 0 || err.None? {
        return;
      }
      if !callerLive || !AttemptOver(cfg, env, n, began, now) || !Is(err.value, DeadlineExceeded) {
        return;
      }
      err, marked := MarkAttemptTimeout(err), true;
    }

    method CallBack(cfg: DoConfig, n: nat)
      requires Valid() && open == null && resp == null
      modifies this`now, this`result, this`error, this`events, this`looks
      ensures Valid() && View() == Called(cfg, env, old(View()), n)
    {
      ghost var was, marked := View(), false;
      error, marked := RunAttempt(cfg, n);
      ghost var look := Look(n, was.now, was.now + env.took(n), now, now + env.settle(n), marked);
      now, result := now + env.settle(n), Some(n);
      events, looks := events + [Sent(n, map[], [])], looks + [look];
      LookedAt(cfg, was, n, look, error, View());
    }

    /** Called, by the look it adds. */
    lemma LookedAt(cfg: DoConfig, v: Vars, n: nat, look: Look, err: Option<Error>, w: Vars)
      requires var returned := v.now + env.took(n);
               var reread := returned + env.gap(n);
               look == Look(n, v.now, returned, reread, reread + env.settle(n), Marks(cfg, env, n, v.now))
      requires err == if look.marked then MarkAttemptTimeout(env.outcome(n).error) else env.outcome(n).error
      requires w == v.(now := look.looked, held := Some(n), error := err, events := v.events + [Sent(n, map[], [])],
                       looks := v.looks + [look])
      ensures w == Called(cfg, env, v, n)
    {
    }

    method DoAttempt(cfg: DoConfig, n: nat) returns (done: bool, wait: Int64)
      requires Valid() && open == null && resp == null
      modifies this`now, this`result, this`error, this`events, this`looks
      ensures Valid() && Judgement(View(), done, wait) == Loop.DoAttempt(cfg, env, old(View()), n)
    {
      CallBack(cfg, n);
      if error.None? {
        return true, 0;
      }
      if cfg.mode != OnlyRateLimit && Over(env.ctx, now) {
        error := Some(EndOf(env.ctx));
        return true, 0;
      }
      var (retry, explicit) := Classify(cfg, error.value);
      return !retry, explicit;
    }

    // ---- Door 2: GetBytes ----

    /** A reply whose body is discarded and closed. */
    method DiscardReply(n: nat, info: Response)
      requires Valid() && open == null && resp == null && result.None? && env.outcome(n).response == Some(info)
      modifies this`resp, this`received, this`open, this`events
      ensures Valid() && open == null && resp == null && Grew(old(received))
      ensures View() == SettleBody(old(View()), n, info)
    {
      var r := Arrive(n, info);
      DrainResp();
      resp := null;
    }

    /** A reply whose body is read up to the limit and closed. */
    method ReadReply(n: nat, info: Response, limit: Int64) returns (read: Result<seq<Byte>, Error>)
      requires this.limit == Some(limit)
      requires Valid() && open == null && resp == null && result.None? && env.outcome(n).response == Some(info)
      modifies this`resp, this`received, this`open, this`events
      ensures Valid() && open == null && resp == null && Grew(old(received))
      ensures View() == SettleBody(old(View()), n, info) && read == Limited(ScriptOf(info), limit)
    {
      var r := Arrive(n, info);
      var body := r.body;
      if body == null {
        body := new Reader(ScriptOf(info));
      } else {
        events := events + [Drained(n), Closed(n)];
      }
      read := ReadLimitedBody(body, limit);
      resp, open := null, null;
    }

    /** Bodies were added to those received, new ones only. */
    twostate predicate Grew(before: seq<Reader>)
      reads this
    {
      before <= received && forall b :: b in received ==> b in before || fresh(b)
    }

    method TakeReply(cfg: GetConfig, n: nat, info: Response) returns (done: bool, wait: Int64)
      requires limit == Some(cfg.maxBodyBytes)
      requires Valid() && open == null && resp == null && result.None? && env.outcome(n).response == Some(info)
      modifies this`resp, this`received, this`open, this`events, this`error, this`retryAfter, this`data
      ensures Valid() && open == null && resp == null && Grew(old(received))
      ensures Judgement(View(), done, wait) == JudgeReply(cfg, old(View()), n, info)
    {
      if IsRetryableStatus(info.status) {
        retryAfter := RetryAfterOf(Some(info));
        DiscardReply(n, info);
        error := Some(StatusError(info.status));
        return false, retryAfter;
      }
      if CheckHTTPStatus(info.status, info.retryAfter, info.until).Some? {
        DiscardReply(n, info);
        error := Some(StatusError(info.status));
        return true, 0;
      }
      var read := ReadReply(n, info, cfg.maxBodyBytes);
      if read.Ok? {
        data := read.value;
      } else {
        error := Some(ReadFailure(read.error));
      }
      return true, 0;
    }

    method Ask(cfg: GetConfig, n: nat)
      requires Valid()
      modifies this`data, this`retryAfter, this`now, this`error, this`events
      ensures Valid() && View() == Asked(cfg, env, old(View()), n)
    {
      data, retryAfter, error := [], 0, ClientDo(env.outcome(n)).error;
      now, events := now + env.took(n), events + [Sent(n, cfg.header, [])];
    }

    method GetAttempt(cfg: GetConfig, n: nat) returns (done: bool, wait: Int64)
      requires limit == Some(cfg.maxBodyBytes) && Valid() && open == null && resp == null && result.None?
      modifies this
      ensures Valid() && open == null && resp == null && result.None? && Grew(old(received))
      ensures Judgement(View(), done, wait) == Loop.GetAttempt(cfg, env, old(View()), n)
    {
      if cfg.badRequest.Some? {
        data, retryAfter, error := [], 0, cfg.badRequest;
        return true, 0;
      }
      Ask(cfg, n);
      var o := ClientDo(env.outcome(n));
      if o.error.Some? {
        return !RetryableRoundTrip(o.response, o.error), 0;
      }
      done, wait := TakeReply(cfg, n, o.response.value);
    }

    // ---- Door 3: the transport ----

    /** Clones the caller's request; a retry rewinds the clone's body and prepares its header. */
    method BuildAttemptRequest(rt: Transport, req: Request, ghost was: Req, n: nat) returns (r: Result<Request, Error>)
      requires Carries(req, was, n) && CanRetry(rt, was)
      ensures match r
              case Ok(t) => fresh(t) && (t.body == null || t.body == req.body || fresh(t.body)) &&
                            BuildAttempt(rt, was, env, n) == Ok((t.header, Contents(t)))
              case Err(e) => BuildAttempt(rt, was, env, n) == Err(e)
    {
      var t := new Request(req.verb, req.header, req.body, req.getBody);
      if n == 0 {
        return Ok(t);
      }
      if req.getBody.Some? {
        var body := req.getBody.value(n);
        if body.Err? {
          return Err(Wrap(PLAIN, body.error));
        }
        t.body := new Stream(body.value);
      }
      if rt.prepare.Some? {
        var header := rt.prepare.value(n, t.header);
        if header.Err? {
          return Err(Wrap(PLAIN, header.error));
        }
        t.header := header.value;
      }
      return Ok(t);
    }

    /** The response of attempt n arrives, if there is one. */
    method Receive(n: nat)
      requires Valid() && open == null && resp == null && result.None?
      modifies this`resp, this`received, this`open, this`events
      ensures Valid() && HoldsOpen() && Grew(old(received))
      ensures open != null ==> fresh(open)
      ensures var r := env.outcome(n).response;
              View() == old(View()).(held := if r.Some? then Some(n) else None,
                                     events := old(events) + if HasBody(r) then [Received(n)] else [])
    {
      var o := env.outcome(n);
      if o.response.Some? {
        var r := Arrive(n, o.response.value);
      }
    }

    /** roundTripOnce: the base transport reads of the request's body what it likes. */
    method SendOnce(req: Request, n: nat)
      requires Valid() && open == null && result.None?
      modifies this, StreamOf(req)
      ensures Valid() && HoldsOpen() && result.None? && Grew(old(received))
      ensures open != null ==> fresh(open)
      ensures View() == Loop.SendOnce(env, old(View()), n, old(req.header), old(Contents(req)))
    {
      ghost var was, going := View(), Sent(n, req.header, Contents(req));
      now, error, resp := now + env.took(n), NameHangUpIn(env.outcome(n).error), null;
      events := events + [going];
      if req.body != null {
        req.body.rest := env.leftover(n + 1);
      }
      ghost var sent := View();
      Receive(n);
      SentAndReceived(was, n, going, sent, View());
    }

    /** SendOnce, by what goes out and what comes back. */
    lemma SentAndReceived(v: Vars, n: nat, going: Event, sent: Vars, w: Vars)
      requires going.Sent? && going.n == n
      requires sent == v.(now := v.now + env.took(n), held := None, error := NameHangUpIn(env.outcome(n).error),
                          events := v.events + [going])
      requires var r := env.outcome(n).response;
               w == sent.(held := if r.Some? then Some(n) else None,
                          events := sent.events + if HasBody(r) then [Received(n)] else [])
      ensures w == Loop.SendOnce(env, v, n, going.header, going.body)
    {
    }

    method JudgeTrip(rt: Transport, n: nat) returns (done: bool, wait: Int64)
      requires Valid() && HoldsOpen() && result.None?
      modifies this`resp, this`error, this`events, this`open, open
      ensures Valid() && HoldsOpen() && (open == null || open == old(open))
      ensures Judgement(View(), done, wait) == Loop.JudgeTrip(rt, env, old(View()), n)
    {
      var info := if resp == null then None else Some(resp.info);
      var (retry, checkErr) := PolicyVerdict(rt, n, info, error);
      if checkErr.Some? {
        DrainResp();
        resp, error := null, checkErr;
        return true, 0;
      }
      if !retry {
        return true, 0;
      }
      if Over(env.ctx, now) {
        DrainResp();
        resp, error := null, Some(EndOf(env.ctx));
        return true, 0;
      }
      return false, RetryAfterOf(info);
    }

    method Try(rt: Transport, req: Request, n: nat) returns (done: bool, wait: Int64)
      requires Valid() && open == null && result.None?
      modifies this, StreamOf(req)
      ensures Valid() && HoldsOpen() && result.None? && Grew(old(received))
      ensures open != null ==> fresh(open)
      ensures Judgement(View(), done, wait) == Loop.Try(rt, env, old(View()), n, old(req.header), old(Contents(req)))
    {
      SendOnce(req, n);
      ghost var sent := View();
      now := now + env.settle(n);
      assert View() == sent.(now := sent.now + env.settle(n));
      done, wait := JudgeTrip(rt, n);
    }

    method TransportAttempt(rt: Transport, req: Request, ghost was: Req, n: nat) returns (done: bool, wait: Int64)
      requires Valid() && open == null && result.None? && Carries(req, was, n) && CanRetry(rt, was)
      modifies this, StreamOf(req)
      ensures Valid() && HoldsOpen() && result.None? && Grew(old(received))
      ensures open != null ==> fresh(open)
      ensures Judgement(View(), done, wait) == Loop.TransportAttempt(rt, was, env, old(View()), n)
    {
      var built := BuildAttemptRequest(rt, req, was, n);
      if built.Err? {
        resp, error := null, Some(built.error);
        return true, 0;
      }
      done, wait := Try(rt, built.value, n);
    }

    // ---- The loop ----

    /** h is HooksOf(door, env), said so that methods that only pass the judgements on need not
        unfold them. */
    ghost predicate Plugs(door: Door, h: Hooks) {
      forall e: Env {:trigger HooksOf(door, e)} :: e == env ==> h == HooksOf(door, e)
    }

    /** Do alone holds a result, and the transport alone a response. */
    ghost predicate HoldsItsKind(door: Door)
      reads this
    {
      (door.DoDoor? || result.None?) && (door.TransportDoor? || resp == null)
    }

    /** An attempt of this door may begin: nothing is open, and the transport has the request. */
    ghost predicate Ready(door: Door, req: Request?, n: nat)
      reads this, received, req, StreamOf(req)
    {
      && Valid() && open == null && HoldsItsKind(door)
      && limit == (if door.GetDoor? then Some(door.get.maxBodyBytes) else None)
      && (door.TransportDoor? ==> CanRetry(door.rt, door.req) && req != null && Carries(req, door.req, n))
    }

    /** The judgement each door plugs into the loop. */
    method Attempt(door: Door, ghost h: Hooks, req: Request?, n: nat) returns (done: bool, wait: Int64)
      requires Plugs(door, h) && Ready(door, req, n)
      modifies this, StreamOf(req)
      ensures Valid() && HoldsOpen() && Grew(old(received)) && (open != null ==> fresh(open))
      ensures HoldsItsKind(door)
      ensures Judgement(View(), done, wait) == h.attempt(old(View()), n)
    {
      assert h == HooksOf(door, env);
      match door
      case DoDoor(cfg) => done, wait := DoAttempt(cfg, n);
      case GetDoor(cfg) => done, wait := GetAttempt(cfg, n);
      case TransportDoor(rt, was) => done, wait := TransportAttempt(rt, req, was, n);
    }

    /** The hook each door plugs in before a retry. */
    method Pause(door: Door, ghost h: Hooks, retry: nat, ghost wait: Int64)
      requires Plugs(door, h) && Valid() && HoldsOpen() && HoldsItsKind(door)
      modifies this`now, this`events, this`open, open
      ensures Valid() && open == null
      ensures View() == h.pause(old(View()), retry, wait)
    {
      assert h == HooksOf(door, env);
      now := now + env.hook(retry);
      if door.TransportDoor? {
        DrainResp();
      }
    }

    /** From a failed attempt to the next one, or to a stop. */
    method Between(s: Schedule, door: Door, ghost h: Hooks, explicit: Int64, n: nat, start: int, backoff: Int64)
      returns (stop: Option<Stop>)
      requires Plugs(door, h) && Valid() && HoldsOpen() && HoldsItsKind(door)
      modifies this`now, this`waits, this`events, this`open, open
      ensures Valid() && open == null
      ensures (View(), stop) == Loop.Between(s, env, h, old(View()), explicit, n, start, backoff)
    {
      var wait := ResolveWait(explicit, backoff, env.draw(n));
      waits := waits + [Waited(explicit, wait)];
      Pause(door, h, n + 1, wait);
      if ElapsedExceeded(s.maxElapsed, wait, start, now) {
        return Some(OverBudget);
      }
      var err := Sleep(wait, n);
      return if err.Some? then Some(Interrupted(err.value)) else None;
    }

    /** rest says how the loop ends from any state. */
    ghost predicate Rests(s: Schedule, h: Hooks, start: int, rest: (Vars, nat, Int64) -> (Vars, Stop)) {
      forall v: Vars, m: nat, b: Int64 {:trigger RunFrom(s, env, h, v, m, start, b)} ::
        RunFrom(s, env, h, v, m, start, b) == rest(v, m, b)
    }

    /** One turn of the loop: an attempt, and if it failed with attempts left, what comes before
        the next. */
    method Turn(s: Schedule, door: Door, ghost h: Hooks, req: Request?, n: nat, start: int, backoff: Int64,
        ghost rest: (Vars, nat, Int64) -> (Vars, Stop))
      returns (stop: Option<Stop>)
      requires Plugs(door, h) && Rests(s, h, start, rest) && n < s.attempts && Ready(door, req, n)
      modifies this, StreamOf(req)
      ensures Valid() && Grew(old(received)) && HoldsItsKind(door)
      ensures match stop
              case None => n + 1 < s.attempts && Ready(door, req, n + 1)
              case Some(e) => if e.Finished? || e.Exhausted? then HoldsOpen() else open == null
      ensures rest(old(View()), n, backoff)
           == if stop.Some? then (View(), stop.value) else rest(View(), n + 1, SafeDouble(backoff))
    {
      ghost var was := View();
      starts := starts + [now];
      var done, explicit := Attempt(door, h, req, n);
      ghost var j := Judgement(View(), done, explicit);
      if done {
        stop := Some(Finished);
      } else if n == s.attempts - 1 {
        stop := Some(Exhausted);
      } else {
        stop := Between(s, door, h, explicit, n, start, backoff);
      }
      TurnRests(s, h, was, n, start, backoff, rest, j, View(), stop);
    }

    /** Where a turn from v leads, by the judgement j on its attempt. */
    lemma TurnRests(s: Schedule, h: Hooks, v: Vars, n: nat, start: int, backoff: Int64,
        rest: (Vars, nat, Int64) -> (Vars, Stop), j: Judgement, w: Vars, stop: Option<Stop>)
      requires Rests(s, h, start, rest) && n < s.attempts && j == h.attempt(Start(v), n)
      requires (w, stop) ==
                 if j.done then (j.v, Some(Finished))
                 else if n == s.attempts - 1 then (j.v, Some(Exhausted))
                 else Loop.Between(s, env, h, j.v, j.wait, n, start, backoff)
      ensures rest(v, n, backoff) == if stop.Some? then (w, stop.value) else rest(w, n + 1, SafeDouble(backoff))
    {
      assert rest(v, n, backoff) == RunFrom(s, env, h, v, n, start, backoff);
      assert rest(w, n + 1, SafeDouble(backoff)) == RunFrom(s, env, h, w, n + 1, start, SafeDouble(backoff));
    }

    /** The loop from any state, as a function value. */
    lemma LoopFrom(s: Schedule, h: Hooks, start: int) returns (rest: (Vars, nat, Int64) -> (Vars, Stop))
      ensures Rests(s, h, start, rest)
      ensures forall v: Vars, m: nat, b: Int64 {:trigger rest(v, m, b)} ::
                m >= s.attempts ==> rest(v, m, b) == (v, Exhausted)
    {
      rest := (v: Vars, m: nat, b: Int64) => RunFrom(s, env, h, v, m, start, b);
    }

    /** schedule.run. */
    method Run(s: Schedule, door: Door, ghost h: Hooks, req: Request?) returns (stop: Stop)
      requires Plugs(door, h) && Ready(door, req, 0) && received == [] && resp == null
      modifies this, StreamOf(req)
      ensures Valid() && Grew([]) && HoldsItsKind(door)
      ensures if stop.Finished? || stop.Exhausted? then HoldsOpen() else open == null
      ensures (View(), stop) == RunFrom(s, env, h, old(View()), 0, old(now), s.baseDelay)
    {
      var start, backoff, n := now, s.baseDelay, 0;
      ghost var rest := LoopFrom(s, h, start);
      ghost var goal := rest(View(), 0, backoff);
      assert goal == RunFrom(s, env, h, View(), 0, start, backoff);
      while n < s.attempts
        invariant 0 <= n && Ready(door, req, n) && Grew([]) && (n < s.attempts || resp == null)
        invariant rest(View(), n, backoff) == goal
      {
        var cut := Turn(s, door, h, req, n, start, backoff, rest);
        if cut.Some? {
          return cut.value;
        }
        backoff, n := SafeDouble(backoff), n + 1;
      }
      return Exhausted;
    }
  }

  // ---- Do ----

  /** newLoopConfig: folds the options over the defaults, skipping nil ones, then normalises. */
  method NewLoopConfig(opts: seq<Option<DoOption>>) returns (cfg: DoConfig)
    ensures cfg == Normalize(FoldDo(opts)) && NormalDo(cfg)
  {
    cfg := DO_DEFAULTS;
    for i := 0 to |opts|
      invariant cfg == FoldDo(opts[..i])
    {
      assert opts[..i + 1][..i] == opts[..i];
      cfg := ApplyDo(cfg, opts[i]);
    }
    assert opts[..|opts|] == opts;
    cfg := Normalize(cfg);
  }

  /** Do, with the number of the attempt whose result it returns. */
  method Do(opts: seq<Option<DoOption>>, env: Env, now: int) returns (r: Result<nat, Error>, ghost call: Call)
    ensures fresh(call) && (call.View(), r) == DoRun(Normalize(FoldDo(opts)), env, now)
  {
    var cfg := NewLoopConfig(opts);
    var c := new Call(env, None, now);
    call := c;
    if cfg.conflict {
      return Err(CONFLICT), c;
    }
    var stop := c.Run(ScheduleOf(DoDoor(cfg)), DoDoor(cfg), HooksOf(DoDoor(cfg), env), null);
    var cut := StopError(stop);
    if cut.Some? {
      return Err(cut.value), c;
    }
    if c.error.None? {
      return Ok(if c.result.Some? then c.result.value else 0), c;
    }
    return Err(c.error.value), c;
  }

  // ---- GetBytes ----

  /** GetBytes leaves no body open: each one it received was drained, or read up to the limit and
      one byte more, and closed exactly once. */
  method GetBytes(cfg: GetConfig, env: Env, now: int) returns (r: GetReturn, ghost call: Call)
    requires NormalGet(cfg)
    ensures fresh(call) && forall b :: b in call.received ==> fresh(b) && b.Settled(Some(cfg.maxBodyBytes))
    ensures var (v, stop) := Loop.Run(GetDoor(cfg), env, now);
            call.View() == v && r == GetReturns(v, stop, if v.error.Some? then LogSafe(v.error.value) else ELAPSED)
  {
    var c := new Call(env, Some(cfg.maxBodyBytes), now);
    call := c;
    var stop := c.Run(ScheduleOf(GetDoor(cfg)), GetDoor(cfg), HooksOf(GetDoor(cfg), env), null);
    var cut := StopError(stop);
    if cut.Some? {
      return StoppedEarly(cut.value), c;
    }
    if c.error.None? {
      return Body(c.data), c;
    }
    var shown := LogSafeError(c.error);
    if !stop.Exhausted? {
      return NotRetried(shown.value), c;
    }
    var e := Wrap(PLAIN, shown.value);
    if c.retryAfter > 0 {
      e := RetryAfterErrorOver(e, c.retryAfter);
    }
    return RetriesExhausted(e), c;
  }

  // ---- The transport ----

  class RetryRoundTripper {
    var checkRetry: CheckRetry
    var prepareRetry: Option<(nat, Header) -> Result<Header, Error>>
    var maxAttempts: int
    var baseDelay: Int64
    var maxElapsedTime: Int64
    var retryNonIdempotent: bool

    function Value(): Transport
      reads this
    {
      Transport(checkRetry, prepareRetry, maxAttempts, baseDelay, maxElapsedTime, retryNonIdempotent)
    }

    /** Every body received is drained and closed once, except the one handed back, which is
        open and as it came. Nothing the caller owns changes but the request's stream, which is
        read: neither the request nor this transport is in the frame. */
    method RoundTrip(req: Request, env: Env, now: int) returns (resp: Reply?, err: Option<Error>, ghost call: Call)
      modifies StreamOf(req)
      ensures fresh(call) && unchanged(this, req)
      ensures (call.View(), Trip(if resp == null then None else Some(resp.n), err)) ==
                RoundTripRun(Value(), old(req.Value()), env, now)
      ensures forall b :: b in call.received ==>
                fresh(b) && if resp != null && b == resp.body then b.Unread() else b.Settled(None)
      ensures resp != null ==> env.outcome(resp.n).response == Some(resp.info)
      ensures resp != null && resp.body != null ==>
                resp.body in call.received && resp.info.body == Some(resp.body.whole)
    {
      var rt, was := Value(), req.Value();
      var c := new Call(env, None, now);
      call := c;
      if !CanRetry(rt, was) {
        c.SendOnce(req, 0);
        return c.resp, c.error, c;
      }
      var door := TransportDoor(rt, was);
      var stop := c.Run(TransportSchedule(rt), door, HooksOf(door, env), req);
      match stop
      case OverBudget => return null, Some(if c.error.Some? then Wrap(PLAIN, c.error.value) else ELAPSED), c;
      case Interrupted(e) => return null, Some(e), c;
      case _ => return c.resp, c.error, c;
    }
  }
}
