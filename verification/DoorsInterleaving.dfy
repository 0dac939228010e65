/** RoundTrip calls on one transport object, taking turns in any order. Each call is an object of
    its own, and what a turn may write says which objects it can disturb. */
module DoorsInterleaving {
  import opened Prelude
  import opened Messages
  import opened Backoff
  import opened Loop
  import opened LoopInterleaving
  import opened Doors

  /** One RoundTrip in progress, cut before each attempt so that other calls can run in between.
      Each turn reads the whole shared transport again, no less than the source does. */
  class Flight {
    const rt: RetryRoundTripper
    const req: Request
    const was: Req
    const call: Doors.Call
    const start: int
    const repeats: bool
    var n: nat
    var backoff: Int64
    var stop: Option<Stop>

    // The transport as it was at the start, its judgements, how the loop over them ends from any
    // state, and the run this call makes alone.
    ghost const settings: Transport
    ghost const h: Hooks
    ghost const rest: (Vars, nat, Int64) -> (Vars, Stop)
    ghost const alone: (Vars, Stop)

    constructor (rt: RetryRoundTripper, req: Request, env: Env, now: int)
      ensures this.rt == rt && this.req == req && was == req.Value() && start == now && settings == rt.Value()
      ensures fresh(call) && call.env == env
      ensures Founded() && Valid() && stop.None? && n == 0
    {
      var t, r := rt.Value(), req.Value();
      ghost var hooks := HooksOf(TransportDoor(t, r), env);
      this.rt, this.req, was, start := rt, req, r, now;
      repeats := CanRetry(t, r);
      call := new Doors.Call(env, None, now);
      n, backoff, stop := 0, TransportSchedule(t).baseDelay, None;
      settings, h := t, hooks;
      rest := (v: Vars, m: nat, b: Int64) => RunFrom(TransportSchedule(t), env, hooks, v, m, now, b);
      alone := Alone(t, r, env, hooks, now);
    }

    ghost predicate Founded() {
      && call.limit.None? && call.Plugs(TransportDoor(settings, was), h)
      && repeats == CanRetry(settings, was)
      && call.Rests(TransportSchedule(settings), h, start, rest)
      && alone == Alone(settings, was, call.env, h, start)
    }

    /** The loop, run on from here, ends as it would alone. */
    ghost predicate OnTheWay(s: Schedule, door: Door, m: nat, b: Int64)
      reads call, call.received, req, StreamOf(req)
    {
      call.Ready(door, req, m) && m < s.attempts && rest(call.View(), m, b) == alone
    }

    /** The run has ended as it would alone, with nothing open but what it hands back. */
    ghost predicate Landed(e: Stop)
      reads call, call.received
    {
      && (call.View(), e) == alone && call.Valid()
      && if e.Finished? || e.Exhausted? then call.HoldsOpen() else call.open == null
    }

    /** The transport is as it was, and the call is on its way to the run it makes alone, or there. */
    ghost predicate Valid()
      reads this, rt, call, call.received, req, StreamOf(req)
    {
      && rt.Value() == settings && call.result.None?
      && match stop
         case Some(e) => Landed(e)
         case None =>
           if repeats then OnTheWay(TransportSchedule(settings), TransportDoor(settings, was), n, backoff)
           else
             n == 0 && call.Valid() && call.open == null && call.View() == InitialVars(start) && Carries(req, was, 0)
    }

    /** The single send of a request that may not be repeated. */
    method Send()
      requires Founded() && Valid() && stop.None? && !repeats
      modifies this`stop, call, StreamOf(req)
      ensures Valid() && stop.Some?
    {
      call.SendOnce(req, 0);
      stop := Some(Finished);
    }

    /** The turn itself, over the schedule and the door just read off the transport. */
    method LoopTurn(s: Schedule, door: Door) returns (cut: Option<Stop>)
      requires call.Rests(s, h, start, rest) && door.TransportDoor? && call.Plugs(door, h) &&
                OnTheWay(s, door, n, backoff)
      modifies call, StreamOf(req)
      ensures call.result.None?
      ensures cut.Some? ==> Landed(cut.value)
      ensures cut.None? ==> OnTheWay(s, door, n + 1, SafeDouble(backoff))
    {
      cut := call.Turn(s, door, h, req, n, start, backoff, rest);
    }

    /** One turn of the loop, over the transport as it is now. */
    method Attempt()
      requires call.Rests(TransportSchedule(settings), h, start, rest)
      requires call.Plugs(TransportDoor(settings, was), h) && Valid() && stop.None? && repeats
      modifies this`stop, this`n, this`backoff, call, StreamOf(req)
      ensures Valid() && (stop.Some? || n == old(n) + 1)
    {
      var t := rt.Value();
      assert t == settings;
      var cut := LoopTurn(TransportSchedule(t), TransportDoor(t, was));
      if cut.Some? {
        stop := cut;
      } else {
        n, backoff := n + 1, SafeDouble(backoff);
      }
    }

    /** What the call does next, if anything. */
    method Turn()
      requires Founded() && Valid()
      modifies this, call, StreamOf(req)
      ensures Valid() && (stop.Some? || n == old(n) + 1) && (old(stop).Some? ==> stop == old(stop))
    {
      if stop.None? && repeats {
        Attempt();
      } else if stop.None? {
        Send();
      }
    }
  }

  /** The run a call makes alone. */
  ghost function Alone(rt: Transport, req: Req, env: Env, h: Hooks, start: int): (Vars, Stop) {
    if CanRetry(rt, req)
    then RunFrom(TransportSchedule(rt), env, h, InitialVars(start), 0, start, TransportSchedule(rt).baseDelay)
    else (SendOnce(env, InitialVars(start), 0, req.header, BodyOf(req)), Finished)
  }

  // ---- Many at once ----

  /** Calls on one transport that share nothing else: each has its own object, and no two read one
      request stream. They may well share a request without a body. */
  ghost predicate Independent(rt: RetryRoundTripper, fs: seq<Flight>)
    reads set f | f in fs :: f.req
  {
    && (forall f :: f in fs ==> f.rt == rt && f.Founded())
    && (forall i, j :: 0 <= i < j < |fs| ==>
          fs[i] != fs[j] && fs[i].call != fs[j].call && StreamOf(fs[i].req) !! StreamOf(fs[j].req))
  }

  ghost function Written(f: Flight): set<object>
    reads f.req
  {
    {f, f.call} + StreamOf(f.req)
  }

  /** Call i takes a turn. What the others hold, and all they rest on, stays as it was: not
      because they are values, but because no turn may write it. */
  method TakeTurn(rt: RetryRoundTripper, fs: seq<Flight>, i: nat)
    requires i < |fs| && Independent(rt, fs) && forall f :: f in fs ==> f.Valid()
    modifies Written(fs[i])
    ensures Independent(rt, fs) && (forall f :: f in fs ==> f.Valid())
    ensures forall j :: 0 <= j < |fs| && j != i ==>
              fs[j].call.View() == old(fs[j].call.View()) && fs[j].n == old(fs[j].n) && fs[j].stop == old(fs[j].stop)
    ensures forall j :: 0 <= j < |fs| ==>
              fs[j].stop.Some? || (old(fs[j].stop).None? && fs[j].n >= old(fs[j].n) + if j == i then 1 else 0)
  {
    fs[i].Turn();
    forall j | 0 <= j < |fs| && j != i ensures fs[j].Valid() && fs[j].call.View() == old(fs[j].call.View()) {
      Untouched(fs[j]);
    }
  }

  twostate lemma Untouched(f: Flight)
    requires old(f.Valid()) && unchanged(f, f.rt, f.call, f.req) && unchanged(StreamOf(f.req)) &&
              unchanged(f.call.received)
    ensures f.Valid() && f.call.View() == old(f.call.View())
  {
  }

  ghost function AllWritten(fs: seq<Flight>): set<object>
    reads set f | f in fs :: f.req
  {
    set f, o | f in fs && o in Written(f) :: o
  }

  lemma OneMoreTurn(order: seq<nat>, k: nat)
    requires k < |order|
    ensures forall i: nat :: Turns(order[..k + 1], i) == Turns(order[..k], i) + if order[k] == i then 1 else 0
  {
    assert order[..k + 1][..k] == order[..k];
  }

  /** Turns in any order. */
  method Play(rt: RetryRoundTripper, fs: seq<Flight>, order: seq<nat>)
    requires Independent(rt, fs) && forall f :: f in fs ==> f.Valid()
    modifies AllWritten(fs)
    ensures Independent(rt, fs) && forall f :: f in fs ==> f.Valid()
    ensures forall i :: 0 <= i < |fs| ==> fs[i].stop.Some? || fs[i].n >= old(fs[i].n) + Turns(order, i)
  {
    for k := 0 to |order|
      invariant Independent(rt, fs) && forall f :: f in fs ==> f.Valid()
      invariant forall i :: 0 <= i < |fs| ==> fs[i].stop.Some? || fs[i].n >= old(fs[i].n) + Turns(order[..k], i)
    {
      OneMoreTurn(order, k);
      if order[k] < |fs| {
        TakeTurn(rt, fs, order[k]);
      }
    }
    assert order[..|order|] == order;
  }

  /** A call that has landed did what its RoundTrip would have done alone, and every body it
      received is closed once but for the one it hands back. */
  ghost predicate DidAsAlone(rt: RetryRoundTripper, f: Flight)
    reads rt, f, f.call, f.call.received
  {
    && f.stop.Some?
    && var v := f.call.View();
       var returned := if f.stop.value.Finished? || f.stop.value.Exhausted? then f.call.resp else null;
       && (v, TripReturns(v, f.stop.value)) == RoundTripRun(rt.Value(), f.was, f.call.env, f.start)
       && forall b :: b in f.call.received ==>
            if returned != null && b == returned.body then b.Unread() else b.Settled(None)
  }

  lemma LandedDidAsAlone(rt: RetryRoundTripper, f: Flight)
    requires f.rt == rt && f.Founded() && f.Valid() && f.stop.Some?
    ensures DidAsAlone(rt, f)
  {
  }

  /** In every interleaving of calls on one transport, each call that gets as many turns as the
      transport has attempts has ended as it would have alone, and the transport, which is not in
      the frame, is as it was. */
  method RoundTripsInterleave(rt: RetryRoundTripper, fs: seq<Flight>, order: seq<nat>)
    requires Independent(rt, fs) && forall f :: f in fs ==> f.Valid()
    modifies AllWritten(fs)
    ensures unchanged(rt)
    ensures forall i :: 0 <= i < |fs| && Turns(order, i) >= TransportSchedule(rt.Value()).attempts ==>
              DidAsAlone(rt, fs[i])
  {
    Play(rt, fs, order);
    forall i | 0 <= i < |fs| && Turns(order, i) >= TransportSchedule(rt.Value()).attempts
      ensures DidAsAlone(rt, fs[i])
    {
      assert fs[i].Valid();
      LandedDidAsAlone(rt, fs[i]);
    }
  }
}
