/** Many calls on one transport, their steps interleaved in any order. */
module LoopInterleaving {
  import opened Prelude
  import opened Messages
  import opened Backoff
  import opened Loop

  /** Where one call is: about to send a request that may not be repeated, or to make attempt n;
      past a failed attempt with its explicit wait; past the pause hook with the wait resolved; or done. */
  datatype Phase = Once | Ready | Failed(explicit: Int64) | Paused(wait: Int64) | Halted(stop: Stop)

  /** One RoundTrip in progress: its own request, outcomes, variables and backoff. */
  datatype InFlight = InFlight(req: Req, env: Env, start: int, v: Vars, n: nat, backoff: Int64, phase: Phase)

  function Begin(rt: Transport, req: Req, env: Env, start: int): InFlight {
    var phase := if CanRetry(rt, req) then Ready else Once;
    InFlight(req, env, start, InitialVars(start), 0, TransportSchedule(rt).baseDelay, phase)
  }

  /** How a call on a transport sends a request once, judges its attempts and pauses between
      them. */
  datatype Wires = Wires(once: Vars -> Vars, hooks: Hooks)

  type Wiring = (Transport, Req, Env) -> Wires

  function RoundTripWiring(): Wiring {
    (rt: Transport, req: Req, env: Env) =>
      Wires((v: Vars) => SendOnce(env, v, 0, req.header, BodyOf(req)), HooksOf(TransportDoor(rt, req), env))
  }

  /** One step of a call on transport rt: the single send, the attempt, the pause hook, or the
      sleep. A step sees the transport and may leave another one behind. */
  function Step(wire: Wiring, rt: Transport, c: InFlight): (Transport, InFlight) {
    var s, h := TransportSchedule(rt), wire(rt, c.req, c.env).hooks;
    match c.phase
    case Halted(_) => (rt, c)
    case Once => (rt, c.(v := wire(rt, c.req, c.env).once(c.v), phase := Halted(Finished)))
    case Ready =>
      if c.n >= s.attempts then (rt, c.(phase := Halted(Exhausted)))
      else
        var j := h.attempt(Start(c.v), c.n);
        (rt, c.(v := j.v,
                phase := if j.done then Halted(Finished)
                         else if c.n == s.attempts - 1 then Halted(Exhausted)
                         else Failed(j.wait)))
    case Failed(explicit) =>
      var wait := ResolveWait(explicit, c.backoff, c.env.draw(c.n));
      var p := h.pause(Wait(c.v, explicit, wait), c.n + 1, wait);
      (rt, c.(v := p,
              phase := if ElapsedExceeded(s.maxElapsed, wait, c.start, p.now) then Halted(OverBudget)
                       else Paused(wait)))
    case Paused(wait) =>
      var (err, woken) := SleepCtx(c.env.ctx, c.v.now, wait, c.env.late(c.n), c.env.pickTimer(c.n));
      var w := c.v.(now := woken);
      (rt, if err.Some? then c.(v := w, phase := Halted(Interrupted(err.value)))
           else c.(v := w, n := c.n + 1, backoff := SafeDouble(c.backoff), phase := Ready))
  }

  type Stepper = (Transport, InFlight) -> (Transport, InFlight)

  function StepperOf(wire: Wiring): Stepper {
    (rt: Transport, c: InFlight) => Step(wire, rt, c)
  }

  /** k steps of one call in a row. */
  function Repeat(step: Stepper, rt: Transport, c: InFlight, k: nat): InFlight {
    if k == 0 then c else step(rt, Repeat(step, rt, c, k - 1)).1
  }

  // ---- A call's steps are its run ----

  /** How the loop would end a call from where it is. */
  function Rest(wire: Wiring, rt: Transport, c: InFlight): (Vars, Stop) {
    var s, h := TransportSchedule(rt), wire(rt, c.req, c.env).hooks;
    match c.phase
    case Halted(stop) => (c.v, stop)
    case Once => (wire(rt, c.req, c.env).once(c.v), Finished)
    case Ready => RunFrom(s, c.env, h, c.v, c.n, c.start, c.backoff)
    case Failed(explicit) =>
      var wait := ResolveWait(explicit, c.backoff, c.env.draw(c.n));
      var p := h.pause(Wait(c.v, explicit, wait), c.n + 1, wait);
      if ElapsedExceeded(s.maxElapsed, wait, c.start, p.now) then (p, OverBudget)
      else AfterPause(wire, rt, c.(v := p), wait)
    case Paused(wait) => AfterPause(wire, rt, c, wait)
  }

  function AfterPause(wire: Wiring, rt: Transport, c: InFlight, wait: Int64): (Vars, Stop) {
    var (err, woken) := SleepCtx(c.env.ctx, c.v.now, wait, c.env.late(c.n), c.env.pickTimer(c.n));
    var w := c.v.(now := woken);
    if err.Some? then (w, Interrupted(err.value))
    else RunFrom(TransportSchedule(rt), c.env, wire(rt, c.req, c.env).hooks, w, c.n + 1, c.start, SafeDouble(c.backoff))
  }

  lemma AttemptKeepsRest(wire: Wiring, rt: Transport, c: InFlight)
    requires c.phase == Ready
    ensures Rest(wire, rt, Step(wire, rt, c).1) == Rest(wire, rt, c)
  {
  }

  lemma PauseKeepsRest(wire: Wiring, rt: Transport, c: InFlight)
    requires c.phase.Failed? || c.phase.Halted? || c.phase.Once?
    ensures Rest(wire, rt, Step(wire, rt, c).1) == Rest(wire, rt, c)
  {
  }

  lemma SleepKeepsRest(wire: Wiring, rt: Transport, c: InFlight)
    requires c.phase.Paused?
    ensures Rest(wire, rt, Step(wire, rt, c).1) == Rest(wire, rt, c)
  {
  }

  lemma StepKeepsRest(wire: Wiring, rt: Transport, c: InFlight, d: InFlight)
    requires d == Step(wire, rt, c).1
    ensures Rest(wire, rt, d) == Rest(wire, rt, c)
  {
    match c.phase
    case Ready => AttemptKeepsRest(wire, rt, c);
    case Paused(_) => SleepKeepsRest(wire, rt, c);
    case _ => PauseKeepsRest(wire, rt, c);
  }

  lemma {:induction false} StepsKeepRest(wire: Wiring, rt: Transport, c: InFlight, k: nat)
    ensures Rest(wire, rt, Repeat(StepperOf(wire), rt, c, k)) == Rest(wire, rt, c)
  {
    if k > 0 {
      StepsKeepRest(wire, rt, c, k - 1);
      StepKeepsRest(wire, rt, Repeat(StepperOf(wire), rt, c, k - 1), Repeat(StepperOf(wire), rt, c, k));
    }
  }

  /** How many steps a call still has to take at most. */
  ghost function StepsLeft(rt: Transport, c: InFlight): nat {
    var attempts := TransportSchedule(rt).attempts;
    var left := if c.n < attempts then attempts - c.n else 0;
    match c.phase
    case Halted(_) => 0
    case Once => 1
    case Ready => 3 * left + 1
    case Failed(_) => 3 * left
    case Paused(_) => if 3 * left > 0 then 3 * left - 1 else 2
  }

  /** A call between attempts has attempts left. */
  ghost predicate InBudget(rt: Transport, c: InFlight) {
    c.phase.Failed? || c.phase.Paused? ==> c.n < TransportSchedule(rt).attempts - 1
  }

  lemma StepMakesProgress(wire: Wiring, rt: Transport, c: InFlight)
    requires InBudget(rt, c)
    ensures var d := Step(wire, rt, c).1;
            InBudget(rt, d) && (d.phase.Halted? || StepsLeft(rt, d) < StepsLeft(rt, c))
  {
  }

  lemma {:induction false} CallHalts(wire: Wiring, rt: Transport, c: InFlight, k: nat)
    requires InBudget(rt, c)
    ensures InBudget(rt, Repeat(StepperOf(wire), rt, c, k))
    ensures Repeat(StepperOf(wire), rt, c, k).phase.Halted? ||
              StepsLeft(rt, Repeat(StepperOf(wire), rt, c, k)) + k <= StepsLeft(rt, c)
  {
    if k > 0 {
      var step := StepperOf(wire);
      var d := Repeat(step, rt, c, k - 1);
      CallHalts(wire, rt, c, k - 1);
      StepMakesProgress(wire, rt, d);
      assert Repeat(step, rt, c, k) == step(rt, d).1 == Step(wire, rt, d).1;
    }
  }

  // ---- Calls interleaved ----

  /** One transport and the calls in flight on it. */
  datatype System = System(rt: Transport, calls: seq<InFlight>)

  /** Call i takes a step, on the transport as the steps before it left it. */
  function Move(step: Stepper, sys: System, i: nat): System {
    if i < |sys.calls|
    then
      var (rt, c) := step(sys.rt, sys.calls[i]);
      System(rt, sys.calls[i := c])
    else sys
  }

  /** Any schedule: the calls to step, in order. */
  function Play(step: Stepper, sys: System, order: seq<nat>): (r: System)
    ensures |r.calls| == |sys.calls|
  {
    if order == [] then sys else Move(step, Play(step, sys, order[..|order| - 1]), order[|order| - 1])
  }

  /** How often call i is stepped. */
  function Turns(order: seq<nat>, i: nat): nat {
    if order == [] then 0 else Turns(order[..|order| - 1], i) + (if order[|order| - 1] == i then 1 else 0)
  }

  /** When no step changes the transport, every interleaving projects, call by call, to the
      steps that call would take alone. */
  lemma {:induction false} InterleavingProjects(step: Stepper, sys: System, order: seq<nat>, i: nat)
    requires forall rt, c :: step(rt, c).0 == rt
    requires i < |sys.calls|
    ensures Play(step, sys, order).rt == sys.rt
    ensures Play(step, sys, order).calls[i] == Repeat(step, sys.rt, sys.calls[i], Turns(order, i))
  {
    if order != [] {
      InterleavingProjects(step, sys, order[..|order| - 1], i);
    }
  }

  /** Calls sharing a transport do not disturb one another: in every interleaving that gives a
      new call enough turns it has halted, and with exactly the record and the outcome its
      RoundTrip would have had alone, for a request that may be repeated and for one that may
      not. */
  lemma SharedTransportIsSafe(sys: System, order: seq<nat>, i: nat, req: Req, env: Env, start: int)
    requires i < |sys.calls| && sys.calls[i] == Begin(sys.rt, req, env, start)
    requires Turns(order, i) > 3 * TransportSchedule(sys.rt).attempts
    ensures Play(StepperOf(RoundTripWiring()), sys, order).rt == sys.rt
    ensures var c := Play(StepperOf(RoundTripWiring()), sys, order).calls[i];
            && c.phase.Halted?
            && (c.v, TripReturns(c.v, c.phase.stop)) == RoundTripRun(sys.rt, req, env, start)
  {
    WiredCallsAreSafe(RoundTripWiring(), sys, order, i, req, env, start);
  }

  lemma WiredCallsAreSafe(wire: Wiring, sys: System, order: seq<nat>, i: nat, req: Req, env: Env, start: int)
    requires i < |sys.calls| && sys.calls[i] == Begin(sys.rt, req, env, start)
    requires Turns(order, i) > 3 * TransportSchedule(sys.rt).attempts
    ensures Play(StepperOf(wire), sys, order).rt == sys.rt
    ensures var c, s, w := Play(StepperOf(wire), sys, order).calls[i], TransportSchedule(sys.rt),
              wire(sys.rt, req, env);
            && c.phase.Halted?
            && (c.v, c.phase.stop) ==
               if CanRetry(sys.rt, req) then RunFrom(s, env, w.hooks, InitialVars(start), 0, start, s.baseDelay)
               else (w.once(InitialVars(start)), Finished)
  {
    var c, k := sys.calls[i], Turns(order, i);
    InterleavingProjects(StepperOf(wire), sys, order, i);
    CallHalts(wire, sys.rt, c, k);
    StepsKeepRest(wire, sys.rt, c, k);
  }
}
