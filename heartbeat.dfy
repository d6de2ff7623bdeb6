/** The NapCat heartbeat (index.js:339-382, with the `pong` and `message`
    handlers at index.js:715-722): every 30 s, while the socket is open, the
    bridge pings and forces a reconnect when no pong came for more than
    90 s or no frame at all for more than 5 minutes. The clock is the
    parameter `now`; the interval timer is the caller of `Tick`. */
module Heartbeat {

  const PingIntervalMs := 30000
  const PongTimeoutMs := 90000
  const InboundIdleReconnectMs := 300000

  /** `noPong || idle`, both with strict comparisons. */
  predicate ShouldTerminate(now: int, lastPongAtMs: int, lastInboundAtMs: int) {
    now - lastPongAtMs > PongTimeoutMs || now - lastInboundAtMs > InboundIdleReconnectMs
  }

  /** What one tick does: nothing (stopped, no socket, or socket not open),
      a ping, or a ping followed by `terminate`. */
  datatype TickAction = Skip | Ping | PingAndTerminate

  function Decide(stopped: bool, connected: bool, open: bool, now: int, lastPongAtMs: int, lastInboundAtMs: int): (a: TickAction)
    ensures a.PingAndTerminate? ==> !stopped && connected && open
    ensures a == Skip <==> stopped || !connected || !open
  {
    if stopped || !connected || !open then Skip
    else if ShouldTerminate(now, lastPongAtMs, lastInboundAtMs) then PingAndTerminate
    else Ping
  }

  /** Right after `startHeartbeat` at `t0`, ticks up to and including
      `t0 + 90000` never terminate, and the first instant after that does
      when no pong arrived. */
  lemma PongWindowIsStrict(t0: int, t: int)
    requires t0 <= t
    ensures !ShouldTerminate(t, t0, t0) <==> t <= t0 + PongTimeoutMs
  {
  }

  /** Pongs alone do not keep a silent connection: with pongs arriving but
      no frame for more than five minutes the tick reconnects. */
  lemma IdleDespitePongs(now: int, lastInboundAtMs: int)
    requires now - lastInboundAtMs > InboundIdleReconnectMs
    ensures ShouldTerminate(now, now, lastInboundAtMs)
  {
  }

  /** Newer evidence of life never causes a reconnect that older evidence
      would not have caused, and waiting longer never cancels one. */
  lemma Monotone(t1: int, t2: int, p1: int, p2: int, i1: int, i2: int)
    requires t1 <= t2 && p1 <= p2 && i1 <= i2
    ensures ShouldTerminate(t1, p2, i2) ==> ShouldTerminate(t2, p1, i1)
  {
  }

  /** The heartbeat state: whether the interval is set and the two time
      stamps. */
  class Monitor {
    var running: bool
    var lastPongAtMs: int
    var lastInboundAtMs: int

    constructor ()
      ensures !running && lastPongAtMs == 0 && lastInboundAtMs == 0
    {
      running := false;
      lastPongAtMs := 0;
      lastInboundAtMs := 0;
    }

    /** `stopHeartbeat` */
    method Stop()
      modifies this
      ensures !running && lastPongAtMs == 0 && lastInboundAtMs == 0
    {
      running := false;
      lastPongAtMs := 0;
      lastInboundAtMs := 0;
    }

    /** `startHeartbeat`, called when the socket opens. */
    method Start(now: int)
      modifies this
      ensures running && lastPongAtMs == now && lastInboundAtMs == now
    {
      Stop();
      lastPongAtMs := now;
      lastInboundAtMs := now;
      running := true;
    }

    /** The `pong` handler. */
    method OnPong(now: int)
      modifies this
      ensures lastPongAtMs == now && lastInboundAtMs == old(lastInboundAtMs) && running == old(running)
    {
      lastPongAtMs := now;
    }

    /** The first statement of the `message` handler: any frame, even one
        that does not parse, counts as inbound traffic. */
    method OnFrame(now: int)
      modifies this
      ensures lastInboundAtMs == now && lastPongAtMs == old(lastPongAtMs) && running == old(running)
    {
      lastInboundAtMs := now;
    }

    /** One run of the interval callback; only a running heartbeat ticks. */
    method Tick(now: int, stopped: bool, connected: bool, open: bool) returns (a: TickAction)
      requires running
      ensures a == Decide(stopped, connected, open, now, lastPongAtMs, lastInboundAtMs)
    {
      if stopped || !connected || !open {
        return Skip;
      }
      var noPong := now - lastPongAtMs > PongTimeoutMs;
      var idle := now - lastInboundAtMs > InboundIdleReconnectMs;
      if noPong || idle {
        return PingAndTerminate;
      }
      return Ping;
    }
  }

  /** The scenario of a half-open connection: the socket opens at 0 and then
      nothing arrives; the tick at 90000 only pings, the tick at 91000
      forces the reconnect. */
  method HalfOpenScenario() returns (at90: TickAction, at91: TickAction)
    ensures at90 == Ping && at91 == PingAndTerminate
  {
    var hb := new Monitor();
    hb.Start(0);
    at90 := hb.Tick(90000, false, true, true);
    at91 := hb.Tick(91000, false, true, true);
  }
}
