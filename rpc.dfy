/** The NapCat request/response correlator: `napcatCall` (index.js:399-414)
    registers a pending call under a fresh echo token and sends it; the
    message handler (index.js:724-734) resolves the call whose token a
    response echoes; the call's timer rejects it with a timeout. Whichever
    of these terminal events comes first settles the call, and the later
    ones find nothing pending. Timers and the socket are events here. */
module Rpc {
  import opened Text
  import Dedup
  import SendPacing

  datatype Option<T> = None | Some(value: T)

  /** An inbound frame after `JSON.parse`: its `echo` (None stands for a
      falsy one, Some for `String(echo)` of a truthy one), its `post_type`
      and its `message_id`. */
  datatype Frame = Frame(echo: Option<string>, postType: string, messageId: Dedup.MsgId)

  /** What the handler does with a frame: settle a call, go on to the
      inbound-message path (whose first step is `isDuplicate`), or drop it. */
  datatype Route = Response(token: string) | Inbound(id: Dedup.MsgId) | Ignored

  function RouteOf(f: Frame): (r: Route)
    ensures r.Inbound? <==> f.echo.None? && f.postType == "message"
    ensures r.Response? ==> Some(r.token) == f.echo
  {
    if f.echo.Some? then Response(f.echo.value)
    else if f.postType == "message" then Inbound(f.messageId)
    else Ignored
  }

  /** How a call ends: the response frame, or a rejection message. */
  datatype Settlement = Resolved(response: Frame) | Rejected(message: string)

  const NotConnected := "NapCat not connected"

  function TimeoutMessage(action: string): string {
    "NapCat RPC timeout: " + action
  }

  /** The pending calls, token to action, and (as the model's record of
      what each promise received) the settled ones. */
  datatype Calls = Calls(pending: map<string, string>, settled: map<string, Settlement>)

  const NoCalls := Calls(map[], map[])

  /** A call is made (the socket open or not), a frame arrives, a call's
      timer fires. */
  datatype CallEvent = Call(token: string, action: string, connected: bool) | Deliver(frame: Frame) | Expire(token: string)

  /** A call registers its token; when the send is refused it is removed
      again at once and rejected. */
  function CallStep(r: Calls, token: string, action: string, connected: bool): Calls {
    if connected then r.(pending := r.pending[token := action])
    else r.(settled := r.settled[token := Rejected(NotConnected)])
  }

  /** A frame echoing a pending token resolves that call; any other frame
      leaves the calls alone. */
  function DeliverStep(r: Calls, f: Frame): Calls {
    match RouteOf(f)
    case Response(t) =>
      if t in r.pending then r.(pending := r.pending - {t}, settled := r.settled[t := Resolved(f)]) else r
    case _ => r
  }

  /** The timer of a pending call rejects it; a cleared timer never fires,
      which is a timer firing for a call no longer pending. */
  function ExpireStep(r: Calls, t: string): Calls {
    if t in r.pending then r.(pending := r.pending - {t}, settled := r.settled[t := Rejected(TimeoutMessage(r.pending[t]))]) else r
  }

  function Step(r: Calls, e: CallEvent): Calls {
    match e
    case Call(t, a, connected) => CallStep(r, t, a, connected)
    case Deliver(f) => DeliverStep(r, f)
    case Expire(t) => ExpireStep(r, t)
  }

  /** The source draws tokens from the clock and a random suffix; the model
      assumes each call's token is new. */
  predicate Allowed(r: Calls, e: CallEvent) {
    e.Call? ==> e.token !in r.pending && e.token !in r.settled
  }

  function Run(r: Calls, events: seq<CallEvent>): Calls
    decreases |events|
  {
    if |events| == 0 then r else Run(Step(r, events[0]), events[1..])
  }

  predicate AllowedRun(r: Calls, events: seq<CallEvent>)
    decreases |events|
  {
    |events| == 0 || (Allowed(r, events[0]) && AllowedRun(Step(r, events[0]), events[1..]))
  }

  /** No call is both pending and settled. */
  predicate Inv(r: Calls) {
    forall t :: t in r.pending ==> t !in r.settled
  }

  lemma StepInv(r: Calls, e: CallEvent)
    requires Inv(r) && Allowed(r, e)
    ensures Inv(Step(r, e))
  {
  }

  /** The first terminal event wins: once a call is settled, no later event
      changes how it was settled or makes it pending again. So no call is
      both resolved and timed out, or both refused and resolved. */
  lemma {:induction false} FirstTerminalWins(r: Calls, events: seq<CallEvent>, t: string)
    requires Inv(r) && AllowedRun(r, events) && t in r.settled
    ensures var r' := Run(r, events);
      t in r'.settled && r'.settled[t] == r.settled[t] && t !in r'.pending
    decreases |events|
  {
    if |events| > 0 {
      StepInv(r, events[0]);
      var next := Step(r, events[0]);
      assert t in next.settled && next.settled[t] == r.settled[t];
      FirstTerminalWins(next, events[1..], t);
    }
  }

  /** Every call made settles at most once, and a settled call stays out of
      the pending table, over any run from no calls at all. */
  lemma {:induction false} RunInv(r: Calls, events: seq<CallEvent>)
    requires Inv(r) && AllowedRun(r, events)
    ensures Inv(Run(r, events))
    decreases |events|
  {
    if |events| > 0 {
      StepInv(r, events[0]);
      RunInv(Step(r, events[0]), events[1..]);
    }
  }

  /** A response echoing a pending token removes the entry and resolves the
      call with the whole frame. */
  lemma ResponseResolves(r: Calls, f: Frame, t: string)
    requires f.echo == Some(t) && t in r.pending
    ensures var r' := DeliverStep(r, f);
      t !in r'.pending && r'.settled[t] == Resolved(f)
      && (forall u :: u in r.pending && u != t ==> u in r'.pending)
  {
  }

  /** A response with an unknown echo, or with none, changes nothing. */
  lemma UnknownEchoIgnored(r: Calls, f: Frame)
    requires f.echo.None? || f.echo.value !in r.pending
    ensures DeliverStep(r, f) == r
  {
  }

  /** A send the closed socket refuses leaves nothing pending and rejects
      the call at once. */
  lemma RefusedSendRejects(r: Calls, t: string, a: string)
    requires t !in r.pending
    ensures var r' := CallStep(r, t, a, false);
      t !in r'.pending && r'.settled[t] == Rejected(NotConnected) && r'.pending == r.pending
  {
  }

  /** A call made on an open socket whose timer fires before any response
      is rejected with the timeout message, and a response arriving after
      that is ignored. */
  lemma LateResponseIgnored(t: string, a: string, f: Frame)
    requires f.echo == Some(t)
    ensures var r := Run(NoCalls, [Call(t, a, true), Expire(t), Deliver(f)]);
      t in r.settled && r.settled[t] == Rejected(TimeoutMessage(a)) && r.pending == map[]
  {
    var r1 := Step(NoCalls, Call(t, a, true));
    var r2 := Step(r1, Expire(t));
    assert r2.settled[t] == Rejected(TimeoutMessage(a));
    var r3 := Step(r2, Deliver(f));
    assert r3 == r2;
    var evs := [Call(t, a, true), Expire(t), Deliver(f)];
    assert evs[1..] == [Expire(t), Deliver(f)];
    assert evs[1..][1..] == [Deliver(f)];
    assert evs[1..][1..][1..] == [];
    assert Run(NoCalls, evs) == Run(r1, evs[1..]) == Run(r2, evs[1..][1..]) == Run(r3, []);
  }

  /** The send queue reads an RPC timeout as a timeout and a refused send as
      an ordinary error (index.js:539-541). */
  lemma RejectionsClassified(action: string)
    ensures SendPacing.ClassifyFailure(TimeoutMessage(action)) == SendPacing.Timeout
    ensures SendPacing.ClassifyFailure(NotConnected) == SendPacing.Err
  {
    assert OccursAt(TimeoutMessage(action), "timeout", 11);
    forall i | 0 <= i <= |NotConnected| - 7 ensures !OccursAt(NotConnected, "timeout", i) {
      NoTimeoutAt(i);
    }
  }

  /** "timeout" does not start at position `i` of the refusal message: the
      two `t`s of "NapCat not connected" that could begin it are followed by
      a space, and no other character folds to `t`. */
  lemma NoTimeoutAt(i: int)
    requires 0 <= i <= |NotConnected| - 7
    ensures !OccursAt(NotConnected, "timeout", i)
  {
    var s := NotConnected;
    assert s == ['N', 'a', 'p', 'C', 'a', 't', ' ', 'n', 'o', 't', ' ', 'c', 'o', 'n', 'n', 'e', 'c', 't', 'e', 'd'];
    var w := s[i..i + 7];
    assert w[0] == s[i] && w[1] == s[i + 1];
    if i == 5 || i == 9 {
      assert FoldChar(w[1]) == ' ' != "timeout"[1];
    } else {
      assert FoldChar(w[0]) != "timeout"[0];
    }
  }

  /** `pendingRpc` with the handlers that change it. */
  class Correlator {
    var pending: map<string, string>
    ghost var settled: map<string, Settlement>

    ghost function State(): Calls
      reads this
    {
      Calls(pending, settled)
    }

    constructor ()
      ensures State() == NoCalls
    {
      pending := map[];
      settled := map[];
    }

    /** `napcatCall`: register the token, then try to send. Returns the
        rejection when the send is refused, None while the call waits. */
    method Call(token: string, action: string, connected: bool) returns (refused: Option<Settlement>)
      requires token !in pending && token !in settled
      modifies this
      ensures State() == CallStep(old(State()), token, action, connected)
      ensures refused == if connected then None else Some(Rejected(NotConnected))
    {
      pending := pending[token := action];
      if !connected {
        pending := pending - {token};
        settled := settled[token := Rejected(NotConnected)];
        assert pending == old(pending);
        return Some(Rejected(NotConnected));
      }
      return None;
    }

    /** The echo branch of the message handler. Returns what the waiting
        call receives, if a call was waiting. */
    method OnFrame(f: Frame) returns (resolved: Option<Settlement>)
      modifies this
      ensures State() == DeliverStep(old(State()), f)
      ensures resolved == if f.echo.Some? && f.echo.value in old(pending) then Some(Resolved(f)) else None
    {
      if f.echo.Some? {
        var t := f.echo.value;
        if t in pending {
          pending := pending - {t};
          settled := settled[t := Resolved(f)];
          return Some(Resolved(f));
        }
      }
      return None;
    }

    /** The timer callback of a call. */
    method OnTimer(token: string) returns (rejected: Option<Settlement>)
      modifies this
      ensures State() == ExpireStep(old(State()), token)
      ensures rejected == if token in old(pending) then Some(Rejected(TimeoutMessage(old(pending)[token]))) else None
    {
      if token in pending {
        var action := pending[token];
        pending := pending - {token};
        settled := settled[token := Rejected(TimeoutMessage(action))];
        return Some(Rejected(TimeoutMessage(action)));
      }
      return None;
    }
  }
}
