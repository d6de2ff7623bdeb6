/** The outbound delivery queue of `enqueueSend` (index.js:525-556) as a
    sequential machine. Each context key owns a lane: the operations
    submitted for it, oldest first, standing for the promise chain that
    `sendTailByContext` links. Only the head of a lane is under way: it waits
    for a global slot, runs while it holds one, and then cools down for the
    pacing pause before the next operation of the lane may start. The global
    slots are the corrected hand-off slots of `SendSlots`; the per-key delay
    is `SendPacing.Adapt`. */
module DeliveryQueue {
  import opened SendSlots
  import opened SendPacing

  type Key = string

  /** Where the head of a lane is: waiting for a slot, holding one, or
      sleeping for `sleepMs` after it released the slot. */
  datatype Phase = Waiting | Running | Cooling(sleepMs: int)

  datatype Queue = Queue(
    slots: Slots,
    lanes: map<Key, seq<OpId>>,
    keyOf: map<OpId, Key>,
    phase: map<OpId, Phase>,
    stats: map<Key, Stats>)

  const Empty := Queue(Initial, map[], map[], map[], map[])

  /** An operation is submitted for a key; its action finishes with an
      outcome; its pacing pause ends and it settles. */
  datatype QueueEvent = Submit(key: Key, op: OpId) | Finish(op: OpId, outcome: Outcome) | Settle(op: OpId)

  function Lane(q: Queue, k: Key): seq<OpId> {
    if k in q.lanes then q.lanes[k] else []
  }

  /** The head of a lane begins: it takes a global slot or waits for one. */
  function Start(q: Queue, max: int, op: OpId): Queue {
    q.(slots := TryAcquire(q.slots, max, op),
       phase := q.phase[op := if q.slots.active < max then Running else Waiting])
  }

  /** `enqueueSend`: the operation joins the back of its lane and starts at
      once when the lane is idle. */
  function SubmitStep(q: Queue, max: int, k: Key, op: OpId): Queue {
    var q1 := Enqueue(q, k, op);
    if Lane(q, k) == [] then Start(q1, max, op) else q1
  }

  /** `op` joins the back of the lane of `k`. */
  function Enqueue(q: Queue, k: Key, op: OpId): Queue {
    q.(lanes := q.lanes[k := Lane(q, k) + [op]], keyOf := q.keyOf[op := k])
  }

  /** The stats record `getSendStats` reads for a key. */
  function StatsOf(q: Queue, k: Key, c: Config): Stats {
    if k == "" then Stats(1200, 0, 0, 0) else if k in q.stats then q.stats[k] else Fresh(c)
  }

  /** The action of a running operation has finished: the delay of its key
      adapts to the outcome, the slot is released (and handed to the oldest
      waiter) and the operation sleeps for the pacing pause. */
  function FinishStep(q: Queue, c: Config, op: OpId, outcome: Outcome): Queue
    requires op in q.keyOf
  {
    var k := q.keyOf[op];
    var stats := if k == "" then q.stats else q.stats[k := Adapt(StatsOf(q, k, c), outcome, c)];
    var woken := if |q.slots.waiters| > 0 then q.phase[q.slots.waiters[0] := Running] else q.phase;
    var q1 := q.(slots := ReleaseHandOff(q.slots, op), stats := stats);
    q1.(phase := woken[op := Cooling(PacingSleepMs(StatsOf(q1, k, c).delayMs))])
  }

  /** The pause is over: the operation leaves its lane, whatever its outcome
      was, and the next operation of the lane starts. */
  function SettleStep(q: Queue, max: int, op: OpId): Queue
    requires op in q.keyOf
  {
    var q1 := Dequeue(q, op);
    var rest := Lane(q1, q.keyOf[op]);
    if rest == [] then q1 else Start(q1, max, rest[0])
  }

  /** `op` leaves the front of its lane and is no longer under way. */
  function Dequeue(q: Queue, op: OpId): Queue
    requires op in q.keyOf
  {
    var k := q.keyOf[op];
    var rest := if Lane(q, k) == [] then [] else Lane(q, k)[1..];
    q.(lanes := q.lanes[k := rest], phase := q.phase - {op})
  }

  predicate Allowed(q: Queue, e: QueueEvent) {
    match e
    case Submit(k, op) => op !in q.keyOf
    case Finish(op, _) => op in q.phase && op in q.keyOf && q.phase[op] == Running
    case Settle(op) => op in q.phase && op in q.keyOf && q.phase[op].Cooling?
  }

  function Step(q: Queue, c: Config, e: QueueEvent): Queue
    requires Allowed(q, e)
  {
    match e
    case Submit(k, op) => SubmitStep(q, c.maxConcurrency, k, op)
    case Finish(op, outcome) => FinishStep(q, c, op, outcome)
    case Settle(op) => SettleStep(q, c.maxConcurrency, op)
  }

  /** The slots are bounded, and their holders and waiters are exactly the
      running and the waiting operations. */
  ghost predicate SlotsMatch(q: Queue, max: int) {
    && Bounded(q.slots, max)
    && (forall op :: op in q.slots.holders <==> op in q.phase && q.phase[op] == Running)
    && (forall op :: op in q.slots.waiters <==> op in q.phase && q.phase[op] == Waiting)
  }

  /** Every lane operation belongs to the lane's key and appears once. */
  ghost predicate LanesOwned(q: Queue) {
    && (forall k, i :: k in q.lanes && 0 <= i < |q.lanes[k]| ==>
          q.lanes[k][i] in q.keyOf && q.keyOf[q.lanes[k][i]] == k)
    && (forall k :: k in q.lanes ==> Distinct(q.lanes[k]))
  }

  /** Exactly the lane heads are under way. */
  ghost predicate HeadsUnderWay(q: Queue) {
    && (forall op :: op in q.phase ==> IsHead(q, op))
    && (forall k :: k in q.lanes && |q.lanes[k]| > 0 ==> q.lanes[k][0] in q.phase)
  }

  /** The queue's invariant: slots bounded, every lane operation belongs to
      its key and appears once, exactly the lane heads are under way, and the
      slot holders and waiters are exactly the running and waiting heads. */
  ghost predicate Inv(q: Queue, max: int) {
    SlotsMatch(q, max) && LanesOwned(q) && HeadsUnderWay(q)
  }

  ghost predicate IsHead(q: Queue, op: OpId) {
    op in q.keyOf && q.keyOf[op] in q.lanes && |q.lanes[q.keyOf[op]]| > 0 && q.lanes[q.keyOf[op]][0] == op
  }

  lemma EmptyInv(max: int)
    ensures Inv(Empty, max)
  {
  }

  /** The facts about a queue whose lane head `op` is about to start. */
  ghost predicate ReadyToStart(q: Queue, max: int, op: OpId) {
    && SlotsMatch(q, max)
    && LanesOwned(q)
    && op !in q.phase && IsHead(q.(phase := q.phase[op := Running]), op)
    && (forall o :: o in q.phase ==> IsHead(q, o))
    && (forall k :: k in q.lanes && |q.lanes[k]| > 0 && q.lanes[k][0] != op ==> q.lanes[k][0] in q.phase)
  }

  lemma StartHeads(q: Queue, max: int, op: OpId)
    requires ReadyToStart(q, max, op)
    ensures HeadsUnderWay(Start(q, max, op))
  {
    var r := Start(q, max, op);
    forall o | o in r.phase ensures IsHead(r, o) {
      if o != op {
        assert IsHead(q, o);
      }
    }
  }

  lemma StartSlots(q: Queue, max: int, op: OpId)
    requires ReadyToStart(q, max, op)
    ensures SlotsMatch(Start(q, max, op), max)
  {
    StartBounded(q, max, op);
    var r := Start(q, max, op);
    if q.slots.active < max {
      assert r.slots.holders == q.slots.holders + {op} && r.slots.waiters == q.slots.waiters;
    } else {
      assert r.slots.holders == q.slots.holders && r.slots.waiters == q.slots.waiters + [op];
    }
  }

  lemma StartBounded(q: Queue, max: int, op: OpId)
    requires ReadyToStart(q, max, op)
    ensures Bounded(Start(q, max, op).slots, max)
  {
    assert SendSlots.Legal(q.slots, SendSlots.Acquire(op));
    BoundedStep(q.slots, max, SendSlots.Acquire(op));
  }

  lemma StartInv(q: Queue, max: int, op: OpId)
    requires ReadyToStart(q, max, op)
    ensures Inv(Start(q, max, op), max)
  {
    StartHeads(q, max, op);
    StartSlots(q, max, op);
    var r := Start(q, max, op);
    assert r.lanes == q.lanes && r.keyOf == q.keyOf;
  }

  /** A new operation belongs to its key and is new to its lane. */
  lemma EnqueueLanes(q: Queue, k: Key, op: OpId)
    requires LanesOwned(q) && op !in q.keyOf
    ensures LanesOwned(Enqueue(q, k, op))
  {
    var lane := Lane(q, k);
    var q1 := Enqueue(q, k, op);
    forall k', i | k' in q1.lanes && 0 <= i < |q1.lanes[k']|
      ensures q1.lanes[k'][i] in q1.keyOf && q1.keyOf[q1.lanes[k'][i]] == k'
    {
      if k' == k && i < |lane| {
        assert q1.lanes[k'][i] == lane[i];
      }
    }
    forall k' | k' in q1.lanes ensures Distinct(q1.lanes[k']) {
      if k' == k {
        forall i | 0 <= i < |lane| ensures lane[i] != op {
          assert lane[i] in q.keyOf;
        }
      }
    }
  }

  /** Joining a lane changes no head except that of an idle lane. */
  lemma EnqueueHeads(q: Queue, max: int, k: Key, op: OpId)
    requires Inv(q, max) && op !in q.keyOf
    ensures var q1 := Enqueue(q, k, op);
      && op !in q1.phase
      && (forall o :: o in q1.phase ==> IsHead(q1, o))
      && (forall k' :: k' in q1.lanes && |q1.lanes[k']| > 0 && q1.lanes[k'][0] != op ==> q1.lanes[k'][0] in q1.phase)
      && (Lane(q, k) == [] ==> IsHead(q1.(phase := q1.phase[op := Running]), op))
      && (Lane(q, k) != [] ==> q1.lanes[k][0] == Lane(q, k)[0] != op)
  {
    var lane := Lane(q, k);
    var q1 := Enqueue(q, k, op);
    assert op !in q.phase;
    forall o | o in q1.phase ensures IsHead(q1, o) {
      assert IsHead(q, o);
      if q.keyOf[o] == k {
        assert q1.lanes[k][0] == lane[0];
      }
    }
    if lane != [] {
      assert q1.lanes[k][0] == lane[0];
      assert lane[0] in q.keyOf;
    }
  }

  lemma SubmitInv(q: Queue, max: int, k: Key, op: OpId)
    requires Inv(q, max) && op !in q.keyOf
    ensures Inv(SubmitStep(q, max, k, op), max)
  {
    var q1 := Enqueue(q, k, op);
    EnqueueLanes(q, k, op);
    EnqueueHeads(q, max, k, op);
    assert q1.slots == q.slots && q1.phase == q.phase;
    if Lane(q, k) == [] {
      StartInv(q1, max, op);
    } else {
      assert HeadsUnderWay(q1);
    }
  }

  lemma FinishInv(q: Queue, c: Config, op: OpId, outcome: Outcome)
    requires Inv(q, c.maxConcurrency) && Allowed(q, Finish(op, outcome))
    ensures Inv(FinishStep(q, c, op, outcome), c.maxConcurrency)
  {
    FinishBounded(q, c, op, outcome);
    FinishSlots(q, c, op, outcome);
    FinishHeads(q, c, op, outcome);
    var r := FinishStep(q, c, op, outcome);
    assert r.lanes == q.lanes && r.keyOf == q.keyOf;
  }

  lemma FinishBounded(q: Queue, c: Config, op: OpId, outcome: Outcome)
    requires Inv(q, c.maxConcurrency) && Allowed(q, Finish(op, outcome))
    ensures Bounded(FinishStep(q, c, op, outcome).slots, c.maxConcurrency)
  {
    assert SendSlots.Legal(q.slots, SendSlots.Release(op));
    BoundedStep(q.slots, c.maxConcurrency, SendSlots.Release(op));
    assert FinishStep(q, c, op, outcome).slots == ReleaseHandOff(q.slots, op);
  }

  /** After a finish the slot holders and waiters still match the running
      and waiting heads. */
  lemma FinishSlots(q: Queue, c: Config, op: OpId, outcome: Outcome)
    requires Inv(q, c.maxConcurrency) && Allowed(q, Finish(op, outcome))
    ensures var r := FinishStep(q, c, op, outcome);
      && (forall o :: o in r.slots.holders <==> o in r.phase && r.phase[o] == Running)
      && (forall o :: o in r.slots.waiters <==> o in r.phase && r.phase[o] == Waiting)
  {
    var r := FinishStep(q, c, op, outcome);
    assert r.slots == ReleaseHandOff(q.slots, op);
    assert op in q.slots.holders;
    if |q.slots.waiters| > 0 {
      var w := q.slots.waiters[0];
      assert w in q.phase && q.phase[w] == Waiting;
      assert r.slots.waiters == q.slots.waiters[1..];
      assert r.slots.holders == q.slots.holders - {op} + {w};
      assert w !in r.slots.waiters by {
        forall i | 0 <= i < |q.slots.waiters| - 1 ensures q.slots.waiters[1..][i] != w {
          assert q.slots.waiters[1..][i] == q.slots.waiters[i + 1];
        }
      }
      forall o ensures o in r.slots.waiters <==> o in r.phase && r.phase[o] == Waiting {
        if o != w && o != op {
          assert o in r.slots.waiters <==> o in q.slots.waiters;
        }
      }
    } else {
      assert r.slots.holders == q.slots.holders - {op};
      assert r.slots.waiters == q.slots.waiters;
    }
  }

  /** A finish changes no lane, so the heads stay the operations under way. */
  lemma FinishHeads(q: Queue, c: Config, op: OpId, outcome: Outcome)
    requires Inv(q, c.maxConcurrency) && Allowed(q, Finish(op, outcome))
    ensures HeadsUnderWay(FinishStep(q, c, op, outcome))
  {
    var r := FinishStep(q, c, op, outcome);
    assert r.lanes == q.lanes && r.keyOf == q.keyOf;
    assert r.phase.Keys == q.phase.Keys by {
      if |q.slots.waiters| > 0 {
        assert q.slots.waiters[0] in q.phase;
      }
    }
    forall o | o in r.phase ensures IsHead(r, o) {
      assert IsHead(q, o);
    }
  }

  /** Leaving the front of a lane keeps every lane owned and duplicate-free. */
  lemma DequeueLanes(q: Queue, max: int, op: OpId)
    requires Inv(q, max) && op in q.phase && op in q.keyOf
    ensures LanesOwned(Dequeue(q, op))
  {
    var k := q.keyOf[op];
    assert IsHead(q, op);
    var lane := q.lanes[k];
    var rest := lane[1..];
    var q1 := Dequeue(q, op);
    assert q1.lanes == q.lanes[k := rest];
    forall k', i | k' in q1.lanes && 0 <= i < |q1.lanes[k']|
      ensures q1.lanes[k'][i] in q1.keyOf && q1.keyOf[q1.lanes[k'][i]] == k'
    {
      if k' == k {
        assert q1.lanes[k'][i] == lane[i + 1];
      }
    }
    forall k' | k' in q1.lanes ensures Distinct(q1.lanes[k']) {
      if k' == k {
        forall i, j | 0 <= i < j < |rest| ensures rest[i] != rest[j] {
          assert rest[i] == lane[i + 1] && rest[j] == lane[j + 1];
        }
      }
    }
  }

  /** Once a cooling head leaves, the others stay heads and its successor is
      ready to start. */
  lemma DequeueHeads(q: Queue, max: int, op: OpId)
    requires Inv(q, max) && op in q.phase && op in q.keyOf && q.phase[op].Cooling?
    ensures var q1 := Dequeue(q, op);
      var rest := Lane(q1, q.keyOf[op]);
      && (forall o :: o in q1.phase ==> IsHead(q1, o))
      && (forall k :: k in q1.lanes && |q1.lanes[k]| > 0 && (rest == [] || q1.lanes[k][0] != rest[0]) ==> q1.lanes[k][0] in q1.phase)
      && (rest != [] ==> rest[0] !in q1.phase && IsHead(q1.(phase := q1.phase[rest[0] := Running]), rest[0]))
  {
    var k := q.keyOf[op];
    assert IsHead(q, op);
    var lane := q.lanes[k];
    var q1 := Dequeue(q, op);
    assert q1.lanes == q.lanes[k := lane[1..]];
    forall o | o in q1.phase ensures IsHead(q1, o) {
      assert IsHead(q, o);
      assert q.keyOf[o] != k;
    }
    if |lane| > 1 {
      var next := lane[1];
      assert next != op && next in q.keyOf && q.keyOf[next] == k;
      assert !IsHead(q, next);
    }
  }

  /** The settled operation held no slot and waited for none. */
  lemma DequeueSlots(q: Queue, max: int, op: OpId)
    requires Inv(q, max) && op in q.phase && op in q.keyOf && q.phase[op].Cooling?
    ensures SlotsMatch(Dequeue(q, op), max)
  {
    assert op !in q.slots.holders && op !in q.slots.waiters;
  }

  lemma SettleInv(q: Queue, max: int, op: OpId)
    requires Inv(q, max)
    requires op in q.phase && op in q.keyOf && q.phase[op].Cooling?
    ensures Inv(SettleStep(q, max, op), max)
  {
    DequeueLanes(q, max, op);
    DequeueHeads(q, max, op);
    DequeueSlots(q, max, op);
    var q1 := Dequeue(q, op);
    var rest := Lane(q1, q.keyOf[op]);
    if rest == [] {
      assert HeadsUnderWay(q1);
    } else {
      StartInv(q1, max, rest[0]);
    }
  }

  lemma StepInv(q: Queue, c: Config, e: QueueEvent)
    requires Inv(q, c.maxConcurrency) && Allowed(q, e)
    ensures Inv(Step(q, c, e), c.maxConcurrency)
  {
    match e
    case Submit(k, op) => SubmitInv(q, c.maxConcurrency, k, op);
    case Finish(op, outcome) => FinishInv(q, c, op, outcome);
    case Settle(op) => SettleInv(q, c.maxConcurrency, op);
  }

  function Run(q: Queue, c: Config, events: seq<QueueEvent>): Queue
    decreases |events|
  {
    if |events| == 0 || !Allowed(q, events[0]) then q else Run(Step(q, c, events[0]), c, events[1..])
  }

  predicate LegalRun(q: Queue, c: Config, events: seq<QueueEvent>)
    decreases |events|
  {
    |events| == 0 || (Allowed(q, events[0]) && LegalRun(Step(q, c, events[0]), c, events[1..]))
  }

  /** The operations under way for one key. */
  function UnderWay(q: Queue, k: Key): set<OpId> {
    set op | op in q.phase && op in q.keyOf && q.keyOf[op] == k
  }

  /** The operations that hold a global slot. */
  function InFlight(q: Queue): set<OpId> {
    set op | op in q.phase && q.phase[op] == Running
  }

  /** After any legal run from the empty queue: no key has two operations
      under way, at most `max` operations are in flight, and a key's lane
      keeps its submission order. */
  lemma {:induction false} RunSafe(c: Config, events: seq<QueueEvent>)
    requires LegalRun(Empty, c, events)
    ensures var q := Run(Empty, c, events);
      && Inv(q, c.maxConcurrency)
      && (forall k :: |UnderWay(q, k)| <= 1)
      && (|InFlight(q)| <= c.maxConcurrency || |InFlight(q)| == 0)
  {
    EmptyInv(c.maxConcurrency);
    RunInv(Empty, c, events);
    var q := Run(Empty, c, events);
    forall k ensures |UnderWay(q, k)| <= 1 {
      AtMostOneUnderWay(q, c.maxConcurrency, k);
    }
    assert InFlight(q) == q.slots.holders;
  }

  lemma {:induction false} RunInv(q: Queue, c: Config, events: seq<QueueEvent>)
    requires Inv(q, c.maxConcurrency) && LegalRun(q, c, events)
    ensures Inv(Run(q, c, events), c.maxConcurrency)
    decreases |events|
  {
    if |events| > 0 {
      StepInv(q, c, events[0]);
      RunInv(Step(q, c, events[0]), c, events[1..]);
    }
  }

  lemma AtMostOneUnderWay(q: Queue, max: int, k: Key)
    requires Inv(q, max)
    ensures |UnderWay(q, k)| <= 1
  {
    var u := UnderWay(q, k);
    if k in q.lanes && |q.lanes[k]| > 0 {
      var h := q.lanes[k][0];
      forall o | o in u ensures o == h {
        assert IsHead(q, o);
      }
      assert h in u;
      assert u == {h};
    } else {
      assert u == {};
    }
  }

  /** A submit appends to the lane of its key and leaves the others. */
  lemma SubmitLane(q: Queue, max: int, k': Key, op: OpId, k: Key)
    ensures Lane(SubmitStep(q, max, k', op), k) == if k' == k then Lane(q, k) + [op] else Lane(q, k)
  {
    assert SubmitStep(q, max, k', op).lanes == Enqueue(q, k', op).lanes;
  }

  /** A finish changes no lane. */
  lemma FinishLane(q: Queue, c: Config, op: OpId, outcome: Outcome, k: Key)
    requires op in q.keyOf
    ensures Lane(FinishStep(q, c, op, outcome), k) == Lane(q, k)
  {
    assert FinishStep(q, c, op, outcome).lanes == q.lanes;
  }

  /** A settle drops the front of its own lane and leaves the others. */
  lemma SettleLane(q: Queue, max: int, op: OpId, k: Key)
    requires op in q.keyOf
    ensures Lane(SettleStep(q, max, op), k) ==
      if q.keyOf[op] != k then Lane(q, k) else if Lane(q, k) == [] then [] else Lane(q, k)[1..]
  {
    assert SettleStep(q, max, op).lanes == Dequeue(q, op).lanes;
  }

  /** One event changes a lane only at its ends: it drops at most the
      front operation (`d` of them) and appends at the back. */
  lemma LaneStep(q: Queue, c: Config, e: QueueEvent, k: Key) returns (d: nat)
    requires Allowed(q, e)
    ensures d <= 1 && d <= |Lane(q, k)| && Lane(q, k)[d..] <= Lane(Step(q, c, e), k)
  {
    d := 0;
    match e
    case Submit(k', op) =>
      SubmitLane(q, c.maxConcurrency, k', op, k);
    case Finish(op, outcome) =>
      FinishLane(q, c, op, outcome, k);
    case Settle(op) =>
      SettleLane(q, c.maxConcurrency, op, k);
      if q.keyOf[op] == k && Lane(q, k) != [] {
        d := 1;
      }
  }

  lemma PrefixTrans(a: seq<OpId>, b: seq<OpId>, c: seq<OpId>, d: nat, j: nat)
    requires d <= |a| && a[d..] <= b
    requires j <= |b| && b[j..] <= c
    ensures d + j <= |a| ==> a[d + j..] <= c
  {
    if d + j <= |a| {
      assert a[d + j..] == a[d..][j..];
      assert a[d..][j..] <= b[j..];
    }
  }

  /** Per-key order: across any legal run a lane only loses operations at
      its front (the first `j`) and gains them at its back, so a key's
      operations start in the order they were submitted. */
  lemma {:induction false} LaneOrder(q: Queue, c: Config, events: seq<QueueEvent>, k: Key) returns (j: nat)
    requires LegalRun(q, c, events)
    ensures j <= |Lane(q, k)| && Lane(q, k)[j..] <= Lane(Run(q, c, events), k)
    decreases |events|
  {
    if |events| == 0 {
      j := 0;
      assert Lane(q, k)[0..] == Lane(q, k);
    } else {
      var next := Step(q, c, events[0]);
      var rest := Run(next, c, events[1..]);
      assert Run(q, c, events) == rest;
      var j1 := LaneOrder(next, c, events[1..], k);
      var d := LaneStep(q, c, events[0], k);
      PrefixTrans(Lane(q, k), Lane(next, k), Lane(rest, k), d, j1);
      if d + j1 <= |Lane(q, k)| {
        j := d + j1;
      } else {
        j := |Lane(q, k)|;
        assert Lane(q, k)[j..] == [];
      }
    }
  }

  lemma RunStep(q: Queue, c: Config, e: QueueEvent, rest: seq<QueueEvent>)
    requires Allowed(q, e)
    ensures Run(q, c, [e] + rest) == Run(Step(q, c, e), c, rest)
  {
    assert ([e] + rest)[1..] == rest;
  }

  function TwoSlots(): Config {
    Config(2, 1200, 600, 3500)
  }

  function ThreeSubmitted(): Queue {
    Run(Empty, TwoSlots(), [Submit("user:1", 1), Submit("user:2", 2), Submit("group:3", 3)])
  }

  /** With a cap of two, three sends for three keys are submitted: two start
      at once and the third waits. */
  lemma ThirdWaits()
    ensures ThreeSubmitted().phase == map[1 := Running, 2 := Running, 3 := Waiting]
    ensures ThreeSubmitted().slots == Slots(2, [3], [], {1, 2})
    ensures ThreeSubmitted().keyOf == map[1 := "user:1", 2 := "user:2", 3 := "group:3"]
    ensures ThreeSubmitted().stats == map[]
  {
    var c := TwoSlots();
    var q1 := Step(Empty, c, Submit("user:1", 1));
    assert q1.phase == map[1 := Running] && q1.slots == Slots(1, [], [], {1});
    var q2 := Step(q1, c, Submit("user:2", 2));
    assert q2.phase == map[1 := Running, 2 := Running] && q2.slots == Slots(2, [], [], {1, 2});
    var q3 := Step(q2, c, Submit("group:3", 3));
    assert q3.slots == Slots(2, [3], [], {1, 2});
    assert q3.phase == map[1 := Running, 2 := Running, 3 := Waiting];
    RunStep(q2, c, Submit("group:3", 3), []);
    RunStep(q1, c, Submit("user:2", 2), [Submit("group:3", 3)]);
    RunStep(Empty, c, Submit("user:1", 1), [Submit("user:2", 2), Submit("group:3", 3)]);
  }

  /** When the first of them finishes, even with a timeout, its key's delay
      grows to 1770 ms and the waiting third send takes the freed slot. */
  lemma ThirdTakesFreedSlot()
    ensures var q4 := Run(ThreeSubmitted(), TwoSlots(), [Finish(1, Timeout)]);
      && q4.phase == map[1 := Cooling(PacingSleepMs(1770)), 2 := Running, 3 := Running]
      && "user:1" in q4.stats && q4.stats["user:1"].delayMs == 1770
  {
    var c := TwoSlots();
    var q3 := ThreeSubmitted();
    ThirdWaits();
    assert StatsOf(q3, "user:1", c) == Stats(1200, 0, 0, 0);
    assert Adapt(Stats(1200, 0, 0, 0), Timeout, c).delayMs == 1770;
    var q4 := Step(q3, c, Finish(1, Timeout));
    assert q4.stats["user:1"].delayMs == 1770;
    RunStep(q3, c, Finish(1, Timeout), []);
  }

  /** A failed operation does not break its lane: after it settles, the next
      operation submitted for the same key starts. */
  lemma FailureKeepsLaneGoing()
    ensures var c := Config(2, 1200, 600, 3500);
      var q := Run(Empty, c, [Submit("user:1", 1), Submit("user:1", 2), Finish(1, Err), Settle(1)]);
      && q.phase == map[2 := Running]
      && Lane(q, "user:1") == [2]
  {
    var c := Config(2, 1200, 600, 3500);
    var evs := [Submit("user:1", 1), Submit("user:1", 2), Finish(1, Err), Settle(1)];
    var q1 := Step(Empty, c, evs[0]);
    var q2 := Step(q1, c, evs[1]);
    assert q2.phase == map[1 := Running];
    assert Lane(q2, "user:1") == [1, 2];
    var q3 := Step(q2, c, evs[2]);
    assert q3.phase[1].Cooling?;
    var q4 := Step(q3, c, evs[3]);
    assert Lane(q4, "user:1") == [2];
    assert q4.phase == map[2 := Running];
    assert evs[1..] == [evs[1], evs[2], evs[3]];
    assert evs[1..][1..] == [evs[2], evs[3]];
    assert evs[1..][1..][1..] == [evs[3]];
    assert Run(Empty, c, evs) == q4;
  }
}
