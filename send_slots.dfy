/** The process-wide cap on concurrent sends (index.js:471-488): a counter of
    sends in flight, bounded by the configured maximum, and a FIFO list of
    suspended acquirers.

    Acquiring runs in two places. When the counter is below the maximum the
    acquirer increments it at once (line 476-478); otherwise it parks a
    resolver in the wait list (line 480), and when a release shifts that
    resolver out and calls it (line 486-487) the acquirer's continuation runs
    later, as a queued job, and only then increments the counter (line 481).
    The queued continuations are `resuming` below. Any acquirer that runs
    between the release and that job sees the slot free and takes it, so the
    counter can exceed the maximum: `OverCommitAsWritten` exhibits it.
    `ReleaseHandOff` is the corrected release, which passes the slot straight
    to the oldest waiter; the delivery queue is built on it. */
module SendSlots {

  type OpId = nat

  /** `holders` are the operations that currently own a slot; it is not a
      variable of the program but the bookkeeping that gives `active` its
      meaning. */
  datatype Slots = Slots(active: int, waiters: seq<OpId>, resuming: seq<OpId>, holders: set<OpId>)

  const Initial := Slots(0, [], [], {})

  datatype Event = Acquire(op: OpId) | Release(op: OpId) | Resume

  predicate Distinct(s: seq<OpId>) {
    forall i, j :: 0 <= i < j < |s| ==> s[i] != s[j]
  }

  /** The first half of `acquireGlobalSendSlot`: take a free slot or wait. */
  function TryAcquire(s: Slots, max: int, op: OpId): (r: Slots)
    ensures s.active < max ==> r.active == s.active + 1 <= max && op in r.holders && r.waiters == s.waiters
    ensures s.active >= max ==> r.active == s.active && r.waiters == s.waiters + [op] && r.holders == s.holders
    ensures r.resuming == s.resuming
  {
    if s.active < max then s.(active := s.active + 1, holders := s.holders + {op})
    else s.(waiters := s.waiters + [op])
  }

  function Floor0(n: int): int { if n < 0 then 0 else n }

  /** `releaseGlobalSendSlot` as written: decrement with a floor of 0 and
      wake the oldest waiter, whose increment is still to come. */
  function ReleaseAsWritten(s: Slots, op: OpId): Slots {
    var freed := s.(active := Floor0(s.active - 1), holders := s.holders - {op});
    if |s.waiters| == 0 then freed
    else freed.(waiters := s.waiters[1..], resuming := s.resuming + [s.waiters[0]])
  }

  /** The woken acquirer's continuation: `globalSendActive += 1`. */
  function ResumeAsWritten(s: Slots): Slots {
    if |s.resuming| == 0 then s
    else s.(active := s.active + 1, holders := s.holders + {s.resuming[0]}, resuming := s.resuming[1..])
  }

  function StepAsWritten(s: Slots, max: int, e: Event): Slots {
    match e
    case Acquire(op) => TryAcquire(s, max, op)
    case Release(op) => ReleaseAsWritten(s, op)
    case Resume => ResumeAsWritten(s)
  }

  /** Events that the send queue can actually produce: a fresh operation
      acquires, only a holder releases, and a continuation runs only after a
      wake-up. */
  predicate Legal(s: Slots, e: Event) {
    match e
    case Acquire(op) => op !in s.holders && op !in s.waiters && op !in s.resuming
    case Release(op) => op in s.holders
    case Resume => |s.resuming| > 0
  }

  function RunAsWritten(s: Slots, max: int, events: seq<Event>): Slots
    decreases |events|
  {
    if |events| == 0 then s else RunAsWritten(StepAsWritten(s, max, events[0]), max, events[1..])
  }

  predicate LegalRunAsWritten(s: Slots, max: int, events: seq<Event>)
    decreases |events|
  {
    |events| == 0 || (Legal(s, events[0]) && LegalRunAsWritten(StepAsWritten(s, max, events[0]), max, events[1..]))
  }

  /** With a maximum of one: A holds the slot, B waits, A releases and wakes
      B, C acquires before B's continuation runs, then B increments. Two
      sends are in flight. */
  lemma OverCommitAsWritten()
    ensures var events := [Acquire(1), Acquire(2), Release(1), Acquire(3), Resume];
      && LegalRunAsWritten(Initial, 1, events)
      && RunAsWritten(Initial, 1, events).active == 2
      && RunAsWritten(Initial, 1, events).holders == {2, 3}
  {
    var s1 := StepAsWritten(Initial, 1, Acquire(1));
    assert s1 == Slots(1, [], [], {1});
    var s2 := StepAsWritten(s1, 1, Acquire(2));
    assert s2 == Slots(1, [2], [], {1});
    var s3 := StepAsWritten(s2, 1, Release(1));
    assert s3 == Slots(0, [], [2], {});
    var s4 := StepAsWritten(s3, 1, Acquire(3));
    assert s4 == Slots(1, [], [2], {3});
    var s5 := StepAsWritten(s4, 1, Resume);
    assert s5 == Slots(2, [], [], {2, 3});
    var events := [Acquire(1), Acquire(2), Release(1), Acquire(3), Resume];
    assert RunAsWritten(s5, 1, []) == s5;
    assert LegalRunAsWritten(s5, 1, []);
    assert events[1..] == [Acquire(2), Release(1), Acquire(3), Resume];
    assert events[2..] == [Release(1), Acquire(3), Resume];
    assert events[3..] == [Acquire(3), Resume];
    assert events[4..] == [Resume];
  }

  /** What the code as written does keep: the counter counts the holders. */
  ghost predicate Accounted(s: Slots) {
    && s.active == |s.holders|
    && Distinct(s.waiters + s.resuming)
    && (forall i :: 0 <= i < |s.waiters| ==> s.waiters[i] !in s.holders)
    && (forall i :: 0 <= i < |s.resuming| ==> s.resuming[i] !in s.holders)
  }

  lemma AccountedAsWritten(s: Slots, max: int, e: Event)
    requires Accounted(s) && Legal(s, e)
    ensures Accounted(StepAsWritten(s, max, e))
  {
    match e
    case Acquire(op) => AccountedAcquire(s, max, op);
    case Release(op) => AccountedRelease(s, op);
    case Resume => AccountedResume(s);
  }

  lemma AccountedAcquire(s: Slots, max: int, op: OpId)
    requires Accounted(s) && Legal(s, Acquire(op))
    ensures Accounted(TryAcquire(s, max, op))
  {
    var r := TryAcquire(s, max, op);
    if s.active >= max {
      assert r.waiters + r.resuming == (s.waiters + s.resuming)[..|s.waiters|] + [op] + s.resuming;
      var a := s.waiters + s.resuming;
      var b := r.waiters + r.resuming;
      assert op !in a;
      forall i, j | 0 <= i < j < |b| ensures b[i] != b[j] {
        if i < |s.waiters| {
          assert b[i] == a[i];
        } else if i > |s.waiters| {
          assert b[i] == a[i - 1];
        }
        if j < |s.waiters| {
          assert b[j] == a[j];
        } else if j > |s.waiters| {
          assert b[j] == a[j - 1];
        }
      }
    }
  }

  lemma AccountedRelease(s: Slots, op: OpId)
    requires Accounted(s) && Legal(s, Release(op))
    ensures Accounted(ReleaseAsWritten(s, op))
  {
    assert |s.holders - {op}| == |s.holders| - 1;
    if |s.waiters| > 0 {
      var r := ReleaseAsWritten(s, op);
      assert r.waiters + r.resuming == s.waiters[1..] + s.resuming + [s.waiters[0]];
      DistinctRotate(s.waiters, s.resuming);
      forall i | 0 <= i < |r.resuming| ensures r.resuming[i] !in r.holders {
        if i < |s.resuming| {
          assert r.resuming[i] == s.resuming[i];
        } else {
          assert r.resuming[i] == s.waiters[0];
        }
      }
    }
  }

  lemma AccountedResume(s: Slots)
    requires Accounted(s) && Legal(s, Resume)
    ensures Accounted(ResumeAsWritten(s))
  {
    var a := s.waiters + s.resuming;
    var w := s.resuming[0];
    var r := ResumeAsWritten(s);
    assert w == a[|s.waiters|];
    forall i | 0 <= i < |s.waiters| ensures s.waiters[i] != w {
      assert a[i] == s.waiters[i];
    }
    forall i | 0 <= i < |r.resuming| ensures r.resuming[i] != w {
      assert a[|s.waiters| + 1 + i] == r.resuming[i];
    }
    var b := r.waiters + r.resuming;
    forall i, j | 0 <= i < j < |b| ensures b[i] != b[j] {
      var i' := if i < |s.waiters| then i else i + 1;
      var j' := if j < |s.waiters| then j else j + 1;
      assert b[i] == a[i'] && b[j] == a[j'];
    }
  }

  lemma DistinctRotate(w: seq<OpId>, r: seq<OpId>)
    requires |w| > 0 && Distinct(w + r)
    ensures Distinct(w[1..] + r + [w[0]])
  {
    var a := w + r;
    var b := w[1..] + r + [w[0]];
    assert |b| == |a|;
    forall i | 0 <= i < |b| - 1 ensures b[i] == a[i + 1] {
    }
    assert b[|b| - 1] == a[0];
    forall i, j | 0 <= i < j < |b| ensures b[i] != b[j] {
      if j == |b| - 1 {
        assert b[i] == a[i + 1];
      } else {
        assert b[i] == a[i + 1] && b[j] == a[j + 1];
      }
    }
  }

  /** The corrected release: with a waiter, the slot changes hands and the
      counter stays; without one, the counter drops (never below 0). */
  function ReleaseHandOff(s: Slots, op: OpId): (r: Slots)
    ensures |s.waiters| > 0 ==> r.active == s.active && r.holders == s.holders - {op} + {s.waiters[0]}
    ensures |s.waiters| == 0 ==> r.active == Floor0(s.active - 1) && r.holders == s.holders - {op}
    ensures r.resuming == s.resuming
  {
    if |s.waiters| == 0 then s.(active := Floor0(s.active - 1), holders := s.holders - {op})
    else s.(waiters := s.waiters[1..], holders := s.holders - {op} + {s.waiters[0]})
  }

  function StepHandOff(s: Slots, max: int, e: Event): Slots {
    match e
    case Acquire(op) => TryAcquire(s, max, op)
    case Release(op) => ReleaseHandOff(s, op)
    case Resume => s
  }

  function RunHandOff(s: Slots, max: int, events: seq<Event>): Slots
    decreases |events|
  {
    if |events| == 0 then s else RunHandOff(StepHandOff(s, max, events[0]), max, events[1..])
  }

  predicate LegalRunHandOff(s: Slots, max: int, events: seq<Event>)
    decreases |events|
  {
    |events| == 0 || (Legal(s, events[0]) && LegalRunHandOff(StepHandOff(s, max, events[0]), max, events[1..]))
  }

  /** The invariant of the corrected slots: the counter counts the holders
      and never exceeds the maximum, nobody waits while a slot is free, and
      every waiter waits once. */
  ghost predicate Bounded(s: Slots, max: int) {
    && s.active == |s.holders|
    && (s.active <= max || s.active == 0)
    && s.resuming == []
    && Distinct(s.waiters)
    && (forall i :: 0 <= i < |s.waiters| ==> s.waiters[i] !in s.holders)
    && (|s.waiters| > 0 ==> s.active >= max)
  }

  lemma InitialBounded(max: int)
    ensures Bounded(Initial, max)
  {
  }

  lemma BoundedStep(s: Slots, max: int, e: Event)
    requires Bounded(s, max) && Legal(s, e)
    ensures Bounded(StepHandOff(s, max, e), max)
  {
    match e
    case Acquire(op) =>
      if s.active >= max {
        var r := TryAcquire(s, max, op);
        forall i, j | 0 <= i < j < |r.waiters| ensures r.waiters[i] != r.waiters[j] {
          if j == |s.waiters| {
            assert r.waiters[j] == op && r.waiters[i] == s.waiters[i];
          }
        }
      }
    case Release(op) =>
      if |s.waiters| > 0 {
        var w := s.waiters[0];
        assert w !in s.holders;
        assert |s.holders - {op} + {w}| == |s.holders|;
        forall i | 0 <= i < |s.waiters| - 1 ensures s.waiters[1..][i] != w {
          assert s.waiters[1..][i] == s.waiters[i + 1];
        }
      } else {
        assert |s.holders - {op}| == |s.holders| - 1;
      }
    case Resume =>
  }

  /** Along any run of legal events the corrected slots stay bounded, and
      the wait list only loses its oldest entries and gains new ones at the
      back: waiters are served first come, first served. */
  lemma {:induction false} BoundedRun(s: Slots, max: int, events: seq<Event>)
    requires Bounded(s, max) && LegalRunHandOff(s, max, events)
    ensures Bounded(RunHandOff(s, max, events), max)
    ensures exists k :: 0 <= k <= |s.waiters| && IsPrefix(s.waiters[k..], RunHandOff(s, max, events).waiters)
    decreases |events|
  {
    if |events| == 0 {
      assert IsPrefix(s.waiters[0..], s.waiters);
    } else {
      var next := StepHandOff(s, max, events[0]);
      BoundedStep(s, max, events[0]);
      BoundedRun(next, max, events[1..]);
      var k :| 0 <= k <= |next.waiters| && IsPrefix(next.waiters[k..], RunHandOff(next, max, events[1..]).waiters);
      if events[0].Release? && |s.waiters| > 0 {
        assert next.waiters == s.waiters[1..];
        assert next.waiters[k..] == s.waiters[k + 1..];
      } else if events[0].Acquire? && s.active >= max {
        assert next.waiters == s.waiters + [events[0].op];
        if k <= |s.waiters| {
          assert IsPrefix(s.waiters[k..], next.waiters[k..]);
        } else {
          assert IsPrefix(s.waiters[|s.waiters|..], RunHandOff(s, max, events).waiters);
        }
      } else {
        assert next.waiters == s.waiters;
      }
    }
  }

  predicate IsPrefix(p: seq<OpId>, s: seq<OpId>) {
    |p| <= |s| && s[..|p|] == p
  }

  /** The same run that over-commits the code as written stays within the
      maximum once the slot is handed off. */
  lemma HandOffKeepsCap()
    ensures var events := [Acquire(1), Acquire(2), Release(1), Acquire(3)];
      && LegalRunHandOff(Initial, 1, events)
      && RunHandOff(Initial, 1, events) == Slots(1, [3], [], {2})
  {
    var events := [Acquire(1), Acquire(2), Release(1), Acquire(3)];
    var s1 := StepHandOff(Initial, 1, Acquire(1));
    var s2 := StepHandOff(s1, 1, Acquire(2));
    var s3 := StepHandOff(s2, 1, Release(1));
    assert s3 == Slots(1, [], [], {2});
    var s4 := StepHandOff(s3, 1, Acquire(3));
    assert s4 == Slots(1, [3], [], {2});
    assert events[1..] == [Acquire(2), Release(1), Acquire(3)];
    assert events[2..] == [Release(1), Acquire(3)];
    assert events[3..] == [Acquire(3)];
    assert RunHandOff(s4, 1, []) == s4;
  }

  datatype Option<T> = None | Some(value: T)

  /** `globalSendActive` and `globalSendWaiters` as the code writes them;
      `resuming` stands for the continuations that a release has woken and
      that the scheduler has not run yet. */
  class GlobalSendSlots {
    var active: int
    var waiters: seq<OpId>
    var resuming: seq<OpId>
    ghost var holders: set<OpId>
    const max: int

    ghost function State(): Slots
      reads this
    {
      Slots(active, waiters, resuming, holders)
    }

    constructor (maxConcurrency: int)
      ensures State() == Initial && max == maxConcurrency
    {
      max := maxConcurrency;
      active, waiters, resuming := 0, [], [];
      holders := {};
    }

    /** `acquireGlobalSendSlot` up to its `await`: true when the slot was
        taken at once, false when the caller now waits. */
    method Acquire(op: OpId) returns (granted: bool)
      modifies this
      ensures granted <==> old(active) < max
      ensures State() == TryAcquire(old(State()), max, op)
    {
      if active < max {
        active := active + 1;
        holders := holders + {op};
        return true;
      }
      waiters := waiters + [op];
      return false;
    }

    /** `releaseGlobalSendSlot`: returns the waiter it woke, if any. */
    method Release(op: OpId) returns (woken: Option<OpId>)
      modifies this
      ensures woken == if old(waiters) == [] then None else Some(old(waiters)[0])
      ensures State() == ReleaseAsWritten(old(State()), op)
    {
      active := if active - 1 < 0 then 0 else active - 1;
      holders := holders - {op};
      woken := None;
      if |waiters| > 0 {
        var next := waiters[0];
        waiters := waiters[1..];
        resuming := resuming + [next];
        woken := Some(next);
      }
    }

    /** The woken acquirer's continuation after its `await` (line 481). */
    method Resume() returns (op: OpId)
      requires resuming != []
      modifies this
      ensures op == old(resuming)[0]
      ensures State() == ResumeAsWritten(old(State()))
    {
      op := resuming[0];
      resuming := resuming[1..];
      active := active + 1;
      holders := holders + {op};
    }
  }
}
