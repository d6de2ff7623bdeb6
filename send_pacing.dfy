/** Per-conversation pacing of the outbound send queue (index.js:466-556):
    the stats record kept for each context key, the adaptive delay that grows
    after a failed send and relaxes after every fifth success, the pause taken
    after each send, and the classification of a failure as a timeout or
    another error. Floating-point products are written as exact rationals;
    `Math.round` is rounding half up. */
module SendPacing {
  import opened Text

  /** `Math.round(n / d)`: the nearest integer, halves rounded up. */
  function RoundHalfUp(n: int, d: int): (r: int)
    requires d > 0
    ensures 2 * d * r - d <= 2 * n < 2 * d * r + d
  {
    (2 * n + d) / (2 * d)
  }

  function Min(a: int, b: int): int { if a <= b then a else b }
  function Max(a: int, b: int): int { if a >= b then a else b }

  /** The send-queue settings after `Number(cfg.x || default)`, for
      settings that are integers: an absent or zero setting takes its
      default, any other is used as given. */
  datatype Config = Config(maxConcurrency: int, delayStartMs: int, delayMinMs: int, delayMaxMs: int)

  function OrDefault(raw: Option, default: int): (v: int)
    ensures raw.None? || raw.value == 0 ==> v == default
    ensures raw.Some? && raw.value != 0 ==> v == raw.value
  {
    if raw.None? || raw.value == 0 then default else raw.value
  }

  datatype Option = None | Some(value: int)

  function ResolveConfig(maxConcurrency: Option, delayStartMs: Option, delayMinMs: Option, delayMaxMs: Option): (c: Config)
    ensures maxConcurrency.None? && delayStartMs.None? && delayMinMs.None? && delayMaxMs.None?
      ==> c == Config(2, 1200, 600, 3500)
    ensures c.maxConcurrency != 0 && c.delayStartMs != 0 && c.delayMinMs != 0 && c.delayMaxMs != 0
    ensures maxConcurrency.None? || maxConcurrency.value == 0 ==> c.maxConcurrency == 2
    ensures delayStartMs.None? || delayStartMs.value == 0 ==> c.delayStartMs == 1200
    ensures delayMinMs.None? || delayMinMs.value == 0 ==> c.delayMinMs == 600
    ensures delayMaxMs.None? || delayMaxMs.value == 0 ==> c.delayMaxMs == 3500
    ensures maxConcurrency.Some? && maxConcurrency.value != 0 ==> c.maxConcurrency == maxConcurrency.value
    ensures delayStartMs.Some? && delayStartMs.value != 0 ==> c.delayStartMs == delayStartMs.value
    ensures delayMinMs.Some? && delayMinMs.value != 0 ==> c.delayMinMs == delayMinMs.value
    ensures delayMaxMs.Some? && delayMaxMs.value != 0 ==> c.delayMaxMs == delayMaxMs.value
  {
    Config(OrDefault(maxConcurrency, 2), OrDefault(delayStartMs, 1200),
           OrDefault(delayMinMs, 600), OrDefault(delayMaxMs, 3500))
  }

  /** A configuration whose start delay lies between its bounds. */
  predicate Sane(c: Config) {
    0 <= c.delayMinMs <= c.delayStartMs <= c.delayMaxMs
  }

  /** How a finished send is counted: success, a failure whose message
      mentions "timeout" (in any case), or another failure. */
  datatype Outcome = Ok | Timeout | Err

  function ClassifyFailure(message: string): (o: Outcome)
    ensures o != Ok
  {
    if ContainsIgnoreCase(message, "timeout") then Timeout else Err
  }

  /** The value of one `{delayMs, ok, timeout, err}` record. */
  datatype Stats = Stats(delayMs: int, ok: nat, timeout: nat, err: nat)

  function Fresh(c: Config): Stats {
    Stats(c.delayStartMs, 0, 0, 0)
  }

  /** `adaptDelay` on the value of a record (index.js:504-514). */
  function Adapt(st: Stats, outcome: Outcome, c: Config): Stats {
    match outcome
    case Timeout =>
      st.(timeout := st.timeout + 1,
          delayMs := Min(c.delayMaxMs, RoundHalfUp(135 * st.delayMs + 15000, 100)))
    case Err =>
      st.(err := st.err + 1,
          delayMs := Min(c.delayMaxMs, RoundHalfUp(115 * st.delayMs + 5000, 100)))
    case Ok =>
      var ok := st.ok + 1;
      st.(ok := ok,
          delayMs := if ok % 5 == 0 then Max(c.delayMinMs, RoundHalfUp(92 * st.delayMs, 100)) else st.delayMs)
  }

  /** A failure counts in its own counter, never lowers a delay that is at
      most the maximum, never raises it above the maximum, and raises it
      strictly while it is below the maximum. */
  lemma FailureSlowsDown(st: Stats, outcome: Outcome, c: Config)
    requires outcome != Ok
    requires 0 <= st.delayMs <= c.delayMaxMs
    ensures var r := Adapt(st, outcome, c);
      && st.delayMs <= r.delayMs <= c.delayMaxMs
      && (st.delayMs < c.delayMaxMs ==> st.delayMs < r.delayMs)
      && r.ok == st.ok
      && (outcome == Timeout ==> r.timeout == st.timeout + 1 && r.err == st.err)
      && (outcome == Err ==> r.err == st.err + 1 && r.timeout == st.timeout)
  {
  }

  /** A success counts in `ok`; the delay changes only on every fifth
      success, and then it shrinks but never below the minimum. */
  lemma SuccessRelaxes(st: Stats, c: Config)
    requires 0 <= c.delayMinMs <= st.delayMs
    ensures var r := Adapt(st, Ok, c);
      && r.ok == st.ok + 1 && r.timeout == st.timeout && r.err == st.err
      && c.delayMinMs <= r.delayMs <= st.delayMs
      && (r.delayMs != st.delayMs ==> r.ok % 5 == 0)
      && (r.ok % 5 == 0 && st.delayMs > c.delayMinMs && st.delayMs >= 7 ==> r.delayMs < st.delayMs)
  {
  }

  /** The delay after any run of outcomes, starting from a record. */
  function AdaptAll(st: Stats, outcomes: seq<Outcome>, c: Config): Stats
    decreases |outcomes|
  {
    if |outcomes| == 0 then st else AdaptAll(Adapt(st, outcomes[0], c), outcomes[1..], c)
  }

  function CountOf(outcomes: seq<Outcome>, o: Outcome): nat {
    if |outcomes| == 0 then 0
    else (if outcomes[0] == o then 1 else 0) + CountOf(outcomes[1..], o)
  }

  /** Whatever the outcomes, a delay that starts between the bounds stays
      between them, and each counter counts its own outcomes. */
  lemma {:induction false} DelayStaysClamped(st: Stats, outcomes: seq<Outcome>, c: Config)
    requires 0 <= c.delayMinMs <= st.delayMs <= c.delayMaxMs
    ensures var r := AdaptAll(st, outcomes, c);
      && c.delayMinMs <= r.delayMs <= c.delayMaxMs
      && r.ok == st.ok + CountOf(outcomes, Ok)
      && r.timeout == st.timeout + CountOf(outcomes, Timeout)
      && r.err == st.err + CountOf(outcomes, Err)
    decreases |outcomes|
  {
    if |outcomes| > 0 {
      var o := outcomes[0];
      if o == Ok {
        SuccessRelaxes(st, c);
      } else {
        FailureSlowsDown(st, o, c);
      }
      DelayStaysClamped(Adapt(st, o, c), outcomes[1..], c);
    }
  }

  /** Consecutive failures never lower the delay. */
  lemma {:induction false} FailuresNeverSpeedUp(st: Stats, outcomes: seq<Outcome>, c: Config)
    requires 0 <= st.delayMs <= c.delayMaxMs
    requires forall i :: 0 <= i < |outcomes| ==> outcomes[i] != Ok
    ensures st.delayMs <= AdaptAll(st, outcomes, c).delayMs <= c.delayMaxMs
    decreases |outcomes|
  {
    if |outcomes| > 0 {
      FailureSlowsDown(st, outcomes[0], c);
      FailuresNeverSpeedUp(Adapt(st, outcomes[0], c), outcomes[1..], c);
    }
  }

  /** The relaxing step counts successes cumulatively, not consecutively: a
      success straight after a failure can shrink the delay. */
  lemma RelaxAfterFailure()
    ensures var c := Config(2, 1200, 600, 3500);
      var st := AdaptAll(Stats(1200, 4, 0, 0), [Err], c);
      AdaptAll(st, [Ok], c).delayMs < st.delayMs
  {
    var c := Config(2, 1200, 600, 3500);
    var st := AdaptAll(Stats(1200, 4, 0, 0), [Err], c);
    assert st == Adapt(Stats(1200, 4, 0, 0), Err, c);
    assert st.delayMs == 1430;
    assert AdaptAll(st, [Ok], c) == Adapt(st, Ok, c);
  }

  /** The pause after each send: `min(500, max(0, round(delayMs * 0.15)))`. */
  function PacingSleepMs(delayMs: int): (ms: int)
    ensures 0 <= ms <= 500
    ensures 0 <= delayMs <= 3330 ==> 200 * ms - 100 <= 30 * delayMs < 200 * ms + 100
  {
    Min(500, Max(0, RoundHalfUp(15 * delayMs, 100)))
  }

  lemma PacingSleepMonotone(d1: int, d2: int)
    requires d1 <= d2
    ensures PacingSleepMs(d1) <= PacingSleepMs(d2)
  {
    assert RoundHalfUp(15 * d1, 100) <= RoundHalfUp(15 * d2, 100);
  }

  /** With the default bounds the pause lies between 90 and 500 ms. */
  lemma PacingSleepWithinDefaults(delayMs: int)
    requires 600 <= delayMs <= 3500
    ensures 90 <= PacingSleepMs(delayMs) <= 500
  {
  }

  /** One `{delayMs, ok, timeout, err}` object; `adaptDelay` writes its fields. */
  class SendStats {
    var delayMs: int
    var ok: nat
    var timeout: nat
    var err: nat

    constructor (delayMs: int)
      ensures this.delayMs == delayMs && ok == 0 && timeout == 0 && err == 0
    {
      this.delayMs := delayMs;
      ok, timeout, err := 0, 0, 0;
    }

    function Value(): Stats
      reads this
    {
      Stats(delayMs, ok, timeout, err)
    }
  }

  /** `sendStatsByContext` with the functions that read and update it. */
  class SendStatsTable {
    var byContext: map<string, SendStats>
    const cfg: Config

    /** Every key owns its own record. */
    ghost predicate Valid()
      reads this
    {
      forall k1, k2 :: k1 in byContext && k2 in byContext && k1 != k2 ==> byContext[k1] != byContext[k2]
    }

    ghost function View(): map<string, Stats>
      reads this, byContext.Values
    {
      map k | k in byContext :: byContext[k].Value()
    }

    constructor (cfg: Config)
      ensures Valid() && this.cfg == cfg && byContext == map[]
    {
      this.cfg := cfg;
      byContext := map[];
    }

    /** `getSendStats`: the empty key gets a fresh default record that is not
        stored; any other key gets its stored record, created on first use
        with the configured start delay. */
    method GetSendStats(ctxKey: string) returns (st: SendStats)
      requires Valid()
      modifies this
      ensures Valid()
      ensures ctxKey == "" ==> fresh(st) && st.Value() == Stats(1200, 0, 0, 0) && byContext == old(byContext)
      ensures ctxKey != "" && ctxKey in old(byContext) ==> st == old(byContext)[ctxKey] && byContext == old(byContext)
      ensures ctxKey != "" && ctxKey !in old(byContext) ==>
        fresh(st) && st.Value() == Fresh(cfg) && byContext == old(byContext)[ctxKey := st]
      ensures View() == if ctxKey == "" || ctxKey in old(byContext) then old(View()) else old(View())[ctxKey := Fresh(cfg)]
    {
      if ctxKey == "" {
        st := new SendStats(1200);
        return;
      }
      if ctxKey !in byContext {
        var created := new SendStats(cfg.delayStartMs);
        byContext := byContext[ctxKey := created];
      }
      st := byContext[ctxKey];
    }

    /** `adaptDelay`: the record of `ctxKey` (created if missing) takes the
        next value; every other record is left as it was. */
    method AdaptDelay(ctxKey: string, outcome: Outcome)
      requires Valid()
      modifies this, byContext.Values
      ensures Valid()
      ensures ctxKey == "" ==> View() == old(View())
      ensures ctxKey != "" ==> View() == old(View())[ctxKey :=
        Adapt(if ctxKey in old(View()) then old(View())[ctxKey] else Fresh(cfg), outcome, cfg)]
    {
      var st := GetSendStats(ctxKey);
      ghost var before := View();
      Update(st, outcome);
      forall k | k in byContext && byContext[k] != st
        ensures byContext[k].Value() == before[k]
      {
      }
      if ctxKey == "" {
        assert View() == before;
      } else {
        assert View() == before[ctxKey := st.Value()];
      }
    }

    /** The field updates of `adaptDelay` on one record (index.js:504-514). */
    method Update(st: SendStats, outcome: Outcome)
      modifies st
      ensures st.Value() == Adapt(old(st.Value()), outcome, cfg)
    {
      var min := cfg.delayMinMs;
      var max := cfg.delayMaxMs;
      if outcome == Timeout {
        st.timeout := st.timeout + 1;
        st.delayMs := Min(max, RoundHalfUp(st.delayMs * 135 + 15000, 100));
      } else if outcome == Err {
        st.err := st.err + 1;
        st.delayMs := Min(max, RoundHalfUp(st.delayMs * 115 + 5000, 100));
      } else {
        st.ok := st.ok + 1;
        if st.ok % 5 == 0 {
          st.delayMs := Max(min, RoundHalfUp(st.delayMs * 92, 100));
        }
      }
    }
  }
}
