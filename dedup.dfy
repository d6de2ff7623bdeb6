/** Inbound message de-duplication, `isDuplicate` (index.js:188-201): a table
    from the string form of a message id to the time it was first seen, purged
    of entries older than ten minutes whenever it holds more than a thousand.
    The clock is the parameter `now`. The source reads `Date.now()` twice,
    once for the new entry's stamp and once for the purge cutoff; the model
    uses the same `now` for both, so a clock that moves between the two
    reads is not modelled. */
module Dedup {
  import opened Text

  /** A `message_id` as it arrives in an event: missing, a number or a
      string. */
  datatype MsgId = Absent | Number(n: int) | Str(s: string)

  /** JavaScript truthiness of an id: missing, `0` and `""` are falsy. */
  predicate Truthy(id: MsgId) {
    match id
    case Absent => false
    case Number(n) => n != 0
    case Str(s) => s != ""
  }

  /** `String(msgId)` */
  function KeyOf(id: MsgId): string {
    match id
    case Absent => "undefined"
    case Number(n) => IntToString(n)
    case Str(s) => s
  }

  const PurgeAbove := 1000
  const MaxAgeMs := 600000

  /** The table without the entries stamped before `cutoff`. */
  function Purged(m: map<string, int>, cutoff: int): map<string, int> {
    map k | k in m && m[k] >= cutoff :: m[k]
  }

  /** The table after `key` is recorded at `now`. */
  function Recorded(m: map<string, int>, key: string, now: int): map<string, int> {
    var m1 := m[key := now];
    if |m1| > PurgeAbove then Purged(m1, now - MaxAgeMs) else m1
  }

  /** One call of `isDuplicate`: whether the id was seen, and the new table. */
  function Check(m: map<string, int>, id: MsgId, now: int): (bool, map<string, int>) {
    if !Truthy(id) then (false, m)
    else if KeyOf(id) in m then (true, m)
    else (false, Recorded(m, KeyOf(id), now))
  }

  /** A falsy id is never a duplicate and is not recorded. */
  lemma FalsyNeverDuplicate(m: map<string, int>, id: MsgId, now: int)
    requires !Truthy(id)
    ensures Check(m, id, now) == (false, m)
  {
  }

  /** An id still in the table is a duplicate and changes nothing. */
  lemma SeenIsDuplicate(m: map<string, int>, id: MsgId, now: int)
    requires Truthy(id) && KeyOf(id) in m
    ensures Check(m, id, now) == (true, m)
  {
  }

  /** On first sight the id is not a duplicate and it is recorded at `now`,
      whether or not the purge runs. */
  lemma FirstSightRecorded(m: map<string, int>, id: MsgId, now: int)
    requires Truthy(id) && KeyOf(id) !in m
    ensures var (dup, m') := Check(m, id, now);
      !dup && KeyOf(id) in m' && m'[KeyOf(id)] == now
  {
  }

  /** The purge: nothing is removed while the table holds at most a thousand
      entries after recording; when it runs it removes only entries older
      than `now - 600000` and every entry it keeps keeps its time stamp. */
  lemma PurgeOnlyOld(m: map<string, int>, key: string, now: int)
    ensures var m1 := m[key := now];
      var r := Recorded(m, key, now);
      && (|m1| <= PurgeAbove ==> r == m1)
      && (forall k :: k in r ==> k in m1 && r[k] == m1[k])
      && (forall k :: k in m1 && k !in r ==> m1[k] < now - MaxAgeMs)
      && (forall k :: k in m1 && m1[k] >= now - MaxAgeMs ==> k in r)
  {
  }

  /** Two deliveries of the same event: the first is let through, the
      second, at any later time, is dropped. */
  lemma SecondDeliveryDropped(m: map<string, int>, id: MsgId, t1: int, t2: int)
    requires Truthy(id)
    ensures var (dup1, m1) := Check(m, id, t1);
      var (dup2, m2) := Check(m1, id, t2);
      dup2 && m2 == m1 && (KeyOf(id) !in m ==> !dup1)
  {
    if KeyOf(id) !in m {
      FirstSightRecorded(m, id, t1);
    }
  }

  /** The key is the string form of the id, so a numeric id and the string of
      its digits are the same message. */
  lemma NumberAndStringShareKey(m: map<string, int>, n: nat, t1: int, t2: int)
    requires n > 0 && NatToString(n) !in m
    ensures var (_, m1) := Check(m, Number(n), t1);
      Check(m1, Str(NatToString(n)), t2).0
  {
    FirstSightRecorded(m, Number(n), t1);
  }

  /** The `processedMsgIds` map. */
  class DedupTable {
    var processed: map<string, int>

    constructor ()
      ensures processed == map[]
    {
      processed := map[];
    }

    /** `isDuplicate(msgId)` with the clock read once as `now`. */
    method IsDuplicate(id: MsgId, now: int) returns (dup: bool)
      modifies this
      ensures (dup, processed) == Check(old(processed), id, now)
    {
      if !Truthy(id) {
        return false;
      }
      var key := KeyOf(id);
      if key in processed {
        return true;
      }
      processed := processed[key := now];
      if |processed| > PurgeAbove {
        PurgeOlderThan(now - MaxAgeMs);
      }
      return false;
    }

    /** The purge loop: visit every entry and delete those stamped before
        `cutoff`. */
    method PurgeOlderThan(cutoff: int)
      modifies this
      ensures processed == Purged(old(processed), cutoff)
    {
      ghost var start := processed;
      var keys := processed.Keys;
      while keys != {}
        invariant keys <= start.Keys
        invariant forall k :: k in processed <==> k in start && (k in keys || start[k] >= cutoff)
        invariant forall k :: k in processed ==> processed[k] == start[k]
        decreases |keys|
      {
        var k :| k in keys;
        if processed[k] < cutoff {
          processed := processed - {k};
        }
        keys := keys - {k};
      }
      assert processed == Purged(start, cutoff);
    }
  }
}
