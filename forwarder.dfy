/** The session-output forwarder's decision for each assistant message it
    finds in a transcript (index.js:120-137): a message whose key was
    already handled is skipped; a message whose text the bridge itself sent
    for that session less than 15 s earlier is marked handled but not sent
    (echo suppression); anything else is marked handled and sent. The
    bridge remembers each reply it sends itself (index.js:988-990) and
    forgets everything when the forwarder stops (index.js:181-183). File
    reading, JSON parsing and the SHA-1 fallback signature happen before
    this step; the clock is a field of each entry. */
module Forwarder {

  const MaxRecentMs := 15000

  /** `recentlySentTexts` entry: the reply text and when it was sent. */
  datatype Recent = Recent(text: string, atMs: int)

  /** One extracted assistant message: its signature, its text, and the
      clock reading when the forwarder looks at it. */
  datatype Entry = Entry(sig: string, text: string, now: int)

  datatype Decision = AlreadyForwarded | Suppressed | Forwarded

  /** The `${fileId}:${sig}` key of a message. */
  function UniqueKey(fileId: string, sig: string): string {
    fileId + ":" + sig
  }

  /** The echo check: the same text was sent for this session less than
      `MaxRecentMs` before `now`. */
  predicate WasJustSent(recent: map<string, Recent>, sessionKey: string, text: string, now: int) {
    sessionKey in recent && now - recent[sessionKey].atMs < MaxRecentMs && recent[sessionKey].text == text
  }

  function Decide(forwarded: set<string>, recent: map<string, Recent>, key: string, sessionKey: string, text: string, now: int): Decision {
    if key in forwarded then AlreadyForwarded
    else if WasJustSent(recent, sessionKey, text, now) then Suppressed
    else Forwarded
  }

  /** The texts a batch of entries sends, given the keys already handled. */
  function SentTexts(forwarded: set<string>, recent: map<string, Recent>, fileId: string, sessionKey: string, entries: seq<Entry>): seq<string>
    decreases |entries|
  {
    if |entries| == 0 then []
    else
      var e := entries[0];
      var key := UniqueKey(fileId, e.sig);
      var d := Decide(forwarded, recent, key, sessionKey, e.text, e.now);
      (if d == Forwarded then [e.text] else [])
      + SentTexts(forwarded + {key}, recent, fileId, sessionKey, entries[1..])
  }

  /** The keys of a batch. */
  function Keys(fileId: string, entries: seq<Entry>): set<string> {
    set e | e in entries :: UniqueKey(fileId, e.sig)
  }

  /** A reply just sent suppresses its echo for exactly 15 s: up to
      14999 ms later the same text is suppressed, from 15000 ms on it is
      forwarded again. */
  lemma EchoWindow(recent: map<string, Recent>, sessionKey: string, text: string, sentAt: int, now: int)
    ensures WasJustSent(recent[sessionKey := Recent(text, sentAt)], sessionKey, text, now) <==> now - sentAt < MaxRecentMs
  {
  }

  /** Only the same text is suppressed. */
  lemma OtherTextForwarded(recent: map<string, Recent>, key: string, sessionKey: string, sent: string, text: string, sentAt: int, now: int)
    requires sent != text
    ensures Decide({}, recent[sessionKey := Recent(sent, sentAt)], key, sessionKey, text, now) == Forwarded
  {
  }

  /** Once handled, a message is never sent again, so re-reading the same
      lines (a restart of the watcher without `stop`, a repeated file event)
      sends nothing. */
  lemma {:induction false} HandledNotResent(forwarded: set<string>, recent: map<string, Recent>, fileId: string, sessionKey: string, entries: seq<Entry>)
    requires Keys(fileId, entries) <= forwarded
    ensures SentTexts(forwarded, recent, fileId, sessionKey, entries) == []
    decreases |entries|
  {
    if |entries| > 0 {
      assert entries[0] in entries;
      assert Keys(fileId, entries[1..]) <= Keys(fileId, entries);
      HandledNotResent(forwarded + {UniqueKey(fileId, entries[0].sig)}, recent, fileId, sessionKey, entries[1..]);
    }
  }

  /** A batch sends at most one message per entry, and a batch whose
      entries share one key sends at most one. */
  lemma {:induction false} AtMostOncePerKey(forwarded: set<string>, recent: map<string, Recent>, fileId: string, sessionKey: string, entries: seq<Entry>, sig: string)
    requires forall k :: 0 <= k < |entries| ==> entries[k].sig == sig
    ensures |SentTexts(forwarded, recent, fileId, sessionKey, entries)| <= 1
    ensures UniqueKey(fileId, sig) in forwarded ==> SentTexts(forwarded, recent, fileId, sessionKey, entries) == []
    decreases |entries|
  {
    if |entries| > 0 {
      var key := UniqueKey(fileId, sig);
      var rest := entries[1..];
      assert Keys(fileId, rest) <= forwarded + {key} by {
        forall x | x in Keys(fileId, rest) ensures x in forwarded + {key} {
          var e :| e in rest && x == UniqueKey(fileId, e.sig);
          var j :| 0 <= j < |rest| && rest[j] == e;
          assert entries[j + 1] == e;
        }
      }
      HandledNotResent(forwarded + {key}, recent, fileId, sessionKey, rest);
    }
  }

  lemma SentTextsStep(forwarded: set<string>, recent: map<string, Recent>, fileId: string, sessionKey: string, entries: seq<Entry>, i: nat)
    requires i < |entries|
    ensures var e := entries[i];
      var key := UniqueKey(fileId, e.sig);
      SentTexts(forwarded, recent, fileId, sessionKey, entries[i..])
      == (if Decide(forwarded, recent, key, sessionKey, e.text, e.now) == Forwarded then [e.text] else [])
         + SentTexts(forwarded + {key}, recent, fileId, sessionKey, entries[i + 1..])
  {
    assert entries[i..][1..] == entries[i + 1..];
  }

  lemma KeysStep(fileId: string, entries: seq<Entry>, i: nat)
    requires i < |entries|
    ensures Keys(fileId, entries[..i + 1]) == Keys(fileId, entries[..i]) + {UniqueKey(fileId, entries[i].sig)}
  {
    assert entries[..i + 1] == entries[..i] + [entries[i]];
  }

  /** The loop over the extracted messages of one read: the texts it sends
      and the keys handled afterwards. */
  method ForwardLoop(forwarded: set<string>, recent: map<string, Recent>, fileId: string, sessionKey: string, entries: seq<Entry>)
    returns (sent: seq<string>, handled: set<string>)
    ensures sent == SentTexts(forwarded, recent, fileId, sessionKey, entries)
    ensures handled == forwarded + Keys(fileId, entries)
  {
    sent := [];
    handled := forwarded;
    var i := 0;
    while i < |entries|
      invariant 0 <= i <= |entries|
      invariant handled == forwarded + Keys(fileId, entries[..i])
      invariant sent + SentTexts(handled, recent, fileId, sessionKey, entries[i..])
        == SentTexts(forwarded, recent, fileId, sessionKey, entries)
    {
      var e := entries[i];
      var key := UniqueKey(fileId, e.sig);
      ghost var handledBefore, sentBefore := handled, sent;
      if key !in handled {
        handled := handled + {key};
        if !WasJustSent(recent, sessionKey, e.text, e.now) {
          sent := sent + [e.text];
        }
      }
      ForwardStep(forwarded, recent, fileId, sessionKey, entries, i, handledBefore, sentBefore, handled, sent);
      i := i + 1;
    }
    assert entries[..|entries|] == entries;
  }

  /** One turn of the forward loop keeps its invariant. */
  lemma ForwardStep(forwarded: set<string>, recent: map<string, Recent>, fileId: string, sessionKey: string, entries: seq<Entry>, i: nat,
                    handled: set<string>, sent: seq<string>, handled': set<string>, sent': seq<string>)
    requires i < |entries|
    requires handled == forwarded + Keys(fileId, entries[..i])
    requires sent + SentTexts(handled, recent, fileId, sessionKey, entries[i..]) == SentTexts(forwarded, recent, fileId, sessionKey, entries)
    requires var key := UniqueKey(fileId, entries[i].sig);
      handled' == (if key in handled then handled else handled + {key})
    requires var e := entries[i];
      sent' == sent + (if Decide(handled, recent, UniqueKey(fileId, e.sig), sessionKey, e.text, e.now) == Forwarded then [e.text] else [])
    ensures handled' == forwarded + Keys(fileId, entries[..i + 1])
    ensures sent' + SentTexts(handled', recent, fileId, sessionKey, entries[i + 1..]) == SentTexts(forwarded, recent, fileId, sessionKey, entries)
  {
    var e := entries[i];
    var key := UniqueKey(fileId, e.sig);
    SentTextsStep(handled, recent, fileId, sessionKey, entries, i);
    KeysStep(fileId, entries, i);
    assert handled' == handled + {key};
    var added := if Decide(handled, recent, key, sessionKey, e.text, e.now) == Forwarded then [e.text] else [];
    var rest := SentTexts(handled', recent, fileId, sessionKey, entries[i + 1..]);
    assert sent' + rest == sent + (added + rest);
  }

  /** `recentlySentTexts` and `forwardedSignatures`. */
  class EchoGuard {
    var recent: map<string, Recent>
    var forwarded: set<string>

    constructor ()
      ensures recent == map[] && forwarded == {}
    {
      recent := map[];
      forwarded := {};
    }

    /** The reply path marks a reply it sends as recently sent. */
    method Remember(sessionKey: string, text: string, now: int)
      modifies this
      ensures recent == old(recent)[sessionKey := Recent(text, now)] && forwarded == old(forwarded)
    {
      recent := recent[sessionKey := Recent(text, now)];
    }

    /** `stopSessionForwarder` forgets both. */
    method Stop()
      modifies this
      ensures recent == map[] && forwarded == {}
    {
      recent := map[];
      forwarded := {};
    }

    /** One read's worth of extracted messages, against this guard. */
    method ForwardBatch(fileId: string, sessionKey: string, entries: seq<Entry>) returns (sent: seq<string>)
      modifies this
      ensures sent == SentTexts(old(forwarded), recent, fileId, sessionKey, entries)
      ensures forwarded == old(forwarded) + Keys(fileId, entries)
      ensures recent == old(recent)
    {
      sent, forwarded := ForwardLoop(forwarded, recent, fileId, sessionKey, entries);
    }
  }

  /** The scenario of a reply sent at time 0: the transcript copy of the
      same text is suppressed when it is read at once and forwarded when it
      is first read 16 s later. */
  method EchoScenario() returns (atOnce: seq<string>, later: seq<string>)
    ensures atOnce == [] && later == ["hi"]
  {
    var g := new EchoGuard();
    g.Remember("agent:main:openresponses-user:qq_1", "hi", 0);
    var key := "agent:main:openresponses-user:qq_1";
    atOnce := g.ForwardBatch("f", key, [Entry("s1", "hi", 0)]);
    assert WasJustSent(g.recent, key, "hi", 0);
    assert [Entry("s1", "hi", 0)][1..] == [];
    assert g.forwarded == {"f:s1"} by {
      assert Entry("s1", "hi", 0) in [Entry("s1", "hi", 0)];
      assert forall x :: x in Keys("f", [Entry("s1", "hi", 0)]) ==> x == "f:s1";
    }
    later := g.ForwardBatch("f", key, [Entry("s2", "hi", 16000)]);
    assert UniqueKey("f", "s2") !in {"f:s1"} by {
      assert UniqueKey("f", "s2")[3] != "f:s1"[3];
    }
    assert [Entry("s2", "hi", 16000)][1..] == [];
  }
}
