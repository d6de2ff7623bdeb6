# openclaw-qq delivery core in Dafny

This project models the delivery core of the openclaw-qq bridge. The bridge
connects a QQ chat gateway (NapCat, speaking OneBot v11 over one WebSocket)
to an OpenClaw agent. The model covers the following parts. Time, the socket
and timers become parameters and events.

- **Global send slots** (`SendSlots`): the in-flight counter capped at
  `maxConcurrency`, with its FIFO list of waiting acquirers. It is modelled
  as written, which can over-commit (see Findings), and as a corrected
  hand-off version.
- **Per-conversation pacing** (`SendPacing`): the `{delayMs, ok, timeout, err}`
  record for each context key. Its delay grows after failures and relaxes on
  every fifth success, clamped to `[delayMinMs, delayMaxMs]`. This module
  also holds the pause taken after each send and the timeout/error
  classification of a failure. `Math.round` is computed exactly, rounding
  halves up.
- **Delivery queue** (`DeliveryQueue`): `enqueueSend` as a sequential machine
  over submit, finish and settle events. Each key has one lane whose head is
  the only operation under way. The lanes share the corrected global slots.
- **Inbound dedup** (`Dedup`): `isDuplicate` over the `processedMsgIds` table,
  with its purge loop.
- **RPC correlator** (`Rpc`): `napcatCall` and the echo branch of the message
  handler, as a pending table keyed by echo token, where the first terminal
  event wins.
- **Heartbeat** (`Heartbeat`): the tick decision "terminate iff no pong for
  more than 90 s or no frame for more than 5 min", and the timestamp updates.
- **Pure helpers**: `qqTargetFromSessionKey`, `contextKey` and
  `deriveContextKey` (`Routing`); `buildSegments` (`Segments`);
  `extractAssistantTextFromJsonlLine` (`Transcript`); and the forwarder's
  echo suppression (`Forwarder`).
- **`/pixiv` command parser** (`CommandParser`): `parsePixivCommand` and
  `clamp`. They use the JavaScript string primitives in `Text` and
  `Number(string)` in `JsNumber`.
- **Favourites store** (`Favs`): `FavStore.list`, `addMany` and `remove` over
  the parsed JSON object.

Three behaviours one might expect from the bridge differ from what the
code does, and the model follows the code:

- One might expect an id to count as a duplicate only within a retention
  window. The code keeps an id until a purge runs, and a purge runs only
  when the table holds more than 1000 entries. So under light traffic an id
  stays a duplicate indefinitely (`Dedup.SeenIsDuplicate` has no time
  condition).
- One might expect the delay to shrink only after 5 *consecutive*
  successes. The code counts successes cumulatively, so a success right
  after a failure can shrink the delay (`SendPacing.RelaxAfterFailure`).
- The cap `GLOBAL_SEND_MAX_CONCURRENCY` is meant to bound the sends in
  flight. The code as written can exceed it (see Findings).

## Model

| member | source | states |
|---|---|---|
| SendSlots.TryAcquire | index.js:475-482 | the slot is taken and the counter incremented (to at most max) exactly when the counter is below max; otherwise the acquirer joins the back of the waiters and the counter is unchanged |
| SendSlots.GlobalSendSlots.Acquire | index.js:475-480 | reports whether the slot was granted at once (iff the counter was below max), and the new counter and wait list are those of TryAcquire |
| SendSlots.GlobalSendSlots.Release | index.js:484-488 | the counter drops with a floor of 0, and exactly the oldest waiter (if any) is shifted out, woken and returned |
| SendSlots.GlobalSendSlots.Resume | index.js:480-481 | the woken acquirer's continuation increments the counter and becomes a holder |
| SendSlots.AccountedAsWritten | index.js:475-488 | the code as written keeps the counter equal to the number of slot holders, and keeps every waiter distinct and not a holder |
| SendSlots.OverCommitAsWritten | index.js:475-488 | with max 1, the legal run A acquires, B waits, A releases, C acquires, then B resumes ends with two holders and a counter of 2 |
| SendSlots.ReleaseHandOff | index.js:484-488 | corrected release: with a waiter, the slot passes to the oldest waiter and the counter stays; without one, the counter drops (floor 0) |
| SendSlots.InitialBounded | index.js:472-473 | the empty slot state satisfies the bounded invariant |
| SendSlots.BoundedStep | index.js:475-488 | every legal acquire or release keeps the counter equal to the holders and at most max, with no waiter while a slot is free |
| SendSlots.BoundedRun | index.js:475-488 | along any legal run the slots stay bounded, and the wait list only loses its oldest entries and gains new ones at the back (FIFO service) |
| SendSlots.HandOffKeepsCap | index.js:475-488 | the run that over-commits the code as written leaves one holder and one waiter under the hand-off release |
| SendPacing.RoundHalfUp | index.js:506 | the result is the nearest integer to n/d, with halves rounded up (Math.round) |
| SendPacing.ResolveConfig | index.js:470-503 | with no settings the queue uses 2 slots and delays 1200/600/3500 ms; an absent or zero integer setting takes its default, and any other integer setting is used as given |
| SendPacing.ClassifyFailure | index.js:538-540 | a failure is always counted as a timeout or an error, never as a success |
| SendPacing.FailureSlowsDown | index.js:504-510 | a timeout or error outcome bumps its own counter only, never lowers a delay that is at most max, never exceeds max, and strictly raises a delay below max |
| SendPacing.SuccessRelaxes | index.js:510-514 | a success bumps ok only; the delay changes only when ok becomes a multiple of 5, never goes below min, never rises, and does shrink on a 5th success above min |
| SendPacing.DelayStaysClamped | index.js:500-515 | after any sequence of outcomes a delay starting in [min, max] stays in [min, max], and each counter counts exactly its outcomes |
| SendPacing.FailuresNeverSpeedUp | index.js:504-510 | a run of consecutive failures never lowers the delay and never takes it above max |
| SendPacing.RelaxAfterFailure | index.js:511-513 | the 5th cumulative success shrinks the delay even right after an error (successes are not counted consecutively) |
| SendPacing.PacingSleepMs | index.js:547-548 | the post-send pause lies in [0, 500] ms and is round(delay x 0.15) when that is below the cap |
| SendPacing.PacingSleepMonotone | index.js:548 | a larger delay never gives a shorter pause |
| SendPacing.PacingSleepWithinDefaults | index.js:548 | with the default delay bounds the pause is between 90 and 500 ms |
| SendPacing.SendStatsTable.GetSendStats | index.js:490-498 | the empty key gets a fresh unstored default record; a stored key returns its same record; a new key gets a stored record with the start delay and zero counters, and no other entry changes |
| SendPacing.SendStatsTable.AdaptDelay | index.js:500-515 | the key's record (created if missing) takes the adapted value and every other key's record is unchanged |
| SendPacing.SendStatsTable.Update | index.js:504-514 | the field updates on one record produce exactly the adapted value |
| DeliveryQueue.EmptyInv | index.js:466-473 | the empty queue satisfies the queue invariant |
| DeliveryQueue.SubmitInv | index.js:525-530 | enqueueing a new operation keeps the invariant: it joins the back of its lane and starts only when the lane was idle |
| DeliveryQueue.FinishInv | index.js:531-548 | finishing a running operation (any outcome) releases its slot to the oldest waiter and keeps the invariant |
| DeliveryQueue.SettleInv | index.js:528-553 | settling after the pause removes the head and starts the next operation of the lane, whatever the outcome, keeping the invariant |
| DeliveryQueue.StepInv | index.js:525-556 | every allowed event preserves the queue invariant |
| DeliveryQueue.RunInv | index.js:525-556 | the invariant holds after any legal run of events |
| DeliveryQueue.AtMostOneUnderWay | index.js:526-530 | under the invariant at most one operation per key is waiting, running or cooling |
| DeliveryQueue.RunSafe | index.js:525-556 | after any legal run from empty: at most one operation per key is under way and at most maxConcurrency operations hold a slot |
| DeliveryQueue.LaneOrder | index.js:526-554 | across any legal run a lane only loses operations at its front and gains them at its back, so operations for one key run in submission order |
| DeliveryQueue.ThirdWaits | index.js:475-482 | with cap 2, three sends for three keys: the first two run at once and the third waits |
| DeliveryQueue.ThirdTakesFreedSlot | index.js:531-548 | when the first of them times out, its delay grows from 1200 to 1770 ms and the waiting third send runs |
| DeliveryQueue.FailureKeepsLaneGoing | index.js:528-530 | a failed operation does not break its lane: after it settles the next operation for the key runs |
| Dedup.FalsyNeverDuplicate | index.js:190 | a falsy id is never a duplicate and is not recorded |
| Dedup.SeenIsDuplicate | index.js:191-192 | an id whose string form is stored is a duplicate and the table is unchanged |
| Dedup.FirstSightRecorded | index.js:193-200 | on first sight the id is not a duplicate and is recorded at now, even when the purge runs |
| Dedup.PurgeOnlyOld | index.js:194-199 | nothing is removed while the table holds at most 1000 entries; a purge removes only entries older than now-600000, keeps every newer one, and keeps their timestamps |
| Dedup.SecondDeliveryDropped | index.js:189-201 | of two deliveries of the same truthy id, the second is a duplicate that changes nothing, and the first is not a duplicate when the id was new |
| Dedup.NumberAndStringShareKey | index.js:191 | a numeric id and the string of its digits are the same message |
| Dedup.DedupTable.IsDuplicate | index.js:189-201 | the result and the new table are those of the dedup check on the old table |
| Dedup.DedupTable.PurgeOlderThan | index.js:195-198 | the deleting loop leaves exactly the entries stamped at or after the cutoff |
| Heartbeat.Decide | index.js:363-381 | a tick does nothing iff stopped, no socket, or not open; it terminates only on an open socket |
| Heartbeat.PongWindowIsStrict | index.js:357-376 | after start at t0 with no pong, ticks up to and including t0+90000 do not terminate and any later one does |
| Heartbeat.IdleDespitePongs | index.js:374-376 | more than 5 minutes without a frame forces a reconnect even with a fresh pong |
| Heartbeat.Monotone | index.js:373-376 | newer pongs or frames never cause a reconnect that older ones would not, and a later tick never cancels one |
| Heartbeat.Monitor.constructor | index.js:346-348 | the monitor starts stopped with both timestamps 0 |
| Heartbeat.Monitor.Stop | index.js:350-355 | stopping clears the interval and resets both timestamps to 0 |
| Heartbeat.Monitor.Start | index.js:357-362 | starting sets both timestamps to now and runs the interval |
| Heartbeat.Monitor.OnPong | index.js:716-718 | a pong updates only lastPongAt |
| Heartbeat.Monitor.OnFrame | index.js:720-721 | any frame updates only lastInboundAt |
| Heartbeat.Monitor.Tick | index.js:363-381 | the tick computes noPong and idle with strict comparisons and returns the decision |
| Heartbeat.HalfOpenScenario | index.js:357-381 | opened at 0 with no traffic afterwards, the tick at 90000 only pings and the tick at 91000 terminates |
| Rpc.RouteOf | index.js:725-738 | a frame goes to inbound handling iff it has no echo and is a message; a response carries the frame's echo |
| Rpc.StepInv | index.js:399-414 | every event keeps no call both pending and settled |
| Rpc.RunInv | index.js:399-414 | over any run with fresh tokens, no call is both pending and settled |
| Rpc.FirstTerminalWins | index.js:402-412 | once a call is settled, no later event changes its settlement or makes it pending again |
| Rpc.ResponseResolves | index.js:726-733 | a frame echoing a pending token removes exactly that entry and resolves it with the frame |
| Rpc.UnknownEchoIgnored | index.js:725-734 | a frame with an unknown echo, or no echo, leaves the pending calls unchanged |
| Rpc.RefusedSendRejects | index.js:407-412 | a refused send leaves nothing pending and rejects with "NapCat not connected" |
| Rpc.LateResponseIgnored | index.js:402-405 | a call whose timer fires is rejected with the timeout message, and a later response is ignored |
| Rpc.RejectionsClassified | index.js:539-540 | the queue counts an RPC timeout rejection as a timeout and a refused send as an error |
| Rpc.Correlator.Call | index.js:399-414 | registers the token, and on a refused send removes it again and returns the rejection |
| Rpc.Correlator.OnFrame | index.js:725-734 | resolves and removes the call whose token the frame echoes; otherwise changes nothing |
| Rpc.Correlator.OnTimer | index.js:402-405 | a firing timer removes and rejects its call if it is still pending, otherwise does nothing |
| Routing.QqTargetFromSessionKey | index.js:47-57 | a group result has digit ids and the key ends with ":qqg_<group>_<user>"; a private result has a digit user id and the key ends with ":qq_<user>" |
| Routing.GroupKeyParses | index.js:52-53 | every key ending ":qqg_<digits>_<digits>" parses to that group and user |
| Routing.PrivateKeyParses | index.js:54-55 | every key ending ":qq_<digits>" parses to that private user |
| Routing.PrivateExample | index.js:49 | the documented private key parses to user 1023182297 |
| Routing.GroupExample | index.js:50 | the documented group key parses to group 587526665 and user 1023182297 |
| Routing.ContextKeyInjective | index.js:435-437 | equal context keys mean the same kind of chat and the same id |
| Routing.DerivedKeyAgrees | index.js:521-523 | the derived key for a target equals the context key of the inbound message from that chat |
| Segments.BuildSegments | index.js:558-583 | the segments built are the reply, the text, the path images, then the URL images |
| Segments.AppendImages | index.js:567-581 | the image loop appends one image per truthy element, in order |
| Segments.SegmentOrder | index.js:558-583 | the reply comes first if set, then the text, then exactly the truthy paths, then exactly the truthy URLs, each as one image |
| Segments.ImagesAfterHeader | index.js:558-583 | a segment is an image iff it comes after the reply and text |
| Segments.ImageSentIffListed | index.js:566-581 | an image is sent for a string iff it is among the truthy paths or URLs |
| Segments.ImagesComeFromInputs | index.js:566-581 | an image is sent for a string iff an image list that is an array holds it as a truthy element |
| Transcript.ExtractAssistantText | index.js:78-91 | the parts loop returns the function's result |
| Transcript.ExtractIff | index.js:79-89 | a line yields text iff it is an assistant message with at least one non-blank text part, and the text is then non-empty |
| Transcript.TextsTrimmed | index.js:84-88 | every collected text is non-empty and already trimmed |
| Transcript.TextsNonEmptyIff | index.js:84-89 | some text is collected iff some part contributes |
| Transcript.SignatureFromBlankPart | index.js:90 | the signature comes from the first part typed text, even when that part is blank |
| Forwarder.EchoWindow | index.js:127-133 | a remembered reply suppresses the same text for exactly 15000 ms |
| Forwarder.OtherTextForwarded | index.js:128-133 | a different text is never suppressed |
| Forwarder.HandledNotResent | index.js:124-125 | entries whose keys were already handled send nothing |
| Forwarder.AtMostOncePerKey | index.js:123-135 | entries sharing one signature send at most once, and never once their key was handled |
| Forwarder.ForwardLoop | index.js:117-138 | the loop sends exactly the forwarded texts and marks every entry's key as handled |
| Forwarder.EchoGuard.Remember | index.js:988-990 | a sent reply becomes the session's recent text at now |
| Forwarder.EchoGuard.Stop | index.js:181-183 | stopping forgets the recent texts and handled keys |
| Forwarder.EchoGuard.ForwardBatch | index.js:117-138 | a batch sends the forwarded texts, adds its keys to the handled set and leaves the recent texts alone |
| Forwarder.EchoScenario | index.js:127-137 | a reply sent at 0 is suppressed when read at 0 and forwarded when first read at 16000 |
| Text.FieldsSound | src/pixiv/command-parser.js:6-7 | the fields are non-empty and separator-free, and together they are the input minus its separators |
| Text.FieldsSingle | src/pixiv/command-parser.js:6-7 | a non-empty run without separators is exactly one field |
| Text.FieldsSplit | src/pixiv/command-parser.js:6-7 | a separator splits the input: the fields of the text before it, then those of the text after it; with FieldsSingle, the fields are exactly the maximal separator-free runs |
| JsNumber.DigitsNumber | src/pixiv/command-parser.js:241 | Number of a digit string is its decimal value, or Infinity when too large for a double |
| JsNumber.HexExample | src/pixiv/command-parser.js:241 | Number("0x10") is 16 |
| JsNumber.InfinityExample | src/pixiv/command-parser.js:241 | Number("-Infinity") is negative infinity |
| JsNumber.GarbageExample | src/pixiv/command-parser.js:241 | Number("12abc") is NaN |
| CommandParser.Normalize | src/pixiv/command-parser.js:2-4 | no character of the result is a zero-width character or a fullwidth solidus, and it is no longer than the input |
| CommandParser.NormalizeAppend | src/pixiv/command-parser.js:3-4 | normalising works character by character: the normalised concatenation is the concatenation of the normalised parts |
| CommandParser.NormalizeOne | src/pixiv/command-parser.js:3-4 | one character becomes `/` if it is a fullwidth solidus, nothing if it is zero-width or a byte-order mark, and itself otherwise |
| CommandParser.NormalizeAround | src/pixiv/command-parser.js:3-4 | inside any line, each character is replaced by its own normalisation, independently of its neighbours |
| CommandParser.FullwidthCommand | src/pixiv/command-parser.js:3 | `／pixiv` reads as `/pixiv` |
| CommandParser.NormalizePlain | src/pixiv/command-parser.js:3-4 | a line with nothing to normalise is unchanged |
| CommandParser.TokensSound | src/pixiv/command-parser.js:2-8 | every token is non-empty, has no whitespace, zero-width character or fullwidth solidus, and is its own trim; the tokens concatenated are the normalised line with its whitespace removed |
| CommandParser.SimpleCommand | src/pixiv/command-parser.js:12-76 | the subcommand path is taken iff the lower-cased first argument is last, rerun, fav, verbose or preset; last gives Last |
| CommandParser.PresetRunCount | src/pixiv/command-parser.js:66-70 | preset run has a count iff its fourth argument is all digits, and then the count is its value; the name is the trimmed third argument |
| CommandParser.RerunCount | src/pixiv/command-parser.js:16-19 | rerun has a count iff its argument is all digits, and then the count is its value |
| CommandParser.TagAfter | src/pixiv/command-parser.js:26-35 | the tag is the trimmed token after the first `--tag`, null when that is empty or missing, and null when no `--tag` is given |
| CommandParser.FirstTagWins | src/pixiv/command-parser.js:27-30 | of two `--tag` flags the first one counts |
| CommandParser.FavSendCount | src/pixiv/command-parser.js:32-36 | fav send's count lies in [1, 20], is 5 without a digit argument and the argument itself when in range; the tag is TagAfter's |
| CommandParser.VerboseMapping | src/pixiv/command-parser.js:50-53 | verbose is true iff the argument lower-cases to on, false iff off, and null otherwise |
| CommandParser.FavTagsClean | src/pixiv/command-parser.js:41-44 | every tag of fav tag is non-empty and free of commas and whitespace |
| CommandParser.FlagFound | src/pixiv/command-parser.js:90-132 | the numeric-flag scan finds a value iff the flag occurs in either spelling |
| CommandParser.LastFlagWins | src/pixiv/command-parser.js:90-132 | the value found is that of the last occurrence of the flag |
| CommandParser.ScanFilters | src/pixiv/command-parser.js:87-116 | the filter loop leaves the filters of the step-by-step specification |
| CommandParser.MinBookmarkIsLastFlag | src/pixiv/command-parser.js:92-99 | the minimum bookmark count is the value of the last `--min_bookmark` flag |
| CommandParser.FiltersShape | src/pixiv/command-parser.js:100-115 | a ratio filter is always digits:digits and a quality mode always users, bookmark or hybrid in lower case |
| CommandParser.ScanYears | src/pixiv/command-parser.js:121-132 | the years loop yields the last `--years` value |
| CommandParser.YearsClamped | src/pixiv/command-parser.js:192 | years is kept iff it was given and is finite, and then lies in [1, 20], equal to the value when in range |
| CommandParser.CleanedHasNoFlags | src/pixiv/command-parser.js:135-154 | no cleaned word is a flag token or the argument right after a flag |
| CommandParser.PlainWordKept | src/pixiv/command-parser.js:135-154 | a word starting with a letter that is not a mode name is never dropped |
| CommandParser.KeepAuthorArgs | src/pixiv/command-parser.js:170-184 | the author loop keeps the words of the specification, skipping the number after `--years` |
| CommandParser.AuthorKeptClean | src/pixiv/command-parser.js:174-184 | kept author words are non-empty raw arguments and never a skipped flag or `--years` in either spelling |
| CommandParser.FlagBeforeAuthor | src/pixiv/command-parser.js:159-198 | a flag before `author` puts the word "author" into the author name |
| CommandParser.ClampOf | src/pixiv/command-parser.js:240-246 | the result lies in [min, max] when min <= max; a finite value in range is kept, a value below min gives min, above max gives max, and a non-finite one gives d |
| CommandParser.Clamp | src/pixiv/command-parser.js:240-246 | the step-by-step clamp returns ClampOf of `Number(v)` |
| CommandParser.ClampDigits | src/pixiv/command-parser.js:240-246 | a digit token between 1 and 20 clamps to its own value |
| CommandParser.ClampMissing | src/pixiv/command-parser.js:240-246 | a missing value clamps to the default |
| CommandParser.ParseAuthor | src/pixiv/command-parser.js:159-202 | a pick iff the second cleaned word is pick, with the pick result; otherwise the name result; author counts lie in [1, 20] |
| CommandParser.ParseAuthorPick | src/pixiv/command-parser.js:161-168 | a non-digit uid gives the empty pick with count 0; otherwise the uid, the clamped fourth word as count (5 when absent), the clamped years and the alltime flag |
| CommandParser.ParseAuthorName | src/pixiv/command-parser.js:170-201 | when the kept words end in a digit word after at least one other word, that word is the clamped count and the name is the other words joined; otherwise the count is 5 and the name is all kept words joined |
| CommandParser.PickDefaultCount | src/pixiv/command-parser.js:167 | a pick without a count asks for 5 works |
| CommandParser.AuthorExample | src/pixiv/command-parser.js:158 | `/pixiv author ASK 8` looks up author ASK with count 8 |
| CommandParser.ParseRank | src/pixiv/command-parser.js:205-209 | the count is the clamped second word (5 when absent); the mode is the lower-cased third word when it is daily, weekly, monthly or all, and daily otherwise |
| CommandParser.RankDefaults | src/pixiv/command-parser.js:205-208 | `/pixiv rank` gives the daily ranking with 5 works |
| CommandParser.RankUnknownMode | src/pixiv/command-parser.js:206-208 | `/pixiv rank 3 yearly` falls back to daily, with 3 works |
| CommandParser.RangeOf | src/pixiv/command-parser.js:219-220 | the range starts at a, or at 1 when a is 0, and ends at the larger of a and b |
| CommandParser.RangeFromZero | src/pixiv/command-parser.js:219-220 | `0-3` is the range 1 to 3 |
| CommandParser.Keyword | src/pixiv/command-parser.js:224 | the keyword is the words joined and trimmed, or オリジナル when that is empty |
| CommandParser.ParseSearch | src/pixiv/command-parser.js:211-237 | a digit first word is the clamped count (else 5); an a-b first word is the range; the keyword is Keyword of the cleaned words after a leading count or range; a finite minimum bookmark count is kept; ratio and mode pass through |
| CommandParser.LeadingCountNotKeyword | src/pixiv/command-parser.js:215-224 | `/pixiv 5 cat` searches for cat |
| CommandParser.CountAloneDefaultKeyword | src/pixiv/command-parser.js:215-224 | `/pixiv 5` searches for オリジナル |
| CommandParser.ParseFlagged | src/pixiv/command-parser.js:78-237 | the result is the author pick, author name, rank or search result of the cleaned words, as the first cleaned word decides, with the flags, years and filters collected from all arguments; every count lies in [1, 20] (a rejected pick has 0); search filters have their shape and the last flag's value |
| CommandParser.ParsePixivCommand | src/pixiv/command-parser.js:1-238 | a simple subcommand is returned as decided by its first argument; otherwise the flagged result of the arguments after `/pixiv`, with counts in [1, 20] (0 for a rejected pick), a valid rank mode and a non-empty keyword |
| Favs.Upsert | src/pixiv/favs.js:38 | an id already present keeps its position and takes the new entry; a new id is appended |
| Favs.UpsertUnique | src/pixiv/favs.js:33-40 | an upsert keeps ids unique and adds exactly its own id |
| Favs.IndexedUnique | src/pixiv/favs.js:33 | the map built from the stored list has unique ids |
| Favs.MergedUnique | src/pixiv/favs.js:33-40 | the list addMany stores never holds two entries with the same id |
| Favs.AddItemsKeepsOrder | src/pixiv/favs.js:34-39 | the existing entries keep their positions and ids |
| Favs.FreshItemsAppended | src/pixiv/favs.js:34-40 | valid items with new, distinct ids are appended after the existing entries, in input order |
| Favs.AddItemsSources | src/pixiv/favs.js:35-38 | every stored entry is an old one or comes from a valid item; an item with a blank id or path never contributes |
| Favs.AddItemsUpserts | src/pixiv/favs.js:34-39 | the item loop upserts the valid items' entries in order |
| Favs.LastItemWins | src/pixiv/favs.js:38 | a re-added id takes the content of its last valid item |
| Favs.WithoutExactly | src/pixiv/favs.js:49 | remove keeps exactly the entries whose id differs |
| Favs.WithoutAppend | src/pixiv/favs.js:49 | the filter distributes over concatenation, so kept entries stay in order |
| Favs.WithoutCount | src/pixiv/favs.js:45-53 | with unique ids, remove drops one entry when the id is present and none otherwise |
| Favs.FavStore.List | src/pixiv/favs.js:24-27 | the stored list, or empty when the key is absent or not an array |
| Favs.FavStore.AddMany | src/pixiv/favs.js:29-43 | only the key's entry is rewritten, to the merged list, and its length is returned |
| Favs.FavStore.Remove | src/pixiv/favs.js:45-53 | only the key's entry is rewritten, to the filtered list, and its length is returned |

## Left out

- The WebSocket lifecycle (`connectNapCat`, the open/close/error handlers, the fixed 5 s reconnect, `ping`/`terminate`/`close` calls) is I/O and timers. Only the heartbeat decision and the timestamp updates are modelled.
- Promise interleaving in `enqueueSend` is an asynchronous scheduling concern. It is modelled as a sequential machine over submit, finish and settle events. The `sleep` is the Cooling phase, and logging and the `dt` measurement are omitted.
- DeliveryQueue.RunSafe: proved for the corrected hand-off slots. The code as written does not keep the cap (see Findings).
- The HTTP server, `callOpenClaw`, image download and cleanup, the session file reads and `fs.watch`, `resetSession`, the `/config` patch, `process.kill`, trace logging and `makeTraceId` are I/O or random. They are not part of this model.
- Rpc.Correlator.Call: correlation tokens come from `Date.now()` and `Math.random`, and the model assumes each one is fresh (no collision handling exists in the source).
- Rpc.RouteOf: frames that fail `JSON.parse` are dropped before routing and are not modelled.
- The forwarder's SHA-1 fallback signature, the JSON parsing of lines and the byte offsets are I/O. An entry's signature is given.
- SendPacing.RoundHalfUp: the source multiplies doubles (`d*1.35+150`, `d*1.15+50`, `d*0.92`, `d*0.15`). The model uses exact rationals. A product whose exact value is a half may round differently in binary floating point.
- CommandParser.RerunCount: a digit argument reads as its exact value. JavaScript's `Number` gives Infinity beyond 2^1024 - 2^970 and rounds values above 2^53; the same holds for the `preset run` count.
- CommandParser.RangeOf: the two numbers of an `a-b` range are exact integers. `Number` would make a bound at or beyond 2^1024 - 2^970 Infinity, so that start and end become Infinity, and would round bounds above 2^53. The minimum bookmark count is likewise exact where `Number` would round it above 2^53.
- Dedup.DedupTable.IsDuplicate: one clock reading `now` stamps the new entry and sets the purge cutoff; the source reads `Date.now()` twice.
- SendPacing.ResolveConfig: settings are integers. Other configuration values are not modelled: the string "0" is truthy and survives as a cap of 0, so every acquire waits; a non-numeric string gives NaN, and every send waits; a fractional cap such as 2.5 lets three sends run at once.
- JsNumber.DigitsNumber: finite results are exact reals, without rounding to the nearest double.
- `toLowerCase` is modelled for comparisons with ASCII keywords (A-Z plus KELVIN SIGN). Regular expressions with the `i` flag fold ASCII only. Full Unicode case mapping is not modelled.
- Favs.FavStore.AddMany: the `addedAt` timestamp is an opaque string passed in, one per call. File read and write become the `data` field, and a file that is missing or not an object reads as the empty object. Stored entries are well-formed records: a stored `null` element, on which `String(x.id)` throws in `addMany` and `remove`, is not modelled.
- `src/pixiv/fetcher.js`, `src/pixiv/client.js`, `src/storage/db.js`, `src/pixiv/aliases.js`, `src/pixiv/topics.js`, `src/pixiv/settings.js`, `src/pixiv/last-state.js` and `src/pixiv/index.js` use the network, randomness, floating point, SQLite or Unicode normalisation, or are thin file wrappers. They are not part of this model.
- The fallback fire-and-forget send after a failed tracked send is business logic around the queue and is not modelled.

## Findings

| source | as written | input that shows it | evidently intended | confidence | as-written member | corrected member |
|---|---|---|---|---|---|---|
| index.js:475-488 | `releaseGlobalSendSlot` decrements the counter and wakes the oldest waiter, whose continuation increments it later (line 481). An acquirer that runs before that continuation sees a free slot and takes it too. | max 1: A acquires, B waits, A releases (B woken), C acquires, B's continuation runs, leaving 2 in flight | the in-flight count never exceeds the maximum, with the slot handed straight to the oldest waiter | medium, not executed | SendSlots.OverCommitAsWritten | SendSlots.BoundedRun |
