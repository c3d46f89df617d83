# Tally Bridge: verified models

Tally Bridge carries sections of a company's books from a Tally desktop installation to a server that
cannot read them. This project models the parts of it whose correctness depends on more than one
function, and proves what they promise. Each `.dfy` file is one module named after what it models;
`dafny verify dfyconfig.toml` checks all of them.

**The sync protocol.** `Store` is the Bridge's SQLite store (watermarks, acknowledged hashes, the
superseding outbox), in place; `Gate` the two upload gates; `Snapshots` the server's table and its
serial ingest handler. `Protocol` puts them in one state machine whose steps are the blocks between
two awaits of `runCycle` and `drainOutbox`, plus Tally, the network, crashes, resets and rows superseded
in flight, and proves the inductive invariant behind "nothing is silently dropped". `Resets` says exactly
when wiping the tables loses something, and `Retries`, from the events of a run alone, how often a value is tried
and what giving it up means. `Bridge` is the imperative cycle itself, proved to be a run of that machine and to do
to the tables and the server what `Cycles` says of them before and after. `Convergence` proves, slot by slot, that settled sections show what Tally would return, and
`Witnesses` gives concrete runs in which one hypothesis fails, the others hold, and the conclusion fails too.

**The server's door.** `Handlers` interleaves ingest handlers; `Door` has admission, reservation and
nonces in place and the order of `verifyRequest`; `Metering` and `Replay` are theorems over whole runs
of requests whose statements interleave.

**Wire formats.** `Canonical` and `KeyOrder` serialize values over UTF-16 code units;
`CanonicalRoundTrip` reads them back with a JSON reader written from RFC 8259. `Entities`, `TagRows`
and `TagRowsRoundTrip` are the tag-indexed parser for Tally's responses, and `TagAlphabet` the check
that requests stay inside its alphabet. `Signing`, `Bytes` and `EnvelopeFraming` are the two signed
framings, `Padme` the padding, `Decimal`, `Money` and `Space` the money text.

**Cards.** `ParentChain`, `Revenue`, `Forest` and `BalanceSheet` are the graph arithmetic over
user-editable group parents.

**Controllers.** `Scheduler` collapses ticks; `Session` throttles guesses.

`Wrappers` and `Seqs` hold shared small types and facts. Every lemma turns automatic induction off:
the proofs are written out.

## Hypotheses

They are stated in the model. A witness is a run from a first start that keeps all the others.

- One cycle runs at a time, except that another pass may queue a newer value for a row being drained.
  `Scheduler.AtMostOneInFlight` proves that the scheduler provides this; `Protocol` builds it in
  (`StartCycle` needs an idle state), so it has no witness. One device writes a given company's slots.
- A step is one synchronous block. `dequeue` followed by `invalidateWatermark` is one block; a power
  cut between those two statements is not covered by the code either. Each SQL statement is atomic.
- `prompt` or `forward`: requests reach the server while the Bridge still waits for the answer, or
  the clock that stamps snapshots is never set back. One of the two is enough; without both,
  `Witnesses.LateRequestAfterClockSetBackDrops` drops a value.
- `quietResets`: the tables are not wiped while a company is half done. The application does not ensure
  it: both recoveries of `apps/bridge/src/main/index.ts:613-627` wipe without waiting for a cycle.
  `Resets.ResetLosesExactlyWhenNotQuiet` gives the exact program points at which that loses something,
  and `Witnesses.ResetInMidCompanyDrops` is a run that does.
- `truthful` (convergence only) is a set of slots: for each, extractions report the book, what the slot
  shows changes only when a counter that lists its section moves, and a restore shows as a lower counter.
  Nothing is asked of any other slot. The `company` section does not meet it after a voucher with a new
  date, whatever else holds: `Witnesses.VoucherDatesStaleTheCompany`.
- `noFlapping` (convergence only) is a set of slots too: the content of none of them goes back to its
  acknowledged value while another value is pending there. `Witnesses.FlappingFreezesASection` drops it
  for one slot; `Convergence.SkippedIsOnItsWayExactly` says what it is worth at each skip.
- A hash stands for its content (SHA-256 is taken to be injective) and a signature check is a
  predicate on key, text and signature.

## Where the code and its words disagree

The model follows the code.

- The comment in `apps/server/src/db.ts:288-298` says a nonce is remembered before the reservation
  and that the rate cap does not bound nonce rows. `packages/protocol/src/signing.ts:404-420` admits
  first and spends the nonce afterwards, so the cap does bound them (`Metering.AtMost120NonceRows`).
- The `company` payload carries `lastVoucherDate` (`apps/bridge/src/main/cycle.ts:351-369`), but only
  the master counter pulls that section (`Gate.VouchersAloneLeaveCompanyOut`). After a voucher with a new
  date the gate skips, nothing is pending, and the server shows the old payload until a master changes
  (`Witnesses.VoucherDatesStaleTheCompany`). The other seven sections are not affected.
- `apps/bridge/src/main/scheduler.ts:18-20` says waking up gives exactly one tick. Every start after a
  stop registers the wake-up listener again; `Scheduler.ResumeRunsOnceExactlyIfStartedOnce` gives the
  exact condition and `Scheduler.StartedTwiceWakesTwice` a run with two. The application calls `start` once.
- `packages/crypto/src/envelope.ts:73-80` says envelopes and signed requests never share a byte
  string. The field checks do not ensure it: a device id may spell the opening of an envelope, and then
  they do share one (`EnvelopeFraming.ADeviceIdCanSpellAnEnvelope`). It takes all of the 46 bytes that
  every envelope begins with (`EnvelopeFraming.NoEnvelopeIsARequest`), NUL bytes among them, which an
  HTTP field value cannot hold (section 5.5 of RFC 9110).
- `apps/server/src/ingest.ts:316-330` refuses other content under an equal timestamp. Handlers served one
  at a time keep to that (`Snapshots.SerialRunOnlyAdvances`); interleaved ones do if and only if no two
  uploads of one slot are stamped alike (`Handlers.SwapsExactlyWhenStampedAlike`).

## Model

| member | source | states |
|---|---|---|
| `Gate.PullsExactly` | packages/sync/src/gate.ts:79-134 | a section is re-pulled if and only if the stored watermark is absent, unusable, of another company or ahead of the probe, or a counter whose list names the section moved; the company is forgotten first if and only if the watermark is void in that sense or both counters moved |
| `Gate.SkipsExactly` | packages/sync/src/gate.ts:79-134 | a skip is decided only for equal, usable counters of the same company |
| `Gate.EverySectionIsListed` | packages/sync/src/gate.ts:39-62 | which list names which section, and that a full pull takes them all |
| `Gate.VouchersAloneLeaveCompanyOut` | packages/sync/src/gate.ts:39-47 | when only vouchers moved the company section is not pulled |
| `Store.SyncStore.Enqueue` | packages/sync/src/store.ts:208-222 | a row supersedes the pending row of its slot: it keeps that row's id and age, which is its place in the queue, takes the new payload and hash, and starts its retries over; no other slot changes |
| `Store.SyncStore.Due` | packages/sync/src/store.ts:224-243 | the oldest rows whose retry time has come, in order of age and at most the limit; a due row is left out only when the limit is full of older ones |
| `Store.SyncStore.Dequeue` | packages/sync/src/store.ts:262-264 | removes the row only if it still has the hash that was sent, so a row superseded in flight stays |
| `Store.SyncStore.DeferAttempt` | packages/sync/src/store.ts:274-280 | reschedules the row only if it still has the hash that was sent |
| `Store.SyncStore.ResetCompany` | packages/sync/src/store.ts:113-120 | forgets one company's watermark, hashes and rows and nothing of any other |
| `Store.SyncStore.Reset` | packages/sync/src/store.ts:131-138 | empties all three tables |
| `Store.SyncStore.AckSectionHash` | packages/sync/src/store.ts:158-170 | records the hash for that slot alone |
| `Store.SyncStore.InvalidateWatermark` | packages/sync/src/store.ts:296-298 | removes one company's watermark and keeps its hashes and rows |
| `Store.SyncStore.SetWatermark` | packages/sync/src/store.ts:101-111 | one watermark per company, the last one set |
| `Store.EnqueueKeepsValid` | packages/sync/src/store.ts:208-222 | row ids stay unique and each row stays under its own slot |
| `Snapshots.SnapshotTable.HandleIngest` | apps/server/src/ingest.ts:307-343 | the table and the answer after the freshness checks and the write of one request served alone are those of `Ingest` |
| `Snapshots.IngestEffect` | apps/server/src/ingest.ts:307-343 | accepted if and only if the slot then holds exactly that upload; in the future, stale and conflicting are each answered exactly when they should be; stored timestamps never fall; content at an equal timestamp never changes; other slots are untouched |
| `Snapshots.SerialRunOnlyAdvances` | apps/server/src/ingest.ts:307-343 | over any list of requests served one after the other no slot is lost or goes back, and content at an equal timestamp never changes |
| `Snapshots.SnapshotTable.StoreSnapshot` | apps/server/src/db.ts:388-409 | the conditional upsert: it writes where the slot is empty or its stored timestamp is not newer |
| `Protocol.StartEstablishesInv` | packages/sync/src/orchestrator.ts:118-227 | a fresh installation meets the invariant, whatever is on the server or on the wire |
| `Protocol.StepKeepsInv` | packages/sync/src/orchestrator.ts:118-293 | every step, a row superseded in flight and a quiet reset included, keeps the invariant: rows carry their own envelopes, acknowledged slots with nothing pending agree with the server, everything last extracted is pending or acknowledged |
| `Protocol.FullKeepsInv` | packages/sync/src/orchestrator.ts:142-160 | forgetting a company before a full pull keeps the invariant |
| `Protocol.CheckKeepsInv` | packages/sync/src/orchestrator.ts:172-179 | skipping an unchanged section keeps the invariant |
| `Protocol.EnqueueKeepsInv` | packages/sync/src/orchestrator.ts:181-215 | superseding a pending row keeps the invariant |
| `Protocol.SupersedeKeepsInv` | packages/sync/src/store.ts:244-264 | a newer value taking over the slot of a row that is on its way to the server keeps the invariant |
| `Protocol.SettlesOnlyWhatWasSent` | packages/sync/src/store.ts:244-280 | `dequeue` and `deferAttempt` work on the very row that was sent, or on nothing when it was superseded or wiped |
| `Protocol.StaleReplyKeepsTheQueue` | packages/sync/src/store.ts:244-280 | a reply, of whatever kind, for a row that was superseded in flight changes no queued row |
| `Protocol.FinishKeepsInv` | packages/sync/src/orchestrator.ts:216-221 | advancing the watermark last keeps the invariant |
| `Protocol.AckKeepsInv` | packages/sync/src/orchestrator.ts:242-249 | an acknowledgement keeps the invariant, whether its row is still queued, was superseded in flight or was wiped |
| `Protocol.AbandonKeepsInv` | packages/sync/src/orchestrator.ts:251-279 | giving a row up keeps the invariant in the same three cases, because the watermark goes with it: afterwards what was sent is not queued and the company has no watermark |
| `Protocol.DeferKeepsInv` | packages/sync/src/orchestrator.ts:281-292 | deferring a row keeps the invariant in the same three cases, also when the server did store it |
| `Protocol.LateDeliveryIsHarmless` | apps/server/src/ingest.ts:316-330 | with a forward clock, a request delivered at any later time disturbs no settled slot |
| `Protocol.ReachableKeepsInv` | packages/sync/src/orchestrator.ts:118-293 | the invariant holds in every state any permitted run reaches |
| `Protocol.NothingSilentlyDropped` | packages/sync/src/orchestrator.ts:142-293 | in every reachable state, while a company has a watermark, each section it last extracted is pending, or acknowledged and exactly what the server stores |
| `Retries.AttemptsAreFailures` | packages/sync/src/store.ts:208-280 | over every run: the retry count of a queued value is the number of retryable answers it has had since it was put there, and that of a row in hand is the number when the drain read it |
| `Retries.AgeAndBackoff` | packages/sync/src/store.ts:208-280 | over every run: a row's place in the queue is the time since when its slot has been waiting, however often it was superseded or deferred, and its retry time that of its own value |
| `Retries.GivenUp` | packages/sync/src/orchestrator.ts:251-279 | a refusal, or the twelfth retryable answer by the events, takes the value out of the queue and the watermark from its company, and changes nothing else |
| `Retries.KeptForLater` | packages/sync/src/orchestrator.ts:281-292 | an earlier retryable answer keeps the value, for later, and the watermark, and changes nothing else |
| `Retries.Acknowledged` | packages/sync/src/orchestrator.ts:242-249 | an acknowledged value leaves the queue unless it was superseded, its hash is on record, and nothing else changes |
| `Retries.QueuedHaveATryLeft` | packages/sync/src/orchestrator.ts:251-292 | in no reachable state is anything queued that has failed twelve times |
| `Retries.PulledInFullNext` | packages/sync/src/orchestrator.ts:142-160 | after a value of a company was given up, and until a pass over it ends, the next decision about it asks for every section and forgets what was acknowledged or queued |
| `Resets.ResetKeepsInvExactlyWhenQuiet` | apps/bridge/src/main/index.ts:613-627 | a reset keeps the invariant if and only if no company is in hand or all its sections are still to go through the hash gate |
| `Resets.ResetLosesExactlyWhenNotQuiet` | packages/sync/src/store.ts:131-138 | some continuation of a reset drops a section if and only if the reset came at another program point |
| `Convergence.StepKeepsHonest` | packages/sync/src/orchestrator.ts:118-293 | for a slot whose extractions can be trusted, every step keeps: what was last read there, and what is in hand, is what Tally returned no earlier than the probe behind the watermark |
| `Convergence.SkippedIsOnItsWayExactly` | packages/sync/src/orchestrator.ts:172-179 | a section the hash gate skips is what the server has or is going to have if and only if no other value is pending for its slot |
| `Convergence.StepKeepsSteady` | packages/sync/src/orchestrator.ts:118-293 | for a slot that does not flap, every step keeps: the last value extracted is the pending one, or else the acknowledged one |
| `Convergence.LastValueIsNeverLost` | packages/sync/src/store.ts:244-280 | in every reachable state, for a slot that does not flap and a company with a watermark: the value last extracted, also one queued while an older one was on its way, is pending, or acknowledged and stored |
| `Convergence.SettledShowsTheTruthExactly` | packages/sync/src/orchestrator.ts:165-221 | whatever flapped: a settled slot shows Tally's value if and only if the hash acknowledged last is the hash extracted last |
| `Convergence.SettledSectionsShowTheTruth` | packages/sync/src/gate.ts:39-149 | for a trusted slot that does not flap, whatever other slots do: with nothing pending and no listing counter moved past the watermark, the server holds what Tally would return now |
| `Convergence.SkipIsSafe` | packages/sync/src/gate.ts:79-134 | for a trusted section that does not flap: when the gate would skip the company and the section has nothing pending, what the server shows for it is Tally's |
| `Witnesses.FlappingFreezesASection` | packages/sync/src/orchestrator.ts:172-179 | a run meeting every hypothesis but no-flapping for one slot ends with nothing pending, a skip, and a wrong value on the server |
| `Witnesses.VoucherDatesStaleTheCompany` | apps/bridge/src/main/cycle.ts:351-369 | a run meeting every hypothesis but truthfulness of the company section ends with nothing pending, a skip, and an old company payload on the server |
| `Witnesses.ResetInMidCompanyDrops` | apps/bridge/src/main/index.ts:613-627 | a run meeting every hypothesis but quiet resets drops a section |
| `Witnesses.LateRequestAfterClockSetBackDrops` | packages/sync/src/orchestrator.ts:181-215 | a run with a late request and a clock set back, all else kept, drops a section |
| `Bridge.SeqCounter.Next` | packages/sync/src/orchestrator.ts:95-116 | numbers go up by one |
| `Bridge.RunCycle` | packages/sync/src/orchestrator.ts:118-227 | the cycle is a run of the protocol; it takes the companies one after the other until an extraction throws, and drains if none did; it keeps the invariant and ends with nothing dropped; and if none threw, each trusted slot of a probed company with its watermark still set and nothing pending shows the truth exactly when what was acknowledged last is what was extracted last |
| `Bridge.SyncCompany` | packages/sync/src/orchestrator.ts:130-221 | one company's pass is a run of the protocol; it throws exactly when the extraction does; otherwise exactly the items whose hash is not the acknowledged one are queued afresh, the watermark is the probe's, and nothing else changes but what a full pull forgets |
| `Bridge.GateSection` | packages/sync/src/orchestrator.ts:165-215 | one section through the hash gate and the queue is a run of the protocol; it is queued, in its old place, unless its hash is the acknowledged one, and no other slot changes |
| `Bridge.DrainOutbox` | packages/sync/src/orchestrator.ts:229-294 | a drain is a run of the protocol over the due rows, at most the twenty oldest; afterwards a row is queued exactly if its answer was retryable and not the twelfth, acknowledged exactly if the server took it, its company without watermark exactly if it was given up; each answer follows from what the network did and what the slot held before; every other slot, here and on the server, is as it was |
| `Bridge.DrainRow` | packages/sync/src/orchestrator.ts:238-292 | acknowledge, give up and defer each do to the tables what the protocol's reply step does, on the answer that the upload brought |
| `Bridge.Upload` | apps/bridge/src/main/cycle.ts:713-761 | the answer is retryable exactly if none came back, and acknowledged exactly if one came back and the server stored the upload; the server's slot holds the upload exactly if it was accepted, and no other slot changes |
| `Handlers.SlotsUnderInterleaving` | apps/server/src/ingest.ts:307-343 | under every interleaving stored timestamps never fall, accepted uploads stay stored or superseded, and no slot runs ahead of the clock by more than the skew |
| `Handlers.AcceptedForeverAfter` | apps/server/src/ingest.ts:332-343 | after a 200 the slot holds at least that timestamp in every later state |
| `Handlers.NoSlotIsBlocked` | apps/server/src/ingest.ts:307-309 | an upload stamped past the clock plus the skew is accepted by any reachable table, so no slot is blocked for good |
| `Handlers.SerialHandler` | apps/server/src/ingest.ts:307-343 | a handler that reads its clock, reads its slot and writes with nothing in between is the serial ingest |
| `Handlers.WriteSwapsExactly` | apps/server/src/ingest.ts:316-343 | a write changes content under an equal timestamp if and only if other content landed under it after the handler read the slot, and was still there |
| `Handlers.SwapsExactlyWhenStampedAlike` | apps/server/src/ingest.ts:316-343 | some interleaving of a set of uploads changes content under an equal timestamp if and only if two of them have one slot and one timestamp and different content |
| `Door.DoorTables.ReserveUpload` | apps/server/src/db.ts:309-343 | one statement: count the attempt, collect old buckets, sweep old nonces, return the count in the window |
| `Door.DoorTables.RememberNonce` | apps/server/src/db.ts:249-257 | a nonce is recorded once, and the answer says whether it was new |
| `Door.AdmitDevice` | apps/server/src/ingest.ts:140-162 | reserves before it judges; the judgement is that of `Metering.AnsweredExactly` |
| `Door.GenuineExactly` | packages/protocol/src/signing.ts:284-396 | what the signature, the clock and the device vouch for is exactly what the ten checks in a row let through |
| `Door.CheckRequest` | packages/protocol/src/signing.ts:284-396 | before anything is written: a request is let on exactly when it passes all ten checks, and otherwise the answer is that of the first it fails |
| `Door.VerifyRequest` | packages/protocol/src/signing.ts:284-424 | the tables change exactly as `Served` says, and the result names the first check that failed, the quota's status, or the spent nonce |
| `Door.NonceRowsAreEarned` | packages/protocol/src/signing.ts:404-420 | only a request that gets through adds a nonce row, its own, up to the end of the skew window; an admitted one gets through if and only if its row is not there or is over an hour past its expiry; rows go only by that sweep, and a request that is not genuine changes nothing |
| `Metering.BucketsCountAttempts` | apps/server/src/db.ts:309-343 | the counters, collected as they are, always equal a plain count of attempts in the retained minutes, under any interleaving of handlers' statements |
| `Metering.ReservationCountsTheWindow` | apps/server/src/db.ts:309-343 | the returned number is the number of attempts in the last sixty minute buckets, this one included |
| `Metering.AtMostSixtyAdmitted` | packages/protocol/src/quota.ts:85-94 | in any sixty consecutive minute buckets at most sixty requests of a device are admitted |
| `Metering.AnsweredExactly` | apps/server/src/ingest.ts:140-162 | over every run of interleaved handlers: a genuine arrival is answered 401, 400, 413, 429 or 507 for the first cap it misses, by its payload, its device's attempts in the last sixty minute buckets and its tenant's stored bytes alone, and else admitted |
| `Metering.AdmittedExactly` | packages/protocol/src/quota.ts:63-110 | admitted if and only if the device has a tenant, has made at most 60 attempts in that window, itself included, sends at most 1 MiB, and its tenant stays within 500 MiB, all measurable |
| `Metering.SixtyAreAdmitted` | packages/protocol/src/quota.ts:85-94 | of one small request sent in a burst, each of the first sixty is admitted |
| `Metering.LaterOnesAreRefused` | packages/protocol/src/quota.ts:85-94 | every one from the sixty-first on is answered 429 |
| `Metering.SixtyCanBeAdmitted` | packages/protocol/src/quota.ts:85-94 | there are such a request and server: a run in which sixty in one window are admitted |
| `Metering.AtMost121Buckets` | apps/server/src/db.ts:311-315 | a device has one counter row a minute, and at most 121 of them survive its sweep |
| `Metering.RowsWereAdmitted` | packages/protocol/src/signing.ts:404-420 | every nonce row in the table was spent by an admitted handler and carries its expiry, however long that handler waited and whatever came in between |
| `Metering.ReservedLate` | packages/protocol/src/signing.ts:349-423 | on one monotone clock that handler reserved its slot no earlier than ten minutes before the expiry on the row |
| `Metering.AtMost120NonceRows` | apps/server/src/db.ts:309-343 | with one monotone clock and handlers that wait and interleave as they like, at most 120 nonce rows of a device survive its sweep |
| `Replay.StepRemembers` | apps/server/src/db.ts:208-257 | every acceptance stays remembered until no clock within the retention could pass it again |
| `Replay.AcceptedAtMostOnce` | packages/protocol/src/signing.ts:349-423 | over every interleaving of handlers and sweeps each signed request is accepted at most once, if the database clock is monotone and within the retention of the checking clock |
| `Replay.OneMillisecondMoreAcceptsTwice` | apps/server/src/db.ts:190-208 | one millisecond more between the clocks and a run accepts the same request twice |
| `Signing.SplitJoin` | packages/protocol/src/signing.ts:114-165 | splitting at newlines gives back the joined fields when none holds one |
| `Signing.SigningStringIsInjective` | packages/protocol/src/signing.ts:102-165 | a signing string splits back into device, method as signed, path, body hash, timestamp and nonce, in this order, so equal strings mean equal fields |
| `Signing.RefusedExactly` | packages/protocol/src/signing.ts:102-165 | a string is built if and only if device, method, method as signed, path and nonce are single non-empty lines within their lengths and the body hash holds no newline |
| `Signing.UncheckedFramingIsAmbiguous` | packages/protocol/src/signing.ts:102-112 | without the field checks two different inputs share one string |
| `KeyOrder.SortSorts` | packages/core/src/canonical.ts:312-320 | the result is ordered by code units and a permutation of the input |
| `KeyOrder.SortIsStable` | packages/core/src/canonical.ts:312-320 | rows of one key stay in the order in which they came |
| `KeyOrder.LessExactly` | packages/core/src/canonical.ts:312-320 | the order is that of the first code unit in which two keys differ, a prefix coming first |
| `KeyOrder.SortIgnoresInputOrder` | packages/core/src/canonical.ts:312-320 | rows with distinct keys come out the same in whatever order they went in |
| `CanonicalRoundTrip.StringReadsBack` | packages/core/src/canonical.ts:220-226 | every string of code units, unpaired surrogates included, reads back from its JSON text |
| `CanonicalRoundTrip.EscapedIsClean` | packages/core/src/canonical.ts:220-226 | the JSON text of any string holds no control character and no surrogate on its own |
| `CanonicalRoundTrip.PlainIsWrittenAsItIs` | packages/core/src/canonical.ts:220-226 | a well-formed string without quotes, backslashes and controls is written unchanged between quotes |
| `CanonicalRoundTrip.EscapesExactly` | packages/core/src/canonical.ts:220-226 | every other code unit is written as the two-unit escape that stands for it, or as `u` and four lower-case hexadecimal digits where there is none |
| `CanonicalRoundTrip.ReadsBack` | packages/core/src/canonical.ts:220-302 | the reader returns exactly the value, keys sorted, and leaves any suffix that cannot extend a number untouched |
| `CanonicalRoundTrip.SerializesExactly` | packages/core/src/canonical.ts:220-302 | serialization throws exactly on values holding something foreign, at any depth |
| `CanonicalRoundTrip.SerializationDecides` | packages/core/src/canonical.ts:216-302 | two values have the same bytes if and only if they are the same up to key order |
| `Money.PrintersAgree` | packages/core/src/canonical.ts:187-199 | slicing digits and dividing by a hundred print the same text for every safe integer |
| `Money.ParsesEveryAmount` | packages/core/src/canonical.ts:43-61 | every string of the grammar (white space, sign, digits with or without leading zeros, up to two decimals) is worth a hundred times its rupees plus its decimals, one of them tenths, two hundredths; the range error comes exactly beyond the safe integers, and no zero is negative |
| `Money.AmountsExactly` | packages/core/src/canonical.ts:43-61 | a string is refused as no amount if and only if it is not of that grammar |
| `Money.ParsePrintRoundTrip` | packages/core/src/canonical.ts:43-61 | parsing what was printed gives the same paise back, never negative zero |
| `Money.PrintingIsInjective` | apps/bridge/src/main/cycle.ts:638-647 | equal paise print one string and different paise different ones |
| `Money.ParsedAmountsAreCanonical` | packages/core/src/canonical.ts:43-61 | whatever parses is safe and prints one string per value |
| `Money.NegationIsExact` | apps/bridge/src/main/cycle.ts:634-636 | negating an amount prints the exact opposite, zero without a sign |
| `Money.RewritingIsCanonical` | apps/bridge/src/main/cycle.ts:606-609 | a column once rewritten is rewritten to itself, and two columns are rewritten alike if and only if they are worth the same, blank ones nothing |
| `Money.SumPaise` | packages/core/src/canonical.ts:137-152 | the exact sum, or a throw if and only if an element or a running total leaves the safe range |
| `Entities.EscIsPerCharacter` | packages/tally/src/tdl.ts:18-25 | the five chained replacements are one map over the characters |
| `Entities.EscapedHasNoMarkup` | packages/tally/src/tdl.ts:18-25 | escaped text holds no bracket and no quote, and every ampersand in it begins one of the five entities |
| `Entities.UnescapeEsc` | packages/tally/src/codec.ts:351-367 | decoding undoes escaping for every string, entity text in it included |
| `Entities.DecimalReference` | packages/tally/src/codec.ts:351-367 | a decimal reference, leading zeros included, decodes to exactly its character from 0x20 to 0x7E and from 0xA0 to 0x10FFFF outside the surrogates, to nothing for every other number, and the rest is decoded on its own |
| `Entities.HexReference` | packages/tally/src/codec.ts:351-367 | the same for hexadecimal references, `x` and digits in either case |
| `Entities.NamedEntity` | packages/tally/src/codec.ts:321-353 | each of the five entities decodes to its character, and the rest is decoded on its own |
| `Entities.OthersStay` | packages/tally/src/codec.ts:351-367 | whatever begins neither an entity nor a reference stands for itself |
| `TagRows.Tokenize` | packages/tally/src/codec.ts:233-242 | the loop computes the tokens of the specification |
| `TagRows.TokensConserveText` | packages/tally/src/codec.ts:233-242 | noise and tokens put back together are the input, and no value holds a start tag |
| `TagRows.TokensOfRendering` | packages/tally/src/codec.ts:233-242 | that is the only way to cut a text: any rendering of such tokens gives them back |
| `TagRows.RunsAreMaximal` | packages/tally/src/codec.ts:275-286 | the rows partition the tokens in order into increasing runs, none of which could be joined to the next |
| `TagRows.MaximalRunsAreRuns` | packages/tally/src/codec.ts:275-286 | there is only one such partition |
| `TagRows.ParseTagRows` | packages/tally/src/codec.ts:206-289 | accepted and rejected rows are those of the maximal runs of the cleaned text, and no cell holds a line break or a tab |
| `TagRows.CellsHoldNoBreaks` | packages/tally/src/codec.ts:226-228 | whatever the response holds, no cell of an accepted row holds a line break or a tab |
| `TagRows.EachRunIsOneRow` | packages/tally/src/codec.ts:258-273 | each run gives exactly one accepted row or one rejection with its index and tags, in order, and nothing else is given |
| `TagRows.RefusedExactly` | packages/tally/src/codec.ts:291-307 | a run is accepted if and only if its tags are in the schema, F01 is there, and in a wider schema it is not alone |
| `TagRows.NoColumnShifts` | packages/tally/src/codec.ts:258-273 | cell k of an accepted row is the decoded text of tag k of its run, or empty |
| `TagRowsRoundTrip.PrintedTokensReadBack` | packages/tally/src/codec.ts:206-242 | cleaning and tokenizing a printed document gives its columns back, blank markers emptied and each run of line breaks and tabs read as one space |
| `TagRowsRoundTrip.PrintedRowsReadBack` | packages/tally/src/codec.ts:206-289 | rows printed with cells left out, blank markers in any spelling and texts with line breaks and tabs parse back to exactly those rows, with no rejection |
| `TagRowsRoundTrip.EveryTextIsWritten` | packages/tally/src/codec.ts:226-228 | every text is one of those that the printed rows may hold |
| `TagRowsRoundTrip.MarkerIsFound` | packages/tally/src/codec.ts:212-224 | a blank marker, self-closing or paired, in any case, spaced and filled as it likes, is matched whole |
| `TagRowsRoundTrip.FoundIsMarker` | packages/tally/src/codec.ts:212-224 | and nothing else is: whatever the pattern matches is the text of a marker |
| `TagAlphabet.TagAlphabetExactly` | packages/tally/src/tdl.ts:108-122 | a request is let through exactly when the parser reads its k-th field's tag as column k, for 1 to 99 fields |
| `EnvelopeFraming.EnvelopeSigningBytes` | packages/crypto/src/envelope.ts:184-225 | the buffer filled through the offset is the framing of the eight fields, or an error exactly when a length or the version does not fit 32 bits |
| `EnvelopeFraming.FrameReadsBack` | packages/crypto/src/envelope.ts:184-225 | the framing decodes to the one field list it was made from |
| `EnvelopeFraming.OnlyFramesUnframe` | packages/crypto/src/envelope.ts:170-184 | a byte string that decodes is the framing of what it decodes to |
| `EnvelopeFraming.SigningBytesAreInjective` | packages/crypto/src/envelope.ts:184-225 | equal signed bytes if and only if every part is equal |
| `EnvelopeFraming.EnvelopesExactly` | packages/crypto/src/envelope.ts:170-225 | a byte string is what some envelope signs if and only if it decodes to eight fields of which the first is the domain and the second four bytes long |
| `EnvelopeFraming.NoEnvelopeIsARequest` | packages/crypto/src/envelope.ts:73-80 | what a request signs is no signed envelope unless its device id begins with all of the 46 bytes that every envelope begins with |
| `EnvelopeFraming.SpelledOpeningCollidesExactly` | packages/crypto/src/envelope.ts:73-80 | where a device id spells an envelope up to its last length, the request is a signed envelope if and only if that length is the length of the rest of the request |
| `EnvelopeFraming.ADeviceIdCanSpellAnEnvelope` | packages/protocol/src/signing.ts:102-165 | a concrete request passes every field check and signs the bytes of an envelope |
| `Padme.PaddedIsIdempotent` | packages/crypto/src/padme.ts:25-51 | never shorter than the input, and a padded length pads to itself |
| `Padme.PaddedIsMonotone` | packages/crypto/src/padme.ts:25-51 | longer payloads never pad to less |
| `Padme.OverheadUnderTwelvePercent` | packages/crypto/src/padme.ts:13-15 | overhead stays strictly under 12 per cent for every length |
| `Padme.FewPaddedLengths` | packages/crypto/src/padme.ts:13-15 | all lengths of exponent E pad to at most 2E + 1 lengths |
| `Padme.NoInt32Overflow` | packages/crypto/src/padme.ts:29-32 | the 32-bit operands stay below the sign bit |
| `Padme.ClearLowIsMultiple` | packages/crypto/src/padme.ts:49-50 | clearing the low bits is rounding down to a multiple |
| `Padme.PaddedExactly` | packages/crypto/src/padme.ts:18-51 | with e the exponent and s the number of bits of e, the result is the least multiple of two to the e - s that is not below the length |
| `Padme.Pad` | packages/crypto/src/padme.ts:57-64 | length prefix, data, zeros up to the padded length; an error exactly from 2 to the 30th on |
| `Padme.Unpad` | packages/crypto/src/padme.ts:67-81 | an error exactly when the prefix is missing or declares more than is there |
| `Padme.FramesUnpad` | packages/crypto/src/padme.ts:67-81 | on a padded frame the only possible answer is the original data |
| `Padme.PadThenUnpad` | packages/crypto/src/padme.ts:57-81 | unpadding what was padded gives the data back |
| `ParentChain.ChainGoesRound` | packages/viewmodel/src/cards.ts:550-561 | a chain that repeats a name goes round among the names already passed |
| `ParentChain.IsOnParentCycle` | packages/viewmodel/src/cards.ts:550-561 | true if and only if following parents from a name comes back to it, for any parents, and it terminates |
| `Revenue.TopLevelRevenuePaise` | packages/viewmodel/src/cards.ts:314-338 | the exact sum of the rows not contained in another row of their period, or an error exactly when one of those is unreadable or the sum unsafe |
| `Revenue.PeriodCountsOnce` | packages/viewmodel/src/cards.ts:324-336 | for any measure of the groups: within a period the top-level rows add up to what all the groups have of their own |
| `Revenue.PeriodsPartition` | packages/viewmodel/src/cards.ts:315-320 | grouping by period keeps every row once |
| `Revenue.RevenueCountsOnce` | packages/viewmodel/src/cards.ts:314-338 | if each printed amount is its own plus what is rolled up into it, every summed row can be read and the result is the sum of the own amounts, whichever parents are missing or on cycles |
| `Forest.NoForestCycle` | packages/viewmodel/src/cards.ts:517-539 | attaching groups never closes a cycle |
| `Forest.ForestHoldsEveryGroupOnce` | packages/viewmodel/src/cards.ts:517-541 | the forest holds every group exactly once |
| `Forest.ForestFollowsParents` | packages/viewmodel/src/cards.ts:522-539 | the roots are exactly the groups that can be attached to nothing, and every other group hangs from its own parent |
| `BalanceSheet.HangAll` | packages/viewmodel/src/cards.ts:517-541 | the child lists filled in place are the groups attached to each group, in order of first appearance |
| `BalanceSheet.BalanceSheetTree` | packages/viewmodel/src/cards.ts:507-541 | an error exactly when an amount of a non-revenue row is unreadable, and otherwise objects that read as a sheet of the rows, in the sense of the next row |
| `BalanceSheet.ForestIsSheetOf` | packages/viewmodel/src/cards.ts:495-541 | each group shown once, with the amount that its last row prints, sign included, where that row's parent can be attached; roots and children in order of first appearance |
| `BalanceSheet.EveryGroupIsShownOnce` | packages/viewmodel/src/cards.ts:507-541 | for any parents (cycles, self-parents, missing names, repeated rows) each distinct non-revenue group appears once, and nothing else does |
| `Scheduler.Scheduler.Tick` | apps/bridge/src/main/scheduler.ts:96-108 | ignored, remembered or started, as the machine's tick step |
| `Scheduler.Scheduler.CycleSettled` | apps/bridge/src/main/scheduler.ts:108-126 | the same next step whether the cycle threw and whether its reporter threw |
| `Scheduler.AtMostOneInFlight` | apps/bridge/src/main/scheduler.ts:96-126 | at most one cycle is ever in flight |
| `Scheduler.BurstCollapses` | apps/bridge/src/main/scheduler.ts:98-125 | any events during a cycle give exactly one further start if a tick was wanted and the scheduler is not stopped when it settles, and otherwise none |
| `Scheduler.TickIsServed` | apps/bridge/src/main/scheduler.ts:96-126 | a tick that finds no cycle running gets one at once, a manual one even while stopped; one that finds a cycle running gets another no earlier than it once that settles, if no stop is in effect |
| `Scheduler.ManualSyncAfterStopIsDropped` | apps/bridge/src/main/scheduler.ts:97-125 | a manual sync asked for after a stop, during a cycle, gets none |
| `Scheduler.ResumeRunsOnceExactlyIfStartedOnce` | apps/bridge/src/main/scheduler.ts:55-63 | waking an idle scheduler runs exactly one cycle if and only if it was started only once |
| `Scheduler.StartedTwiceWakesTwice` | apps/bridge/src/main/scheduler.ts:18-63 | a scheduler started, stopped and started again runs two cycles on waking |
| `Session.GuessesAreThrottled` | apps/bridge/src/main/session.ts:229-237 | with a monotone clock and no success in between, every half-open window of fifteen seconds holds at most five counted failures |
| `Session.StretchIsThrottled` | apps/bridge/src/main/session.ts:144-237 | any six counted failures in a row span a whole cool-down |
| `Session.CounterStaysBelow` | apps/bridge/src/main/session.ts:229-237 | after any run of attempts and locks the failure counter is below five |
| `Session.CounterIsInARow` | apps/bridge/src/main/session.ts:144-237 | over every run from a new session the counter is the number of failures since the last unlocking or the last fifth |
| `Session.ShutOutExactlyAfterFive` | apps/bridge/src/main/session.ts:144-237 | over every run from a new session, unlocks and locks included: an attempt is turned away unexamined if and only if a fifth failure in a row was counted less than a cool-down before it, and then no key is derived and nothing is counted |
| `Session.UnlockSession.UnlockNow` | apps/bridge/src/main/session.ts:144-227 | each attempt is a step of the throttle; it succeeds on exactly one combination of answers; what it leaves as the message is told for every cause by the inputs alone; a key that could not be remembered is zeroed |
| `Session.UnlockSession.Fail` | apps/bridge/src/main/session.ts:229-237 | counts one failure and starts the cool-down on the fifth |
| `Session.UnlockSession.Lock` | apps/bridge/src/main/session.ts:262-270 | the key bytes are zeroed in place, the timer is off, the throttle is unchanged |
| `Session.UnlockSession.Current` | apps/bridge/src/main/session.ts:242-247 | reading the open session moves the idle deadline and nothing else |

## Left out

- Cryptographic primitives, gzip, HTTP, the SQLite and Neon drivers, Electron, IPC and deployment: foreign code.
- `aggregateAgeing`, `billsForSide`, `acceptRosterVersion`, the wizard machine and `schema.sql` are not part of this model.
- Byte-encoding detection, TDL request text beyond escaping and the tag alphabet, renderers and charts: no specification to prove against.
- Sign canaries, route dispatch, the remaining cards and the ingest envelope's field-by-field validation: they would only add easy members.
- The tenant byte cap under concurrency: check and write are separate, so there is no exact bound.
- CanonicalRoundTrip.SerializesExactly: integers beyond the safe range are not values of the model; the code prints them, in the shortest form JavaScript has for them.
- Numbers that are not integers: amounts are integer paise, counters and timestamps are integers; unusable readings are a separate constructor in `Gate` and `Door`.
- The length of a backoff: `backoffMs` draws it at random, so the retry time a row is given is an input here.
- Cycle statistics, log lines and the wording of error messages.
- `SeqCounter` across processes: the file it is kept in is not modelled.
- The tenant in a slot's key: one tenant is fixed, and its slots are named by company, section and date.
- Code points above U+FFFF in Tally's responses are one character here and two code units there; neither the tags nor the escapes touch them.
- The `alg` of an envelope enters as the bytes its text encodes to, so text that encodes alike (unpaired surrogates) is not told apart.
- The bits of Padme's mask are cleared by a recursive function on numbers rather than on 32-bit words; `NoInt32Overflow` shows that the words would hold them.
- A `lock` that arrives while a key derivation is running: the attempt is one step here.
- Two whole cycles interleaved: only a value that another pass queues during a drain is modelled.
- The interval timer and the resume listener are events of the scheduler's model, not timers.
