/**
 * The server's snapshot slots: the freshness checks of the ingest handler
 * (apps/server/src/ingest.ts) and the conditional upsert they end in (apps/server/src/db.ts).
 */
module Snapshots {
  import opened Wrappers
  import opened Signing
  import opened Store

  /** What a slot holds: the timestamp its device claimed and the hash of its content. */
  datatype Stored = Stored(snapshotTs: int, contentHash: string)

  type Table = map<Slot, Stored>

  datatype Answer = Accepted | InFuture | Stale | Conflict

  predicate BelowCeiling(e: Envelope, now: int) {
    e.snapshotTs <= now + MAX_CLOCK_SKEW_MS
  }

  function Latest(t: Table, slot: Slot): Option<Stored> {
    if slot in t then Some(t[slot]) else None
  }

  /** The handler's verdict on an envelope below the ceiling, against what it read from the slot. */
  function Judge(latest: Option<Stored>, e: Envelope): Answer {
    if latest.None? then Accepted
    else if e.snapshotTs < latest.value.snapshotTs then Stale
    else if e.snapshotTs == latest.value.snapshotTs && e.contentHash != latest.value.contentHash then Conflict
    else Accepted
  }

  /** INSERT ... ON CONFLICT DO UPDATE WHERE the stored timestamp is not newer: one atomic statement. */
  function Upsert(t: Table, e: Envelope): Table {
    if e.slot !in t || t[e.slot].snapshotTs <= e.snapshotTs
    then t[e.slot := Stored(e.snapshotTs, e.contentHash)]
    else t
  }

  /** A whole request, run with no other handler interleaved. */
  function Ingest(t: Table, e: Envelope, now: int): (Table, Answer) {
    if !BelowCeiling(e, now) then (t, InFuture)
    else
      var answer := Judge(Latest(t, e.slot), e);
      (if answer == Accepted then Upsert(t, e) else t, answer)
  }

  /** What a serial request does, stated by its effect on every slot. */
  lemma {:induction false} IngestEffect(t: Table, e: Envelope, now: int)
    ensures var (t', answer) := Ingest(t, e, now);
            && (answer == Accepted <==>
                  Latest(t', e.slot) == Some(Stored(e.snapshotTs, e.contentHash)) && BelowCeiling(e, now))
            && (answer == InFuture <==> e.snapshotTs > now + 300_000)
            && (answer == Stale <==>
                  BelowCeiling(e, now) && e.slot in t && e.snapshotTs < t[e.slot].snapshotTs)
            && (answer == Conflict <==>
                  && BelowCeiling(e, now) && e.slot in t
                  && e.snapshotTs == t[e.slot].snapshotTs && e.contentHash != t[e.slot].contentHash)
            && (answer != Accepted ==> t' == t)
            && (forall s | s in t :: s in t' && t[s].snapshotTs <= t'[s].snapshotTs)
            && (forall s | s in t && t[s].snapshotTs == t'[s].snapshotTs :: t'[s] == t[s])
            && (forall s | s != e.slot :: Latest(t', s) == Latest(t, s))
  {
  }

  datatype Request = Request(envelope: Envelope, now: int)

  /** The table after requests served one after the other. */
  function Served(t: Table, requests: seq<Request>): Table
    decreases |requests|
  {
    if requests == [] then t
    else Served(Ingest(t, requests[0].envelope, requests[0].now).0, requests[1..])
  }

  /** From `t` to `t'` no slot lost its content or went back, and none changed content under one timestamp. */
  predicate OnlyAdvances(t: Table, t': Table) {
    forall x | x in t ::
      x in t' && t[x].snapshotTs <= t'[x].snapshotTs && (t[x].snapshotTs == t'[x].snapshotTs ==> t'[x] == t[x])
  }

  /** Served one at a time, requests never change the content stored at an equal timestamp, however many come. */
  lemma {:induction false} SerialRunOnlyAdvances(t: Table, requests: seq<Request>)
    ensures OnlyAdvances(t, Served(t, requests))
    decreases |requests|
  {
    if requests != [] {
      IngestEffect(t, requests[0].envelope, requests[0].now);
      SerialRunOnlyAdvances(Ingest(t, requests[0].envelope, requests[0].now).0, requests[1..]);
    }
  }

  /** The server's snapshot table, with the ingest handler run to completion on one request at a time. */
  class SnapshotTable {
    var slots: Table

    constructor ()
      ensures slots == map[]
    {
      slots := map[];
    }

    method StoreSnapshot(e: Envelope)
      modifies this
      ensures slots == Upsert(old(slots), e)
    {
      if e.slot !in slots || slots[e.slot].snapshotTs <= e.snapshotTs {
        slots := slots[e.slot := Stored(e.snapshotTs, e.contentHash)];
      }
    }

    method HandleIngest(e: Envelope, now: int) returns (answer: Answer)
      modifies this
      ensures (slots, answer) == Ingest(old(slots), e, now)
    {
      if e.snapshotTs > now + MAX_CLOCK_SKEW_MS {
        return InFuture;
      }
      if e.slot in slots {
        var latest := slots[e.slot];
        if e.snapshotTs < latest.snapshotTs {
          return Stale;
        }
        if e.snapshotTs == latest.snapshotTs && e.contentHash != latest.contentHash {
          return Conflict;
        }
      }
      StoreSnapshot(e);
      answer := Accepted;
    }
  }
}
