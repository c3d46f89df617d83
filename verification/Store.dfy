/**
 * The Bridge's local tables (packages/sync/src/store.ts): watermarks, acknowledged hashes and the
 * superseding outbox.
 *
 * `Tables` is the mathematical content, which the protocol's steps change by functions. `SyncStore`
 * is the object whose methods change a list of rows in place; each method is proved to do to the
 * content what the function of its name does.
 */
module Store {
  import opened Wrappers
  import opened Gate

  datatype Slot = Slot(company: Guid, section: Section, asOf: IsoDate)

  /** A sealed envelope, opaque apart from the authenticated data the server reads. */
  datatype Envelope = Envelope(slot: Slot, snapshotTs: int, seqNo: nat, contentHash: Digest)

  datatype OutboxRow = OutboxRow(
    id: nat,
    slot: Slot,
    payload: Envelope,
    contentHash: Digest,
    attempts: nat,
    nextAttemptAt: int,
    createdAt: int)

  datatype Tables = Tables(
    watermark: map<Guid, Watermark>,
    sectionHash: map<Slot, Digest>,
    outbox: map<Slot, OutboxRow>,
    nextId: nat)
  {
    /** Rows sit at their own slot under distinct row ids. */
    ghost predicate Valid() {
      && (forall s | s in outbox :: outbox[s].slot == s && outbox[s].id < nextId)
      && (forall s, t | s in outbox && t in outbox && s != t :: outbox[s].id != outbox[t].id)
    }

    function GetWatermark(g: Guid): Option<Watermark> {
      if g in watermark then Some(watermark[g]) else None
    }

    function GetSectionHash(slot: Slot): Option<Digest> {
      if slot in sectionHash then Some(sectionHash[slot]) else None
    }

    function SetWatermark(w: Watermark): Tables {
      this.(watermark := watermark[w.companyGuid := w])
    }

    ghost function ResetCompany(g: Guid): Tables {
      this.(watermark := watermark - {g},
            sectionHash := map s | s in sectionHash && s.company != g :: sectionHash[s],
            outbox := map s | s in outbox && s.company != g :: outbox[s])
    }

    function Reset(): Tables {
      this.(watermark := map[], sectionHash := map[], outbox := map[])
    }

    function AckSectionHash(slot: Slot, hash: Digest): Tables {
      this.(sectionHash := sectionHash[slot := hash])
    }

    /** An upsert on the slot: a superseded row keeps its row id and its age, nothing else. */
    function Enqueue(slot: Slot, payload: Envelope, hash: Digest, now: int): Tables {
      if slot in outbox then
        this.(outbox := outbox[slot := outbox[slot].(payload := payload, contentHash := hash,
                                                     attempts := 0, nextAttemptAt := now)])
      else
        this.(outbox := outbox[slot := OutboxRow(nextId, slot, payload, hash, 0, now, now)], nextId := nextId + 1)
    }

    ghost function Dequeue(id: nat, hash: Digest): Tables {
      this.(outbox := map s | s in outbox && !(outbox[s].id == id && outbox[s].contentHash == hash) :: outbox[s])
    }

    ghost function DeferAttempt(id: nat, nextAttemptAt: int, hash: Digest): Tables {
      this.(outbox := map s | s in outbox :: Deferred(outbox[s], id, nextAttemptAt, hash))
    }

    function InvalidateWatermark(g: Guid): Tables {
      this.(watermark := watermark - {g})
    }
  }

  /** What the server will hold for a slot once the queue has drained: the pending hash, else the acknowledged one. */
  function Tracked(t: Tables, slot: Slot): Option<Digest> {
    if slot in t.outbox then Some(t.outbox[slot].contentHash) else t.GetSectionHash(slot)
  }

  /** `rows` answers "due at `now`, oldest first, at most `limit`" on the given outbox. */
  ghost predicate DueRows(outbox: map<Slot, OutboxRow>, now: int, limit: nat, rows: seq<OutboxRow>) {
    && |rows| <= limit
    && (forall i | 0 <= i < |rows| ::
          rows[i].slot in outbox && outbox[rows[i].slot] == rows[i] && rows[i].nextAttemptAt <= now)
    && (forall i, j | 0 <= i < j < |rows| ::
          rows[i].slot != rows[j].slot && rows[i].createdAt <= rows[j].createdAt)
    && (forall s | s in outbox && outbox[s].nextAttemptAt <= now && outbox[s] !in rows ::
          |rows| == limit && forall i | 0 <= i < |rows| :: rows[i].createdAt <= outbox[s].createdAt)
  }

  /** The rows of the table, and the slot index the unique constraint maintains over them. */
  ghost predicate Indexed(rows: seq<OutboxRow>, outbox: map<Slot, OutboxRow>) {
    && (forall i | 0 <= i < |rows| :: rows[i].slot in outbox && outbox[rows[i].slot] == rows[i])
    && (forall i, j | 0 <= i < j < |rows| :: rows[i].slot != rows[j].slot)
    && (forall s | s in outbox :: outbox[s] in rows)
  }

  predicate SortedByAge(rows: seq<OutboxRow>) {
    forall i, j | 0 <= i < j < |rows| :: rows[i].createdAt <= rows[j].createdAt
  }

  predicate DistinctSlots(rows: seq<OutboxRow>) {
    forall i, j | 0 <= i < j < |rows| :: rows[i].slot != rows[j].slot
  }

  /** Where a row of this age goes in a list sorted by age, after the rows of the same age. */
  method PlaceByAge(rows: seq<OutboxRow>, createdAt: int) returns (p: nat)
    requires SortedByAge(rows)
    ensures p <= |rows|
    ensures forall i | 0 <= i < p :: rows[i].createdAt <= createdAt
    ensures forall i | p <= i < |rows| :: createdAt < rows[i].createdAt
  {
    p := 0;
    while p < |rows| && rows[p].createdAt <= createdAt
      invariant p <= |rows|
      invariant forall i | 0 <= i < p :: rows[i].createdAt <= createdAt
    {
      p := p + 1;
    }
  }

  lemma {:induction false} PlacedRows(rows: seq<OutboxRow>, p: nat, row: OutboxRow, placed: seq<OutboxRow>)
    requires SortedByAge(rows) && DistinctSlots(rows) && p <= |rows|
    requires forall i | 0 <= i < p :: rows[i].createdAt <= row.createdAt
    requires forall i | p <= i < |rows| :: row.createdAt < rows[i].createdAt
    requires forall i | 0 <= i < |rows| :: rows[i].slot != row.slot
    requires placed == rows[..p] + [row] + rows[p..]
    ensures SortedByAge(placed) && DistinctSlots(placed)
    ensures forall r :: r in placed <==> r == row || r in rows
  {
    forall r
      ensures r in placed <==> r == row || r in rows
    {
      assert rows == rows[..p] + rows[p..];
      assert r in rows <==> r in rows[..p] || r in rows[p..];
    }
  }

  class SyncStore {
    var watermark: map<Guid, Watermark>
    var sectionHash: map<Slot, Digest>
    var outbox: seq<OutboxRow>
    var nextId: nat
    ghost var contents: Tables

    ghost predicate Valid()
      reads this
    {
      && contents.watermark == watermark
      && contents.sectionHash == sectionHash
      && contents.nextId == nextId
      && contents.Valid()
      && Indexed(outbox, contents.outbox)
    }

    constructor ()
      ensures Valid()
      ensures contents == Tables(map[], map[], map[], 0)
    {
      watermark, sectionHash, outbox, nextId := map[], map[], [], 0;
      contents := Tables(map[], map[], map[], 0);
    }

    method GetWatermark(g: Guid) returns (w: Option<Watermark>)
      requires Valid()
      ensures w == contents.GetWatermark(g)
    {
      w := if g in watermark then Some(watermark[g]) else None;
    }

    method SetWatermark(w: Watermark)
      requires Valid()
      modifies this
      ensures Valid() && contents == old(contents).SetWatermark(w)
    {
      watermark := watermark[w.companyGuid := w];
      contents := contents.SetWatermark(w);
    }

    method GetSectionHash(slot: Slot) returns (h: Option<Digest>)
      requires Valid()
      ensures h == contents.GetSectionHash(slot)
    {
      h := if slot in sectionHash then Some(sectionHash[slot]) else None;
    }

    method AckSectionHash(slot: Slot, hash: Digest)
      requires Valid()
      modifies this
      ensures Valid() && contents == old(contents).AckSectionHash(slot, hash)
    {
      sectionHash := sectionHash[slot := hash];
      contents := contents.AckSectionHash(slot, hash);
    }

    method InvalidateWatermark(g: Guid)
      requires Valid()
      modifies this
      ensures Valid() && contents == old(contents).InvalidateWatermark(g)
    {
      watermark := watermark - {g};
      contents := contents.InvalidateWatermark(g);
    }

    method Reset()
      requires Valid()
      modifies this
      ensures Valid() && contents == old(contents).Reset()
    {
      watermark, sectionHash, outbox := map[], map[], [];
      contents := contents.Reset();
    }

    method ResetCompany(g: Guid)
      requires Valid()
      modifies this
      ensures Valid() && contents == old(contents).ResetCompany(g)
    {
      watermark := watermark - {g};
      sectionHash := map s | s in sectionHash && s.company != g :: sectionHash[s];
      var kept: seq<OutboxRow> := [];
      for i := 0 to |outbox|
        invariant outbox == old(outbox)
        invariant forall r | r in kept :: r in outbox[..i] && r.slot.company != g
        invariant forall r | r in outbox[..i] && r.slot.company != g :: r in kept
        invariant DistinctSlots(kept)
      {
        assert outbox[..i + 1] == outbox[..i] + [outbox[i]];
        if outbox[i].slot.company != g {
          kept := kept + [outbox[i]];
        }
      }
      assert outbox[..|outbox|] == outbox;
      KeptIndex(outbox, contents.outbox, kept, contents.ResetCompany(g).outbox);
      outbox := kept;
      contents := contents.ResetCompany(g);
    }

    method Enqueue(slot: Slot, payload: Envelope, hash: Digest, now: int)
      requires Valid()
      modifies this
      ensures Valid() && contents == old(contents).Enqueue(slot, payload, hash, now)
    {
      var i := 0;
      while i < |outbox| && outbox[i].slot != slot
        invariant i <= |outbox|
        invariant forall j | 0 <= j < i :: outbox[j].slot != slot
      {
        i := i + 1;
      }
      if i < |outbox| {
        var row := outbox[i].(payload := payload, contentHash := hash, attempts := 0, nextAttemptAt := now);
        SupersededIndex(outbox, contents.outbox, i, row);
        EnqueueKeepsValid(contents, slot, payload, hash, now);
        outbox := outbox[i := row];
        contents := contents.Enqueue(slot, payload, hash, now);
      } else {
        AppendedIndex(outbox, contents.outbox, OutboxRow(nextId, slot, payload, hash, 0, now, now));
        EnqueueKeepsValid(contents, slot, payload, hash, now);
        outbox := outbox + [OutboxRow(nextId, slot, payload, hash, 0, now, now)];
        nextId := nextId + 1;
        contents := contents.Enqueue(slot, payload, hash, now);
      }
    }

    method Due(now: int, limit: nat) returns (rows: seq<OutboxRow>)
      requires Valid()
      ensures DueRows(contents.outbox, now, limit, rows)
    {
      var sorted: seq<OutboxRow> := [];
      for i := 0 to |outbox|
        invariant SortedByAge(sorted) && DistinctSlots(sorted)
        invariant forall r :: r in sorted <==> r in outbox[..i] && r.nextAttemptAt <= now
      {
        assert outbox[..i + 1] == outbox[..i] + [outbox[i]];
        if outbox[i].nextAttemptAt <= now {
          var p := PlaceByAge(sorted, outbox[i].createdAt);
          ghost var before := sorted;
          sorted := sorted[..p] + [outbox[i]] + sorted[p..];
          PlacedRows(before, p, outbox[i], sorted);
        }
      }
      assert outbox[..|outbox|] == outbox;
      rows := if |sorted| <= limit then sorted else sorted[..limit];
      DuePrefix(contents.outbox, now, limit, sorted, rows);
    }

    method Dequeue(id: nat, hash: Digest)
      requires Valid()
      modifies this
      ensures Valid() && contents == old(contents).Dequeue(id, hash)
    {
      var kept: seq<OutboxRow> := [];
      for i := 0 to |outbox|
        invariant outbox == old(outbox)
        invariant forall r | r in kept :: r in outbox[..i] && !(r.id == id && r.contentHash == hash)
        invariant forall r | r in outbox[..i] && !(r.id == id && r.contentHash == hash) :: r in kept
        invariant DistinctSlots(kept)
      {
        assert outbox[..i + 1] == outbox[..i] + [outbox[i]];
        if !(outbox[i].id == id && outbox[i].contentHash == hash) {
          kept := kept + [outbox[i]];
        }
      }
      assert outbox[..|outbox|] == outbox;
      KeptIndex(outbox, contents.outbox, kept, contents.Dequeue(id, hash).outbox);
      DequeueKeepsValid(contents, id, hash);
      outbox := kept;
      contents := contents.Dequeue(id, hash);
    }

    method DeferAttempt(id: nat, nextAttemptAt: int, hash: Digest)
      requires Valid()
      modifies this
      ensures Valid() && contents == old(contents).DeferAttempt(id, nextAttemptAt, hash)
    {
      var rows: seq<OutboxRow> := [];
      for i := 0 to |outbox|
        invariant outbox == old(outbox)
        invariant |rows| == i
        invariant forall j | 0 <= j < i :: rows[j] == Deferred(outbox[j], id, nextAttemptAt, hash)
      {
        rows := rows + [Deferred(outbox[i], id, nextAttemptAt, hash)];
      }
      DeferKeepsValid(contents, id, nextAttemptAt, hash);
      DeferredIndex(outbox, contents.outbox, rows, contents.DeferAttempt(id, nextAttemptAt, hash).outbox,
                    id, nextAttemptAt, hash);
      outbox := rows;
      contents := contents.DeferAttempt(id, nextAttemptAt, hash);
    }
  }

  function Deferred(row: OutboxRow, id: nat, nextAttemptAt: int, hash: Digest): OutboxRow {
    if row.id == id && row.contentHash == hash
    then row.(attempts := row.attempts + 1, nextAttemptAt := nextAttemptAt)
    else row
  }

  lemma {:induction false} KeptIndex(rows: seq<OutboxRow>, outbox: map<Slot, OutboxRow>,
                                     kept: seq<OutboxRow>, outbox': map<Slot, OutboxRow>)
    requires Indexed(rows, outbox) && forall s | s in outbox :: outbox[s].slot == s
    requires DistinctSlots(kept)
    requires forall r | r in kept :: r in rows && r.slot in outbox'
    requires forall r | r in rows && r.slot in outbox' :: r in kept
    requires forall s | s in outbox' :: s in outbox && outbox'[s] == outbox[s]
    ensures Indexed(kept, outbox')
  {
    forall i | 0 <= i < |kept|
      ensures kept[i].slot in outbox' && outbox'[kept[i].slot] == kept[i]
    {
      assert kept[i] in kept;
    }
  }

  lemma {:induction false} SupersededIndex(rows: seq<OutboxRow>, outbox: map<Slot, OutboxRow>, i: nat, row: OutboxRow)
    requires Indexed(rows, outbox) && forall s | s in outbox :: outbox[s].slot == s
    requires i < |rows| && row.slot == rows[i].slot
    ensures Indexed(rows[i := row], outbox[row.slot := row])
  {
    var outbox' := outbox[row.slot := row];
    forall s | s in outbox'
      ensures outbox'[s] in rows[i := row]
    {
      if s == row.slot {
        assert rows[i := row][i] == row;
      } else {
        var j :| 0 <= j < |rows| && rows[j] == outbox[s];
        assert rows[i := row][j] == rows[j];
      }
    }
  }

  lemma {:induction false} AppendedIndex(rows: seq<OutboxRow>, outbox: map<Slot, OutboxRow>, row: OutboxRow)
    requires Indexed(rows, outbox) && forall s | s in outbox :: outbox[s].slot == s
    requires forall i | 0 <= i < |rows| :: rows[i].slot != row.slot
    ensures row.slot !in outbox && Indexed(rows + [row], outbox[row.slot := row])
  {
    forall s | s in outbox
      ensures s != row.slot
    {
      var j :| 0 <= j < |rows| && rows[j] == outbox[s];
    }
    var outbox' := outbox[row.slot := row];
    forall s | s in outbox'
      ensures outbox'[s] in rows + [row]
    {
      if s != row.slot {
        assert outbox[s] in rows;
      }
    }
  }

  lemma {:induction false} EnqueueKeepsValid(t: Tables, slot: Slot, payload: Envelope, hash: Digest, now: int)
    requires t.Valid()
    ensures t.Enqueue(slot, payload, hash, now).Valid()
  {
  }

  lemma {:induction false} DeferKeepsValid(t: Tables, id: nat, nextAttemptAt: int, hash: Digest)
    requires t.Valid()
    ensures t.DeferAttempt(id, nextAttemptAt, hash).Valid()
  {
  }

  lemma {:induction false} DequeueKeepsValid(t: Tables, id: nat, hash: Digest)
    requires t.Valid()
    ensures t.Dequeue(id, hash).Valid()
  {
  }

  lemma {:induction false} DeferredIndex(rows: seq<OutboxRow>, outbox: map<Slot, OutboxRow>, rows': seq<OutboxRow>,
                      outbox': map<Slot, OutboxRow>, id: nat, nextAttemptAt: int, hash: Digest)
    requires Indexed(rows, outbox)
    requires |rows'| == |rows| && forall j | 0 <= j < |rows| :: rows'[j] == Deferred(rows[j], id, nextAttemptAt, hash)
    requires outbox' == map s | s in outbox :: Deferred(outbox[s], id, nextAttemptAt, hash)
    ensures Indexed(rows', outbox')
  {
    forall j | 0 <= j < |rows'|
      ensures rows'[j].slot == rows[j].slot && rows'[j].slot in outbox' && outbox'[rows'[j].slot] == rows'[j]
    {
      assert rows[j].slot in outbox && outbox[rows[j].slot] == rows[j];
    }
    forall s | s in outbox'
      ensures outbox'[s] in rows'
    {
      assert outbox[s] in rows;
      var j :| 0 <= j < |rows| && rows[j] == outbox[s];
      assert rows'[j] == outbox'[s];
    }
  }

  lemma {:induction false} DuePrefix(outbox: map<Slot, OutboxRow>, now: int, limit: nat, sorted: seq<OutboxRow>,
                                     rows: seq<OutboxRow>)
    requires forall s | s in outbox :: outbox[s].slot == s
    requires SortedByAge(sorted) && DistinctSlots(sorted)
    requires forall i | 0 <= i < |sorted| ::
               sorted[i].slot in outbox && outbox[sorted[i].slot] == sorted[i] && sorted[i].nextAttemptAt <= now
    requires forall s | s in outbox && outbox[s].nextAttemptAt <= now :: outbox[s] in sorted
    requires rows == if |sorted| <= limit then sorted else sorted[..limit]
    ensures DueRows(outbox, now, limit, rows)
  {
    forall s | s in outbox && outbox[s].nextAttemptAt <= now && outbox[s] !in rows
      ensures |rows| == limit && forall i | 0 <= i < |rows| :: rows[i].createdAt <= outbox[s].createdAt
    {
      var k :| 0 <= k < |sorted| && sorted[k] == outbox[s];
      assert forall j | 0 <= j < |rows| :: rows[j] == sorted[j] && rows[j] in rows;
      assert |rows| <= k;
    }
  }
}
