/**
 * What one company's pass and one drain do to the tables (packages/sync/src/orchestrator.ts), said of the tables
 * before and after: which slots are queued, acknowledged and watched, and what the server holds.
 */
module Cycles {
  import opened Wrappers
  import opened Gate
  import opened Store
  import opened Snapshots
  import opened Protocol

  function Pending(t: Tables, x: Slot): Option<OutboxRow> {
    if x in t.outbox then Some(t.outbox[x]) else None
  }

  // ------------------------------------------------------------------ a pass

  /** The hash gate on one item: queued afresh in its old place, unless its hash is the acknowledged one. */
  ghost predicate PassedGate(t: Tables, t': Tables, g: Guid, item: Item) {
    var x := ItemSlot(g, item);
    if t.GetSectionHash(x) == Some(item.hash) then Pending(t', x) == Pending(t, x)
    else
      && x in t'.outbox
      && t'.outbox[x].contentHash == item.hash && t'.outbox[x].attempts == 0
      && t'.outbox[x].payload.slot == x && t'.outbox[x].payload.contentHash == item.hash
      && (x in t.outbox ==> t'.outbox[x].id == t.outbox[x].id && t'.outbox[x].createdAt == t.outbox[x].createdAt)
  }

  /** All that the hash gate does to the tables when these items go through it. */
  ghost predicate Pulled(t: Tables, t': Tables, g: Guid, items: seq<Item>) {
    && t'.sectionHash == t.sectionHash
    && (forall i | 0 <= i < |items| :: PassedGate(t, t', g, items[i]))
    && (forall x | (forall i | 0 <= i < |items| :: ItemSlot(g, items[i]) != x) :: Pending(t', x) == Pending(t, x))
  }

  predicate DistinctSections(items: seq<Item>) {
    forall i, j | 0 <= i < j < |items| :: items[i].section != items[j].section
  }

  /** One item more, in a slot that none of those before it has. */
  lemma {:induction false} PulledOneMore(t: Tables, m: Tables, t': Tables, g: Guid, items: seq<Item>, i: nat)
    requires i < |items| && DistinctSections(items) && Pulled(t, m, g, items[..i])
    requires t'.sectionHash == m.sectionHash && PassedGate(m, t', g, items[i])
    requires forall x | x != ItemSlot(g, items[i]) :: Pending(t', x) == Pending(m, x)
    ensures Pulled(t, t', g, items[..i + 1])
  {
    var x := ItemSlot(g, items[i]);
    var more := items[..i + 1];
    assert more == items[..i] + [items[i]];
    forall j | 0 <= j < i
      ensures PassedGate(t, t', g, items[j]) && ItemSlot(g, items[j]) != x
    {
      assert PassedGate(t, m, g, items[..i][j]) && items[j].section != items[i].section;
      assert Pending(t', ItemSlot(g, items[j])) == Pending(m, ItemSlot(g, items[j]));
    }
    assert Pending(m, x) == Pending(t, x) by {
      assert forall j | 0 <= j < |items[..i]| :: items[..i][j] == items[j];
    }
    forall y | (forall j | 0 <= j < |more| :: ItemSlot(g, more[j]) != y)
      ensures Pending(t', y) == Pending(t, y)
    {
      assert more[i] == items[i];
      assert forall j | 0 <= j < |items[..i]| :: items[..i][j] == more[j];
    }
  }

  /** No section is asked for twice. */
  lemma {:induction false} AskedOnce(stored: Option<Watermark>, probe: Watermark, items: seq<Item>)
    requires SectionsIn(items) == SectionsOf(DecideGate(stored, probe))
    ensures DistinctSections(items)
  {
    assert forall i, j | 0 <= i < j < |SECTIONS| :: SECTIONS[i] != SECTIONS[j];
    assert forall i, j | 0 <= i < j < |VOUCHER_SECTIONS| :: VOUCHER_SECTIONS[i] != VOUCHER_SECTIONS[j];
    assert forall i, j | 0 <= i < j < |MASTER_SECTIONS| :: MASTER_SECTIONS[i] != MASTER_SECTIONS[j];
    forall i, j | 0 <= i < j < |items|
      ensures items[i].section != items[j].section
    {
      assert SectionsIn(items)[i] == items[i].section && SectionsIn(items)[j] == items[j].section;
    }
  }

  /** One company from the AlterID gate to its watermark, or to the extraction that threw. */
  ghost predicate Synced(extract: (Guid, seq<Section>) -> Option<seq<Item>>, probe: Watermark,
                         t: Tables, t': Tables, threw: bool)
  {
    var g := probe.companyGuid;
    var decision := DecideGate(t.GetWatermark(g), probe);
    var kept := if decision.Full? then t.ResetCompany(g) else t;
    var answer := extract(g, SectionsOf(decision));
    if decision.Skip? then !threw && t' == t
    else if answer.None? then threw && t' == kept
    else !threw && Pulled(kept, t', g, answer.value) && t'.watermark == kept.watermark[g := probe]
  }

  // ------------------------------------------------------------------ a drain

  /** What the network does with one upload. */
  datatype Fate = LostOnTheWay | RefusedAtTheDoor | Delivered(serverNow: int) | AnswerLost(serverNow: int)

  /** The upload reaches the server and is stored. */
  predicate Lands(fate: Fate, t: Table, e: Envelope) {
    (fate.Delivered? || fate.AnswerLost?) && Ingest(t, e, fate.serverNow).1 == Accepted
  }

  /** What comes back for an upload, and what the server holds in its slot afterwards. */
  predicate Answered(fate: Fate, t: Table, t': Table, e: Envelope, result: UploadResult) {
    && (result == Retryable <==> fate.LostOnTheWay? || fate.AnswerLost?)
    && (result == Acked <==> fate.Delivered? && Lands(fate, t, e))
    && Latest(t', e.slot) ==
       if Lands(fate, t, e) then Some(Stored(e.snapshotTs, e.contentHash)) else Latest(t, e.slot)
  }

  /** One upload, with every other slot of the server as it was. */
  ghost predicate Uploaded(fate: Fate, t: Table, t': Table, e: Envelope, result: UploadResult) {
    Answered(fate, t, t', e, result) && forall x | x != e.slot :: Latest(t', x) == Latest(t, x)
  }

  /** A drain as the server sees it: every row is answered on what its slot held before the drain. */
  ghost predicate RowsServed(fate: OutboxRow -> Fate, t: Table, t': Table, rows: seq<OutboxRow>,
                             results: seq<UploadResult>)
    requires |results| == |rows|
  {
    && (forall i | 0 <= i < |rows| :: Answered(fate(rows[i]), t, t', rows[i].payload, results[i]))
    && (forall x | (forall i | 0 <= i < |rows| :: rows[i].payload.slot != x) :: Latest(t', x) == Latest(t, x))
  }

  predicate OwnEnvelopes(rows: seq<OutboxRow>) {
    forall i | 0 <= i < |rows| :: rows[i].payload.slot == rows[i].slot
  }

  /** A refusal is final, and so is the twelfth retryable answer. */
  predicate IsGivenUp(row: OutboxRow, result: UploadResult) {
    result == Refused || (result == Retryable && row.attempts >= 11)
  }

  /** What a drain makes of one of its rows. */
  ghost predicate RowSettled(t: Tables, t': Tables, row: OutboxRow, result: UploadResult, retryAt: int) {
    && Pending(t', row.slot) ==
       (if result == Retryable && row.attempts < 11
        then Some(row.(attempts := row.attempts + 1, nextAttemptAt := retryAt)) else None)
    && t'.GetSectionHash(row.slot) ==
       (if result == Acked then Some(row.contentHash) else t.GetSectionHash(row.slot))
  }

  ghost predicate SomeGivenUp(rows: seq<OutboxRow>, results: seq<UploadResult>, g: Guid)
    requires |results| == |rows|
  {
    exists i :: 0 <= i < |rows| && rows[i].slot.company == g && IsGivenUp(rows[i], results[i])
  }

  /**
   * All that a drain does to the tables: its rows are settled by their answers, the watermarks of the companies
   * that had a row given up are gone, and nothing else moves.
   */
  ghost predicate RowsSettled(retryAt: OutboxRow -> int, t: Tables, t': Tables, rows: seq<OutboxRow>,
                              results: seq<UploadResult>)
    requires |results| == |rows|
  {
    && (forall i | 0 <= i < |rows| :: RowSettled(t, t', rows[i], results[i], retryAt(rows[i])))
    && (forall x | (forall i | 0 <= i < |rows| :: rows[i].slot != x) ::
          Pending(t', x) == Pending(t, x) && t'.GetSectionHash(x) == t.GetSectionHash(x))
    && (forall g :: t'.GetWatermark(g) == if SomeGivenUp(rows, results, g) then None else t.GetWatermark(g))
  }

  predicate DistinctRows(rows: seq<OutboxRow>) {
    forall i, j | 0 <= i < j < |rows| :: rows[i].slot != rows[j].slot
  }

  /** The first rows of a drain leave those after them alone. */
  lemma {:induction false} NextIsUntouched(retryAt: OutboxRow -> int, t: Tables, m: Tables, rows: seq<OutboxRow>,
                                           results: seq<UploadResult>, i: nat)
    requires i < |rows| && |results| == i && DistinctRows(rows) && RowsSettled(retryAt, t, m, rows[..i], results)
    ensures Pending(m, rows[i].slot) == Pending(t, rows[i].slot)
    ensures m.GetSectionHash(rows[i].slot) == t.GetSectionHash(rows[i].slot)
  {
    assert forall j | 0 <= j < |rows[..i]| :: rows[..i][j] == rows[j];
  }

  /** What the reply does to the row's own slot, and that it leaves every other slot alone. */
  lemma {:induction false} ReplySettles(m: Tables, row: OutboxRow, result: UploadResult, retryAt: int)
    requires m.Valid() && Pending(m, row.slot) == Some(row)
    ensures var t' := TablesAfterReply(m, row, result, retryAt);
            && RowSettled(m, t', row, result, retryAt)
            && (forall x | x != row.slot ::
                  Pending(t', x) == Pending(m, x) && t'.GetSectionHash(x) == m.GetSectionHash(x))
            && (forall g :: t'.GetWatermark(g) ==
                            if g == row.slot.company && IsGivenUp(row, result) then None else m.GetWatermark(g))
  {
    SettlesOnlyWhatWasSent(m, row, retryAt);
    SettlesOnlyWhatWasSent(m.AckSectionHash(row.slot, row.contentHash), row, retryAt);
  }

  lemma {:induction false} GivenUpOneMore(rows: seq<OutboxRow>, results: seq<UploadResult>, i: nat,
                                          r: UploadResult, g: Guid)
    requires i < |rows| && |results| == i
    ensures SomeGivenUp(rows[..i + 1], results + [r], g) <==>
            SomeGivenUp(rows[..i], results, g) || (g == rows[i].slot.company && IsGivenUp(rows[i], r))
  {
    var more, all := rows[..i + 1], results + [r];
    if SomeGivenUp(rows[..i], results, g) {
      var j :| 0 <= j < i && rows[..i][j].slot.company == g && IsGivenUp(rows[..i][j], results[j]);
      assert more[j] == rows[..i][j] && all[j] == results[j];
    }
    if SomeGivenUp(more, all, g) {
      var j :| 0 <= j <= i && more[j].slot.company == g && IsGivenUp(more[j], all[j]);
      if j < i {
        assert rows[..i][j] == more[j] && results[j] == all[j];
      }
    }
    assert more[i] == rows[i] && all[i] == r;
  }

  /** One row more. */
  lemma {:induction false} SettledOneMore(retryAt: OutboxRow -> int, t: Tables, m: Tables, rows: seq<OutboxRow>,
                                          results: seq<UploadResult>, i: nat, r: UploadResult)
    requires i < |rows| && |results| == i && DistinctRows(rows) && RowsSettled(retryAt, t, m, rows[..i], results)
    requires m.Valid() && Pending(t, rows[i].slot) == Some(rows[i])
    ensures RowsSettled(retryAt, t, TablesAfterReply(m, rows[i], r, retryAt(rows[i])), rows[..i + 1], results + [r])
  {
    var t' := TablesAfterReply(m, rows[i], r, retryAt(rows[i]));
    NextIsUntouched(retryAt, t, m, rows, results, i);
    ReplySettles(m, rows[i], r, retryAt(rows[i]));
    var more, all := rows[..i + 1], results + [r];
    forall j | 0 <= j < |more|
      ensures RowSettled(t, t', more[j], all[j], retryAt(more[j]))
    {
      if j < i {
        assert RowSettled(t, m, rows[..i][j], results[j], retryAt(rows[..i][j]));
        assert more[j] == rows[..i][j] == rows[j] && all[j] == results[j];
      }
    }
    forall x | (forall j | 0 <= j < |more| :: more[j].slot != x)
      ensures Pending(t', x) == Pending(t, x) && t'.GetSectionHash(x) == t.GetSectionHash(x)
    {
      assert more[i] == rows[i];
      assert forall j | 0 <= j < |rows[..i]| :: rows[..i][j] == more[j];
    }
    forall g
      ensures t'.GetWatermark(g) == if SomeGivenUp(more, all, g) then None else t.GetWatermark(g)
    {
      GivenUpOneMore(rows, results, i, r, g);
    }
  }

  /** Whether an upload lands depends on its own slot alone. */
  lemma {:induction false} LandsByItsSlot(fate: Fate, t: Table, m: Table, e: Envelope)
    requires Latest(t, e.slot) == Latest(m, e.slot)
    ensures Lands(fate, t, e) <==> Lands(fate, m, e)
  {
  }

  lemma {:induction false} ServedOneMore(fate: OutboxRow -> Fate, t: Table, m: Table, t': Table, rows: seq<OutboxRow>,
                                         results: seq<UploadResult>, i: nat, r: UploadResult)
    requires i < |rows| && |results| == i && DistinctRows(rows) && OwnEnvelopes(rows)
    requires RowsServed(fate, t, m, rows[..i], results) && Uploaded(fate(rows[i]), m, t', rows[i].payload, r)
    ensures RowsServed(fate, t, t', rows[..i + 1], results + [r])
  {
    var more, all := rows[..i + 1], results + [r];
    assert forall j | 0 <= j < |rows[..i]| :: rows[..i][j] == rows[j];
    LandsByItsSlot(fate(rows[i]), t, m, rows[i].payload);
    forall j | 0 <= j < |more|
      ensures Answered(fate(more[j]), t, t', more[j].payload, all[j])
    {
      if j < i {
        assert Answered(fate(rows[..i][j]), t, m, rows[..i][j].payload, results[j]);
        assert more[j] == rows[..i][j] == rows[j] && all[j] == results[j];
      }
    }
    forall x | (forall j | 0 <= j < |more| :: more[j].payload.slot != x)
      ensures Latest(t', x) == Latest(t, x)
    {
      assert more[i] == rows[i];
      assert forall j | 0 <= j < |rows[..i]| :: rows[..i][j] == more[j];
    }
  }
}
