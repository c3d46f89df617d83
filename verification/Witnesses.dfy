/**
 * Runs from a first start that show which hypotheses of the protocol's theorems are needed.
 *
 * Each witness is built in stages: a first cycle that settles the company, voucher passes in which
 * one section changes, and drains that deliver, defer or lose what was queued. Every stage is a
 * lemma that returns the state it leads to, so the final states come with the run that reaches them.
 */
module Witnesses {
  import opened Wrappers
  import opened Gate
  import opened Store
  import opened Snapshots
  import opened Protocol
  import opened Convergence

  const G: Guid := "company"
  const TODAY: IsoDate := "2026-04-01"

  function SlotOf(sec: Section): Slot {
    Slot(G, sec, TODAY)
  }

  ghost function ItemOf(b: Book, sec: Section): Item {
    Item(sec, TODAY, b.content(sec, TODAY))
  }

  ghost function ItemsOf(b: Book, secs: seq<Section>): seq<Item> {
    if secs == [] then [] else [ItemOf(b, secs[0])] + ItemsOf(b, secs[1..])
  }

  ghost function LastWith(last: map<(Guid, Section), Item>, items: seq<Item>): map<(Guid, Section), Item>
    decreases |items|
  {
    if items == [] then last else LastWith(last[(G, items[0].section) := items[0]], items[1..])
  }

  /** Tally answers for every section still to be read. */
  lemma {:induction false} ReadAll(h: Hypotheses, s: State, b: Book)
    requires s.pc.Extracting? && s.pc.todo != [] && s.pc.job.probe.companyGuid == G
    requires G in s.books && s.books[G] == b
    ensures Leads(h, s, s.(pc := Gating(s.pc.job, s.pc.got + ItemsOf(b, s.pc.todo))))
    decreases |s.pc.todo|
  {
    var item := ItemOf(b, s.pc.todo[0]);
    var m := AfterRead(s, item);
    LeadsBy(h, s, ReadSection(item), m);
    assert ItemsOf(b, s.pc.todo) == [item] + ItemsOf(b, s.pc.todo[1..]);
    assert s.pc.got + ItemsOf(b, s.pc.todo) == (s.pc.got + [item]) + ItemsOf(b, s.pc.todo[1..]);
    if |s.pc.todo| > 1 {
      ReadAll(h, m, b);
      LeadsOn(h, s, m, m.(pc := Gating(m.pc.job, m.pc.got + ItemsOf(b, m.pc.todo))));
    } else {
      assert ItemsOf(b, s.pc.todo) == [item];
    }
  }

  /** Sections whose acknowledged hash still matches go through the gate without an upload. */
  lemma {:induction false} UnchangedAll(h: Hypotheses, s: State, b: Book, secs: seq<Section>, now: int)
    requires s.pc.Gating? && s.pc.job.probe.companyGuid == G && s.pc.items == ItemsOf(b, secs)
    requires forall sec | sec in secs ::
               s.tables.GetSectionHash(SlotOf(sec)) == Some(b.content(sec, TODAY)) && SlotOf(sec) !in s.tables.outbox
    requires s.clock <= now
    ensures Leads(h, s, s.(last := LastWith(s.last, s.pc.items), pc := Gating(s.pc.job, [])))
    decreases |secs|
  {
    if secs == [] {
      LeadsNowhere(h, s);
      assert s == s.(last := LastWith(s.last, s.pc.items), pc := Gating(s.pc.job, []));
    } else {
      assert secs[0] in secs;
      assert s.pc.items[1..] == ItemsOf(b, secs[1..]);
      var m := AfterCheck(s, now);
      LeadsBy(h, s, Check(now), m);
      UnchangedAll(h, m, b, secs[1..], now);
      LeadsOn(h, s, m, m.(last := LastWith(m.last, m.pc.items), pc := Gating(m.pc.job, [])));
    }
  }

  // ------------------------------------------------------------------ a first sync

  /** Everything Tally says about the company is on the server and acknowledged, and nothing is pending. */
  ghost predicate Synced(s: State, b: Book, now: int) {
    && s.pc.Idle?
    && s.tables.outbox == map[]
    && s.books == map[G := b]
    && s.tables.watermark == map[G := ProbeOf(G, b)]
    && s.restoredSinceWatermark == {}
    && s.clock <= now
    && (forall sec: Section ::
          && (G, sec) in s.last && s.last[(G, sec)] == ItemOf(b, sec)
          && s.tables.GetSectionHash(SlotOf(sec)) == Some(b.content(sec, TODAY))
          && SlotOf(sec) in s.snapshots
          && s.snapshots[SlotOf(sec)].contentHash == b.content(sec, TODAY)
          && s.snapshots[SlotOf(sec)].snapshotTs <= now)
  }

  /** A section never acknowledged is stamped `now`, sealed and queued. */
  lemma {:induction false} QueueOne(h: Hypotheses, s: State, now: int) returns (s': State)
    requires s.pc.Gating? && s.pc.items != [] && s.pc.job.probe.companyGuid == G
    requires s.pc.items[0].asOf == TODAY
    requires SlotOf(s.pc.items[0].section) !in s.tables.sectionHash && s.clock <= now
    requires SlotOf(s.pc.items[0].section) !in s.tables.outbox
    ensures Leads(h, s, s')
    ensures var item := s.pc.items[0];
            var slot := SlotOf(item.section);
            var e := Envelope(slot, now, s.seqNo + 1, item.hash);
            var row := OutboxRow(s.tables.nextId, slot, e, item.hash, 0, now, now);
            s' == s.(tables := s.tables.(outbox := s.tables.outbox[slot := row],
                                         nextId := s.tables.nextId + 1),
                     clock := now, seqNo := s.seqNo + 1,
                     last := s.last[(G, item.section) := item], pc := Gating(s.pc.job, s.pc.items[1..]))
    ensures s.tables.Valid() ==> s'.tables.Valid()
  {
    var sealing := AfterCheck(s, now);
    LeadsBy(h, s, Check(now), sealing);
    s' := AfterEnqueue(sealing, now);
    LeadsBy(h, sealing, Enqueue(now), s');
    LeadsOn(h, s, sealing, s');
    EnqueueKeepsValidIf(s.tables, sealing.pc.envelope, now);
  }

  lemma {:induction false} QueueAll(h: Hypotheses, s: State, b: Book, secs: seq<Section>, now: int) returns (s': State)
    requires s.pc.Gating? && s.pc.job.probe.companyGuid == G && s.pc.items == ItemsOf(b, secs)
    requires s.tables.sectionHash == map[] && s.clock <= now && s.tables.Valid()
    requires forall i, j | 0 <= i < j < |secs| :: secs[i] != secs[j]
    requires forall sec | sec in secs :: SlotOf(sec) !in s.tables.outbox
    ensures Leads(h, s, s') && s'.tables.Valid()
    ensures s' == s.(tables := s.tables.(outbox := s'.tables.outbox, nextId := s'.tables.nextId), clock := s'.clock,
                     seqNo := s'.seqNo, last := LastWith(s.last, s.pc.items), pc := Gating(s.pc.job, []))
    ensures s'.clock <= now
    ensures forall slot | slot in s.tables.outbox ::
              slot in s'.tables.outbox && s'.tables.outbox[slot] == s.tables.outbox[slot]
    ensures forall slot | slot in s'.tables.outbox :: slot in s.tables.outbox || slot == SlotOf(slot.section)
    ensures forall sec | sec in secs ::
              SlotOf(sec) in s'.tables.outbox && FreshRow(s'.tables.outbox[SlotOf(sec)], b, sec, now)
    decreases |secs|
  {
    if secs == [] {
      LeadsNowhere(h, s);
      s' := s;
      assert s == s.(last := LastWith(s.last, s.pc.items), pc := Gating(s.pc.job, []));
    } else {
      assert s.pc.items[0] == ItemOf(b, secs[0]) && secs[0] in secs;
      assert s.pc.items[1..] == ItemsOf(b, secs[1..]);
      var queued := QueueOne(h, s, now);
      s' := QueueAll(h, queued, b, secs[1..], now);
      LeadsOn(h, s, queued, s');
      assert FreshRow(s'.tables.outbox[SlotOf(secs[0])], b, secs[0], now);
      FirstAndRest([], secs);
    }
  }

  lemma {:induction false} EnqueueKeepsValidIf(t: Tables, e: Envelope, now: int)
    ensures t.Valid() ==> t.Enqueue(e.slot, e, e.contentHash, now).Valid()
  {
    if t.Valid() {
      EnqueueKeepsValid(t, e.slot, e, e.contentHash, now);
    }
  }

  ghost predicate FreshRow(row: OutboxRow, b: Book, sec: Section, now: int) {
    && row.slot == SlotOf(sec) && row.contentHash == b.content(sec, TODAY)
    && row.payload.slot == row.slot && row.payload.contentHash == row.contentHash
    && row.payload.snapshotTs == now && row.attempts == 0
    && row.nextAttemptAt == now && row.createdAt == now
  }

  /** The next row is sent, stored and acknowledged. */
  lemma {:induction false} DeliverOne(h: Hypotheses, s: State, now: int) returns (s': State)
    requires s.pc.Draining? && s.pc.rows != [] && s.tables.Valid()
    requires var row := s.pc.rows[0];
             && row.slot in s.tables.outbox && s.tables.outbox[row.slot] == row
             && row.payload.slot == row.slot && row.payload.contentHash == row.contentHash
             && row.payload.snapshotTs <= now
             && (row.slot in s.snapshots ==> s.snapshots[row.slot].snapshotTs < row.payload.snapshotTs)
    ensures Leads(h, s, s')
    ensures var row := s.pc.rows[0];
            s' == s.(tables := s.tables.(sectionHash := s.tables.sectionHash[row.slot := row.contentHash],
                                         outbox := s.tables.outbox - {row.slot}),
                     snapshots := s.snapshots[row.slot := Stored(row.payload.snapshotTs, row.contentHash)],
                     sent := s.sent + {row.payload},
                     pc := Draining(s.pc.rows[1..]))
  {
    var row := s.pc.rows[0];
    var stored := SentAndStored(h, s, now);
    SettlesOnlyWhatWasSent(s.tables.AckSectionHash(row.slot, row.contentHash), row, now);
    s' := Apply(stored, Reply(Acked, now));
    LeadsBy(h, stored, Reply(Acked, now), s');
    LeadsOn(h, s, stored, s');
  }

  lemma {:induction false} SentAndStored(h: Hypotheses, s: State, now: int) returns (s': State)
    requires s.pc.Draining? && s.pc.rows != []
    requires var row := s.pc.rows[0];
             && row.payload.slot == row.slot && row.payload.contentHash == row.contentHash
             && row.payload.snapshotTs <= now
             && (row.slot in s.snapshots ==> s.snapshots[row.slot].snapshotTs < row.payload.snapshotTs)
    ensures Leads(h, s, s')
    ensures var row := s.pc.rows[0];
            s' == s.(snapshots := s.snapshots[row.slot := Stored(row.payload.snapshotTs, row.contentHash)],
                     sent := s.sent + {row.payload}, pc := Awaiting(s.pc.rows, true))
  {
    var row := s.pc.rows[0];
    var sent := Apply(s, Send);
    LeadsBy(h, s, Send, sent);
    s' := AfterDeliver(sent, row.payload, now);
    LeadsBy(h, sent, Deliver(row.payload, now), s');
    LeadsOn(h, s, sent, s');
  }

  /** The rows a drain still has to try are the ones in the table, one per slot. */
  ghost predicate RowsCurrent(t: Tables, rows: seq<OutboxRow>) {
    && (forall i | 0 <= i < |rows| :: rows[i].slot in t.outbox && t.outbox[rows[i].slot] == rows[i])
    && (forall i, j | 0 <= i < j < |rows| :: rows[i].slot != rows[j].slot)
  }

  predicate Landed(s: State, row: OutboxRow, now: int) {
    && row.slot in s.tables.sectionHash && s.tables.sectionHash[row.slot] == row.contentHash
    && row.slot in s.snapshots && s.snapshots[row.slot] == Stored(now, row.contentHash)
  }

  predicate Landing(s: State, row: OutboxRow, now: int) {
    && row.payload.slot == row.slot && row.payload.contentHash == row.contentHash
    && row.payload.snapshotTs == now && row.slot !in s.snapshots
  }

  /** Every row of the drain is delivered and acknowledged, and rows that landed before stay landed. */
  lemma {:induction false} DeliverAll(h: Hypotheses, s: State, now: int, landed: seq<OutboxRow>) returns (s': State)
    requires s.pc.Draining? && s.tables.Valid() && RowsCurrent(s.tables, s.pc.rows)
    requires forall i | 0 <= i < |s.pc.rows| :: Landing(s, s.pc.rows[i], now)
    requires forall row | row in landed :: Landed(s, row, now)
    ensures Leads(h, s, s') && s'.pc == Idle
    ensures s' == s.(tables := s.tables.(sectionHash := s'.tables.sectionHash, outbox := s'.tables.outbox),
                     snapshots := s'.snapshots, sent := s'.sent, pc := Idle)
    ensures forall slot | slot in s'.tables.outbox :: slot in s.tables.outbox && s.tables.outbox[slot] !in s.pc.rows
    ensures forall row | row in landed + s.pc.rows :: Landed(s', row, now)
    decreases |s.pc.rows|
  {
    if s.pc.rows == [] {
      s' := s.(pc := Idle);
      LeadsBy(h, s, EndCycle, s');
      assert landed + s.pc.rows == landed;
    } else {
      var rows := s.pc.rows;
      var m := DeliverOne(h, s, now);
      StillLanded(s, m, landed, now);
      s' := DeliverAll(h, m, now, landed + [rows[0]]);
      LeadsOn(h, s, m, s');
      FirstAndRest(landed, rows);
    }
  }

  lemma {:induction false} FirstAndRest<T>(before: seq<T>, xs: seq<T>)
    requires xs != []
    ensures (before + [xs[0]]) + xs[1..] == before + xs
    ensures forall x | x in xs :: x == xs[0] || x in xs[1..]
  {
  }

  lemma {:induction false} StillLanded(s: State, m: State, landed: seq<OutboxRow>, now: int)
    requires s.pc.Draining? && s.pc.rows != [] && RowsCurrent(s.tables, s.pc.rows)
    requires forall i | 0 <= i < |s.pc.rows| :: Landing(s, s.pc.rows[i], now)
    requires forall row | row in landed :: Landed(s, row, now)
    requires var row := s.pc.rows[0];
             m == s.(tables := s.tables.(sectionHash := s.tables.sectionHash[row.slot := row.contentHash],
                                         outbox := s.tables.outbox - {row.slot}),
                     snapshots := s.snapshots[row.slot := Stored(now, row.contentHash)],
                     sent := s.sent + {row.payload}, pc := Draining(s.pc.rows[1..]))
    ensures RowsCurrent(m.tables, m.pc.rows)
    ensures forall i | 0 <= i < |m.pc.rows| :: Landing(m, m.pc.rows[i], now)
    ensures forall row | row in landed + [s.pc.rows[0]] :: Landed(m, row, now)
  {
    assert forall i | 0 <= i < |m.pc.rows| :: m.pc.rows[i] == s.pc.rows[i + 1];
    assert Landing(s, s.pc.rows[0], now);
  }

  lemma {:induction false} LastWithAll(last: map<(Guid, Section), Item>, b: Book, secs: seq<Section>)
    ensures forall k | k in LastWith(last, ItemsOf(b, secs)) ::
              LastWith(last, ItemsOf(b, secs))[k] == if k.0 == G && k.1 in secs then ItemOf(b, k.1) else
              if k in last then last[k] else Item(k.1, "", "")
    ensures forall k | k in last || (k.0 == G && k.1 in secs) :: k in LastWith(last, ItemsOf(b, secs))
    decreases |secs|
  {
    if secs != [] {
      assert ItemsOf(b, secs)[1..] == ItemsOf(b, secs[1..]);
      LastWithAll(last[(G, secs[0]) := ItemOf(b, secs[0])], b, secs[1..]);
      assert forall sec | sec in secs :: sec == secs[0] || sec in secs[1..];
    }
  }

  ghost predicate Fresh0(s: State, b: Book, now: int) {
    && Start(s) && s.tables.Valid()
    && s.books == map[G := b] && s.snapshots == map[] && s.restoredSinceWatermark == {}
    && s.clock <= now
  }

  /** The first cycle's company pass: everything read, everything queued, the watermark set. */
  lemma {:induction false} FirstPass(h: Hypotheses, s: State, b: Book, now: int) returns (s': State)
    requires Fresh0(s, b, now)
    ensures Leads(h, s, s') && s'.tables.Valid()
    ensures s' == s.(tables := Tables(map[G := ProbeOf(G, b)], map[], s'.tables.outbox, s'.tables.nextId),
                     clock := s'.clock, seqNo := s'.seqNo,
                     last := LastWith(s.last, ItemsOf(b, SECTIONS)), pc := AtCompany([]))
    ensures s'.clock <= now
    ensures forall slot | slot in s'.tables.outbox :: slot == SlotOf(slot.section)
    ensures forall sec | sec in SECTIONS ::
              SlotOf(sec) in s'.tables.outbox && FreshRow(s'.tables.outbox[SlotOf(sec)], b, sec, now)
  {
    var gating := FirstExtraction(h, s, b, now);
    var queued := QueueAll(h, gating, b, SECTIONS, now);
    s' := AfterFinish(queued);
    LeadsBy(h, queued, Finish, s');
    LeadsOn(h, s, gating, queued);
    LeadsOn(h, s, queued, s');
    assert s.restoredSinceWatermark - {G} == s.restoredSinceWatermark;
  }

  lemma {:induction false} FirstExtraction(h: Hypotheses, s: State, b: Book, now: int) returns (s': State)
    requires Fresh0(s, b, now)
    ensures Leads(h, s, s')
    ensures s' == s.(pc := Gating(Job(ProbeOf(G, b), []), ItemsOf(b, SECTIONS)))
  {
    var probe := ProbeOf(G, b);
    var started := Apply(s, StartCycle([probe]));
    LeadsBy(h, s, StartCycle([probe]), started);
    var decided := AfterDecide(started);
    LeadsBy(h, started, Decide, decided);
    assert decided.tables == s.tables;
    ReadAll(h, decided, b);
    s' := decided.(pc := Gating(decided.pc.job, [] + ItemsOf(b, SECTIONS)));
    assert s'.pc.items == ItemsOf(b, SECTIONS);
    LeadsOn(h, s, started, decided);
    LeadsOn(h, s, decided, s');
  }

  /** The rows the first pass queued, in section order: all due, all of one age. */
  lemma {:induction false} QueuedRows(t: Tables, b: Book, now: int) returns (rows: seq<OutboxRow>)
    requires forall slot | slot in t.outbox :: slot == SlotOf(slot.section)
    requires forall sec | sec in SECTIONS :: SlotOf(sec) in t.outbox && FreshRow(t.outbox[SlotOf(sec)], b, sec, now)
    ensures |rows| == |SECTIONS|
    ensures forall i | 0 <= i < |rows| ::
              rows[i] == t.outbox[SlotOf(SECTIONS[i])] && FreshRow(rows[i], b, SECTIONS[i], now)
    ensures forall slot | slot in t.outbox :: t.outbox[slot] in rows
    ensures DueRows(t.outbox, now, DUE_LIMIT, rows) && RowsCurrent(t, rows)
  {
    rows := seq(|SECTIONS|, i requires 0 <= i < |SECTIONS| =>
                      assert SECTIONS[i] in SECTIONS; t.outbox[SlotOf(SECTIONS[i])]);
    forall i | 0 <= i < |rows|
      ensures rows[i] == t.outbox[SlotOf(SECTIONS[i])] && FreshRow(rows[i], b, SECTIONS[i], now)
    {
      assert SECTIONS[i] in SECTIONS;
    }
    forall slot | slot in t.outbox
      ensures t.outbox[slot] in rows
    {
      EverySectionIsListed(slot.section);
      var i :| 0 <= i < |SECTIONS| && SECTIONS[i] == slot.section;
      assert rows[i] == t.outbox[slot];
    }
  }

  /** Everything queued is due and lands. */
  lemma {:induction false} FirstDrain(h: Hypotheses, s: State, rows: seq<OutboxRow>, now: int) returns (s': State)
    requires s.pc == AtCompany([]) && s.tables.Valid()
    requires DueRows(s.tables.outbox, now, DUE_LIMIT, rows) && RowsCurrent(s.tables, rows)
    requires forall i | 0 <= i < |rows| :: Landing(s, rows[i], now)
    requires forall slot | slot in s.tables.outbox :: s.tables.outbox[slot] in rows
    ensures Leads(h, s, s') && s'.tables.outbox == map[]
    ensures s' == s.(tables := s.tables.(sectionHash := s'.tables.sectionHash, outbox := map[]),
                     snapshots := s'.snapshots, sent := s'.sent, pc := Idle)
    ensures forall row | row in rows :: Landed(s', row, now)
  {
    var draining := s.(pc := Draining(rows));
    LeadsBy(h, s, BeginDrain(now, rows), draining);
    s' := DeliverAll(h, draining, now, []);
    assert [] + rows == rows;
    assert s'.tables.outbox == map[];
    LeadsOn(h, s, draining, s');
  }

  /** From a first start, one undisturbed cycle settles the company. */
  lemma {:induction false} FirstSync(h: Hypotheses, s: State, b: Book, now: int) returns (s': State)
    requires Fresh0(s, b, now)
    ensures Leads(h, s, s') && Synced(s', b, now) && s'.tables.Valid()
  {
    var passed := FirstPass(h, s, b, now);
    var rows := QueuedRows(passed.tables, b, now);
    s' := FirstDrain(h, passed, rows, now);
    LeadsOn(h, s, passed, s');
    LastWithAll(s.last, b, SECTIONS);
    forall sec: Section
      ensures (G, sec) in s'.last && s'.last[(G, sec)] == ItemOf(b, sec)
      ensures s'.tables.GetSectionHash(SlotOf(sec)) == Some(b.content(sec, TODAY))
      ensures SlotOf(sec) in s'.snapshots && s'.snapshots[SlotOf(sec)] == Stored(now, b.content(sec, TODAY))
    {
      EverySectionIsListed(sec);
      var i :| 0 <= i < |SECTIONS| && SECTIONS[i] == sec;
      assert rows[i].slot == SlotOf(sec) && Landed(s', rows[i], now);
    }
  }

  // ------------------------------------------------------------------ a voucher touches one section

  function BookWith(vch: nat, groups: Digest): Book {
    Book(1, vch, (sec: Section, asOf: IsoDate) => if sec == GroupBalance then groups else "h1")
  }

  /** A state between cycles whose watermark is at `vch` and whose sections, group balances apart, are acknowledged. */
  ghost predicate Between(s: State, vch: nat, groups: Digest) {
    && s.pc.Idle? && s.tables.Valid()
    && s.books == map[G := BookWith(vch, groups)]
    && s.tables.watermark == map[G := ProbeOf(G, BookWith(vch, groups))]
    && s.restoredSinceWatermark == {}
    && forall sec: Section | sec != GroupBalance ::
         s.tables.GetSectionHash(SlotOf(sec)) == Some("h1") && SlotOf(sec) !in s.tables.outbox
  }

  ghost function Queued(s: State, groups: Digest, now: int): State {
    var e := Envelope(SlotOf(GroupBalance), now, s.seqNo + 1, groups);
    s.(tables := s.tables.Enqueue(e.slot, e, groups, now),
       clock := if now > s.clock then now else s.clock, seqNo := s.seqNo + 1)
  }

  /** The state after a voucher pass in which group balances read `groups`, just before the drain. */
  ghost function AfterPass(s: State, vch: nat, groups: Digest, now: int): State {
    var b := BookWith(vch, groups);
    var t := if s.tables.GetSectionHash(SlotOf(GroupBalance)) == Some(groups) then s else Queued(s, groups, now);
    t.(tables := t.tables.SetWatermark(ProbeOf(G, b)), books := map[G := b], restoredSinceProbe := {},
       last := LastWith(s.last, ItemsOf(b, VOUCHER_SECTIONS)), pc := AtCompany([]))
  }

  /** A voucher takes the book from `b` to `b'`, as far as trusted slots go by the rules, between two cycles. */
  ghost predicate VoucherEntered(h: Hypotheses, s: State, b: Book, b': Book) {
    && s.pc.Idle? && G !in s.restoredSinceWatermark
    && s.books == map[G := b] && s.tables.watermark == map[G := ProbeOf(G, b)]
    && b'.mst == b.mst && b'.vch > b.vch
    && forall x | x in h.truthful && x.company == G :: Evolves(x, b, b')
  }

  /** The next probe sees the counter moved. */
  lemma {:induction false} VoucherDecision(h: Hypotheses, s: State, b: Book, b': Book) returns (s': State)
    requires VoucherEntered(h, s, b, b')
    ensures Leads(h, s, s')
    ensures s' == s.(books := map[G := b'], restoredSinceProbe := {},
                     pc := Extracting(Job(ProbeOf(G, b'), []), VOUCHER_SECTIONS, []))
  {
    var edited := s.(books := map[G := b']);
    assert s.books[G := b'] == map[G := b'];
    LeadsBy(h, s, Edit(G, b'), edited);
    var probe := ProbeOf(G, b');
    var started := edited.(restoredSinceProbe := {}, pc := AtCompany([probe]));
    LeadsBy(h, edited, StartCycle([probe]), started);
    assert [probe][1..] == [];
    assert DecideGate(started.tables.GetWatermark(G), probe) == Partial(VOUCHER_SECTIONS);
    s' := AfterDecide(started);
    LeadsBy(h, started, Decide, s');
    LeadsOn(h, s, edited, started);
    LeadsOn(h, s, started, s');
  }

  lemma {:induction false} VoucherExtraction(h: Hypotheses, s: State, b: Book, b': Book) returns (s': State)
    requires VoucherEntered(h, s, b, b')
    ensures Leads(h, s, s')
    ensures s' == s.(books := map[G := b'], restoredSinceProbe := {},
                     pc := Gating(Job(ProbeOf(G, b'), []), ItemsOf(b', VOUCHER_SECTIONS)))
  {
    var decided := VoucherDecision(h, s, b, b');
    ReadAll(h, decided, b');
    s' := decided.(pc := Gating(decided.pc.job, [] + ItemsOf(b', VOUCHER_SECTIONS)));
    assert s'.pc.items == ItemsOf(b', VOUCHER_SECTIONS);
    LeadsOn(h, s, decided, s');
  }

  /** Group balances go through the hash gate, stamped `now` when they differ from what was acknowledged. */
  lemma {:induction false} GroupsGated(h: Hypotheses, s: State, b: Book, secs: seq<Section>, now: int)
      returns (s': State)
    requires s.pc.Gating? && s.pc.job.probe.companyGuid == G
    requires s.pc.items == [ItemOf(b, GroupBalance)] + ItemsOf(b, secs)
    requires h.forward ==> s.clock <= now
    requires SlotOf(GroupBalance) in h.noFlapping ==>
               s.tables.GetSectionHash(SlotOf(GroupBalance)) != Some(b.content(GroupBalance, TODAY))
    ensures Leads(h, s, s')
    ensures var groups := b.content(GroupBalance, TODAY);
            var acked := s.tables.GetSectionHash(SlotOf(GroupBalance)) == Some(groups);
            var t := if acked then s else Queued(s, groups, now);
            s' == t.(last := s.last[(G, GroupBalance) := ItemOf(b, GroupBalance)],
                     pc := Gating(s.pc.job, ItemsOf(b, secs)))
  {
    assert s.pc.items[1..] == ItemsOf(b, secs);
    var checked := AfterCheck(s, now);
    LeadsBy(h, s, Check(now), checked);
    if checked.pc.Sealing? {
      s' := AfterEnqueue(checked, now);
      LeadsBy(h, checked, Enqueue(now), s');
      LeadsOn(h, s, checked, s');
    } else {
      s' := checked;
    }
  }

  /** The other voucher sections are unchanged, and the watermark is set. */
  lemma {:induction false} RestGated(h: Hypotheses, s: State, b: Book, secs: seq<Section>) returns (s': State)
    requires s.pc.Gating? && s.pc.job.probe.companyGuid == G && s.pc.items == ItemsOf(b, secs)
    requires forall sec | sec in secs ::
               s.tables.GetSectionHash(SlotOf(sec)) == Some(b.content(sec, TODAY)) && SlotOf(sec) !in s.tables.outbox
    requires G !in s.restoredSinceWatermark && G !in s.restoredSinceProbe
    ensures Leads(h, s, s')
    ensures s' == s.(tables := s.tables.SetWatermark(s.pc.job.probe), last := LastWith(s.last, s.pc.items),
                     pc := AtCompany(s.pc.job.queue))
  {
    UnchangedAll(h, s, b, secs, s.clock);
    var checked := s.(last := LastWith(s.last, s.pc.items), pc := Gating(s.pc.job, []));
    s' := AfterFinish(checked);
    LeadsBy(h, checked, Finish, s');
    LeadsOn(h, s, checked, s');
    assert s'.restoredSinceWatermark == s.restoredSinceWatermark;
  }

  lemma {:induction false} VoucherPass(h: Hypotheses, s: State, vch: nat, before: Digest, groups: Digest, now: int)
    requires Between(s, vch, before)
    requires h.forward ==> s.clock <= now
    requires SlotOf(GroupBalance) in h.noFlapping ==> s.tables.GetSectionHash(SlotOf(GroupBalance)) != Some(groups)
    ensures Leads(h, s, AfterPass(s, vch + 1, groups, now))
  {
    var b := BookWith(vch + 1, groups);
    var rest := VOUCHER_SECTIONS[1..];
    assert GroupBalance == VOUCHER_SECTIONS[0];
    var gating := VoucherExtraction(h, s, BookWith(vch, before), b);
    assert gating.pc.items == [ItemOf(b, GroupBalance)] + ItemsOf(b, rest);
    var gated := GroupsGated(h, gating, b, rest, now);
    LeadsOn(h, s, gating, gated);
    RestUnchanged(s, gated, vch, before, groups, now);
    var s' := RestGated(h, gated, b, rest);
    LeadsOn(h, s, gated, s');
    PassedIs(s, gating, gated, s', vch + 1, groups, now);
  }

  /** The pieces of a voucher pass make up `AfterPass`. */
  lemma {:induction false} PassedIs(s: State, gating: State, gated: State, s': State, vch: nat, groups: Digest,
                                    now: int)
    requires var b := BookWith(vch, groups);
             var job := Job(ProbeOf(G, b), []);
             && gating == s.(books := map[G := b], restoredSinceProbe := {},
                             pc := Gating(job, ItemsOf(b, VOUCHER_SECTIONS)))
             && gated == (if gating.tables.GetSectionHash(SlotOf(GroupBalance)) == Some(groups) then gating
                          else Queued(gating, groups, now))
                         .(last := gating.last[(G, GroupBalance) := ItemOf(b, GroupBalance)],
                           pc := Gating(job, ItemsOf(b, VOUCHER_SECTIONS[1..])))
             && s' == gated.(tables := gated.tables.SetWatermark(job.probe),
                             last := LastWith(gated.last, gated.pc.items),
                             pc := AtCompany([]))
    ensures s' == AfterPass(s, vch, groups, now)
  {
    var items := ItemsOf(BookWith(vch, groups), VOUCHER_SECTIONS);
    assert items[0] == ItemOf(BookWith(vch, groups), GroupBalance);
    assert items[1..] == ItemsOf(BookWith(vch, groups), VOUCHER_SECTIONS[1..]);
  }

  /** Queueing group balances leaves the other voucher sections acknowledged and unqueued. */
  lemma {:induction false} RestUnchanged(s: State, gated: State, vch: nat, before: Digest, groups: Digest, now: int)
    requires Between(s, vch, before)
    requires gated.tables == s.tables || gated.tables == Queued(s, groups, now).tables
    ensures forall sec | sec in VOUCHER_SECTIONS[1..] ::
              && gated.tables.GetSectionHash(SlotOf(sec)) == Some(BookWith(vch + 1, groups).content(sec, TODAY))
              && SlotOf(sec) !in gated.tables.outbox
  {
    forall sec | sec in VOUCHER_SECTIONS[1..]
      ensures sec != GroupBalance
    {
    }
  }

  /** A first start whose book holds "h1" in every section. */
  ghost function Installed(): State {
    State(Tables(map[], map[], map[], 0), map[], {}, 0, 0, map[], map[G := BookWith(1, "h1")], {}, {}, Idle)
  }

  lemma {:induction false} SettledIsBetween(s: State, now: int)
    requires Synced(s, BookWith(1, "h1"), now) && s.tables.Valid()
    ensures Between(s, 1, "h1")
  {
  }

  /** One row queued and due: it is drained, and the cycle ends. */
  lemma {:induction false} DrainsOne(h: Hypotheses, s: State, row: OutboxRow, now: int) returns (s': State)
    requires s.pc == AtCompany([]) && s.tables.Valid() && s.tables.outbox == map[row.slot := row]
    requires row.nextAttemptAt <= now && row.payload.snapshotTs <= now
    requires row.payload.slot == row.slot && row.payload.contentHash == row.contentHash
    requires row.slot in s.snapshots ==> s.snapshots[row.slot].snapshotTs < row.payload.snapshotTs
    ensures Leads(h, s, s')
    ensures s' == s.(tables := s.tables.(sectionHash := s.tables.sectionHash[row.slot := row.contentHash],
                                         outbox := map[]),
                     snapshots := s.snapshots[row.slot := Stored(row.payload.snapshotTs, row.contentHash)],
                     sent := s.sent + {row.payload}, pc := Idle)
  {
    var draining := s.(pc := Draining([row]));
    assert DueRows(s.tables.outbox, now, DUE_LIMIT, [row]);
    LeadsBy(h, s, BeginDrain(now, [row]), draining);
    var drained := DeliverOne(h, draining, now);
    s' := drained.(pc := Idle);
    LeadsBy(h, drained, EndCycle, s');
    LeadsOn(h, s, draining, drained);
    LeadsOn(h, s, drained, s');
    assert s.tables.outbox - {row.slot} == map[];
  }

  lemma {:induction false} SettledInstall(h: Hypotheses) returns (s: State)
    ensures Start(Installed())
    ensures Leads(h, Installed(), s) && s.tables.Valid()
    ensures Synced(s, BookWith(1, "h1"), 10) && Between(s, 1, "h1")
  {
    s := FirstSync(h, Installed(), BookWith(1, "h1"), 10);
    SettledIsBetween(s, 10);
  }

  // ------------------------------------------------------------------ flapping

  /** Nothing pending, the gate skips, and yet the server shows something Tally does not. */
  ghost predicate Frozen(s: State, sec: Section) {
    && G in s.books && G !in s.restoredSinceWatermark
    && DecideGate(s.tables.GetWatermark(G), ProbeOf(G, s.books[G])) == Skip
    && s.tables.outbox == map[]
    && !ShowsTheTruth(s, G, sec)
  }

  /** Group balances "h1" acknowledged, one newer value queued for them and stamped `ts`, nothing else pending. */
  ghost predicate OneQueued(s: State, vch: nat, groups: Digest, ts: int) {
    var slot := SlotOf(GroupBalance);
    && s.tables.Valid()
    && s.tables.watermark == map[G := ProbeOf(G, BookWith(vch, groups))]
    && s.books == map[G := BookWith(vch, groups)]
    && G !in s.restoredSinceWatermark
    && s.tables.GetSectionHash(slot) == Some("h1")
    && slot in s.snapshots && s.snapshots[slot].snapshotTs <= 10
    && slot in s.tables.outbox && s.tables.outbox == map[slot := s.tables.outbox[slot]]
    && var row := s.tables.outbox[slot];
       && row.slot == slot && row.payload.slot == slot
       && row.payload.contentHash == row.contentHash && row.payload.snapshotTs == ts
       && row.attempts == 0 && row.nextAttemptAt == ts
  }

  /** A pass that finds group balances changed leaves exactly that one value queued. */
  lemma {:induction false} PassedQueues(s: State, vch: nat, before: Digest, groups: Digest, now: int)
    requires vch > 0 && Between(s, vch - 1, before) && groups != "h1"
    requires s.tables.GetSectionHash(SlotOf(GroupBalance)) == Some("h1")
    requires SlotOf(GroupBalance) in s.snapshots && s.snapshots[SlotOf(GroupBalance)].snapshotTs <= 10
    requires forall slot | slot in s.tables.outbox :: slot == SlotOf(GroupBalance)
    ensures OneQueued(AfterPass(s, vch, groups, now), vch, groups, now)
    ensures AfterPass(s, vch, groups, now).tables.outbox[SlotOf(GroupBalance)].contentHash == groups
    ensures Between(AfterPass(s, vch, groups, now).(pc := Idle), vch, groups)
  {
    PassedTables(s, vch, before, groups, now);
  }

  lemma {:induction false} PassedTables(s: State, vch: nat, before: Digest, groups: Digest, now: int)
    requires vch > 0 && Between(s, vch - 1, before) && groups != "h1"
    requires s.tables.GetSectionHash(SlotOf(GroupBalance)) == Some("h1")
    requires forall slot | slot in s.tables.outbox :: slot == SlotOf(GroupBalance)
    ensures var slot := SlotOf(GroupBalance); var t := AfterPass(s, vch, groups, now).tables;
            && t.Valid() && t.sectionHash == s.tables.sectionHash
            && t.watermark == map[G := ProbeOf(G, BookWith(vch, groups))]
            && slot in t.outbox && t.outbox == map[slot := t.outbox[slot]]
            && var row := t.outbox[slot];
               && row.slot == slot && row.payload == Envelope(slot, now, s.seqNo + 1, groups)
               && row.contentHash == groups && row.attempts == 0 && row.nextAttemptAt == now
  {
    var e := Envelope(SlotOf(GroupBalance), now, s.seqNo + 1, groups);
    var probe := ProbeOf(G, BookWith(vch, groups));
    PassedTablesAre(s, vch, groups, now);
    AloneAndMarked(s.tables, e, probe, now);
  }

  lemma {:induction false} PassedTablesAre(s: State, vch: nat, groups: Digest, now: int)
    requires s.tables.GetSectionHash(SlotOf(GroupBalance)) != Some(groups)
    ensures var e := Envelope(SlotOf(GroupBalance), now, s.seqNo + 1, groups);
            AfterPass(s, vch, groups, now).tables ==
            s.tables.Enqueue(e.slot, e, groups, now).SetWatermark(ProbeOf(G, BookWith(vch, groups)))
  {
  }

  /** Where nothing else is pending the queue then holds the new row alone, and the watermark the new probe. */
  lemma {:induction false} AloneAndMarked(t: Tables, e: Envelope, probe: Watermark, now: int)
    requires t.Valid() && probe.companyGuid == G && t.watermark.Keys == {G}
    requires forall slot | slot in t.outbox :: slot == e.slot
    ensures var u := t.Enqueue(e.slot, e, e.contentHash, now).SetWatermark(probe);
            && u.Valid() && u.sectionHash == t.sectionHash && u.watermark == map[G := probe]
            && e.slot in u.outbox && u.outbox == map[e.slot := u.outbox[e.slot]]
            && var row := u.outbox[e.slot];
               && row.slot == e.slot && row.payload == e && row.contentHash == e.contentHash
               && row.attempts == 0 && row.nextAttemptAt == now
  {
    EnqueueKeepsValid(t, e.slot, e, e.contentHash, now);
  }

  /** What the last pass found for group balances. */
  lemma {:induction false} PassedLast(s: State, vch: nat, groups: Digest, now: int)
    ensures (G, GroupBalance) in AfterPass(s, vch, groups, now).last
    ensures AfterPass(s, vch, groups, now).last[(G, GroupBalance)] == Item(GroupBalance, TODAY, groups)
  {
    LastWithAll(s.last, BookWith(vch, groups), VOUCHER_SECTIONS);
    assert VOUCHER_SECTIONS[0] == GroupBalance;
  }

  /** A voucher pass that finds group balances at a new value. */
  lemma {:induction false} ChangePass(h: Hypotheses, s: State, vch: nat, before: Digest, groups: Digest, now: int)
      returns (s': State)
    requires vch > 0 && Between(s, vch - 1, before) && groups != "h1"
    requires h.forward ==> s.clock <= now
    requires s.tables.GetSectionHash(SlotOf(GroupBalance)) == Some("h1")
    requires SlotOf(GroupBalance) in s.snapshots && s.snapshots[SlotOf(GroupBalance)].snapshotTs <= 10
    requires forall slot | slot in s.tables.outbox :: slot == SlotOf(GroupBalance)
    ensures Leads(h, s, s') && s'.pc == AtCompany([])
    ensures OneQueued(s', vch, groups, now) && Between(s'.(pc := Idle), vch, groups)
    ensures s'.tables.outbox[SlotOf(GroupBalance)].contentHash == groups
    ensures (G, GroupBalance) in s'.last && s'.last[(G, GroupBalance)] == Item(GroupBalance, TODAY, groups)
    ensures s'.sent == s.sent && s'.clock == if now > s.clock then now else s.clock
  {
    VoucherPass(h, s, vch - 1, before, groups, now);
    PassedQueues(s, vch, before, groups, now);
    PassedLast(s, vch, groups, now);
    s' := AfterPass(s, vch, groups, now);
  }

  /** A voucher pass that finds group balances back at the acknowledged value, whatever is queued for them. */
  lemma {:induction false} BackPass(h: Hypotheses, s: State, vch: nat, before: Digest, now: int) returns (s': State)
    requires SlotOf(GroupBalance) !in h.noFlapping
    requires vch > 0 && Between(s, vch - 1, before) && OneQueued(s, vch - 1, before, now)
    requires h.forward ==> s.clock <= now
    ensures Leads(h, s, s') && s'.pc == AtCompany([])
    ensures OneQueued(s', vch, "h1", now)
    ensures s'.tables.outbox == s.tables.outbox
    ensures (G, GroupBalance) in s'.last && s'.last[(G, GroupBalance)] == Item(GroupBalance, TODAY, "h1")
  {
    VoucherPass(h, s, vch - 1, before, "h1", now);
    PassedLast(s, vch, "h1", now);
    s' := AfterPass(s, vch, "h1", now);
  }

  /** After the first sync a voucher changes group balances to "h2", and the pass queues it at time 20. */
  lemma {:induction false} ChangeQueued(h: Hypotheses) returns (s: State)
    ensures Leads(h, Installed(), s) && s.pc == AtCompany([])
    ensures OneQueued(s, 2, "h2", 20) && s.clock <= 20
    ensures s.tables.outbox[SlotOf(GroupBalance)].contentHash == "h2"
    ensures Between(s.(pc := Idle), 2, "h2")
  {
    var settled := SettledInstall(h);
    assert settled.tables.GetSectionHash(SlotOf(GroupBalance)) == Some("h1");
    s := ChangePass(h, settled, 2, "h1", "h2", 20);
    LeadsOn(h, Installed(), settled, s);
  }

  /** The content goes back to "h1" while "h2" is queued; the gate calls it unchanged. */
  lemma {:induction false} FlappedBack(h: Hypotheses) returns (s: State)
    requires SlotOf(GroupBalance) !in h.noFlapping
    ensures Leads(h, Installed(), s) && s.pc == AtCompany([])
    ensures OneQueued(s, 3, "h1", 20) && s.tables.outbox[SlotOf(GroupBalance)].contentHash == "h2"
    ensures (G, GroupBalance) in s.last && s.last[(G, GroupBalance)] == Item(GroupBalance, TODAY, "h1")
  {
    var queued := ChangeQueued(h);
    var crashed := queued.(pc := Idle);
    LeadsBy(h, queued, Crash, crashed);
    s := BackPass(h, crashed, 3, "h2", 20);
    LeadsOn(h, Installed(), queued, crashed);
    LeadsOn(h, Installed(), crashed, s);
  }

  ghost function SlotsBut(out: iset<Section>): iset<Slot> {
    iset x: Slot | x.section !in out
  }

  ghost function AllSlots(): iset<Slot> {
    SlotsBut(iset{})
  }

  /**
   * `noFlapping` cannot be dropped from the convergence theorems, for one slot even: with every other hypothesis
   * kept, content that goes back to its acknowledged value while a newer one is queued is skipped by the hash gate,
   * and the queued value then lands on top and stays.
   */
  lemma {:induction false} FlappingFreezesASection()
    ensures Start(Installed())
    ensures exists s :: Frozen(s, GroupBalance) &&
              Leads(Hypotheses(true, true, true, AllSlots(), AllSlots() - iset{SlotOf(GroupBalance)}), Installed(), s)
  {
    var h := Hypotheses(true, true, true, AllSlots(), AllSlots() - iset{SlotOf(GroupBalance)});
    var back := FlappedBack(h);
    var frozen := DrainsOne(h, back, back.tables.outbox[SlotOf(GroupBalance)], 20);
    LeadsOn(h, Installed(), back, frozen);
    assert frozen.snapshots[SlotOf(GroupBalance)].contentHash == "h2";
    assert Frozen(frozen, GroupBalance);
  }

  // ------------------------------------------------------------------ a voucher with a new date

  /** The book of the first sync after a voucher that only moves the date in the company's payload. */
  function Redated(): Book {
    Book(1, 2, (sec: Section, asOf: IsoDate) => if sec == Company then "h2" else "h1")
  }

  /** The voucher pass finds all it asks for unchanged, and ends the cycle with nothing to send. */
  lemma {:induction false} UnchangedPass(h: Hypotheses, s: State, b: Book, b': Book) returns (s': State)
    requires VoucherEntered(h, s, b, b') && s.tables.outbox == map[] && s.restoredSinceWatermark == {}
    requires forall sec | sec in VOUCHER_SECTIONS ::
               s.tables.GetSectionHash(SlotOf(sec)) == Some(b'.content(sec, TODAY))
    ensures Leads(h, s, s')
    ensures s' == s.(books := map[G := b'], restoredSinceProbe := {}, tables := s.tables.SetWatermark(ProbeOf(G, b')),
                     last := LastWith(s.last, ItemsOf(b', VOUCHER_SECTIONS)))
  {
    var gating := VoucherExtraction(h, s, b, b');
    var passed := RestGated(h, gating, b', VOUCHER_SECTIONS);
    LeadsOn(h, s, gating, passed);
    var draining := passed.(pc := Draining([]));
    LeadsBy(h, passed, BeginDrain(0, []), draining);
    LeadsOn(h, s, passed, draining);
    s' := draining.(pc := Idle);
    LeadsBy(h, draining, EndCycle, s');
    LeadsOn(h, s, draining, s');
  }

  /**
   * `truthful` cannot be dropped either, and the code does break it for one section: the company's payload carries
   * the date of the last voucher, no voucher counter lists it, and so after a voucher with a new date the gate skips
   * with nothing pending while the server shows the old payload. Every other hypothesis holds of this run.
   */
  lemma {:induction false} VoucherDatesStaleTheCompany()
    ensures Start(Installed())
    ensures exists s :: Frozen(s, Company) &&
              Leads(Hypotheses(true, true, true, SlotsBut(iset{Company}), AllSlots()), Installed(), s)
  {
    var h := Hypotheses(true, true, true, SlotsBut(iset{Company}), AllSlots());
    var settled := SettledInstall(h);
    var b := BookWith(1, "h1");
    assert VoucherEntered(h, settled, b, Redated());
    assert forall i | 0 <= i < |VOUCHER_SECTIONS| :: VOUCHER_SECTIONS[i] != Company;
    var stale := UnchangedPass(h, settled, b, Redated());
    LeadsOn(h, Installed(), settled, stale);
    StaleIsFrozen(settled, stale);
  }

  lemma {:induction false} StaleIsFrozen(s: State, s': State)
    requires Synced(s, BookWith(1, "h1"), 10)
    requires s' == s.(books := map[G := Redated()], restoredSinceProbe := {},
                      tables := s.tables.SetWatermark(ProbeOf(G, Redated())),
                      last := LastWith(s.last, ItemsOf(Redated(), VOUCHER_SECTIONS)))
    ensures Frozen(s', Company)
  {
    CompanyStays(s.last);
    var x := SlotOf(Company);
    assert ItemSlot(G, s'.last[(G, Company)]) == x;
    assert s'.snapshots[x].contentHash == "h1" != s'.books[G].content(Company, TODAY);
  }

  lemma {:induction false} CompanyStays(last: map<(Guid, Section), Item>)
    requires (G, Company) in last
    ensures (G, Company) in LastWith(last, ItemsOf(Redated(), VOUCHER_SECTIONS))
    ensures LastWith(last, ItemsOf(Redated(), VOUCHER_SECTIONS))[(G, Company)] == last[(G, Company)]
  {
    LastWithAll(last, Redated(), VOUCHER_SECTIONS);
    assert forall i | 0 <= i < |VOUCHER_SECTIONS| :: VOUCHER_SECTIONS[i] != Company;
  }

  // ------------------------------------------------------------------ a reset in mid-company

  /**
   * `quietResets` cannot be dropped: a reset that comes when every section has been through the gate and the
   * watermark is not yet set leaves a watermark behind that covers sections nobody has.
   */
  lemma {:induction false} ResetInMidCompanyDrops()
    ensures Start(Installed())
    ensures exists s :: !NothingDropped(s) &&
              Leads(Hypotheses(true, true, false, AllSlots(), AllSlots()), Installed(), s)
  {
    var h := Hypotheses(true, true, false, AllSlots(), AllSlots());
    var b := BookWith(1, "h1");
    var gating := FirstExtraction(h, Installed(), b, 10);
    var queued := QueueAll(h, gating, b, SECTIONS, 10);
    LeadsOn(h, Installed(), gating, queued);
    LastWithAll(Installed().last, b, SECTIONS);
    assert SECTIONS[0] == Company;
    var finished := WipedAndFinished(h, queued);
    LeadsOn(h, Installed(), queued, finished);
  }

  lemma {:induction false} WipedAndFinished(h: Hypotheses, s: State) returns (s': State)
    requires s.pc == Gating(Job(ProbeOf(G, BookWith(1, "h1")), []), []) && (G, Company) in s.last
    requires !h.quietResets
    ensures Leads(h, s, s') && !NothingDropped(s')
  {
    var wiped := s.(tables := s.tables.Reset());
    LeadsBy(h, s, Reset, wiped);
    s' := AfterFinish(wiped);
    LeadsBy(h, wiped, Finish, s');
    LeadsOn(h, s, wiped, s');
    assert (G, Company) in s'.last && G in s'.tables.watermark;
  }

  // ------------------------------------------------------------------ a late request and a clock set back

  /** The first attempt of the queued row is sent, its answer never comes, and the cycle ends. */
  lemma {:induction false} SentAndDeferred(h: Hypotheses, s: State, vch: nat, groups: Digest, now: int)
      returns (s': State)
    requires s.pc == AtCompany([]) && OneQueued(s, vch, groups, now) && Between(s.(pc := Idle), vch, groups)
    ensures Leads(h, s, s') && Between(s', vch, groups)
    ensures s' == s.(tables := s.tables.(outbox := s'.tables.outbox),
                     sent := s.sent + {s.tables.outbox[SlotOf(GroupBalance)].payload}, pc := Idle)
    ensures forall slot | slot in s'.tables.outbox :: slot == SlotOf(GroupBalance)
  {
    var row := s.tables.outbox[SlotOf(GroupBalance)];
    var sent := SentOnly(h, s, row, now);
    s' := DeferredOnce(h, sent, row, now);
    LeadsOn(h, s, sent, s');
  }

  lemma {:induction false} SentOnly(h: Hypotheses, s: State, row: OutboxRow, now: int) returns (sent: State)
    requires s.pc == AtCompany([]) && s.tables.outbox == map[row.slot := row] && row.nextAttemptAt <= now
    ensures sent == s.(sent := s.sent + {row.payload}, pc := Awaiting([row], false)) && Leads(h, s, sent)
  {
    var draining := s.(pc := Draining([row]));
    assert DueRows(s.tables.outbox, now, DUE_LIMIT, [row]);
    LeadsBy(h, s, BeginDrain(now, [row]), draining);
    sent := draining.(sent := s.sent + {row.payload}, pc := Awaiting([row], false));
    LeadsBy(h, draining, Send, sent);
    LeadsOn(h, s, draining, sent);
  }

  lemma {:induction false} DeferredOnce(h: Hypotheses, s: State, row: OutboxRow, now: int) returns (s': State)
    requires s.pc == Awaiting([row], false) && s.tables.Valid() && row.attempts == 0
    requires row.slot in s.tables.outbox && s.tables.outbox[row.slot] == row
    ensures Leads(h, s, s') && s'.tables.Valid()
    ensures s' == s.(tables := s.tables.(outbox := s'.tables.outbox), pc := Idle)
    ensures s'.tables.outbox.Keys == s.tables.outbox.Keys
  {
    SettlesOnlyWhatWasSent(s.tables, row, now);
    DeferKeepsValid(s.tables, row.id, now, row.contentHash);
    var deferred := s.(tables := s.tables.DeferAttempt(row.id, now, row.contentHash), pc := Draining([]));
    assert [row][1..] == [];
    LeadsBy(h, s, Reply(Retryable, now), deferred);
    s' := deferred.(pc := Idle);
    LeadsBy(h, deferred, EndCycle, s');
    LeadsOn(h, s, deferred, s');
  }

  /** "h2" was sent and its answer never came; then the clock is set back and "h3" takes its place in the queue. */
  lemma {:induction false} SupersededInFlight(h: Hypotheses) returns (s: State, late: Envelope)
    requires !h.forward
    ensures Leads(h, Installed(), s) && s.pc == AtCompany([])
    ensures OneQueued(s, 3, "h3", 15) && s.tables.outbox[SlotOf(GroupBalance)].contentHash == "h3"
    ensures (G, GroupBalance) in s.last && s.last[(G, GroupBalance)] == Item(GroupBalance, TODAY, "h3")
    ensures late in s.sent && late.slot == SlotOf(GroupBalance) && late.snapshotTs == 20 && late.contentHash == "h2"
  {
    var first := ChangeQueued(h);
    var slot := SlotOf(GroupBalance);
    late := first.tables.outbox[slot].payload;
    var waiting := SentAndDeferred(h, first, 2, "h2", 20);
    LeadsOn(h, Installed(), first, waiting);
    s := ChangePass(h, waiting, 3, "h2", "h3", 15);
    LeadsOn(h, Installed(), waiting, s);
  }

  /**
   * `prompt` and `forward` cannot both be dropped: a request that arrives late, after the clock
   * was set back and a newer value was sealed, sent and acknowledged, overwrites that value.
   */
  lemma {:induction false} LateRequestAfterClockSetBackDrops()
    ensures Start(Installed())
    ensures exists s :: !NothingDropped(s) &&
              Leads(Hypotheses(false, false, true, AllSlots(), AllSlots()), Installed(), s)
  {
    var h := Hypotheses(false, false, true, AllSlots(), AllSlots());
    var second, late := SupersededInFlight(h);
    var acked := DrainsOne(h, second, second.tables.outbox[late.slot], 20);
    var overwritten := AfterDeliver(acked, late, 20);
    LeadsBy(h, acked, Deliver(late, 20), overwritten);
    LeadsOn(h, Installed(), second, acked);
    LeadsOn(h, Installed(), acked, overwritten);
    assert ItemSlot(G, overwritten.last[(G, GroupBalance)]) == late.slot;
    assert !NothingDropped(overwritten);
  }
}
