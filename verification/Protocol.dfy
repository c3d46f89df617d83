/** The sync protocol: steps are synchronous blocks of packages/sync/src/orchestrator.ts, or moves of what is around. */
module Protocol {
  import opened Wrappers
  import opened Gate
  import opened Store
  import opened Snapshots

  const MAX_ATTEMPTS: nat := 12

  /** One company's book in Tally: the two change counters, and what each section would return. */
  datatype Book = Book(mst: nat, vch: nat, content: (Section, IsoDate) -> Digest)

  datatype Item = Item(section: Section, asOf: IsoDate, hash: Digest)

  /** The company the cycle is working on, with the companies still queued behind it. */
  datatype Job = Job(probe: Watermark, queue: seq<Watermark>)

  datatype Pc =
    | Idle
    | AtCompany(queue: seq<Watermark>)
    | Extracting(job: Job, todo: seq<Section>, got: seq<Item>)
    | Gating(job: Job, items: seq<Item>)
    | Sealing(job: Job, items: seq<Item>, envelope: Envelope)
    | Draining(rows: seq<OutboxRow>)
    | Awaiting(rows: seq<OutboxRow>, accepted: bool)

  /**
   * `sent` is everything ever put on the wire, `clock` the latest time an envelope was sealed,
   * `last` what each section of a company was last found to hold, and the two `restored` sets name
   * the books replaced since the running cycle's probe and since the probe behind the watermark.
   */
  datatype State = State(
    tables: Tables,
    snapshots: Table,
    sent: set<Envelope>,
    clock: int,
    seqNo: nat,
    last: map<(Guid, Section), Item>,
    books: map<Guid, Book>,
    restoredSinceProbe: set<Guid>,
    restoredSinceWatermark: set<Guid>,
    pc: Pc)

  datatype UploadResult = Acked | Retryable | Refused

  /** `Supersede` is another pass queueing a newer value while rows are being drained. */
  datatype Event =
    | Edit(guid: Guid, book: Book)
    | Replace(guid: Guid, book: Book)
    | Reset
    | Supersede(guid: Guid, item: Item, now: int)
    | Crash
    | StartCycle(probe: seq<Watermark>)
    | Decide
    | ReadSection(item: Item)
    | Check(now: int)
    | Enqueue(now: int)
    | Finish
    | BeginDrain(now: int, rows: seq<OutboxRow>)
    | Send
    | Deliver(envelope: Envelope, serverNow: int)
    | Reply(result: UploadResult, retryAt: int)
    | EndCycle

  const DUE_LIMIT: nat := 20

  // ------------------------------------------------------------------ steps

  ghost predicate Enabled(s: State, e: Event) {
    match e
    case Edit(g, _) => g in s.books
    case Replace(_, _) => true
    case Reset => true
    case Supersede(g, item, _) =>
      (s.pc.Draining? || s.pc.Awaiting?) && ShouldUpload(s.tables.GetSectionHash(ItemSlot(g, item)), item.hash)
    case Crash => true
    case StartCycle(_) => s.pc.Idle?
    case Decide => s.pc.AtCompany? && s.pc.queue != []
    case ReadSection(item) => s.pc.Extracting? && s.pc.todo != [] && item.section == s.pc.todo[0]
    case Check(_) => s.pc.Gating? && s.pc.items != []
    case Enqueue(_) => s.pc.Sealing? && s.pc.items != []
    case Finish => s.pc.Gating? && s.pc.items == []
    case BeginDrain(now, rows) =>
      s.pc.AtCompany? && s.pc.queue == [] && DueRows(s.tables.outbox, now, DUE_LIMIT, rows)
    case Send => s.pc.Draining? && s.pc.rows != []
    case Deliver(z, _) => z in s.sent
    case Reply(result, _) => s.pc.Awaiting? && s.pc.rows != [] && (result == Acked ==> s.pc.accepted)
    case EndCycle => s.pc.Draining? && s.pc.rows == []
  }

  function ItemSlot(g: Guid, item: Item): Slot {
    Slot(g, item.section, item.asOf)
  }

  function Sealed(s: State, g: Guid, item: Item, now: int): Envelope {
    Envelope(ItemSlot(g, item), now, s.seqNo + 1, item.hash)
  }

  ghost function AfterDecide(s: State): State
    requires s.pc.AtCompany? && s.pc.queue != []
  {
    var probe, rest := s.pc.queue[0], s.pc.queue[1..];
    match DecideGate(s.tables.GetWatermark(probe.companyGuid), probe)
    case Skip => s.(pc := AtCompany(rest))
    case Partial(sections) => s.(pc := Extracting(Job(probe, rest), sections, []))
    case Full(_) =>
      s.(tables := s.tables.ResetCompany(probe.companyGuid),
         pc := Extracting(Job(probe, rest), SECTIONS, []))
  }

  function AfterRead(s: State, item: Item): State
    requires s.pc.Extracting? && s.pc.todo != []
  {
    var got := s.pc.got + [item];
    if |s.pc.todo| == 1 then s.(pc := Gating(s.pc.job, got))
    else s.(pc := Extracting(s.pc.job, s.pc.todo[1..], got))
  }

  function Processed(s: State, job: Job, items: seq<Item>): State
    requires items != []
  {
    s.(last := s.last[(job.probe.companyGuid, items[0].section) := items[0]], pc := Gating(job, items[1..]))
  }

  /** The hash gate: unchanged sections are done, changed ones are stamped and go to be sealed. */
  function AfterCheck(s: State, now: int): State
    requires s.pc.Gating? && s.pc.items != []
  {
    var g, item := s.pc.job.probe.companyGuid, s.pc.items[0];
    if !ShouldUpload(s.tables.GetSectionHash(ItemSlot(g, item)), item.hash)
    then Processed(s, s.pc.job, s.pc.items)
    else s.(clock := if now > s.clock then now else s.clock,
            seqNo := s.seqNo + 1,
            pc := Sealing(s.pc.job, s.pc.items, Sealed(s, g, item, now)))
  }

  function AfterEnqueue(s: State, now: int): State
    requires s.pc.Sealing? && s.pc.items != []
  {
    var e := s.pc.envelope;
    Processed(s.(tables := s.tables.Enqueue(e.slot, e, e.contentHash, now)), s.pc.job, s.pc.items)
  }

  function AfterFinish(s: State): State
    requires s.pc.Gating?
  {
    var probe := s.pc.job.probe;
    var g := probe.companyGuid;
    s.(tables := s.tables.SetWatermark(probe),
       restoredSinceWatermark := if g in s.restoredSinceProbe then s.restoredSinceWatermark + {g}
                                 else s.restoredSinceWatermark - {g},
       pc := AtCompany(s.pc.job.queue))
  }

  function AfterDeliver(s: State, z: Envelope, serverNow: int): State {
    var (snapshots, answer) := Ingest(s.snapshots, z, serverNow);
    var s' := s.(snapshots := snapshots);
    if s.pc.Awaiting? && s.pc.rows != [] && s.pc.rows[0].payload == z && answer == Accepted
    then s'.(pc := s.pc.(accepted := true))
    else s'
  }

  function AfterSupersede(s: State, g: Guid, item: Item, now: int): State {
    var e := Sealed(s, g, item, now);
    s.(tables := s.tables.Enqueue(e.slot, e, e.contentHash, now),
       clock := if now > s.clock then now else s.clock,
       seqNo := s.seqNo + 1,
       last := s.last[(g, item.section) := item])
  }

  /** What the drain loop does to the tables when an upload comes back. */
  ghost function TablesAfterReply(t: Tables, row: OutboxRow, result: UploadResult, retryAt: int): Tables {
    if result == Acked then t.AckSectionHash(row.slot, row.contentHash).Dequeue(row.id, row.contentHash)
    else if result == Refused || row.attempts + 1 >= MAX_ATTEMPTS
    then t.Dequeue(row.id, row.contentHash).InvalidateWatermark(row.slot.company)
    else t.DeferAttempt(row.id, retryAt, row.contentHash)
  }

  ghost function Apply(s: State, e: Event): State
    requires Enabled(s, e)
  {
    match e
    case Edit(g, b) => s.(books := s.books[g := b])
    case Replace(g, b) =>
      s.(books := s.books[g := b],
         restoredSinceProbe := s.restoredSinceProbe + {g},
         restoredSinceWatermark := s.restoredSinceWatermark + {g})
    case Reset => s.(tables := s.tables.Reset())
    case Supersede(g, item, now) => AfterSupersede(s, g, item, now)
    case Crash => s.(pc := Idle)
    case StartCycle(probe) => s.(restoredSinceProbe := {}, pc := AtCompany(probe))
    case Decide => AfterDecide(s)
    case ReadSection(item) => AfterRead(s, item)
    case Check(now) => AfterCheck(s, now)
    case Enqueue(now) => AfterEnqueue(s, now)
    case Finish => AfterFinish(s)
    case BeginDrain(_, rows) => s.(pc := Draining(rows))
    case Send => s.(sent := s.sent + {s.pc.rows[0].payload}, pc := Awaiting(s.pc.rows, false))
    case Deliver(z, serverNow) => AfterDeliver(s, z, serverNow)
    case Reply(result, retryAt) =>
      s.(tables := TablesAfterReply(s.tables, s.pc.rows[0], result, retryAt), pc := Draining(s.pc.rows[1..]))
    case EndCycle => s.(pc := Idle)
  }

  // ------------------------------------------------------------------ runs

  /**
   * What a run may be assumed to do. `prompt`: a request reaches the server, if ever, while the Bridge still
   * waits for its answer. `forward`: the clock that stamps snapshots is never set back, and then requests may
   * arrive as late and as often as the network likes. `quietResets`: the tables are not wiped while a company
   * is half done. `truthful` and `noFlapping` are about Tally, slot by slot: the slots whose extractions can be
   * trusted, and the slots whose content does not go back and forth.
   */
  datatype Hypotheses = Hypotheses(
    prompt: bool,
    forward: bool,
    quietResets: bool,
    truthful: iset<Slot>,
    noFlapping: iset<Slot>)

  ghost predicate Permits(h: Hypotheses, s: State, e: Event) {
    && (h.prompt ==> Prompt(s, e))
    && (h.forward ==> Forward(s, e))
    && (h.quietResets ==> e.Reset? ==> Quiet(s.pc))
    && (forall x | x in h.truthful :: Truthful(x, s, e))
    && (forall x | x in h.noFlapping :: NoFlapping(x, s, e))
  }

  ghost predicate Prompt(s: State, e: Event) {
    e.Deliver? ==> s.pc.Awaiting? && s.pc.rows != [] && s.pc.rows[0].payload == e.envelope
  }

  ghost predicate Forward(s: State, e: Event) {
    (e.Check? || e.Supersede?) ==> s.clock <= e.now
  }

  predicate Working(pc: Pc) {
    pc.Extracting? || pc.Gating? || pc.Sealing?
  }

  function SectionsIn(items: seq<Item>): seq<Section> {
    seq(|items|, i requires 0 <= i < |items| => items[i].section)
  }

  /** The sections requested for the company in hand that have not been through the hash gate. */
  function Remaining(pc: Pc): seq<Section>
    requires Working(pc)
  {
    match pc
    case Extracting(_, todo, got) => SectionsIn(got) + todo
    case Gating(_, items) => SectionsIn(items)
    case Sealing(_, items, _) => SectionsIn(items)
  }

  /** No company is in hand, or every one of its sections is still to go through the hash gate. */
  ghost predicate Quiet(pc: Pc) {
    Working(pc) ==> forall sec: Section :: sec in Remaining(pc)
  }

  function ProbeOf(g: Guid, b: Book): Watermark {
    Watermark(g, Count(b.mst), Count(b.vch))
  }

  /** Between restores counters only grow, and what the slot shows changes only when a counter that lists it moves. */
  ghost predicate Evolves(x: Slot, b: Book, b': Book) {
    && b.mst <= b'.mst && b.vch <= b'.vch
    && (b.content(x.section, x.asOf) != b'.content(x.section, x.asOf) ==>
          (x.section in VOUCHER_SECTIONS && b.vch < b'.vch) || (x.section in MASTER_SECTIONS && b.mst < b'.mst))
  }

  ghost predicate Reads(x: Slot, s: State, g: Guid, item: Item) {
    ItemSlot(g, item) == x ==> g in s.books && item.hash == s.books[g].content(x.section, x.asOf)
  }

  /**
   * As far as slot `x` goes: probes of its company and extractions of it report the book as it is, edits let it
   * evolve, and a restore made between the watermark's probe and this one shows as a lower counter at the gate.
   */
  ghost predicate Truthful(x: Slot, s: State, e: Event) {
    match e
    case Edit(g, b) => g == x.company && g in s.books ==> Evolves(x, s.books[g], b)
    case StartCycle(probe) =>
      forall i | 0 <= i < |probe| && probe[i].companyGuid == x.company ::
        x.company in s.books && probe[i] == ProbeOf(x.company, s.books[x.company])
    case ReadSection(item) => Working(s.pc) ==> Reads(x, s, s.pc.job.probe.companyGuid, item)
    case Supersede(g, item, _) => Reads(x, s, g, item)
    case Decide =>
      s.pc.AtCompany? && s.pc.queue != [] && s.pc.queue[0].companyGuid == x.company ==>
        RestoreShows(s, s.pc.queue[0])
    case _ => true
  }

  ghost predicate RestoreShows(s: State, probe: Watermark) {
    var g := probe.companyGuid;
    g in s.tables.watermark && g in s.restoredSinceWatermark && g !in s.restoredSinceProbe ==>
      Void(s.tables.GetWatermark(g), probe)
  }

  /** The slot's content never returns to the acknowledged value while a different value is still pending. */
  ghost predicate NoFlapping(x: Slot, s: State, e: Event) {
    e.Check? && s.pc.Gating? && s.pc.items != [] && ItemSlot(s.pc.job.probe.companyGuid, s.pc.items[0]) == x ==>
      s.tables.GetSectionHash(x) == Some(s.pc.items[0].hash) && x in s.tables.outbox ==>
        s.tables.outbox[x].contentHash == s.pc.items[0].hash
  }

  /** The state a list of events leads to, if each is enabled and permitted when its turn comes. */
  ghost function After(h: Hypotheses, s: State, es: seq<Event>): Option<State> {
    if es == [] then Some(s)
    else
      var prior := After(h, s, es[..|es| - 1]);
      var e := es[|es| - 1];
      if prior.Some? && Enabled(prior.value, e) && Permits(h, prior.value, e)
      then Some(Apply(prior.value, e)) else None
  }

  lemma {:induction false} AfterOneMore(h: Hypotheses, s: State, es: seq<Event>, e: Event)
    ensures var m := After(h, s, es);
            After(h, s, es + [e]) ==
            if m.Some? && Enabled(m.value, e) && Permits(h, m.value, e) then Some(Apply(m.value, e)) else None
  {
    assert (es + [e])[..|es + [e]| - 1] == es;
  }

  lemma {:induction false} AfterBoth(h: Hypotheses, s: State, es: seq<Event>, more: seq<Event>)
    requires After(h, s, es).Some?
    ensures After(h, s, es + more) == After(h, After(h, s, es).value, more)
  {
    if more == [] {
      assert es + more == es;
    } else {
      var init := more[..|more| - 1];
      AfterBoth(h, s, es, init);
      assert (es + more)[..|es + more| - 1] == es + init;
    }
  }

  /** `s'` can follow `s` under the hypotheses `h`. */
  ghost predicate Leads(h: Hypotheses, s: State, s': State) {
    exists es :: After(h, s, es) == Some(s')
  }

  lemma {:induction false} LeadsBy(h: Hypotheses, s: State, e: Event, s': State)
    requires Enabled(s, e) && Permits(h, s, e) && Apply(s, e) == s'
    ensures Leads(h, s, s')
  {
    AfterOneMore(h, s, [], e);
    assert After(h, s, [] + [e]) == Some(s');
  }

  lemma {:induction false} LeadsOn(h: Hypotheses, s: State, m: State, s': State)
    requires Leads(h, s, m) && Leads(h, m, s')
    ensures Leads(h, s, s')
  {
    var es :| After(h, s, es) == Some(m);
    var more :| After(h, m, more) == Some(s');
    AfterBoth(h, s, es, more);
  }

  lemma {:induction false} LeadsNowhere(h: Hypotheses, s: State)
    ensures Leads(h, s, s)
  {
    assert After(h, s, []) == Some(s);
  }

  /** The first start of an installation: nothing stored locally, whatever is on the server or the wire. */
  ghost predicate Start(s: State) {
    && s.tables.watermark == map[] && s.tables.sectionHash == map[] && s.tables.outbox == map[]
    && s.last == map[]
    && s.pc.Idle?
    && s.restoredSinceProbe == {}
    && forall z | z in s.sent :: z.snapshotTs <= s.clock
  }

  // ------------------------------------------------------------------ nothing is silently dropped

  /** An acknowledged hash with nothing pending is what the server holds, for companies that may be skipped. */
  ghost predicate AckedAgrees(forward: bool, s: State) {
    forall slot | slot in s.tables.sectionHash && slot !in s.tables.outbox && slot.company in s.tables.watermark ::
      && slot in s.snapshots
      && s.snapshots[slot].contentHash == s.tables.sectionHash[slot]
      && (forward ==> forall z | z in s.sent && z.slot == slot :: z.snapshotTs <= s.snapshots[slot].snapshotTs)
  }

  /** Each section last processed for a company with a watermark is pending or acknowledged. */
  ghost predicate Accounted(s: State) {
    forall k | k in s.last && k.0 in s.tables.watermark ::
      ItemSlot(k.0, s.last[k]) in s.tables.outbox || ItemSlot(k.0, s.last[k]) in s.tables.sectionHash
  }

  /** Row ids are unique, and a row carries the envelope sealed for it. */
  ghost predicate RowsCarryEnvelopes(s: State) {
    && s.tables.Valid()
    && (forall slot | slot in s.tables.outbox ::
          s.tables.outbox[slot].payload.slot == slot
          && s.tables.outbox[slot].payload.contentHash == s.tables.outbox[slot].contentHash)
  }

  /** No request on the wire is newer than the latest seal, or than the row queued for its slot. */
  ghost predicate NewestQueued(forward: bool, s: State) {
    && (forall z | z in s.sent :: z.snapshotTs <= s.clock)
    && (forall slot | slot in s.tables.outbox :: s.tables.outbox[slot].payload.snapshotTs <= s.clock)
    && (forward ==>
          && (s.pc.Sealing? ==> s.pc.envelope.snapshotTs == s.clock)
          && forall z | z in s.sent && z.slot in s.tables.outbox ::
               z.snapshotTs <= s.tables.outbox[z.slot].payload.snapshotTs)
  }

  /**
   * A row the drain read and still has to settle. The row may have been superseded in the table since, in place
   * and under the same id, or wiped; its id was never given to another slot.
   */
  ghost predicate InHand(forward: bool, s: State, row: OutboxRow) {
    && row.payload.slot == row.slot && row.payload.contentHash == row.contentHash
    && row.payload.snapshotTs <= s.clock
    && row.id < s.tables.nextId
    && (forall x | x in s.tables.outbox && s.tables.outbox[x].id == row.id :: x == row.slot)
    && (row.slot in s.tables.outbox || row.slot.company !in s.tables.watermark)
    && (forward ==>
          && (forall z | z in s.sent && z.slot == row.slot :: z.snapshotTs <= row.payload.snapshotTs)
          && (row.slot in s.tables.outbox ==>
                row.payload.snapshotTs <= s.tables.outbox[row.slot].payload.snapshotTs))
  }

  ghost predicate RowsInHand(forward: bool, s: State, rows: seq<OutboxRow>) {
    && (forall i | 0 <= i < |rows| :: InHand(forward, s, rows[i]))
    && (forall i, j | 0 <= i < j < |rows| :: rows[i].slot != rows[j].slot)
  }

  /** Every section of a company with a watermark has been processed, and every one the current pass leaves out. */
  ghost predicate Covered(s: State) {
    && (s.pc.Extracting? ==> s.pc.todo != [])
    && (forall k | k in s.last :: s.last[k].section == k.1)
    && (forall g, sec: Section | g in s.tables.watermark :: (g, sec) in s.last)
    && (Working(s.pc) ==>
          forall sec: Section | sec !in Remaining(s.pc) :: (s.pc.job.probe.companyGuid, sec) in s.last)
  }

  /** The company in hand has a watermark, or nothing acknowledged and whatever it processed is queued. */
  ghost predicate PassConsistent(s: State) {
    Working(s.pc) ==>
      var g := s.pc.job.probe.companyGuid;
      || g in s.tables.watermark
      || (&& (forall slot | slot in s.tables.sectionHash :: slot.company != g)
          && (forall k | k in s.last && k.0 == g && k.1 !in Remaining(s.pc) ::
                ItemSlot(g, s.last[k]) in s.tables.outbox))
  }

  ghost predicate SealConsistent(s: State) {
    s.pc.Sealing? ==>
      && s.pc.items != []
      && s.pc.envelope.slot == ItemSlot(s.pc.job.probe.companyGuid, s.pc.items[0])
      && s.pc.envelope.contentHash == s.pc.items[0].hash
      && s.pc.envelope.snapshotTs <= s.clock
  }

  ghost predicate DrainConsistent(forward: bool, s: State) {
    && (s.pc.Draining? || s.pc.Awaiting? ==> RowsInHand(forward, s, s.pc.rows))
    && (s.pc.Awaiting? ==>
          && s.pc.rows != []
          && s.pc.rows[0].payload in s.sent
          && (s.pc.accepted ==>
                Latest(s.snapshots, s.pc.rows[0].slot) ==
                Some(Stored(s.pc.rows[0].payload.snapshotTs, s.pc.rows[0].contentHash))))
  }

  ghost predicate Inv(forward: bool, s: State) {
    && Covered(s)
    && RowsCarryEnvelopes(s)
    && NewestQueued(forward, s)
    && PassConsistent(s) && SealConsistent(s) && DrainConsistent(forward, s)
    && AckedAgrees(forward, s)
    && Accounted(s)
  }

  /** What the invariant asks of a step: the network or the clock behaves, and no wipe comes in mid-company. */
  ghost predicate InOrder(forward: bool, s: State, e: Event) {
    && (if forward then Forward(s, e) else Prompt(s, e))
    && (e.Reset? ==> Quiet(s.pc))
  }

  lemma {:induction false} StartEstablishesInv(forward: bool, s: State)
    requires Start(s)
    ensures Inv(forward, s)
  {
  }

  lemma {:induction false} StepKeepsInv(forward: bool, s: State, e: Event)
    requires Inv(forward, s) && Enabled(s, e) && InOrder(forward, s, e)
    ensures Inv(forward, Apply(s, e))
  {
    match e
    case Reset => QuietResetKeepsInv(forward, s);
    case Supersede(g, item, now) => SupersedeKeepsInv(forward, s, g, item, now);
    case Decide => DecideKeepsInv(forward, s);
    case ReadSection(item) => ReadKeepsInv(forward, s, item);
    case Check(now) => CheckKeepsInv(forward, s, now);
    case Enqueue(now) => EnqueueKeepsInv(forward, s, now);
    case Finish => FinishKeepsInv(forward, s);
    case Deliver(z, serverNow) => DeliverKeepsInv(forward, s, z, serverNow);
    case Reply(result, retryAt) => ReplyKeepsInv(forward, s, result, retryAt);
    case BeginDrain(now, rows) => BeginKeepsInv(forward, s, now, rows);
    case Send => SendKeepsInv(forward, s);
    case _ => OutsideKeepsInv(forward, s, Apply(s, e));
  }

  /** Edits, restores, crashes, and the two ends of a cycle leave everything the invariant speaks of alone. */
  lemma {:induction false} OutsideKeepsInv(forward: bool, s: State, s': State)
    requires Inv(forward, s)
    requires s' == s.(books := s'.books, restoredSinceProbe := s'.restoredSinceProbe,
                      restoredSinceWatermark := s'.restoredSinceWatermark, pc := s'.pc)
    requires s'.pc == s.pc || s'.pc.Idle? || s'.pc.AtCompany?
    ensures Inv(forward, s')
  {
    if s'.pc == s.pc && (s.pc.Draining? || s.pc.Awaiting?) {
      RowsStayInHand(forward, s, s');
    }
  }

  /** Rows in hand stay so while the tables, the wire and the clock do not change. */
  lemma {:induction false} RowsStayInHand(forward: bool, s: State, s': State)
    requires (s.pc.Draining? || s.pc.Awaiting?) && RowsInHand(forward, s, s.pc.rows)
    requires s'.tables == s.tables && s'.sent == s.sent && s'.clock == s.clock
    ensures RowsInHand(forward, s', s.pc.rows)
  {
    forall i | 0 <= i < |s.pc.rows|
      ensures InHand(forward, s', s.pc.rows[i])
    {
      assert InHand(forward, s, s.pc.rows[i]);
    }
  }

  lemma {:induction false} QuietResetKeepsInv(forward: bool, s: State)
    requires Inv(forward, s) && Quiet(s.pc)
    ensures Inv(forward, s.(tables := s.tables.Reset()))
  {
  }

  /** A newer value takes over the slot of a row that may be on its way to the server. */
  lemma {:induction false} SupersedeKeepsInv(forward: bool, s: State, g: Guid, item: Item, now: int)
    requires Inv(forward, s) && Enabled(s, Supersede(g, item, now))
    requires InOrder(forward, s, Supersede(g, item, now))
    ensures Inv(forward, AfterSupersede(s, g, item, now))
  {
    var s' := AfterSupersede(s, g, item, now);
    EnqueueKeepsValid(s.tables, ItemSlot(g, item), Sealed(s, g, item, now), item.hash, now);
    forall i | 0 <= i < |s.pc.rows|
      ensures InHand(forward, s', s.pc.rows[i])
    {
      assert InHand(forward, s, s.pc.rows[i]);
      SupersedeKeepsInHand(forward, s, g, item, now, s.pc.rows[i]);
    }
    SupersedeKeepsQueue(forward, s, g, item, now);
  }

  lemma {:induction false} SupersedeKeepsQueue(forward: bool, s: State, g: Guid, item: Item, now: int)
    requires RowsCarryEnvelopes(s) && NewestQueued(forward, s) && AckedAgrees(forward, s) && Accounted(s)
    requires !s.pc.Sealing? && (forward ==> s.clock <= now)
    ensures var s' := AfterSupersede(s, g, item, now);
            && RowsCarryEnvelopes(s') && NewestQueued(forward, s') && AckedAgrees(forward, s') && Accounted(s')
  {
    EnqueueKeepsValid(s.tables, ItemSlot(g, item), Sealed(s, g, item, now), item.hash, now);
  }

  lemma {:induction false} SupersedeKeepsInHand(forward: bool, s: State, g: Guid, item: Item, now: int, row: OutboxRow)
    requires InHand(forward, s, row) && (forward ==> s.clock <= now) && s.tables.Valid()
    ensures InHand(forward, AfterSupersede(s, g, item, now), row)
  {
  }

  lemma {:induction false} DecideKeepsInv(forward: bool, s: State)
    requires Inv(forward, s) && Enabled(s, Decide)
    ensures Inv(forward, AfterDecide(s))
  {
    var probe := s.pc.queue[0];
    match DecideGate(s.tables.GetWatermark(probe.companyGuid), probe)
    case Skip =>
    case Partial(sections) => assert |sections| > 0;
    case Full(_) => FullKeepsInv(forward, s, probe.companyGuid, AfterDecide(s));
  }

  lemma {:induction false} FullKeepsInv(forward: bool, s: State, g: Guid, s': State)
    requires Inv(forward, s)
    requires s' == s.(tables := s.tables.ResetCompany(g), pc := s'.pc)
    requires s'.pc.Extracting? && s'.pc.job.probe.companyGuid == g
    requires s'.pc.todo == SECTIONS && s'.pc.got == []
    ensures Inv(forward, s')
  {
    forall sec: Section
      ensures sec in Remaining(s'.pc)
    {
      EverySectionIsListed(sec);
      assert Remaining(s'.pc) == SECTIONS;
    }
  }

  lemma {:induction false} ReadKeepsInv(forward: bool, s: State, item: Item)
    requires Inv(forward, s) && Enabled(s, ReadSection(item))
    ensures Inv(forward, AfterRead(s, item))
  {
    assert Remaining(AfterRead(s, item).pc) == Remaining(s.pc);
  }

  lemma {:induction false} RemainingShrinks(items: seq<Item>, sec: Section)
    requires items != [] && sec !in SectionsIn(items[1..])
    ensures sec == items[0].section || sec !in SectionsIn(items)
  {
    assert SectionsIn(items) == [items[0].section] + SectionsIn(items[1..]);
  }

  lemma {:induction false} CheckKeepsInv(forward: bool, s: State, now: int)
    requires Inv(forward, s) && Enabled(s, Check(now)) && InOrder(forward, s, Check(now))
    ensures Inv(forward, AfterCheck(s, now))
  {
    var slot := ItemSlot(s.pc.job.probe.companyGuid, s.pc.items[0]);
    if ShouldUpload(s.tables.GetSectionHash(slot), s.pc.items[0].hash) {
      SealKeepsInv(forward, s, now);
    } else {
      ProcessedKeepsInv(forward, s, s, slot);
    }
  }

  lemma {:induction false} SealKeepsInv(forward: bool, s: State, now: int)
    requires Inv(forward, s) && Enabled(s, Check(now)) && InOrder(forward, s, Check(now))
    requires AfterCheck(s, now).pc.Sealing?
    ensures Inv(forward, AfterCheck(s, now))
  {
    assert Remaining(AfterCheck(s, now).pc) == Remaining(s.pc);
  }

  /** The head item leaves the hash gate; `t` is the state with the tables already updated. */
  lemma {:induction false} ProcessedKeepsInv(forward: bool, s: State, t: State, slot: Slot)
    requires Inv(forward, s) && (s.pc.Gating? || s.pc.Sealing?) && s.pc.items != []
    requires slot == ItemSlot(s.pc.job.probe.companyGuid, s.pc.items[0])
    requires t == s.(tables := t.tables) && t.tables == s.tables.(outbox := t.tables.outbox, nextId := t.tables.nextId)
    requires RowsCarryEnvelopes(t) && NewestQueued(forward, t.(pc := Idle))
    requires slot in t.tables.outbox || slot in t.tables.sectionHash
    requires forall x | x in s.tables.outbox :: x in t.tables.outbox
    ensures Inv(forward, Processed(t, s.pc.job, s.pc.items))
  {
    var s' := Processed(t, s.pc.job, s.pc.items);
    forall sec: Section | sec !in Remaining(s'.pc)
      ensures sec == s.pc.items[0].section || sec !in Remaining(s.pc)
    {
      RemainingShrinks(s.pc.items, sec);
    }
    ProcessedIsAccounted(forward, s, t, slot);
    assert Covered(s');
  }

  lemma {:induction false} ProcessedIsAccounted(forward: bool, s: State, t: State, slot: Slot)
    requires Inv(forward, s) && (s.pc.Gating? || s.pc.Sealing?) && s.pc.items != []
    requires slot == ItemSlot(s.pc.job.probe.companyGuid, s.pc.items[0])
    requires t == s.(tables := t.tables) && t.tables == s.tables.(outbox := t.tables.outbox, nextId := t.tables.nextId)
    requires slot in t.tables.outbox || slot in t.tables.sectionHash
    requires forall x | x in s.tables.outbox :: x in t.tables.outbox
    ensures Accounted(Processed(t, s.pc.job, s.pc.items))
    ensures AckedAgrees(forward, Processed(t, s.pc.job, s.pc.items))
  {
  }

  lemma {:induction false} EnqueueKeepsInv(forward: bool, s: State, now: int)
    requires Inv(forward, s) && Enabled(s, Enqueue(now))
    ensures Inv(forward, AfterEnqueue(s, now))
  {
    var e := s.pc.envelope;
    var t := s.(tables := s.tables.Enqueue(e.slot, e, e.contentHash, now));
    EnqueueKeepsValid(s.tables, e.slot, e, e.contentHash, now);
    assert RowsCarryEnvelopes(t) && NewestQueued(forward, t.(pc := Idle));
    ProcessedKeepsInv(forward, s, t, e.slot);
  }

  lemma {:induction false} FinishKeepsInv(forward: bool, s: State)
    requires Inv(forward, s) && Enabled(s, Finish)
    ensures Inv(forward, AfterFinish(s))
  {
    assert Remaining(s.pc) == [];
  }

  lemma {:induction false} BeginKeepsInv(forward: bool, s: State, now: int, rows: seq<OutboxRow>)
    requires Inv(forward, s) && Enabled(s, BeginDrain(now, rows))
    ensures Inv(forward, Apply(s, BeginDrain(now, rows)))
  {
    assert RowsInHand(forward, s, rows);
  }

  lemma {:induction false} SendKeepsInv(forward: bool, s: State)
    requires Inv(forward, s) && Enabled(s, Send)
    ensures Inv(forward, Apply(s, Send))
  {
    var s' := Apply(s, Send);
    forall i | 0 <= i < |s.pc.rows|
      ensures InHand(forward, s', s.pc.rows[i])
    {
      assert InHand(forward, s, s.pc.rows[i]);
    }
  }

  lemma {:induction false} DeliverKeepsInv(forward: bool, s: State, z: Envelope, serverNow: int)
    requires Inv(forward, s) && Enabled(s, Deliver(z, serverNow)) && InOrder(forward, s, Deliver(z, serverNow))
    ensures Inv(forward, AfterDeliver(s, z, serverNow))
  {
    IngestEffect(s.snapshots, z, serverNow);
    if forward {
      LateDeliveryIsHarmless(s, z, serverNow);
    } else {
      PromptKeepsAcked(s, z, serverNow);
    }
    DeliverKeepsRest(forward, s, z, serverNow);
  }

  /** What no delivery touches: the tables, the wire, the history. */
  lemma {:induction false} DeliverKeepsRest(forward: bool, s: State, z: Envelope, serverNow: int)
    requires Inv(forward, s)
    ensures var s' := AfterDeliver(s, z, serverNow);
            && Covered(s') && RowsCarryEnvelopes(s') && NewestQueued(forward, s')
            && PassConsistent(s') && SealConsistent(s') && Accounted(s')
            && (s'.pc.Draining? || s'.pc.Awaiting? ==> RowsInHand(forward, s', s'.pc.rows))
  {
    if s.pc.Draining? || s.pc.Awaiting? {
      RowsStayInHand(forward, s, AfterDeliver(s, z, serverNow));
    }
  }

  /** A delivery that is waited for goes to a slot that is queued or that no watermark covers. */
  lemma {:induction false} PromptKeepsAcked(s: State, z: Envelope, serverNow: int)
    requires Inv(false, s) && z in s.sent && Prompt(s, Deliver(z, serverNow))
    ensures AckedAgrees(false, AfterDeliver(s, z, serverNow))
    ensures DrainConsistent(false, AfterDeliver(s, z, serverNow))
  {
    var s' := AfterDeliver(s, z, serverNow);
    IngestEffect(s.snapshots, z, serverNow);
    assert InHand(false, s, s.pc.rows[0]);
    DeliverKeepsRest(false, s, z, serverNow);
  }

  /** With a forward clock, a request that arrives late cannot disturb a settled slot. */
  lemma {:induction false} LateDeliveryIsHarmless(s: State, z: Envelope, serverNow: int)
    requires Inv(true, s) && z in s.sent
    ensures AckedAgrees(true, AfterDeliver(s, z, serverNow))
    ensures DrainConsistent(true, AfterDeliver(s, z, serverNow))
  {
    LateKeepsAcked(s, z, serverNow);
    DeliverKeepsRest(true, s, z, serverNow);
    if s.pc.Awaiting? {
      assert InHand(true, s, s.pc.rows[0]);
    }
  }

  lemma {:induction false} LateKeepsAcked(s: State, z: Envelope, serverNow: int)
    requires AckedAgrees(true, s) && z in s.sent
    ensures AckedAgrees(true, AfterDeliver(s, z, serverNow))
  {
    IngestEffect(s.snapshots, z, serverNow);
  }

  /** The table still holds the row that was sent, and not what superseded it. */
  predicate StillQueued(t: Tables, row: OutboxRow) {
    row.slot in t.outbox && t.outbox[row.slot].id == row.id && t.outbox[row.slot].contentHash == row.contentHash
  }

  /**
   * Removing and rescheduling work on the row that was sent or on nothing: what superseded it, in place and
   * under its id, is told apart by its hash.
   */
  lemma {:induction false} SettlesOnlyWhatWasSent(t: Tables, row: OutboxRow, retryAt: int)
    requires forall x | x in t.outbox && t.outbox[x].id == row.id :: x == row.slot
    ensures t.Dequeue(row.id, row.contentHash) ==
            if StillQueued(t, row) then t.(outbox := t.outbox - {row.slot}) else t
    ensures t.DeferAttempt(row.id, retryAt, row.contentHash) ==
            if StillQueued(t, row)
            then t.(outbox := t.outbox[row.slot := Deferred(t.outbox[row.slot], row.id, retryAt, row.contentHash)])
            else t
  {
    if StillQueued(t, row) {
      assert t.Dequeue(row.id, row.contentHash).outbox == t.outbox - {row.slot};
    } else {
      assert t.Dequeue(row.id, row.contentHash).outbox == t.outbox;
      assert t.DeferAttempt(row.id, retryAt, row.contentHash).outbox == t.outbox;
    }
  }

  /** A reply for a row that was superseded in flight leaves the whole queue as it is. */
  lemma {:induction false} StaleReplyKeepsTheQueue(forward: bool, s: State, result: UploadResult, retryAt: int)
    requires Inv(forward, s) && Enabled(s, Reply(result, retryAt))
    requires var row := s.pc.rows[0];
             row.slot in s.tables.outbox && s.tables.outbox[row.slot].contentHash != row.contentHash
    ensures Apply(s, Reply(result, retryAt)).tables.outbox == s.tables.outbox
  {
    var row := s.pc.rows[0];
    assert InHand(forward, s, row);
    SettlesOnlyWhatWasSent(s.tables, row, retryAt);
    SettlesOnlyWhatWasSent(s.tables.AckSectionHash(row.slot, row.contentHash), row, retryAt);
  }

  lemma {:induction false} ReplyKeepsInv(forward: bool, s: State, result: UploadResult, retryAt: int)
    requires Inv(forward, s) && Enabled(s, Reply(result, retryAt))
    ensures Inv(forward, Apply(s, Reply(result, retryAt)))
  {
    if result == Acked {
      AckKeepsInv(forward, s, retryAt);
    } else if result == Refused || s.pc.rows[0].attempts + 1 >= MAX_ATTEMPTS {
      AbandonKeepsInv(forward, s, result, retryAt);
    } else {
      DeferKeepsInv(forward, s, retryAt);
    }
  }

  /** A reply gives no row a new id, slot or payload, and removes none but that of the row it settles. */
  ghost predicate Settles(t: Tables, t': Tables, slot: Slot) {
    && t'.nextId == t.nextId
    && t'.watermark.Keys <= t.watermark.Keys
    && (forall x | x in t'.outbox ::
          x in t.outbox && t'.outbox[x].id == t.outbox[x].id && t'.outbox[x].payload == t.outbox[x].payload)
    && (forall x | x in t.outbox && x != slot :: x in t'.outbox)
  }

  lemma {:induction false} RestStaysInHand(forward: bool, s: State, s': State)
    requires (s.pc.Draining? || s.pc.Awaiting?) && s.pc.rows != [] && RowsInHand(forward, s, s.pc.rows)
    requires Settles(s.tables, s'.tables, s.pc.rows[0].slot)
    requires s' == s.(tables := s'.tables, pc := Draining(s.pc.rows[1..]))
    ensures RowsInHand(forward, s', s'.pc.rows)
  {
    forall i | 0 <= i < |s'.pc.rows|
      ensures InHand(forward, s', s'.pc.rows[i])
    {
      assert s'.pc.rows[i] == s.pc.rows[i + 1] && InHand(forward, s, s.pc.rows[i + 1]);
    }
  }

  lemma {:induction false} AckKeepsInv(forward: bool, s: State, retryAt: int)
    requires Inv(forward, s) && Enabled(s, Reply(Acked, retryAt))
    ensures Inv(forward, Apply(s, Reply(Acked, retryAt)))
  {
    var row, s' := s.pc.rows[0], Apply(s, Reply(Acked, retryAt));
    assert InHand(forward, s, row);
    SettlesOnlyWhatWasSent(s.tables.AckSectionHash(row.slot, row.contentHash), row, retryAt);
    RestStaysInHand(forward, s, s');
    assert RowsCarryEnvelopes(s') && NewestQueued(forward, s');
    assert AckedAgrees(forward, s') && Accounted(s');
  }

  lemma {:induction false} AbandonKeepsInv(forward: bool, s: State, result: UploadResult, retryAt: int)
    requires Inv(forward, s) && Enabled(s, Reply(result, retryAt))
    requires result == Refused || (result == Retryable && s.pc.rows[0].attempts + 1 >= MAX_ATTEMPTS)
    ensures Inv(forward, Apply(s, Reply(result, retryAt)))
    ensures !StillQueued(Apply(s, Reply(result, retryAt)).tables, s.pc.rows[0])
    ensures s.pc.rows[0].slot.company !in Apply(s, Reply(result, retryAt)).tables.watermark
  {
    var row, s' := s.pc.rows[0], Apply(s, Reply(result, retryAt));
    assert InHand(forward, s, row);
    SettlesOnlyWhatWasSent(s.tables, row, retryAt);
    RestStaysInHand(forward, s, s');
    assert RowsCarryEnvelopes(s') && NewestQueued(forward, s');
    assert AckedAgrees(forward, s') && Accounted(s');
  }

  lemma {:induction false} DeferKeepsInv(forward: bool, s: State, retryAt: int)
    requires Inv(forward, s) && Enabled(s, Reply(Retryable, retryAt))
    requires s.pc.rows[0].attempts + 1 < MAX_ATTEMPTS
    ensures Inv(forward, Apply(s, Reply(Retryable, retryAt)))
  {
    var row, s' := s.pc.rows[0], Apply(s, Reply(Retryable, retryAt));
    assert InHand(forward, s, row);
    SettlesOnlyWhatWasSent(s.tables, row, retryAt);
    assert s'.tables.outbox.Keys == s.tables.outbox.Keys;
    RestStaysInHand(forward, s, s');
    DeferKeepsQueue(forward, s, s', retryAt);
  }

  lemma {:induction false} DeferKeepsQueue(forward: bool, s: State, s': State, retryAt: int)
    requires Inv(forward, s) && Enabled(s, Reply(Retryable, retryAt)) && !s'.pc.Sealing?
    requires s' == s.(tables := s.tables.DeferAttempt(s.pc.rows[0].id, retryAt, s.pc.rows[0].contentHash), pc := s'.pc)
    ensures RowsCarryEnvelopes(s') && NewestQueued(forward, s') && AckedAgrees(forward, s') && Accounted(s')
  {
    DeferKeepsValid(s.tables, s.pc.rows[0].id, retryAt, s.pc.rows[0].contentHash);
    assert s'.tables.outbox.Keys == s.tables.outbox.Keys;
  }

  lemma {:induction false} RunKeepsInv(h: Hypotheses, forward: bool, s: State, es: seq<Event>)
    requires Inv(forward, s) && After(h, s, es).Some?
    requires h.quietResets && if forward then h.forward else h.prompt
    ensures Inv(forward, After(h, s, es).value)
  {
    if es != [] {
      var init := es[..|es| - 1];
      RunKeepsInv(h, forward, s, init);
      StepKeepsInv(forward, After(h, s, init).value, es[|es| - 1]);
    }
  }

  lemma {:induction false} ReachableKeepsInv(h: Hypotheses, forward: bool, s: State, es: seq<Event>)
    requires Start(s) && After(h, s, es).Some?
    requires h.quietResets && if forward then h.forward else h.prompt
    ensures Inv(forward, After(h, s, es).value)
  {
    StartEstablishesInv(forward, s);
    RunKeepsInv(h, forward, s, es);
  }

  /** Every section a company last processed is still queued, or acknowledged and exactly what the server stores. */
  ghost predicate NothingDropped(s: State) {
    forall k | k in s.last && k.0 in s.tables.watermark ::
      var slot := ItemSlot(k.0, s.last[k]);
      || slot in s.tables.outbox
      || (slot in s.tables.sectionHash && slot in s.snapshots
          && s.snapshots[slot].contentHash == s.tables.sectionHash[slot])
  }

  /**
   * Over every run (edits, restores, skip, partial and full cycles, throwing extractions, rows superseded in
   * flight, quiet resets, crashes between any two blocks, lost acknowledgements, retries, refusals and spent
   * retry budgets): while a company has a stored watermark, nothing it last extracted is silently dropped.
   */
  lemma {:induction false} NothingSilentlyDropped(h: Hypotheses, s: State, es: seq<Event>)
    requires Start(s) && After(h, s, es).Some?
    requires h.quietResets && (h.prompt || h.forward)
    ensures NothingDropped(After(h, s, es).value)
  {
    ReachableKeepsInv(h, !h.prompt, s, es);
  }
}
