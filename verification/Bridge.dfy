/**
 * One sync cycle as the Bridge runs it (packages/sync/src/orchestrator.ts): the loops over
 * companies, sections and due rows, changing the store in place and talking to Tally and to the
 * server.
 *
 * Each method carries the protocol state beside the real one and takes it along steps of the
 * protocol, so the theorems about runs are theorems about this code.
 */
module Bridge {
  import opened Wrappers
  import opened Gate
  import opened Store
  import opened Snapshots
  import opened Protocol
  import opened Convergence
  import opened Cycles

  /** Monotonic per device; a gap or a repeat is visible to the server. */
  class SeqCounter {
    var value: nat

    constructor (start: nat)
      ensures value == start
    {
      value := start;
    }

    method Next() returns (n: nat)
      modifies this
      ensures n == value == old(value) + 1
    {
      value := value + 1;
      n := value;
    }
  }

  /** Everything a cycle asks of the outside: Tally's answers, clock readings, the fate of each upload. */
  datatype Surroundings = Surroundings(
    probe: seq<Watermark>,
    extract: (Guid, seq<Section>) -> Option<seq<Item>>,
    clock: nat -> int,
    drainAt: int,
    fate: OutboxRow -> Fate,
    retryAt: OutboxRow -> int)
  {
    /** An extraction that does not throw returns one item per requested section, in order. */
    ghost predicate Complete() {
      forall g, sections :: extract(g, sections).Some? ==> SectionsIn(extract(g, sections).value) == sections
    }

    /** As far as the slot goes, probes and extractions report these books. */
    ghost predicate Reports(x: Slot, books: map<Guid, Book>) {
      && (forall i | 0 <= i < |probe| && probe[i].companyGuid == x.company ::
            x.company in books && probe[i] == ProbeOf(x.company, books[x.company]))
      && (forall sections :: Tells(x, books, extract(x.company, sections)))
    }

    ghost predicate Probes(g: Guid) {
      exists i :: 0 <= i < |probe| && probe[i].companyGuid == g
    }
  }

  ghost predicate Tells(x: Slot, books: map<Guid, Book>, answer: Option<seq<Item>>) {
    answer.Some? ==>
      forall i | 0 <= i < |answer.value| && ItemSlot(x.company, answer.value[i]) == x ::
        x.company in books && answer.value[i].hash == books[x.company].content(x.section, x.asOf)
  }

  /** Uploads are answered while they are waited for, and Tally tells the truth about the slots in `trusted`. */
  ghost function During(trusted: iset<Slot>): Hypotheses {
    Hypotheses(true, false, true, trusted, iset{})
  }

  /** The objects hold what the protocol state says they hold. */
  ghost predicate Mirrors(store: SyncStore, counter: SeqCounter, server: SnapshotTable, s: State)
    reads store, counter, server
  {
    store.Valid() && store.contents == s.tables && counter.value == s.seqNo && server.slots == s.snapshots
  }

  /** The company's watermark is that of the book as it is. */
  ghost predicate UpToDate(g: Guid, s: State) {
    && g in s.books && g !in s.restoredSinceWatermark
    && s.tables.GetWatermark(g) == Some(ProbeOf(g, s.books[g]))
  }

  /** A cycle edits no books, and moves a watermark only by setting it to its own probe or removing it. */
  ghost predicate SameBooks(s: State, s': State) {
    && s'.books == s.books && s'.restoredSinceProbe == s.restoredSinceProbe
    && forall g | g in s'.restoredSinceWatermark && g in s'.tables.watermark ::
         g in s.restoredSinceWatermark && g in s.tables.watermark && s'.tables.watermark[g] == s.tables.watermark[g]
  }

  /** What the cycle is told about a trusted slot: the books as they are, and a lower counter after a restore. */
  ghost predicate Trusted(x: Slot, env: Surroundings, s: State) {
    && env.Reports(x, s.books)
    && forall i | 0 <= i < |env.probe| && env.probe[i].companyGuid == x.company :: RestoreShows(s, env.probe[i])
  }

  ghost predicate TrustedPass(x: Slot, env: Surroundings, probe: Watermark, s: State) {
    && ReportsBook(probe, s.books) && RestoreShows(s, probe)
    && forall sections :: Tells(x, s.books, env.extract(x.company, sections))
  }

  /** The companies of the probe one after the other, none of whose extractions threw. */
  ghost predicate Walking(env: Surroundings, s: State, walk: seq<Tables>) {
    && 0 < |walk| <= |env.probe| + 1 && walk[0] == s.tables
    && forall j | 0 < j < |walk| :: Synced(env.extract, env.probe[j - 1], walk[j - 1], walk[j], false)
  }

  /** All companies of the probe, or those up to the first whose extraction threw. */
  ghost predicate Walked(env: Surroundings, s: State, walk: seq<Tables>, threw: bool) {
    if threw then
      && 1 < |walk| <= |env.probe| + 1 && Walking(env, s, walk[..|walk| - 1])
      && Synced(env.extract, env.probe[|walk| - 2], walk[|walk| - 2], walk[|walk| - 1], true)
    else |walk| == |env.probe| + 1 && Walking(env, s, walk)
  }

  method RunCycle(store: SyncStore, counter: SeqCounter, server: SnapshotTable, env: Surroundings,
                  ghost trusted: iset<Slot>, ghost s: State)
    returns (threw: bool, ghost walk: seq<Tables>, ghost rows: seq<OutboxRow>, ghost results: seq<UploadResult>,
             ghost s': State)
    requires Mirrors(store, counter, server, s) && s.pc.Idle? && env.Complete()
    requires forall x | x in trusted :: Trusted(x, env, s.(restoredSinceProbe := {}))
    modifies store, counter, server
    ensures Mirrors(store, counter, server, s') && s'.pc.Idle?
    ensures Walked(env, s, walk, threw)
    ensures threw ==> s'.tables == walk[|walk| - 1] && s'.snapshots == s.snapshots
    ensures !threw ==> DrainedBy(env, s.(tables := walk[|walk| - 1]), s', rows, results)
    ensures Inv(false, s) ==> OwnEnvelopes(rows)
    ensures Leads(During(trusted), s, s')
    ensures Inv(false, s) ==> Inv(false, s') && NothingDropped(s')
    ensures forall x | x in trusted && Honest(x, s) :: Honest(x, s')
    ensures forall x | Inv(false, s) && x in trusted && Honest(x, s) && !threw && env.Probes(x.company)
                       && x.company in s'.tables.watermark && LastAt(x, s') && x !in s'.tables.outbox ::
              ShowsTheTruth(s', x.company, x.section) <==>
              s'.tables.GetSectionHash(x) == Some(s'.last[KeyOf(x)].hash)
  {
    ghost var h := During(trusted);
    ghost var s0 := Apply(s, StartCycle(env.probe));
    LeadsBy(h, s, StartCycle(env.probe), s0);
    rows, results := [], [];
    ghost var walked;
    threw, walk, walked := SyncCompanies(store, counter, server, env, trusted, s0);
    LeadsOn(h, s, s0, walked);
    s' := walked;
    if !threw {
      rows, results, s' := DrainOutbox(store, counter, server, env, trusted, walked);
      LeadsOn(h, s, walked, s');
      OwnRows(h, s, walked, env.drainAt, rows);
    }
    CycleKeeps(h, s, s');
    if !threw {
      ShownAfter(trusted, env, s, walked, s');
    }
  }

  /** The rows a drain takes carry the envelopes sealed for them. */
  lemma {:induction false} OwnRows(h: Hypotheses, s: State, m: State, now: int, rows: seq<OutboxRow>)
    requires Leads(h, s, m) && h.prompt && h.quietResets && DueRows(m.tables.outbox, now, DUE_LIMIT, rows)
    ensures Inv(false, s) ==> OwnEnvelopes(rows)
  {
    if Inv(false, s) {
      CycleKeeps(h, s, m);
      assert RowsCarryEnvelopes(m);
    }
  }

  /** The companies of the probe, each with its gate, its sections and its watermark, until an extraction throws. */
  method SyncCompanies(store: SyncStore, counter: SeqCounter, server: SnapshotTable, env: Surroundings,
                       ghost trusted: iset<Slot>, ghost s: State)
    returns (threw: bool, ghost walk: seq<Tables>, ghost s': State)
    requires Mirrors(store, counter, server, s) && env.Complete()
    requires s.pc == AtCompany(env.probe) && s.restoredSinceProbe == {}
    requires forall x | x in trusted :: Trusted(x, env, s)
    modifies store, counter
    ensures Mirrors(store, counter, server, s') && Leads(During(trusted), s, s')
    ensures s'.pc == if threw then Idle else AtCompany([])
    ensures Walked(env, s, walk, threw) && s'.tables == walk[|walk| - 1] && s'.snapshots == s.snapshots
    ensures forall x | x in trusted && !threw && env.Probes(x.company) :: UpToDate(x.company, s')
  {
    threw, walk, s' := false, [s.tables], s;
    LeadsNowhere(During(trusted), s);
    var i := 0;
    while i < |env.probe|
      invariant 0 <= i <= |env.probe| && |walk| == i + 1
      invariant Walking(env, s, walk) && walk[i] == s'.tables && s'.snapshots == s.snapshots
      invariant Mirrors(store, counter, server, s') && s'.pc == AtCompany(env.probe[i..])
      invariant Leads(During(trusted), s, s') && SameBooks(s, s')
      invariant forall x, j | x in trusted && 0 <= j < i && env.probe[j].companyGuid == x.company ::
                  UpToDate(x.company, s')
    {
      ghost var m := s';
      assert env.probe[i..][0] == env.probe[i] && env.probe[i..][1..] == env.probe[i + 1..];
      StillTrusted(trusted, env, i, s, m);
      threw, s' := SyncCompany(store, counter, server, env, env.probe[i], trusted, m);
      LeadsOn(During(trusted), s, m, s');
      WalkedOn(env, s, walk, s'.tables, threw);
      walk := walk + [s'.tables];
      if threw {
        return;
      }
      i := i + 1;
    }
    ProbedAreUpToDate(trusted, env, s');
  }

  lemma {:induction false} WalkedOn(env: Surroundings, s: State, walk: seq<Tables>, t: Tables, threw: bool)
    requires Walking(env, s, walk) && |walk| <= |env.probe|
    requires Synced(env.extract, env.probe[|walk| - 1], walk[|walk| - 1], t, threw)
    ensures if threw then Walked(env, s, walk + [t], true) else Walking(env, s, walk + [t])
  {
    assert (walk + [t])[..|walk|] == walk;
  }

  /** In the middle of a cycle it is still true of Tally what was true at its start. */
  lemma {:induction false} StillTrusted(trusted: iset<Slot>, env: Surroundings, i: nat, s: State, m: State)
    requires SameBooks(s, m) && s.restoredSinceProbe == {} && i < |env.probe|
    requires forall x | x in trusted :: Trusted(x, env, s)
    ensures forall x | x in trusted && x.company == env.probe[i].companyGuid :: TrustedPass(x, env, env.probe[i], m)
  {
    forall x | x in trusted && x.company == env.probe[i].companyGuid
      ensures TrustedPass(x, env, env.probe[i], m)
    {
      assert Trusted(x, env, s);
    }
  }

  lemma {:induction false} ProbedAreUpToDate(trusted: iset<Slot>, env: Surroundings, s: State)
    requires forall x, j | x in trusted && 0 <= j < |env.probe| && env.probe[j].companyGuid == x.company ::
               UpToDate(x.company, s)
    ensures forall x | x in trusted && env.Probes(x.company) :: UpToDate(x.company, s)
  {
  }

  /** What the theorems about runs say of a cycle. */
  lemma {:induction false} CycleKeeps(h: Hypotheses, s: State, s': State)
    requires Leads(h, s, s') && h.prompt && h.quietResets
    ensures Inv(false, s) ==> Inv(false, s') && NothingDropped(s')
    ensures forall x | x in h.truthful && Honest(x, s) :: Honest(x, s')
  {
    var es :| After(h, s, es) == Some(s');
    if Inv(false, s) {
      RunKeepsInv(h, false, s, es);
    }
    forall x | x in h.truthful && Honest(x, s)
      ensures Honest(x, s')
    {
      RunKeepsHonest(h, x, s, es);
    }
  }

  /** After a cycle that did not throw, a slot with nothing pending is settled. */
  lemma {:induction false} ShownAfter(trusted: iset<Slot>, env: Surroundings, s: State, walked: State, s': State)
    requires forall x | x in trusted && env.Probes(x.company) :: UpToDate(x.company, walked)
    requires Drained(walked, s')
    requires Inv(false, s) ==> Inv(false, s')
    requires forall x | x in trusted && Honest(x, s) :: Honest(x, s')
    ensures forall x | Inv(false, s) && x in trusted && Honest(x, s) && env.Probes(x.company)
                       && x.company in s'.tables.watermark && LastAt(x, s') && x !in s'.tables.outbox ::
              ShowsTheTruth(s', x.company, x.section) <==>
              s'.tables.GetSectionHash(x) == Some(s'.last[KeyOf(x)].hash)
  {
    forall x | Inv(false, s) && x in trusted && Honest(x, s) && env.Probes(x.company)
               && x.company in s'.tables.watermark && LastAt(x, s') && x !in s'.tables.outbox
      ensures ShowsTheTruth(s', x.company, x.section) <==>
              s'.tables.GetSectionHash(x) == Some(s'.last[KeyOf(x)].hash)
    {
      assert UpToDate(x.company, walked);
      SettledShowsTheTruthExactly(false, x, s');
    }
  }

  /** What the gate decides leaves every other company as it was, and a skip finds this one up to date. */
  lemma {:induction false} DecideLeaves(s: State)
    requires s.pc.AtCompany? && s.pc.queue != []
    ensures var p, s' := s.pc.queue[0], AfterDecide(s);
            && SameBooks(s, s')
            && (forall g | g != p.companyGuid && UpToDate(g, s) :: UpToDate(g, s'))
            && (s'.pc.AtCompany? && RestoreShows(s, p) && s.restoredSinceProbe == {} && ReportsBook(p, s.books) ==>
                  UpToDate(p.companyGuid, s'))
  {
    SkipsExactly(s.tables.GetWatermark(s.pc.queue[0].companyGuid), s.pc.queue[0]);
  }

  ghost predicate ReportsBook(p: Watermark, books: map<Guid, Book>) {
    p.companyGuid in books && p == ProbeOf(p.companyGuid, books[p.companyGuid])
  }

  /** Setting the watermark leaves every other company as it was, and this one up to date. */
  lemma {:induction false} FinishLeaves(s: State)
    requires s.pc.Gating? && s.restoredSinceProbe == {}
    ensures var p, s' := s.pc.job.probe, AfterFinish(s);
            && SameBooks(s, s')
            && (forall g | g != p.companyGuid && UpToDate(g, s) :: UpToDate(g, s'))
            && (ReportsBook(p, s.books) ==> UpToDate(p.companyGuid, s'))
  {
  }

  /** One company: the AlterID gate, then extraction, the hash gate per section, and the watermark last. */
  method SyncCompany(store: SyncStore, counter: SeqCounter, server: SnapshotTable, env: Surroundings,
                     probe: Watermark, ghost trusted: iset<Slot>, ghost s: State)
    returns (threw: bool, ghost s': State)
    requires Mirrors(store, counter, server, s) && env.Complete()
    requires s.pc.AtCompany? && s.pc.queue != [] && s.pc.queue[0] == probe
    requires s.restoredSinceProbe == {}
    requires forall x | x in trusted && x.company == probe.companyGuid :: TrustedPass(x, env, probe, s)
    modifies store, counter
    ensures Mirrors(store, counter, server, s') && Leads(During(trusted), s, s')
    ensures s'.pc == if threw then Idle else AtCompany(s.pc.queue[1..])
    ensures Synced(env.extract, probe, s.tables, s'.tables, threw) && s'.snapshots == s.snapshots
    ensures SameBooks(s, s')
    ensures forall g | g != probe.companyGuid && UpToDate(g, s) :: UpToDate(g, s')
    ensures forall x | x in trusted && x.company == probe.companyGuid && !threw :: UpToDate(x.company, s')
  {
    ghost var h := During(trusted);
    s' := AfterDecide(s);
    LeadsBy(h, s, Decide, s');
    DecideLeaves(s);
    threw := false;
    var stored := store.GetWatermark(probe.companyGuid);
    var decision := DecideGate(stored, probe);
    if decision.Skip? {
      return;
    }
    if decision.Full? {
      store.ResetCompany(probe.companyGuid);
    }
    var sections := if decision.Partial? then decision.sections else SECTIONS;
    var extracted := env.extract(probe.companyGuid, sections);
    ghost var m := s';
    if extracted.None? {
      s' := Apply(m, Crash);
      LeadsBy(h, m, Crash, s');
      LeadsOn(h, s, m, s');
      threw := true;
      return;
    }
    AskedOnce(stored, probe, extracted.value);
    s' := PullSections(store, counter, server, env, probe, extracted.value, trusted, m);
    LeadsOn(h, s, m, s');
  }

  /** Everything asked for goes through the hash gate, and then the watermark moves. */
  method PullSections(store: SyncStore, counter: SeqCounter, server: SnapshotTable, env: Surroundings,
                      probe: Watermark, items: seq<Item>, ghost trusted: iset<Slot>, ghost s: State)
    returns (ghost s': State)
    requires Mirrors(store, counter, server, s) && s.restoredSinceProbe == {}
    requires s.pc.Extracting? && s.pc.job.probe == probe && s.pc.got == []
    requires s.pc.todo != [] && SectionsIn(items) == s.pc.todo && DistinctSections(items)
    requires forall x | x in trusted && x.company == probe.companyGuid :: Tells(x, s.books, Some(items))
    modifies store, counter
    ensures Pulled(s.tables, s'.tables, probe.companyGuid, items)
    ensures s'.tables.watermark == s.tables.watermark[probe.companyGuid := probe] && s'.snapshots == s.snapshots
    ensures Mirrors(store, counter, server, s') && Leads(During(trusted), s, s')
    ensures s'.pc == AtCompany(s.pc.job.queue)
    ensures SameBooks(s, s') && forall g | g != probe.companyGuid && UpToDate(g, s) :: UpToDate(g, s')
    ensures ReportsBook(probe, s.books) ==> UpToDate(probe.companyGuid, s')
  {
    ghost var h := During(trusted);
    ghost var read := Extracted(h, s, items);
    assert s.pc.got + items == items;
    ghost var gated := GateSections(store, counter, server, env, probe.companyGuid, items, trusted, read);
    LeadsOn(h, s, read, gated);
    store.SetWatermark(probe);
    s' := AfterFinish(gated);
    LeadsBy(h, gated, Finish, s');
    LeadsOn(h, s, gated, s');
    FinishLeaves(gated);
  }

  /** The sections come back in the order they were asked for. */
  lemma {:induction false} Extracted(h: Hypotheses, s: State, items: seq<Item>) returns (s': State)
    requires s.pc.Extracting? && s.pc.todo != [] && SectionsIn(items) == s.pc.todo
    requires h == During(h.truthful)
    requires forall x | x in h.truthful && x.company == s.pc.job.probe.companyGuid :: Tells(x, s.books, Some(items))
    ensures s' == s.(pc := Gating(s.pc.job, s.pc.got + items)) && Leads(h, s, s')
    decreases |items|
  {
    assert SectionsIn(items)[0] == items[0].section;
    var m := AfterRead(s, items[0]);
    forall x | x in h.truthful
      ensures Truthful(x, s, ReadSection(items[0]))
    {
      if x.company == s.pc.job.probe.companyGuid {
        assert Tells(x, s.books, Some(items));
      }
    }
    LeadsBy(h, s, ReadSection(items[0]), m);
    if |items| == 1 {
      s' := m;
      assert items == [items[0]];
    } else {
      assert SectionsIn(items[1..]) == SectionsIn(items)[1..];
      forall x | x in h.truthful && x.company == s.pc.job.probe.companyGuid
        ensures Tells(x, s.books, Some(items[1..]))
      {
        assert Tells(x, s.books, Some(items));
      }
      s' := Extracted(h, m, items[1..]);
      LeadsOn(h, s, m, s');
      assert s.pc.got + items == (s.pc.got + [items[0]]) + items[1..];
    }
  }

  /** Only the queue, the clock, the sequence number and the history move while sections go through the gate. */
  ghost predicate Gated(s: State, s': State) {
    && s'.books == s.books && s'.tables.watermark == s.tables.watermark
    && s'.restoredSinceProbe == s.restoredSinceProbe && s'.restoredSinceWatermark == s.restoredSinceWatermark
  }

  method GateSections(store: SyncStore, counter: SeqCounter, server: SnapshotTable, env: Surroundings, g: Guid,
                      items: seq<Item>, ghost trusted: iset<Slot>, ghost s: State)
    returns (ghost s': State)
    requires Mirrors(store, counter, server, s)
    requires s.pc.Gating? && s.pc.items == items && s.pc.job.probe.companyGuid == g && DistinctSections(items)
    modifies store, counter
    ensures Mirrors(store, counter, server, s') && Leads(During(trusted), s, s') && Gated(s, s')
    ensures s'.pc == Gating(s.pc.job, [])
    ensures Pulled(s.tables, s'.tables, g, items)
  {
    s' := s;
    LeadsNowhere(During(trusted), s);
    var i := 0;
    while i < |items|
      invariant 0 <= i <= |items|
      invariant Mirrors(store, counter, server, s') && s'.pc == Gating(s.pc.job, items[i..])
      invariant Leads(During(trusted), s, s') && Gated(s, s')
      invariant Pulled(s.tables, s'.tables, g, items[..i])
    {
      ghost var m := s';
      assert items[i..][0] == items[i] && items[i..][1..] == items[i + 1..];
      s' := GateSection(store, counter, server, env, g, items[i], trusted, m);
      LeadsOn(During(trusted), s, m, s');
      PulledOneMore(s.tables, m.tables, s'.tables, g, items, i);
      i := i + 1;
    }
    assert items[..i] == items;
  }

  lemma {:induction false} Checked(h: Hypotheses, s: State, now: int) returns (m: State)
    requires s.pc.Gating? && s.pc.items != [] && h == During(h.truthful)
    ensures m == AfterCheck(s, now) && Leads(h, s, m)
  {
    m := AfterCheck(s, now);
    LeadsBy(h, s, Check(now), m);
  }

  lemma {:induction false} Queued(h: Hypotheses, s: State, m: State, now: int) returns (s': State)
    requires Leads(h, s, m) && m.pc.Sealing? && m.pc.items != [] && h == During(h.truthful)
    ensures s' == AfterEnqueue(m, now) && Leads(h, s, s')
  {
    s' := AfterEnqueue(m, now);
    LeadsBy(h, m, Enqueue(now), s');
    LeadsOn(h, s, m, s');
  }

  /** What stamping, sealing and queueing a changed section does to the tables. */
  lemma {:induction false} QueuedPassedGate(s: State, item: Item, now: int, queuedAt: int)
    requires s.pc.Gating? && s.pc.items != [] && s.pc.items[0] == item
    ensures var g, m := s.pc.job.probe.companyGuid, AfterCheck(s, now);
            var s' := if m.pc.Sealing? then AfterEnqueue(m, queuedAt) else m;
            && s'.tables.sectionHash == s.tables.sectionHash && PassedGate(s.tables, s'.tables, g, item)
            && forall x | x != ItemSlot(g, item) :: Pending(s'.tables, x) == Pending(s.tables, x)
  {
  }

  /** The hash gate on one section: skip it, or stamp, seal and queue it. */
  method GateSection(store: SyncStore, counter: SeqCounter, server: SnapshotTable, env: Surroundings, g: Guid,
                     item: Item, ghost trusted: iset<Slot>, ghost s: State)
    returns (ghost s': State)
    requires Mirrors(store, counter, server, s)
    requires s.pc.Gating? && s.pc.items != [] && s.pc.items[0] == item && s.pc.job.probe.companyGuid == g
    modifies store, counter
    ensures Mirrors(store, counter, server, s') && Leads(During(trusted), s, s') && Gated(s, s')
    ensures s'.pc == Gating(s.pc.job, s.pc.items[1..])
    ensures s'.tables.sectionHash == s.tables.sectionHash && PassedGate(s.tables, s'.tables, g, item)
    ensures forall x | x != ItemSlot(g, item) :: Pending(s'.tables, x) == Pending(s.tables, x)
  {
    ghost var h := During(trusted);
    var slot := Slot(g, item.section, item.asOf);
    var storedHash := store.GetSectionHash(slot);
    ghost var m := Checked(h, s, env.clock(counter.value));
    if !ShouldUpload(storedHash, item.hash) {
      s' := m;
      return;
    }
    var snapshotTs := env.clock(counter.value);
    var seqNo := counter.Next();
    var envelope := Envelope(slot, snapshotTs, seqNo, item.hash);
    var queuedAt := env.clock(seqNo);
    store.Enqueue(slot, envelope, item.hash, queuedAt);
    s' := Queued(h, s, m, queuedAt);
    QueuedPassedGate(s, item, snapshotTs, queuedAt);
  }

  lemma {:induction false} RestOf(rows: seq<OutboxRow>, i: nat)
    requires i < |rows|
    ensures rows[i..] != [] && rows[i..][0] == rows[i] && rows[i..][1..] == rows[i + 1..]
  {
  }

  /** A drain takes watermarks away and sets none. */
  ghost predicate Drained(s: State, s': State) {
    && s'.books == s.books && s'.last == s.last
    && s'.restoredSinceProbe == s.restoredSinceProbe && s'.restoredSinceWatermark == s.restoredSinceWatermark
    && forall g | g in s'.tables.watermark ::
         g in s.tables.watermark && s'.tables.watermark[g] == s.tables.watermark[g]
  }

  lemma {:induction false} Begun(h: Hypotheses, s: State, now: int, rows: seq<OutboxRow>) returns (s': State)
    requires s.pc == AtCompany([]) && DueRows(s.tables.outbox, now, DUE_LIMIT, rows)
    ensures s' == s.(pc := Draining(rows)) && Leads(h, s, s')
  {
    s' := Apply(s, BeginDrain(now, rows));
    LeadsBy(h, s, BeginDrain(now, rows), s');
  }

  lemma {:induction false} Ended(h: Hypotheses, s: State, m: State) returns (s': State)
    requires Leads(h, s, m) && m.pc == Draining([])
    ensures s' == m.(pc := Idle) && Leads(h, s, s')
  {
    s' := Apply(m, EndCycle);
    LeadsBy(h, m, EndCycle, s');
    LeadsOn(h, s, m, s');
  }

  /** The rows a drain took, and what it made of them: all due rows, or the twenty oldest. */
  ghost predicate DrainedBy(env: Surroundings, s: State, s': State, rows: seq<OutboxRow>, results: seq<UploadResult>) {
    && DueRows(s.tables.outbox, env.drainAt, 20, rows)
    && |results| == |rows|
    && RowsSettled(env.retryAt, s.tables, s'.tables, rows, results)
    && (OwnEnvelopes(rows) ==> RowsServed(env.fate, s.snapshots, s'.snapshots, rows, results))
  }

  ghost predicate SoFar(env: Surroundings, s: State, m: State, rows: seq<OutboxRow>, results: seq<UploadResult>, i: nat)
    requires |results| == i <= |rows|
  {
    && RowsSettled(env.retryAt, s.tables, m.tables, rows[..i], results)
    && (OwnEnvelopes(rows) ==> RowsServed(env.fate, s.snapshots, m.snapshots, rows[..i], results))
  }

  lemma {:induction false} OneRowMore(env: Surroundings, s: State, m: State, s': State, rows: seq<OutboxRow>,
                                      results: seq<UploadResult>, i: nat, r: UploadResult)
    requires i < |rows| && |results| == i && SoFar(env, s, m, rows, results, i)
    requires DueRows(s.tables.outbox, env.drainAt, DUE_LIMIT, rows) && m.tables.Valid()
    requires s'.tables == TablesAfterReply(m.tables, rows[i], r, env.retryAt(rows[i]))
    requires Uploaded(env.fate(rows[i]), m.snapshots, s'.snapshots, rows[i].payload, r)
    ensures SoFar(env, s, s', rows, results + [r], i + 1)
  {
    SettledOneMore(env.retryAt, s.tables, m.tables, rows, results, i, r);
    if OwnEnvelopes(rows) {
      ServedOneMore(env.fate, s.snapshots, m.snapshots, s'.snapshots, rows, results, i, r);
    }
  }

  /** One row of a drain: the upload, and the reply to it. */
  ghost predicate Replied(env: Surroundings, m: State, m': State, row: OutboxRow, result: UploadResult) {
    && m.tables.Valid()
    && m'.tables == TablesAfterReply(m.tables, row, result, env.retryAt(row))
    && Uploaded(env.fate(row), m.snapshots, m'.snapshots, row.payload, result)
  }

  /** The states a drain goes through, row by row. */
  ghost predicate Replies(env: Surroundings, path: seq<State>, rows: seq<OutboxRow>, results: seq<UploadResult>) {
    && |path| == |results| + 1 <= |rows| + 1
    && forall j | 0 <= j < |results| :: Replied(env, path[j], path[j + 1], rows[j], results[j])
  }

  lemma {:induction false} RepliesOn(env: Surroundings, path: seq<State>, rows: seq<OutboxRow>,
                                     results: seq<UploadResult>, s': State, result: UploadResult)
    requires Replies(env, path, rows, results) && |results| < |rows|
    requires Replied(env, path[|results|], s', rows[|results|], result)
    ensures Replies(env, path + [s'], rows, results + [result])
  {
  }

  lemma {:induction false} RepliesSettle(env: Surroundings, path: seq<State>, rows: seq<OutboxRow>,
                                         results: seq<UploadResult>)
    requires Replies(env, path, rows, results)
    requires DueRows(path[0].tables.outbox, env.drainAt, DUE_LIMIT, rows)
    ensures SoFar(env, path[0], path[|results|], rows, results, |results|)
    decreases |results|
  {
    if results != [] {
      var i := |results| - 1;
      RepliesSettle(env, path[..i + 1], rows, results[..i]);
      assert Replied(env, path[i], path[i + 1], rows[i], results[i]);
      OneRowMore(env, path[0], path[i], path[i + 1], rows, results[..i], i, results[i]);
      assert results == results[..i] + [results[i]];
    }
  }

  method DrainOutbox(store: SyncStore, counter: SeqCounter, server: SnapshotTable, env: Surroundings,
                     ghost trusted: iset<Slot>, ghost s: State)
    returns (ghost rows: seq<OutboxRow>, ghost results: seq<UploadResult>, ghost s': State)
    requires Mirrors(store, counter, server, s) && s.pc == AtCompany([])
    modifies store, server
    ensures Mirrors(store, counter, server, s') && s'.pc.Idle? && Leads(During(trusted), s, s') && Drained(s, s')
    ensures DrainedBy(env, s, s', rows, results)
  {
    ghost var h := During(trusted);
    var due := store.Due(env.drainAt, DUE_LIMIT);
    s' := Begun(h, s, env.drainAt, due);
    rows, results := due, [];
    ghost var path := [s'];
    var i := 0;
    while i < |due|
      invariant 0 <= i <= |due|
      invariant Mirrors(store, counter, server, s') && s'.pc == Draining(rows[i..])
      invariant Leads(h, s, s') && Drained(s, s')
      invariant |results| == i && Replies(env, path, rows, results) && path[i] == s'
      invariant path[0].tables == s.tables && path[0].snapshots == s.snapshots
    {
      ghost var m := s';
      RestOf(rows, i);
      ghost var result;
      result, s' := DrainRow(store, counter, server, env, due[i], trusted, m);
      LeadsOn(h, s, m, s');
      RepliesOn(env, path, rows, results, s', result);
      path, results := path + [s'], results + [result];
      i := i + 1;
    }
    RepliesSettle(env, path, rows, results);
    assert rows[..|rows|] == rows;
    s' := Ended(h, s, s');
  }

  /** One upload and what is done about its result. */
  method DrainRow(store: SyncStore, counter: SeqCounter, server: SnapshotTable, env: Surroundings, row: OutboxRow,
                  ghost trusted: iset<Slot>, ghost s: State)
    returns (result: UploadResult, ghost s': State)
    requires Mirrors(store, counter, server, s)
    requires s.pc.Draining? && s.pc.rows != [] && s.pc.rows[0] == row
    modifies store, server
    ensures Mirrors(store, counter, server, s') && Leads(During(trusted), s, s') && Drained(s, s')
    ensures s'.pc == Draining(s.pc.rows[1..])
    ensures s'.tables == TablesAfterReply(s.tables, row, result, env.retryAt(row))
    ensures Uploaded(env.fate(row), s.snapshots, s'.snapshots, row.payload, result)
  {
    ghost var m;
    result, m := Upload(store, counter, server, env, row, trusted, s);
    var retryAt := env.retryAt(row);
    if result == Acked {
      store.AckSectionHash(row.slot, row.contentHash);
      store.Dequeue(row.id, row.contentHash);
    } else if result == Refused || row.attempts + 1 >= MAX_ATTEMPTS {
      store.Dequeue(row.id, row.contentHash);
      store.InvalidateWatermark(row.slot.company);
    } else {
      store.DeferAttempt(row.id, retryAt, row.contentHash);
    }
    s' := Apply(m, Reply(result, retryAt));
    LeadsBy(During(trusted), m, Reply(result, retryAt), s');
    LeadsOn(During(trusted), s, m, s');
  }

  /** The server's side of one upload. */
  lemma {:induction false} UploadServed(fate: Fate, t: Table, e: Envelope)
    ensures match fate
            case LostOnTheWay => Uploaded(fate, t, t, e, Retryable)
            case RefusedAtTheDoor => Uploaded(fate, t, t, e, Refused)
            case Delivered(now) =>
              var (t', answer) := Ingest(t, e, now);
              Uploaded(fate, t, t', e, if answer == Accepted then Acked else Refused)
            case AnswerLost(now) => Uploaded(fate, t, Ingest(t, e, now).0, e, Retryable)
  {
  }

  /** POST one envelope. A 2xx means the server accepted it; 4xx answers are refusals, the rest is worth a retry. */
  method Upload(store: SyncStore, counter: SeqCounter, server: SnapshotTable, env: Surroundings, row: OutboxRow,
                ghost trusted: iset<Slot>, ghost s: State)
    returns (result: UploadResult, ghost s': State)
    requires Mirrors(store, counter, server, s)
    requires s.pc.Draining? && s.pc.rows != [] && s.pc.rows[0] == row
    modifies server
    ensures Mirrors(store, counter, server, s') && Leads(During(trusted), s, s') && Drained(s, s')
    ensures s'.tables == s.tables && s'.pc.Awaiting? && s'.pc.rows == s.pc.rows
    ensures result == Acked ==> s'.pc.accepted
    ensures Uploaded(env.fate(row), s.snapshots, s'.snapshots, row.payload, result)
  {
    ghost var h := During(trusted);
    s' := Apply(s, Send);
    LeadsBy(h, s, Send, s');
    UploadServed(env.fate(row), s.snapshots, row.payload);
    match env.fate(row) {
      case LostOnTheWay => result := Retryable;
      case RefusedAtTheDoor => result := Refused;
      case Delivered(serverNow) =>
        var answer := server.HandleIngest(row.payload, serverNow);
        ghost var m := s';
        s' := AfterDeliver(m, row.payload, serverNow);
        LeadsBy(h, m, Deliver(row.payload, serverNow), s');
        LeadsOn(h, s, m, s');
        result := if answer == Accepted then Acked else Refused;
      case AnswerLost(serverNow) =>
        var _ := server.HandleIngest(row.payload, serverNow);
        ghost var m := s';
        s' := AfterDeliver(m, row.payload, serverNow);
        LeadsBy(h, m, Deliver(row.payload, serverNow), s');
        LeadsOn(h, s, m, s');
        result := Retryable;
    }
  }
}
