/**
 * When the protocol not only loses nothing but also ends up showing the truth: what the server
 * holds equals what Tally would return. Everything is said of one slot at a time.
 */
module Convergence {
  import opened Wrappers
  import opened Gate
  import opened Store
  import opened Snapshots
  import opened Protocol

  /** The section of a company that a slot belongs to. */
  function KeyOf(x: Slot): (Guid, Section) {
    (x.company, x.section)
  }

  /** The section was last processed at the slot's date. */
  ghost predicate LastAt(x: Slot, s: State) {
    KeyOf(x) in s.last && ItemSlot(x.company, s.last[KeyOf(x)]) == x
  }

  /** A pass over the slot's company in which its section is not requested or has been through the hash gate. */
  ghost predicate Passed(x: Slot, s: State) {
    Working(s.pc) && s.pc.job.probe.companyGuid == x.company && x.section !in Remaining(s.pc)
  }

  // ------------------------------------------------------------------ the last value is on its way

  /** The last value extracted for the slot is the one the server has or is going to have. */
  ghost predicate OnItsWay(x: Slot, s: State) {
    LastAt(x, s) ==> Tracked(s.tables, x) == Some(s.last[KeyOf(x)].hash)
  }

  ghost predicate Steady(x: Slot, s: State) {
    x.company in s.tables.watermark || Passed(x, s) ==> OnItsWay(x, s)
  }

  /**
   * What the hash gate's "unchanged" is worth: the skipped value is what the server has or is going to have if and
   * only if no other value is pending for its slot.
   */
  lemma {:induction false} SkippedIsOnItsWayExactly(s: State, now: int)
    requires Enabled(s, Check(now)) && AfterCheck(s, now).pc.Gating?
    ensures var x := ItemSlot(s.pc.job.probe.companyGuid, s.pc.items[0]);
            LastAt(x, AfterCheck(s, now)) && (OnItsWay(x, AfterCheck(s, now)) <==> NoFlapping(x, s, Check(now)))
  {
  }

  lemma {:induction false} CheckKeepsSteady(x: Slot, s: State, now: int)
    requires Steady(x, s) && Enabled(s, Check(now)) && NoFlapping(x, s, Check(now))
    ensures Steady(x, AfterCheck(s, now))
  {
    if AfterCheck(s, now).pc.Sealing? {
      assert Remaining(AfterCheck(s, now).pc) == Remaining(s.pc);
    } else {
      SkippedIsOnItsWayExactly(s, now);
      ProcessedKeepsSteady(x, s, s);
    }
  }

  /** One section leaves the hash gate; `t` has the tables already updated. */
  lemma {:induction false} ProcessedKeepsSteady(x: Slot, s: State, t: State)
    requires Steady(x, s) && (s.pc.Gating? || s.pc.Sealing?) && s.pc.items != []
    requires t == s.(tables := t.tables) && t.tables.watermark == s.tables.watermark
    requires var slot := ItemSlot(s.pc.job.probe.companyGuid, s.pc.items[0]);
             if slot == x then Tracked(t.tables, x) == Some(s.pc.items[0].hash)
             else Tracked(t.tables, x) == Tracked(s.tables, x)
    ensures Steady(x, Processed(t, s.pc.job, s.pc.items))
  {
    if x.section !in SectionsIn(s.pc.items[1..]) {
      RemainingShrinks(s.pc.items, x.section);
    }
  }

  lemma {:induction false} EnqueueKeepsSteady(x: Slot, s: State, now: int)
    requires Steady(x, s) && SealConsistent(s) && Enabled(s, Enqueue(now))
    ensures Steady(x, AfterEnqueue(s, now))
  {
    var e := s.pc.envelope;
    ProcessedKeepsSteady(x, s, s.(tables := s.tables.Enqueue(e.slot, e, e.contentHash, now)));
  }

  lemma {:induction false} ReplyKeepsSteady(x: Slot, forward: bool, s: State, result: UploadResult, retryAt: int)
    requires Steady(x, s) && Inv(forward, s) && Enabled(s, Reply(result, retryAt))
    ensures Steady(x, Apply(s, Reply(result, retryAt)))
  {
    var row := s.pc.rows[0];
    assert InHand(forward, s, row);
    SettlesOnlyWhatWasSent(s.tables, row, retryAt);
    SettlesOnlyWhatWasSent(s.tables.AckSectionHash(row.slot, row.contentHash), row, retryAt);
  }

  lemma {:induction false} DecideKeepsSteady(x: Slot, s: State)
    requires Steady(x, s) && Enabled(s, Decide)
    ensures Steady(x, AfterDecide(s))
  {
    var probe := s.pc.queue[0];
    match DecideGate(s.tables.GetWatermark(probe.companyGuid), probe)
    case Skip =>
    case Partial(sections) => assert Remaining(AfterDecide(s).pc) == sections;
    case Full(_) => FullKeepsSteady(x, s, probe.companyGuid, AfterDecide(s));
  }

  lemma {:induction false} FullKeepsSteady(x: Slot, s: State, g: Guid, s': State)
    requires Steady(x, s) && !Working(s.pc)
    requires s' == s.(tables := s.tables.ResetCompany(g), pc := s'.pc)
    requires s'.pc.Extracting? && s'.pc.job.probe.companyGuid == g && s'.pc.todo == SECTIONS && s'.pc.got == []
    ensures Steady(x, s')
  {
    EverySectionIsListed(x.section);
    assert Remaining(s'.pc) == SECTIONS;
    if x.company != g {
      assert Tracked(s'.tables, x) == Tracked(s.tables, x);
    }
  }

  lemma {:induction false} StepKeepsSteady(x: Slot, forward: bool, s: State, e: Event)
    requires Steady(x, s) && Inv(forward, s) && Enabled(s, e) && InOrder(forward, s, e) && NoFlapping(x, s, e)
    ensures Steady(x, Apply(s, e))
  {
    match e
    case Decide => DecideKeepsSteady(x, s);
    case ReadSection(item) => ReadKeepsSteady(x, s, item);
    case Check(now) => CheckKeepsSteady(x, s, now);
    case Enqueue(now) => EnqueueKeepsSteady(x, s, now);
    case Finish => FinishKeepsSteady(x, s);
    case Reply(result, retryAt) => ReplyKeepsSteady(x, forward, s, result, retryAt);
    case Deliver(z, serverNow) => DeliverKeepsSteady(x, s, z, serverNow);
    case Supersede(g, item, now) => SupersedeKeepsSteady(x, s, g, item, now);
    case Reset => QuietResetKeepsSteady(x, s);
    case _ => OutsideKeepsSteady(x, s, Apply(s, e));
  }

  lemma {:induction false} QuietResetKeepsSteady(x: Slot, s: State)
    requires Quiet(s.pc)
    ensures Steady(x, s.(tables := s.tables.Reset()))
  {
  }

  lemma {:induction false} ReadKeepsSteady(x: Slot, s: State, item: Item)
    requires Steady(x, s) && Enabled(s, ReadSection(item))
    ensures Steady(x, AfterRead(s, item))
  {
    assert Remaining(AfterRead(s, item).pc) == Remaining(s.pc);
  }

  lemma {:induction false} FinishKeepsSteady(x: Slot, s: State)
    requires Steady(x, s) && Enabled(s, Finish)
    ensures Steady(x, AfterFinish(s))
  {
    assert Remaining(s.pc) == [];
  }

  lemma {:induction false} DeliverKeepsSteady(x: Slot, s: State, z: Envelope, serverNow: int)
    requires Steady(x, s)
    ensures Steady(x, AfterDeliver(s, z, serverNow))
  {
  }

  lemma {:induction false} SupersedeKeepsSteady(x: Slot, s: State, g: Guid, item: Item, now: int)
    requires Steady(x, s) && Enabled(s, Supersede(g, item, now))
    ensures Steady(x, AfterSupersede(s, g, item, now))
  {
  }

  /** A step that touches neither the tables nor the history, nor goes on with a company. */
  lemma {:induction false} OutsideKeepsSteady(x: Slot, s: State, s': State)
    requires Steady(x, s) && s'.tables == s.tables && s'.last == s.last
    requires s'.pc == s.pc || !Working(s'.pc)
    ensures Steady(x, s')
  {
  }

  lemma {:induction false} ReachableIsSteady(h: Hypotheses, x: Slot, s: State, es: seq<Event>)
    requires Start(s) && After(h, s, es).Some?
    requires x in h.noFlapping && h.quietResets && (h.prompt || h.forward)
    ensures Steady(x, After(h, s, es).value)
  {
    if es != [] {
      var init := es[..|es| - 1];
      ReachableIsSteady(h, x, s, init);
      ReachableKeepsInv(h, !h.prompt, s, init);
      StepKeepsSteady(x, !h.prompt, After(h, s, init).value, es[|es| - 1]);
    }
  }

  /**
   * Over every run, rows superseded while they were on their way included: while the company has a watermark, the
   * value last extracted for a slot that does not flap is pending, or acknowledged and stored by the server.
   */
  lemma {:induction false} LastValueIsNeverLost(h: Hypotheses, x: Slot, s0: State, es: seq<Event>)
    requires Start(s0) && After(h, s0, es).Some?
    requires x in h.noFlapping && h.quietResets && (h.prompt || h.forward)
    ensures var s := After(h, s0, es).value;
            x.company in s.tables.watermark && LastAt(x, s) ==>
              var hash := s.last[KeyOf(x)].hash;
              if x in s.tables.outbox then s.tables.outbox[x].contentHash == hash
              else s.tables.GetSectionHash(x) == Some(hash) && x in s.snapshots && s.snapshots[x].contentHash == hash
  {
    ReachableIsSteady(h, x, s0, es);
    ReachableKeepsInv(h, !h.prompt, s0, es);
  }

  // ------------------------------------------------------------------ the last value was the truth

  predicate Behind(w: Watermark, b: Book) {
    w.Usable() && w.altMstId.n <= b.mst && w.altVchId.n <= b.vch
  }

  /** The item is what Tally still returns, or a counter listing its section has moved past `w`. */
  ghost predicate Fresh(w: Watermark, b: Book, item: Item)
    requires w.Usable()
  {
    || item.hash == b.content(item.section, item.asOf)
    || ListedMoved(w, ProbeOf(w.companyGuid, b), item.section)
  }

  ghost predicate FreshLast(x: Slot, s: State, w: Watermark)
    requires w.Usable() && x.company in s.books
  {
    LastAt(x, s) ==> Fresh(w, s.books[x.company], s.last[KeyOf(x)])
  }

  /** Unless the book was replaced since, the watermark is behind it and the last value was read since. */
  ghost predicate WatermarkHonest(x: Slot, s: State) {
    x.company in s.tables.watermark ==>
      var w := s.tables.watermark[x.company];
      && w.companyGuid == x.company && w.Usable() && x.company in s.books
      && (x.company !in s.restoredSinceWatermark ==> Behind(w, s.books[x.company]) && FreshLast(x, s, w))
  }

  ghost predicate ProbeHonest(x: Slot, s: State, p: Watermark) {
    p.companyGuid == x.company ==>
      && p.Usable() && x.company in s.books
      && (x.company !in s.restoredSinceProbe ==> Behind(p, s.books[x.company]))
  }

  ghost predicate ProbesHonest(x: Slot, s: State) {
    && (s.pc.AtCompany? ==> forall i | 0 <= i < |s.pc.queue| :: ProbeHonest(x, s, s.pc.queue[i]))
    && (Working(s.pc) ==>
          && ProbeHonest(x, s, s.pc.job.probe)
          && forall i | 0 <= i < |s.pc.job.queue| :: ProbeHonest(x, s, s.pc.job.queue[i]))
  }

  function ItemsInHand(pc: Pc): seq<Item>
    requires Working(pc)
  {
    if pc.Extracting? then pc.got else pc.items
  }

  /** What the pass in hand has read, and what it left out or is done with, is fresh against its own probe. */
  ghost predicate WorkHonest(x: Slot, s: State)
    requires ProbesHonest(x, s)
  {
    Working(s.pc) && s.pc.job.probe.companyGuid == x.company && x.company !in s.restoredSinceProbe ==>
      var p, b := s.pc.job.probe, s.books[x.company];
      && (forall i | 0 <= i < |ItemsInHand(s.pc)| && ItemSlot(x.company, ItemsInHand(s.pc)[i]) == x ::
            Fresh(p, b, ItemsInHand(s.pc)[i]))
      && (x.section !in Remaining(s.pc) ==> FreshLast(x, s, p))
      && (x.company in s.tables.watermark ==>
            && x.company !in s.restoredSinceWatermark
            && s.tables.watermark[x.company].Usable()
            && !Below(p, s.tables.watermark[x.company]))
  }

  ghost predicate Honest(x: Slot, s: State) {
    && s.restoredSinceProbe <= s.restoredSinceWatermark
    && WatermarkHonest(x, s) && ProbesHonest(x, s) && WorkHonest(x, s)
  }

  lemma {:induction false} FreshEvolves(x: Slot, w: Watermark, b: Book, b': Book, item: Item)
    requires Behind(w, b) && Evolves(x, b, b') && ItemSlot(x.company, item) == x && Fresh(w, b, item)
    ensures Behind(w, b') && Fresh(w, b', item)
  {
  }

  /** Moving the reference point back keeps freshness. */
  lemma {:induction false} FreshSince(w: Watermark, p: Watermark, b: Book, item: Item)
    requires w.Usable() && p.Usable() && !Below(p, w) && Fresh(p, b, item)
    ensures Fresh(w, b, item)
  {
  }

  /** Moving it forward keeps freshness of the sections whose counters did not move in between. */
  lemma {:induction false} FreshUntil(w: Watermark, p: Watermark, b: Book, item: Item)
    requires w.Usable() && p.Usable() && !Below(p, w) && Fresh(w, b, item)
    requires !ListedMoved(w, p, item.section)
    ensures Fresh(p, b, item)
  {
  }

  lemma {:induction false} EditKeepsHonest(x: Slot, s: State, g: Guid, b: Book)
    requires Honest(x, s) && Enabled(s, Edit(g, b)) && Truthful(x, s, Edit(g, b))
    ensures Honest(x, Apply(s, Edit(g, b)))
  {
    if g == x.company {
      forall w: Watermark, item | Behind(w, s.books[g]) && ItemSlot(g, item) == x && Fresh(w, s.books[g], item)
        ensures Behind(w, b) && Fresh(w, b, item)
      {
        FreshEvolves(x, w, s.books[g], b, item);
      }
    }
  }

  lemma {:induction false} DecideKeepsHonest(x: Slot, s: State)
    requires Honest(x, s) && Enabled(s, Decide) && Truthful(x, s, Decide)
    ensures Honest(x, AfterDecide(s))
  {
    var p, s' := s.pc.queue[0], AfterDecide(s);
    assert ProbeHonest(x, s, p);
    forall i | 0 <= i < |s.pc.queue| - 1
      ensures ProbeHonest(x, s', s.pc.queue[1..][i])
    {
      assert ProbeHonest(x, s, s.pc.queue[i + 1]);
    }
    if s'.pc.Extracting? {
      assert Remaining(s'.pc) == s'.pc.todo;
      EverySectionIsListed(x.section);
      if x.company == p.companyGuid && x.company in s'.tables.watermark {
        PartialIsHonest(x, s, s', p);
      }
    }
  }

  /** The sections a partial pull leaves out are as fresh against the new probe as against the old watermark. */
  lemma {:induction false} PartialIsHonest(x: Slot, s: State, s': State, p: Watermark)
    requires s.restoredSinceProbe <= s.restoredSinceWatermark && WatermarkHonest(x, s) && RestoreShows(s, p)
    requires x.company == p.companyGuid && ProbeHonest(x, s, p) && ProbesHonest(x, s')
    requires DecideGate(s.tables.GetWatermark(x.company), p).Partial?
    requires s'.pc.Extracting? && s'.pc.job.probe == p && s'.pc.got == []
    requires s'.pc.todo == DecideGate(s.tables.GetWatermark(x.company), p).sections
    requires s' == s.(pc := s'.pc)
    ensures WorkHonest(x, s')
  {
    assert Remaining(s'.pc) == s'.pc.todo;
    PullsExactly(s.tables.GetWatermark(x.company), p, x.section);
    if x.company !in s.restoredSinceProbe && x.section !in s'.pc.todo && LastAt(x, s) {
      FreshUntil(s.tables.watermark[x.company], p, s.books[x.company], s.last[KeyOf(x)]);
    }
  }

  lemma {:induction false} ReadKeepsHonest(x: Slot, s: State, item: Item)
    requires Honest(x, s) && Enabled(s, ReadSection(item)) && Truthful(x, s, ReadSection(item))
    ensures Honest(x, AfterRead(s, item))
  {
    var s' := AfterRead(s, item);
    assert Remaining(s'.pc) == Remaining(s.pc);
    assert ItemsInHand(s'.pc) == ItemsInHand(s.pc) + [item];
  }

  lemma {:induction false} SealKeepsHonest(x: Slot, s: State, now: int)
    requires Honest(x, s) && Enabled(s, Check(now)) && AfterCheck(s, now).pc.Sealing?
    ensures Honest(x, AfterCheck(s, now))
  {
    var s' := AfterCheck(s, now);
    assert Remaining(s'.pc) == Remaining(s.pc) && ItemsInHand(s'.pc) == ItemsInHand(s.pc);
  }

  /** One section leaves the hash gate; `t` has the tables already updated. */
  lemma {:induction false} ProcessedKeepsHonest(x: Slot, s: State, t: State)
    requires Honest(x, s) && (s.pc.Gating? || s.pc.Sealing?) && s.pc.items != []
    requires t == s.(tables := t.tables) && t.tables.watermark == s.tables.watermark
    ensures Honest(x, Processed(t, s.pc.job, s.pc.items))
  {
    var s' := Processed(t, s.pc.job, s.pc.items);
    var item := s.pc.items[0];
    assert ItemsInHand(s'.pc) == ItemsInHand(s.pc)[1..];
    if x.section !in Remaining(s'.pc) {
      RemainingShrinks(s.pc.items, x.section);
    }
    if s.pc.job.probe.companyGuid == x.company && x.company in s.tables.watermark
       && x.company !in s.restoredSinceWatermark && ItemSlot(x.company, item) == x {
      assert ItemsInHand(s.pc)[0] == item;
      FreshSince(s.tables.watermark[x.company], s.pc.job.probe, s.books[x.company], item);
    }
  }

  lemma {:induction false} FinishKeepsHonest(x: Slot, s: State)
    requires Honest(x, s) && Enabled(s, Finish)
    ensures Honest(x, AfterFinish(s))
  {
    assert Remaining(s.pc) == [];
  }

  lemma {:induction false} ReplyKeepsHonest(x: Slot, s: State, result: UploadResult, retryAt: int)
    requires Honest(x, s) && Enabled(s, Reply(result, retryAt))
    ensures Honest(x, Apply(s, Reply(result, retryAt)))
  {
  }

  lemma {:induction false} StepKeepsHonest(x: Slot, s: State, e: Event)
    requires Honest(x, s) && Enabled(s, e) && Truthful(x, s, e)
    ensures Honest(x, Apply(s, e))
  {
    match e
    case Edit(g, b) => EditKeepsHonest(x, s, g, b);
    case Decide => DecideKeepsHonest(x, s);
    case ReadSection(item) => ReadKeepsHonest(x, s, item);
    case Check(now) =>
      if AfterCheck(s, now).pc.Sealing? {
        SealKeepsHonest(x, s, now);
      } else {
        ProcessedKeepsHonest(x, s, s);
      }
    case Enqueue(now) =>
      var z := s.pc.envelope;
      ProcessedKeepsHonest(x, s, s.(tables := s.tables.Enqueue(z.slot, z, z.contentHash, now)));
    case Finish => FinishKeepsHonest(x, s);
    case Reply(result, retryAt) => ReplyKeepsHonest(x, s, result, retryAt);
    case Deliver(z, serverNow) => DeliverKeepsHonest(x, s, z, serverNow);
    case Supersede(g, item, now) => SupersedeKeepsHonest(x, s, g, item, now);
    case _ =>
  }

  lemma {:induction false} DeliverKeepsHonest(x: Slot, s: State, z: Envelope, serverNow: int)
    requires Honest(x, s)
    ensures Honest(x, AfterDeliver(s, z, serverNow))
  {
  }

  lemma {:induction false} SupersedeKeepsHonest(x: Slot, s: State, g: Guid, item: Item, now: int)
    requires Honest(x, s) && Enabled(s, Supersede(g, item, now)) && Truthful(x, s, Supersede(g, item, now))
    ensures Honest(x, AfterSupersede(s, g, item, now))
  {
  }

  lemma {:induction false} RunKeepsHonest(h: Hypotheses, x: Slot, s: State, es: seq<Event>)
    requires Honest(x, s) && After(h, s, es).Some?
    requires x in h.truthful
    ensures Honest(x, After(h, s, es).value)
  {
    if es != [] {
      var init := es[..|es| - 1];
      RunKeepsHonest(h, x, s, init);
      StepKeepsHonest(x, After(h, s, init).value, es[|es| - 1]);
    }
  }

  // ------------------------------------------------------------------ the server shows the truth

  /** The server shows what Tally would return for this section at its last extracted date. */
  ghost predicate ShowsTheTruth(s: State, g: Guid, sec: Section) {
    && g in s.books && (g, sec) in s.last
    && var slot := ItemSlot(g, s.last[(g, sec)]);
       && slot.section == sec
       && slot in s.snapshots
       && s.snapshots[slot].contentHash == s.books[g].content(sec, slot.asOf)
  }

  /** Nothing is pending for the slot, and no counter listing its section moved, since a watermark on this very book. */
  ghost predicate Settled(x: Slot, s: State) {
    && x.company in s.tables.watermark && x.company !in s.restoredSinceWatermark && x.company in s.books
    && s.tables.watermark[x.company].Usable()
    && LastAt(x, s) && x !in s.tables.outbox
    && !ListedMoved(s.tables.watermark[x.company], ProbeOf(x.company, s.books[x.company]), x.section)
  }

  /**
   * What a settled slot is worth, whatever flapping there was: the server shows the truth there if and only if
   * what it acknowledged last is what was extracted last.
   */
  lemma {:induction false} SettledShowsTheTruthExactly(forward: bool, x: Slot, s: State)
    requires Inv(forward, s) && Honest(x, s) && Settled(x, s)
    ensures ShowsTheTruth(s, x.company, x.section) <==>
            s.tables.GetSectionHash(x) == Some(s.last[KeyOf(x)].hash)
  {
  }

  /**
   * Convergence, slot by slot, in any run whose extractions of this slot can be trusted and whose content does not
   * flap there: once nothing is pending for it and no counter that lists its section has moved past the watermark,
   * the server's value is Tally's value.
   */
  lemma {:induction false} SettledSectionsShowTheTruth(h: Hypotheses, x: Slot, s0: State, es: seq<Event>)
    requires Start(s0) && After(h, s0, es).Some?
    requires x in h.truthful && x in h.noFlapping && h.quietResets && (h.prompt || h.forward)
    ensures var s := After(h, s0, es).value;
            Settled(x, s) ==> ShowsTheTruth(s, x.company, x.section)
  {
    var s := After(h, s0, es).value;
    RunKeepsHonest(h, x, s0, es);
    ReachableIsSteady(h, x, s0, es);
    ReachableKeepsInv(h, !h.prompt, s0, es);
    if Settled(x, s) {
      SettledShowsTheTruthExactly(!h.prompt, x, s);
    }
  }

  /**
   * What the gate's skip costs: nothing. If a probe taken now would be skipped and the section has nothing pending,
   * what the server shows for it is what Tally would return.
   */
  lemma {:induction false} SkipIsSafe(h: Hypotheses, s0: State, es: seq<Event>, g: Guid, sec: Section)
    requires Start(s0) && After(h, s0, es).Some?
    requires h.quietResets && (h.prompt || h.forward)
    requires forall x: Slot | x.company == g && x.section == sec :: x in h.truthful && x in h.noFlapping
    requires var s := After(h, s0, es).value;
             && g in s.books && g !in s.restoredSinceWatermark
             && DecideGate(s.tables.GetWatermark(g), ProbeOf(g, s.books[g])) == Skip
             && forall x | x in s.tables.outbox :: x.company != g || x.section != sec
    ensures ShowsTheTruth(After(h, s0, es).value, g, sec)
  {
    var s := After(h, s0, es).value;
    SkipsExactly(s.tables.GetWatermark(g), ProbeOf(g, s.books[g]));
    ReachableKeepsInv(h, !h.prompt, s0, es);
    assert (g, sec) in s.last;
    var x := ItemSlot(g, s.last[(g, sec)]);
    assert x.company == g && x.section == sec;
    SettledSectionsShowTheTruth(h, x, s0, es);
  }
}
