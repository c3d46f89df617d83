/**
 * How long a queued value is tried, and what giving it up means (packages/sync/src/orchestrator.ts,
 * packages/sync/src/store.ts), told by the events of a run alone.
 */
module Retries {
  import opened Wrappers
  import opened Gate
  import opened Store
  import opened Snapshots
  import opened Protocol

  // ------------------------------------------------------------------ what the events say

  /** The event puts a value into the slot's place in the queue. */
  predicate Queues(s: State, e: Event, x: Slot) {
    || (e.Enqueue? && s.pc.Sealing? && s.pc.envelope.slot == x)
    || (e.Supersede? && ItemSlot(e.guid, e.item) == x)
  }

  /** A retryable answer comes back for what is still queued in the slot. */
  predicate Fails(s: State, e: Event, x: Slot) {
    && e.Reply? && e.result.Retryable?
    && s.pc.Awaiting? && s.pc.rows != [] && s.pc.rows[0].slot == x && StillQueued(s.tables, s.pc.rows[0])
  }

  /** How often the value queued in the slot came back with a retryable answer, since it was put there. */
  ghost function Failures(h: Hypotheses, s: State, es: seq<Event>, x: Slot): nat
    requires After(h, s, es).Some?
  {
    if es == [] then 0
    else
      var init, e := es[..|es| - 1], es[|es| - 1];
      var m := After(h, s, init).value;
      if Queues(m, e, x) then 0
      else Failures(h, s, init, x) + if Fails(m, e, x) then 1 else 0
  }

  /** The same count as it stood when the last drain began, which is when the rows in hand were read. */
  ghost function FailuresWhenRead(h: Hypotheses, s: State, es: seq<Event>, x: Slot): nat
    requires After(h, s, es).Some?
  {
    if es == [] then 0
    else
      var init, e := es[..|es| - 1], es[|es| - 1];
      if e.BeginDrain? then Failures(h, s, init, x) else FailuresWhenRead(h, s, init, x)
  }

  // ------------------------------------------------------------------ row ids

  /** A row read by a drain: its id was never given to another slot. */
  ghost predicate Known(t: Tables, row: OutboxRow) {
    row.id < t.nextId && forall x | x in t.outbox && t.outbox[x].id == row.id :: x == row.slot
  }

  predicate InDrain(pc: Pc) {
    pc.Draining? || pc.Awaiting?
  }

  ghost predicate Identified(s: State) {
    && s.tables.Valid()
    && (InDrain(s.pc) ==>
          && (forall i | 0 <= i < |s.pc.rows| :: Known(s.tables, s.pc.rows[i]))
          && (forall i, j | 0 <= i < j < |s.pc.rows| :: s.pc.rows[i].slot != s.pc.rows[j].slot))
  }

  /** The queue only loses rows, or keeps them under their ids. */
  ghost predicate Thins(t: Tables, t': Tables) {
    && t'.nextId == t.nextId
    && forall x | x in t'.outbox :: x in t.outbox && t'.outbox[x].id == t.outbox[x].id && t'.outbox[x].slot == x
  }

  lemma {:induction false} ThinningKeepsIdentified(s: State, s': State)
    requires Identified(s) && Thins(s.tables, s'.tables)
    requires InDrain(s'.pc) ==>
               InDrain(s.pc) && (s'.pc.rows == s.pc.rows || (s.pc.rows != [] && s'.pc.rows == s.pc.rows[1..]))
    ensures Identified(s')
  {
  }

  lemma {:induction false} QueueingKeepsIdentified(s: State, s': State, e: Envelope, now: int)
    requires Identified(s) && s'.tables == s.tables.Enqueue(e.slot, e, e.contentHash, now)
    requires InDrain(s'.pc) ==> InDrain(s.pc) && s'.pc.rows == s.pc.rows
    ensures Identified(s')
  {
    EnqueueKeepsValid(s.tables, e.slot, e, e.contentHash, now);
    if InDrain(s'.pc) {
      forall i | 0 <= i < |s.pc.rows|
        ensures Known(s'.tables, s.pc.rows[i])
      {
        assert Known(s.tables, s.pc.rows[i]);
      }
    }
  }

  lemma {:induction false} StepKeepsIdentified(s: State, e: Event)
    requires Identified(s) && Enabled(s, e)
    ensures Identified(Apply(s, e))
  {
    match e
    case Enqueue(now) => QueueingKeepsIdentified(s, AfterEnqueue(s, now), s.pc.envelope, now);
    case Supersede(g, item, now) =>
      QueueingKeepsIdentified(s, AfterSupersede(s, g, item, now), Sealed(s, g, item, now), now);
    case BeginDrain(_, _) =>
    case Reply(result, retryAt) => ReplyKeepsIdentified(s, result, retryAt);
    case _ => ThinningKeepsIdentified(s, Apply(s, e));
  }

  lemma {:induction false} ReplyKeepsIdentified(s: State, result: UploadResult, retryAt: int)
    requires Identified(s) && Enabled(s, Reply(result, retryAt))
    ensures Identified(Apply(s, Reply(result, retryAt)))
  {
    ThinningKeepsIdentified(s, Apply(s, Reply(result, retryAt)));
  }

  // ------------------------------------------------------------------ the count on a row

  /** What stands in the queue, and what a drain has in hand, carries the number of its failures. */
  ghost predicate Counted(h: Hypotheses, s0: State, es: seq<Event>)
    requires After(h, s0, es).Some?
  {
    var s := After(h, s0, es).value;
    && (forall x | x in s.tables.outbox :: s.tables.outbox[x].attempts == Failures(h, s0, es, x))
    && (InDrain(s.pc) ==>
          forall i | 0 <= i < |s.pc.rows| ::
            s.pc.rows[i].attempts == FailuresWhenRead(h, s0, es, s.pc.rows[i].slot))
  }

  lemma {:induction false} AttemptsStep(s: State, e: Event, x: Slot)
    requires Identified(s) && Enabled(s, e) && x in Apply(s, e).tables.outbox
    ensures Queues(s, e, x) ==> Apply(s, e).tables.outbox[x].attempts == 0
    ensures !Queues(s, e, x) ==>
              && x in s.tables.outbox
              && Apply(s, e).tables.outbox[x].attempts ==
                 s.tables.outbox[x].attempts + if Fails(s, e, x) then 1 else 0
  {
    match e
    case Reply(result, retryAt) => AttemptsAfterReply(s, result, retryAt, x);
    case Enqueue(now) => QueuedAfresh(s.tables, s.pc.envelope, now, x);
    case Supersede(g, item, now) => QueuedAfresh(s.tables, Sealed(s, g, item, now), now, x);
    case _ => OthersKeepRows(s, e, x);
  }

  /** Nothing but queueing and answers changes a row that stays. */
  lemma {:induction false} OthersKeepRows(s: State, e: Event, x: Slot)
    requires Enabled(s, e) && !e.Reply? && !e.Enqueue? && !e.Supersede? && x in Apply(s, e).tables.outbox
    ensures x in s.tables.outbox && Apply(s, e).tables.outbox[x] == s.tables.outbox[x]
  {
  }

  /** What is put into the queue starts without failures, and the other slots keep theirs. */
  lemma {:induction false} QueuedAfresh(t: Tables, e: Envelope, now: int, x: Slot)
    requires x in t.Enqueue(e.slot, e, e.contentHash, now).outbox
    ensures x == e.slot ==> t.Enqueue(e.slot, e, e.contentHash, now).outbox[x].attempts == 0
    ensures x != e.slot ==>
              x in t.outbox && t.Enqueue(e.slot, e, e.contentHash, now).outbox[x].attempts == t.outbox[x].attempts
  {
  }

  lemma {:induction false} AttemptsAfterReply(s: State, result: UploadResult, retryAt: int, x: Slot)
    requires Identified(s) && Enabled(s, Reply(result, retryAt)) && x in Apply(s, Reply(result, retryAt)).tables.outbox
    ensures x in s.tables.outbox
    ensures Apply(s, Reply(result, retryAt)).tables.outbox[x].attempts ==
            s.tables.outbox[x].attempts + if Fails(s, Reply(result, retryAt), x) then 1 else 0
  {
    var row := s.pc.rows[0];
    SettlesOnlyWhatWasSent(s.tables, row, retryAt);
    SettlesOnlyWhatWasSent(s.tables.AckSectionHash(row.slot, row.contentHash), row, retryAt);
  }

  lemma {:induction false} HandStep(h: Hypotheses, s0: State, es: seq<Event>)
    requires es != [] && After(h, s0, es).Some? && Counted(h, s0, es[..|es| - 1])
    ensures var s := After(h, s0, es).value;
            InDrain(s.pc) ==>
              forall i | 0 <= i < |s.pc.rows| ::
                s.pc.rows[i].attempts == FailuresWhenRead(h, s0, es, s.pc.rows[i].slot)
  {
    var init, e := es[..|es| - 1], es[|es| - 1];
    var m := After(h, s0, init).value;
    var s := Apply(m, e);
    if InDrain(s.pc) {
      forall i | 0 <= i < |s.pc.rows|
        ensures s.pc.rows[i].attempts == FailuresWhenRead(h, s0, es, s.pc.rows[i].slot)
      {
        if e.Reply? {
          assert s.pc.rows[i] == m.pc.rows[i + 1];
        } else if !e.BeginDrain? {
          assert s.pc.rows[i] == m.pc.rows[i];
        }
      }
    }
  }

  /** Over every run: a row's retry count is the number of its failures since it was queued. */
  lemma {:induction false} AttemptsAreFailures(h: Hypotheses, s0: State, es: seq<Event>)
    requires Start(s0) && After(h, s0, es).Some?
    ensures Identified(After(h, s0, es).value) && Counted(h, s0, es)
  {
    if es != [] {
      var init, e := es[..|es| - 1], es[|es| - 1];
      var m := After(h, s0, init).value;
      AttemptsAreFailures(h, s0, init);
      StepKeepsIdentified(m, e);
      HandStep(h, s0, es);
      forall x | x in Apply(m, e).tables.outbox
        ensures Apply(m, e).tables.outbox[x].attempts == Failures(h, s0, es, x)
      {
        AttemptsStep(m, e, x);
      }
    }
  }

  // ------------------------------------------------------------------ age and backoff

  /** Since when the slot has had something queued without a break. */
  ghost function WaitingSince(h: Hypotheses, s: State, es: seq<Event>, x: Slot): int
    requires After(h, s, es).Some?
  {
    if es == [] then 0
    else
      var init, e := es[..|es| - 1], es[|es| - 1];
      var m := After(h, s, init).value;
      if Queues(m, e, x) && x !in m.tables.outbox then e.now else WaitingSince(h, s, init, x)
  }

  /** When what is queued may be tried: as soon as it was queued, or as the last retryable answer to it says. */
  ghost function NextTry(h: Hypotheses, s: State, es: seq<Event>, x: Slot): int
    requires After(h, s, es).Some?
  {
    if es == [] then 0
    else
      var init, e := es[..|es| - 1], es[|es| - 1];
      var m := After(h, s, init).value;
      if Queues(m, e, x) then e.now
      else if Fails(m, e, x) then e.retryAt
      else NextTry(h, s, init, x)
  }

  lemma {:induction false} TimesStep(s: State, e: Event, x: Slot)
    requires Identified(s) && Enabled(s, e) && x in Apply(s, e).tables.outbox
    ensures var row := Apply(s, e).tables.outbox[x];
            if Queues(s, e, x) then
              && row.nextAttemptAt == e.now
              && row.createdAt == if x in s.tables.outbox then s.tables.outbox[x].createdAt else e.now
            else
              && x in s.tables.outbox
              && row.createdAt == s.tables.outbox[x].createdAt
              && row.nextAttemptAt == if Fails(s, e, x) then e.retryAt else s.tables.outbox[x].nextAttemptAt
  {
    match e
    case Reply(result, retryAt) => TimesAfterReply(s, result, retryAt, x);
    case Enqueue(now) =>
    case Supersede(g, item, now) =>
    case _ => OthersKeepRows(s, e, x);
  }

  lemma {:induction false} TimesAfterReply(s: State, result: UploadResult, retryAt: int, x: Slot)
    requires Identified(s) && Enabled(s, Reply(result, retryAt)) && x in Apply(s, Reply(result, retryAt)).tables.outbox
    ensures x in s.tables.outbox
    ensures var was, row := s.tables.outbox[x], Apply(s, Reply(result, retryAt)).tables.outbox[x];
            && row.createdAt == was.createdAt
            && row.nextAttemptAt == if Fails(s, Reply(result, retryAt), x) then retryAt else was.nextAttemptAt
  {
    var row := s.pc.rows[0];
    SettlesOnlyWhatWasSent(s.tables, row, retryAt);
    SettlesOnlyWhatWasSent(s.tables.AckSectionHash(row.slot, row.contentHash), row, retryAt);
  }

  /**
   * Over every run: a row's place in the queue is the time since when its slot has been waiting, however often it was
   * superseded or deferred, and its retry time is that of its own value.
   */
  lemma {:induction false} AgeAndBackoff(h: Hypotheses, s0: State, es: seq<Event>, x: Slot)
    requires Start(s0) && After(h, s0, es).Some? && x in After(h, s0, es).value.tables.outbox
    ensures var row := After(h, s0, es).value.tables.outbox[x];
            row.createdAt == WaitingSince(h, s0, es, x) && row.nextAttemptAt == NextTry(h, s0, es, x)
  {
    if es != [] {
      var init, e := es[..|es| - 1], es[|es| - 1];
      var m := After(h, s0, init).value;
      AttemptsAreFailures(h, s0, init);
      TimesStep(m, e, x);
      if x in m.tables.outbox {
        AgeAndBackoff(h, s0, init, x);
      }
    }
  }

  // ------------------------------------------------------------------ what an answer does

  /**
   * A refusal, or a retryable answer to a value that had already failed eleven times, gives it up: the value leaves
   * the queue, the company loses its watermark, and nothing else changes.
   */
  lemma {:induction false} GivenUp(h: Hypotheses, s0: State, es: seq<Event>, result: UploadResult, retryAt: int)
    requires Start(s0) && After(h, s0, es).Some? && Enabled(After(h, s0, es).value, Reply(result, retryAt))
    requires var row := After(h, s0, es).value.pc.rows[0];
             result == Refused || (result == Retryable && FailuresWhenRead(h, s0, es, row.slot) >= 11)
    ensures var s := After(h, s0, es).value; var row, s' := s.pc.rows[0], Apply(s, Reply(result, retryAt));
            && !StillQueued(s'.tables, row)
            && s'.tables.watermark == s.tables.watermark - {row.slot.company}
            && s'.tables.sectionHash == s.tables.sectionHash
            && s'.tables.outbox == if StillQueued(s.tables, row) then s.tables.outbox - {row.slot} else s.tables.outbox
  {
    var s := After(h, s0, es).value;
    AttemptsAreFailures(h, s0, es);
    SettlesOnlyWhatWasSent(s.tables, s.pc.rows[0], retryAt);
  }

  /** Before that a retryable answer keeps the value queued for later, and the watermark, and nothing else changes. */
  lemma {:induction false} KeptForLater(h: Hypotheses, s0: State, es: seq<Event>, retryAt: int)
    requires Start(s0) && After(h, s0, es).Some? && Enabled(After(h, s0, es).value, Reply(Retryable, retryAt))
    requires FailuresWhenRead(h, s0, es, After(h, s0, es).value.pc.rows[0].slot) < 11
    ensures var s := After(h, s0, es).value; var row, s' := s.pc.rows[0], Apply(s, Reply(Retryable, retryAt));
            && s'.tables.watermark == s.tables.watermark && s'.tables.sectionHash == s.tables.sectionHash
            && s'.tables.outbox.Keys == s.tables.outbox.Keys
            && (forall x | x in s.tables.outbox && (x != row.slot || !StillQueued(s.tables, row)) ::
                  s'.tables.outbox[x] == s.tables.outbox[x])
            && (StillQueued(s.tables, row) ==>
                  var was, now := s.tables.outbox[row.slot], s'.tables.outbox[row.slot];
                  now == was.(attempts := was.attempts + 1, nextAttemptAt := retryAt))
  {
    var s := After(h, s0, es).value;
    AttemptsAreFailures(h, s0, es);
    SettlesOnlyWhatWasSent(s.tables, s.pc.rows[0], retryAt);
  }

  /** An acknowledged value leaves the queue unless something superseded it, and its hash is on record. */
  lemma {:induction false} Acknowledged(h: Hypotheses, s0: State, es: seq<Event>, retryAt: int)
    requires Start(s0) && After(h, s0, es).Some? && Enabled(After(h, s0, es).value, Reply(Acked, retryAt))
    ensures var s := After(h, s0, es).value; var row, s' := s.pc.rows[0], Apply(s, Reply(Acked, retryAt));
            && s'.tables.watermark == s.tables.watermark
            && s'.tables.sectionHash == s.tables.sectionHash[row.slot := row.contentHash]
            && s'.tables.outbox == if StillQueued(s.tables, row) then s.tables.outbox - {row.slot} else s.tables.outbox
  {
    var s := After(h, s0, es).value;
    var row := s.pc.rows[0];
    AttemptsAreFailures(h, s0, es);
    SettlesOnlyWhatWasSent(s.tables.AckSectionHash(row.slot, row.contentHash), row, retryAt);
  }

  /** While nothing was queued in its place since the drain read it, the two counts of a value are one. */
  lemma {:induction false} UndisturbedCount(h: Hypotheses, s0: State, es: seq<Event>)
    requires Start(s0) && After(h, s0, es).Some?
    ensures var s := After(h, s0, es).value;
            InDrain(s.pc) && s.pc.rows != [] && s.pc.rows[0].slot in s.tables.outbox
            && s.tables.outbox[s.pc.rows[0].slot] == s.pc.rows[0] ==>
              FailuresWhenRead(h, s0, es, s.pc.rows[0].slot) == Failures(h, s0, es, s.pc.rows[0].slot)
  {
    AttemptsAreFailures(h, s0, es);
  }

  // ------------------------------------------------------------------ no value is tried for ever

  /** What is queued has a try left, and a row in hand is no fresher than the row it was read from. */
  ghost predicate Budgeted(s: State) {
    && (forall x | x in s.tables.outbox :: s.tables.outbox[x].attempts < 12)
    && (InDrain(s.pc) ==>
          forall i | 0 <= i < |s.pc.rows| && StillQueued(s.tables, s.pc.rows[i]) ::
            s.tables.outbox[s.pc.rows[i].slot].attempts <= s.pc.rows[i].attempts)
  }

  lemma {:induction false} StepKeepsBudgeted(s: State, e: Event)
    requires Identified(s) && Budgeted(s) && Enabled(s, e)
    ensures Budgeted(Apply(s, e))
  {
    match e
    case Reply(result, retryAt) => ReplyKeepsBudgeted(s, result, retryAt);
    case Enqueue(now) => QueueingKeepsBudgeted(s, AfterEnqueue(s, now), s.pc.envelope, now);
    case Supersede(g, item, now) =>
      QueueingKeepsBudgeted(s, AfterSupersede(s, g, item, now), Sealed(s, g, item, now), now);
    case BeginDrain(now, rows) => BeginKeepsBudgeted(s, now, rows);
    case _ => SameRowsKeepBudgeted(s, Apply(s, e));
  }

  lemma {:induction false} SameRowsKeepBudgeted(s: State, s': State)
    requires Budgeted(s)
    requires forall x | x in s'.tables.outbox :: x in s.tables.outbox && s'.tables.outbox[x] == s.tables.outbox[x]
    requires InDrain(s'.pc) ==> InDrain(s.pc) && s'.pc.rows == s.pc.rows
    ensures Budgeted(s')
  {
  }

  lemma {:induction false} QueueingKeepsBudgeted(s: State, s': State, e: Envelope, now: int)
    requires Budgeted(s) && Identified(s) && s'.tables == s.tables.Enqueue(e.slot, e, e.contentHash, now)
    requires InDrain(s'.pc) ==> InDrain(s.pc) && s'.pc.rows == s.pc.rows
    ensures Budgeted(s')
  {
    assert s'.tables.outbox[e.slot].attempts == 0;
  }

  lemma {:induction false} BeginKeepsBudgeted(s: State, now: int, rows: seq<OutboxRow>)
    requires Budgeted(s) && DueRows(s.tables.outbox, now, DUE_LIMIT, rows)
    ensures Budgeted(s.(pc := Draining(rows)))
  {
  }

  lemma {:induction false} ReplyKeepsBudgeted(s: State, result: UploadResult, retryAt: int)
    requires Identified(s) && Budgeted(s) && Enabled(s, Reply(result, retryAt))
    ensures Budgeted(Apply(s, Reply(result, retryAt)))
  {
    var row, s' := s.pc.rows[0], Apply(s, Reply(result, retryAt));
    SettlesOnlyWhatWasSent(s.tables, row, retryAt);
    SettlesOnlyWhatWasSent(s.tables.AckSectionHash(row.slot, row.contentHash), row, retryAt);
    forall i | 0 <= i < |s'.pc.rows| && StillQueued(s'.tables, s'.pc.rows[i])
      ensures s'.tables.outbox[s'.pc.rows[i].slot].attempts <= s'.pc.rows[i].attempts
    {
      assert s'.pc.rows[i] == s.pc.rows[i + 1] && s.pc.rows[i + 1].slot != row.slot;
    }
  }

  /** In no reachable state is anything queued that has failed twelve times. */
  lemma {:induction false} QueuedHaveATryLeft(h: Hypotheses, s0: State, es: seq<Event>, x: Slot)
    requires Start(s0) && After(h, s0, es).Some? && x in After(h, s0, es).value.tables.outbox
    ensures Failures(h, s0, es, x) < 12
  {
    RunIsBudgeted(h, s0, es);
    AttemptsAreFailures(h, s0, es);
  }

  lemma {:induction false} RunIsBudgeted(h: Hypotheses, s0: State, es: seq<Event>)
    requires Start(s0) && After(h, s0, es).Some?
    ensures Budgeted(After(h, s0, es).value)
  {
    if es != [] {
      var init := es[..|es| - 1];
      RunIsBudgeted(h, s0, init);
      AttemptsAreFailures(h, s0, init);
      StepKeepsBudgeted(After(h, s0, init).value, es[|es| - 1]);
    }
  }

  // ------------------------------------------------------------------ and the company is pulled again

  /** No pass over the company comes to its end in the run. */
  ghost predicate NeverFinishes(h: Hypotheses, s: State, es: seq<Event>, g: Guid)
    requires After(h, s, es).Some?
  {
    es == [] ||
    (var init := es[..|es| - 1];
     NeverFinishes(h, s, init, g)
     && (es[|es| - 1].Finish? ==> After(h, s, init).value.pc.job.probe.companyGuid != g))
  }

  lemma {:induction false} WatermarkStaysAway(h: Hypotheses, s: State, es: seq<Event>, g: Guid)
    requires g !in s.tables.watermark && After(h, s, es).Some? && NeverFinishes(h, s, es, g)
    ensures g !in After(h, s, es).value.tables.watermark
  {
    if es != [] {
      var init := es[..|es| - 1];
      WatermarkStaysAway(h, s, init, g);
      WatermarkStep(After(h, s, init).value, es[|es| - 1], g);
    }
  }

  /** Only the end of a pass sets a watermark. */
  lemma {:induction false} WatermarkStep(s: State, e: Event, g: Guid)
    requires g !in s.tables.watermark && Enabled(s, e)
    requires e.Finish? ==> s.pc.job.probe.companyGuid != g
    ensures g !in Apply(s, e).tables.watermark
  {
    match e
    case Reply(result, retryAt) =>
      assert TablesAfterReply(s.tables, s.pc.rows[0], result, retryAt).watermark.Keys <= s.tables.watermark.Keys;
    case _ =>
  }

  /**
   * Once a value of a company was given up, whatever happens before a pass over it comes to its end: the next decision
   * about it asks Tally for every section, and forgets what was acknowledged or queued.
   */
  lemma {:induction false} PulledInFullNext(h: Hypotheses, s: State, es: seq<Event>, g: Guid)
    requires g !in s.tables.watermark && After(h, s, es).Some? && NeverFinishes(h, s, es, g)
    requires var m := After(h, s, es).value; Enabled(m, Decide) && m.pc.queue[0].companyGuid == g
    ensures var m' := Apply(After(h, s, es).value, Decide);
            && m'.pc.Extracting? && m'.pc.job.probe.companyGuid == g && (forall sec: Section :: sec in m'.pc.todo)
            && (forall x | x in m'.tables.sectionHash :: x.company != g)
            && (forall x | x in m'.tables.outbox :: x.company != g)
  {
    WatermarkStaysAway(h, s, es, g);
    forall sec: Section
      ensures sec in SECTIONS
    {
      EverySectionIsListed(sec);
    }
  }
}
