/** Ingest handlers that read the clock, read the slot and write, interleaved (apps/server/src/ingest.ts, db.ts). */
module Handlers {
  import opened Wrappers
  import opened Signing
  import opened Store
  import opened Snapshots

  datatype Phase = Arrived | UnderCeiling | Judged | Answered(answer: Answer)

  datatype Handler = Handler(envelope: Envelope, phase: Phase)

  /** `now` is the latest time any handler read; clocks of the deployment do not run backwards. */
  datatype Server = Server(slots: Table, handlers: map<nat, Handler>, now: int)

  datatype Step =
    | Arrive(id: nat, envelope: Envelope)
    | ReadClock(id: nat, now: int)
    | ReadLatest(id: nat)
    | Write(id: nat)

  predicate Enabled(s: Server, step: Step) {
    match step
    case Arrive(id, _) => id !in s.handlers
    case ReadClock(id, now) => id in s.handlers && s.handlers[id].phase.Arrived? && s.now <= now
    case ReadLatest(id) => id in s.handlers && s.handlers[id].phase.UnderCeiling?
    case Write(id) => id in s.handlers && s.handlers[id].phase.Judged?
  }

  function Advance(s: Server, id: nat, phase: Phase): Server
    requires id in s.handlers
  {
    s.(handlers := s.handlers[id := s.handlers[id].(phase := phase)])
  }

  function Apply(s: Server, step: Step): Server
    requires Enabled(s, step)
  {
    match step
    case Arrive(id, e) => s.(handlers := s.handlers[id := Handler(e, Arrived)])
    case ReadClock(id, now) =>
      var phase := if BelowCeiling(s.handlers[id].envelope, now) then UnderCeiling else Answered(InFuture);
      Advance(s.(now := now), id, phase)
    case ReadLatest(id) =>
      var e := s.handlers[id].envelope;
      var answer := Judge(Latest(s.slots, e.slot), e);
      Advance(s, id, if answer == Accepted then Judged else Answered(answer))
    case Write(id) =>
      Advance(s.(slots := Upsert(s.slots, s.handlers[id].envelope)), id, Answered(Accepted))
  }

  function Run(s: Server, steps: seq<Step>): Option<Server>
    decreases |steps|
  {
    if steps == [] then Some(s)
    else if Enabled(s, steps[0]) then Run(Apply(s, steps[0]), steps[1..])
    else None
  }

  predicate Start(s: Server) {
    s.handlers == map[] && forall slot | slot in s.slots :: s.slots[slot].snapshotTs <= s.now + MAX_CLOCK_SKEW_MS
  }

  /** An accepted upload's slot holds its timestamp or a newer one. */
  predicate AcceptedKept(s: Server) {
    forall id | id in s.handlers && s.handlers[id].phase == Answered(Accepted) ::
      var e := s.handlers[id].envelope;
      e.slot in s.slots && e.snapshotTs <= s.slots[e.slot].snapshotTs
  }

  /** No slot, and no upload about to be written, is beyond the ceiling of the time read so far. */
  predicate CeilingKept(s: Server) {
    && (forall slot | slot in s.slots :: s.slots[slot].snapshotTs <= s.now + MAX_CLOCK_SKEW_MS)
    && (forall id | id in s.handlers && (s.handlers[id].phase.UnderCeiling? || s.handlers[id].phase.Judged?) ::
          BelowCeiling(s.handlers[id].envelope, s.now))
  }

  /** From `s` to `t` no slot was lost or rolled back to an older timestamp. */
  predicate NeverRolledBack(s: Server, t: Server) {
    && s.now <= t.now
    && forall slot | slot in s.slots :: slot in t.slots && s.slots[slot].snapshotTs <= t.slots[slot].snapshotTs
  }

  /**
   * Under every interleaving: stored timestamps never decrease, what was answered 200 stays stored
   * or superseded by something newer, and no slot runs ahead of the clock by more than the skew.
   */
  lemma {:induction false} SlotsUnderInterleaving(s: Server, steps: seq<Step>)
    requires Run(s, steps).Some? && AcceptedKept(s) && CeilingKept(s)
    ensures var t := Run(s, steps).value;
            AcceptedKept(t) && CeilingKept(t) && NeverRolledBack(s, t)
    decreases |steps|
  {
    if steps != [] {
      SlotsUnderInterleaving(Apply(s, steps[0]), steps[1..]);
    }
  }

  lemma {:induction false} HandlersStay(s: Server, steps: seq<Step>, id: nat)
    requires Run(s, steps).Some? && id in s.handlers && s.handlers[id].phase.Answered?
    ensures var t := Run(s, steps).value; id in t.handlers && t.handlers[id] == s.handlers[id]
    decreases |steps|
  {
    if steps != [] {
      HandlersStay(Apply(s, steps[0]), steps[1..], id);
    }
  }

  /** Once a handler answered 200, its slot holds at least its timestamp in every later state. */
  lemma {:induction false} AcceptedForeverAfter(s: Server, before: seq<Step>, after: seq<Step>, id: nat)
    requires Start(s) && Run(s, before).Some? && Run(Run(s, before).value, after).Some?
    requires var m := Run(s, before).value; id in m.handlers && m.handlers[id].phase == Answered(Accepted)
    ensures var e := Run(s, before).value.handlers[id].envelope;
            var t := Run(Run(s, before).value, after).value;
            e.slot in t.slots && e.snapshotTs <= t.slots[e.slot].snapshotTs
  {
    SlotsUnderInterleaving(s, before);
    SlotsUnderInterleaving(Run(s, before).value, after);
    HandlersStay(Run(s, before).value, after, id);
  }

  /**
   * No upload can block a slot for good: whatever was stored up to time `n`, an upload stamped
   * with a clock past `n` plus the skew is accepted once its own request is served.
   */
  lemma {:induction false} NoSlotIsBlocked(s: Server, steps: seq<Step>, e: Envelope, now: int)
    requires Start(s) && Run(s, steps).Some?
    requires e.snapshotTs > Run(s, steps).value.now + MAX_CLOCK_SKEW_MS
    requires BelowCeiling(e, now)
    ensures Ingest(Run(s, steps).value.slots, e, now).1 == Accepted
  {
    SlotsUnderInterleaving(s, steps);
  }

  /** The rest of a handler's steps, once it has read the clock, if nothing comes in between. */
  function Tail(slots: Table, id: nat, e: Envelope, now: int): seq<Step> {
    if !BelowCeiling(e, now) then []
    else if Ingest(slots, e, now).1 == Accepted then [ReadLatest(id), Write(id)]
    else [ReadLatest(id)]
  }

  /** A handler run to completion with no other step in between is the serial `Ingest`. */
  lemma {:induction false} SerialHandler(s: Server, id: nat, e: Envelope, now: int)
    requires id !in s.handlers && s.now <= now
    ensures var (slots, answer) := Ingest(s.slots, e, now);
            var t := Run(s, [Arrive(id, e), ReadClock(id, now)] + Tail(s.slots, id, e, now));
            && t.Some? && t.value.slots == slots
            && id in t.value.handlers && t.value.handlers[id].phase == Answered(answer)
  {
    var (slots, answer) := Ingest(s.slots, e, now);
    var s1 := Apply(s, Arrive(id, e));
    var s2 := Apply(s1, ReadClock(id, now));
    var tail := Tail(s.slots, id, e, now);
    OneStep(s, Arrive(id, e), [ReadClock(id, now)] + tail);
    OneStep(s1, ReadClock(id, now), tail);
    assert [Arrive(id, e)] + ([ReadClock(id, now)] + tail) == [Arrive(id, e), ReadClock(id, now)] + tail;
    if BelowCeiling(e, now) {
      OneStep(s2, ReadLatest(id), tail[1..]);
      if answer == Accepted {
        OneStep(Apply(s2, ReadLatest(id)), Write(id), []);
      }
    }
  }

  lemma {:induction false} OneStep(s: Server, step: Step, steps: seq<Step>)
    requires Enabled(s, step)
    ensures Run(s, [step] + steps) == Run(Apply(s, step), steps)
  {
    assert ([step] + steps)[1..] == steps;
  }

  // ------------------------------------------------------------------ equal timestamps

  /** The slot holds another content under the envelope's own timestamp. */
  predicate HoldsOther(t: Table, e: Envelope) {
    e.slot in t && t[e.slot].snapshotTs == e.snapshotTs && t[e.slot].contentHash != e.contentHash
  }

  /** The step lands another content under the envelope's timestamp on its slot. */
  predicate LandsOther(s: Server, step: Step, e: Envelope)
    requires Enabled(s, step)
  {
    !HoldsOther(s.slots, e) && HoldsOther(Apply(s, step).slots, e)
  }

  /** Some step of the run lands another content under the envelope's timestamp, and it stays to the end. */
  ghost predicate OverwrittenMeanwhile(s: Server, steps: seq<Step>, e: Envelope)
    requires Run(s, steps).Some?
    decreases |steps|
  {
    steps != [] &&
    (OverwrittenMeanwhile(Apply(s, steps[0]), steps[1..], e)
     || (LandsOther(s, steps[0], e) && StaysOther(Apply(s, steps[0]), steps[1..], e)))
  }

  predicate StaysOther(s: Server, steps: seq<Step>, e: Envelope)
    requires Run(s, steps).Some?
    decreases |steps|
  {
    HoldsOther(s.slots, e) && (steps == [] || StaysOther(Apply(s, steps[0]), steps[1..], e))
  }

  lemma {:induction false} StaysOrEnds(s: Server, steps: seq<Step>, e: Envelope)
    requires Run(s, steps).Some? && HoldsOther(s.slots, e)
    ensures HoldsOther(Run(s, steps).value.slots, e) <==>
            StaysOther(s, steps, e) || OverwrittenMeanwhile(s, steps, e)
    decreases |steps|
  {
    if steps != [] {
      var m, rest := Apply(s, steps[0]), steps[1..];
      assert Run(s, steps) == Run(m, rest);
      if HoldsOther(m.slots, e) {
        StaysOrEnds(m, rest, e);
        assert StaysOther(s, steps, e) == StaysOther(m, rest, e);
      } else {
        EndsOtherExactly(m, rest, e);
        assert !StaysOther(m, rest, e);
      }
    }
  }

  lemma {:induction false} EndsOtherExactly(s: Server, steps: seq<Step>, e: Envelope)
    requires Run(s, steps).Some? && !HoldsOther(s.slots, e)
    ensures HoldsOther(Run(s, steps).value.slots, e) <==> OverwrittenMeanwhile(s, steps, e)
    decreases |steps|
  {
    if steps != [] {
      var m, rest := Apply(s, steps[0]), steps[1..];
      assert Run(s, steps) == Run(m, rest);
      if HoldsOther(m.slots, e) {
        StaysOrEnds(m, rest, e);
        assert LandsOther(s, steps[0], e);
      } else {
        EndsOtherExactly(m, rest, e);
        assert !LandsOther(s, steps[0], e);
      }
    }
  }

  lemma {:induction false} EnvelopeStays(s: Server, steps: seq<Step>, id: nat)
    requires Run(s, steps).Some? && id in s.handlers
    ensures var t := Run(s, steps).value; id in t.handlers && t.handlers[id].envelope == s.handlers[id].envelope
    decreases |steps|
  {
    if steps != [] {
      EnvelopeStays(Apply(s, steps[0]), steps[1..], id);
    }
  }

  /**
   * A write changes the content stored under an equal timestamp if and only if another content landed under that
   * timestamp after its handler had read the slot, and was still there.
   */
  lemma {:induction false} WriteSwapsExactly(s: Server, id: nat, meanwhile: seq<Step>)
    requires Enabled(s, ReadLatest(id)) && Apply(s, ReadLatest(id)).handlers[id].phase.Judged?
    requires Run(Apply(s, ReadLatest(id)), meanwhile).Some?
    requires Enabled(Run(Apply(s, ReadLatest(id)), meanwhile).value, Write(id))
    ensures var w := Run(Apply(s, ReadLatest(id)), meanwhile).value;
            OnlyAdvances(w.slots, Apply(w, Write(id)).slots) <==>
            !OverwrittenMeanwhile(Apply(s, ReadLatest(id)), meanwhile, s.handlers[id].envelope)
  {
    var read, e := Apply(s, ReadLatest(id)), s.handlers[id].envelope;
    var w := Run(read, meanwhile).value;
    EnvelopeStays(read, meanwhile, id);
    EndsOtherExactly(read, meanwhile, e);
    if HoldsOther(w.slots, e) {
      assert e.slot in w.slots && Apply(w, Write(id)).slots[e.slot] != w.slots[e.slot];
    }
  }

  /** Two contents of one slot with one timestamp. */
  predicate StampedAlike(e: Envelope, f: Envelope) {
    e.slot == f.slot && e.snapshotTs == f.snapshotTs && e.contentHash != f.contentHash
  }

  /** Every upload that arrives is one of these. */
  predicate Uploads(steps: seq<Step>, uploads: set<Envelope>) {
    forall i | 0 <= i < |steps| && steps[i].Arrive? :: steps[i].envelope in uploads
  }

  /** Everything stored or on its way into the table is one of these uploads. */
  ghost predicate From(s: Server, uploads: set<Envelope>) {
    && (forall id | id in s.handlers :: s.handlers[id].envelope in uploads)
    && (forall x | x in s.slots ::
          exists e :: e in uploads && e.slot == x && s.slots[x] == Stored(e.snapshotTs, e.contentHash))
  }

  lemma {:induction false} RunStaysFrom(s: Server, steps: seq<Step>, uploads: set<Envelope>)
    requires Run(s, steps).Some? && From(s, uploads) && Uploads(steps, uploads)
    ensures From(Run(s, steps).value, uploads)
    decreases |steps|
  {
    if steps != [] {
      StepStaysFrom(s, steps[0], uploads);
      RunStaysFrom(Apply(s, steps[0]), steps[1..], uploads);
    }
  }

  lemma {:induction false} StepStaysFrom(s: Server, step: Step, uploads: set<Envelope>)
    requires Enabled(s, step) && From(s, uploads) && Uploads([step], uploads)
    ensures From(Apply(s, step), uploads)
  {
    assert step == [step][0];
    var t := Apply(s, step);
    forall x | x in t.slots
      ensures exists e :: e in uploads && e.slot == x && t.slots[x] == Stored(e.snapshotTs, e.contentHash)
    {
      if x in s.slots && t.slots[x] == s.slots[x] {
      } else {
        var e := s.handlers[step.id].envelope;
        assert e in uploads && e.slot == x;
      }
    }
  }

  /** At some time under these uploads the content of a slot changes and its timestamp does not. */
  ghost predicate CanSwap(start: Server, uploads: set<Envelope>) {
    exists steps, more ::
      && Uploads(steps, uploads) && Uploads(more, uploads)
      && Run(start, steps).Some? && Run(Run(start, steps).value, more).Some?
      && !OnlyAdvances(Run(start, steps).value.slots, Run(Run(start, steps).value, more).value.slots)
  }

  /** Uploads stamped alike swap when both handlers read the slot before either writes. */
  lemma {:induction false} AlikeStampsCanSwap(now: int, uploads: set<Envelope>, e: Envelope, f: Envelope)
    requires e in uploads && f in uploads && StampedAlike(e, f)
    ensures CanSwap(Server(map[], map[], now), uploads)
  {
    var n := if now < e.snapshotTs then e.snapshotTs else now;
    var s := Server(map[], map[], now);
    var s1 := Apply(s, Arrive(0, e));
    var s2 := Apply(s1, Arrive(1, f));
    var s3 := Apply(s2, ReadClock(0, n));
    var s4 := Apply(s3, ReadClock(1, n));
    var s5 := Apply(s4, ReadLatest(0));
    var s6 := Apply(s5, ReadLatest(1));
    var s7 := Apply(s6, Write(0));
    var rest := [ReadLatest(0), ReadLatest(1), Write(0)];
    var steps := [Arrive(0, e)] + ([Arrive(1, f)] + ([ReadClock(0, n)] + ([ReadClock(1, n)] + rest)));
    OneStep(s, Arrive(0, e), [Arrive(1, f)] + ([ReadClock(0, n)] + ([ReadClock(1, n)] + rest)));
    OneStep(s1, Arrive(1, f), [ReadClock(0, n)] + ([ReadClock(1, n)] + rest));
    OneStep(s2, ReadClock(0, n), [ReadClock(1, n)] + rest);
    OneStep(s3, ReadClock(1, n), rest);
    OneStep(s4, ReadLatest(0), [ReadLatest(1), Write(0)]);
    OneStep(s5, ReadLatest(1), [Write(0)]);
    OneStep(s6, Write(0), []);
    OneStep(s7, Write(1), []);
    assert [ReadLatest(0)] + [ReadLatest(1), Write(0)] == rest;
    assert [ReadLatest(1)] + [Write(0)] == [ReadLatest(1), Write(0)];
    assert Run(s, steps) == Some(s7) && Run(s7, [Write(1)]) == Some(Apply(s7, Write(1)));
    assert e.slot in s7.slots && Apply(s7, Write(1)).slots[e.slot] != s7.slots[e.slot];
    assert Uploads(steps, uploads) && Uploads([Write(1)], uploads);
  }

  /**
   * Some interleaving changes the content stored under one timestamp if and only if two of the uploads carry one
   * slot and one timestamp over different contents: a device that stamps no two contents alike never sees it.
   */
  lemma {:induction false} SwapsExactlyWhenStampedAlike(now: int, uploads: set<Envelope>)
    ensures CanSwap(Server(map[], map[], now), uploads) <==>
            exists e, f :: e in uploads && f in uploads && StampedAlike(e, f)
  {
    var s := Server(map[], map[], now);
    if CanSwap(s, uploads) {
      var steps, more :|
        && Uploads(steps, uploads) && Uploads(more, uploads)
        && Run(s, steps).Some? && Run(Run(s, steps).value, more).Some?
        && !OnlyAdvances(Run(s, steps).value.slots, Run(Run(s, steps).value, more).value.slots);
      var m := Run(s, steps).value;
      var t := Run(m, more).value;
      RunStaysFrom(s, steps, uploads);
      RunStaysFrom(m, more, uploads);
      KeepsTimestamps(m, more);
      var x :| x in m.slots && !(x in t.slots && m.slots[x].snapshotTs <= t.slots[x].snapshotTs
                                 && (m.slots[x].snapshotTs == t.slots[x].snapshotTs ==> t.slots[x] == m.slots[x]));
      var e :| e in uploads && e.slot == x && m.slots[x] == Stored(e.snapshotTs, e.contentHash);
      var f :| f in uploads && f.slot == x && t.slots[x] == Stored(f.snapshotTs, f.contentHash);
      assert StampedAlike(e, f);
    }
    if e, f :| e in uploads && f in uploads && StampedAlike(e, f) {
      AlikeStampsCanSwap(now, uploads, e, f);
    }
  }

  lemma {:induction false} KeepsTimestamps(s: Server, steps: seq<Step>)
    requires Run(s, steps).Some?
    ensures NeverRolledBack(s, Run(s, steps).value)
    decreases |steps|
  {
    if steps != [] {
      KeepsTimestamps(Apply(s, steps[0]), steps[1..]);
    }
  }
}
