/**
 * The two recoveries that wipe the Bridge's tables (apps/bridge/src/main/index.ts) do not wait for a running cycle.
 * This is exactly when that loses something.
 */
module Resets {
  import opened Wrappers
  import opened Gate
  import opened Store
  import opened Snapshots
  import opened Protocol

  /** A section the pass has behind it, of which the tables no longer know anything. */
  ghost predicate Lost(s: State, sec: Section) {
    && Working(s.pc) && (s.pc.Extracting? ==> s.pc.todo != [])
    && sec !in Remaining(s.pc)
    && var g := s.pc.job.probe.companyGuid;
       && (g, sec) in s.last && s.last[(g, sec)].section == sec
       && ItemSlot(g, s.last[(g, sec)]) !in s.tables.outbox
       && ItemSlot(g, s.last[(g, sec)]) !in s.tables.sectionHash
  }

  /** How far the pass still is from its end. */
  ghost function ToGo(pc: Pc): nat
    requires Working(pc)
  {
    match pc
    case Extracting(_, todo, got) => 2 * (|got| + |todo|) + |todo| + 1
    case Gating(_, items) => 2 * |items| + 1
    case Sealing(_, items, _) => 2 * |items|
  }

  /** The rest of the pass does not touch a section that is not requested, and the watermark then covers it. */
  lemma {:induction false} FinishingForgets(h: Hypotheses, s: State, sec: Section) returns (s': State)
    requires Lost(s, sec) && SealConsistent(s)
    requires h.truthful == iset{} && h.noFlapping == iset{}
    ensures Leads(h, s, s') && !NothingDropped(s')
    decreases ToGo(s.pc)
  {
    var e := Onward(s);
    var m := Apply(s, e);
    LeadsBy(h, s, e, m);
    if e.Finish? {
      s' := m;
      var k := (s.pc.job.probe.companyGuid, sec);
      assert k in m.last && k.0 in m.tables.watermark;
    } else {
      StaysLost(s, sec, e);
      s' := FinishingForgets(h, m, sec);
      LeadsOn(h, s, m, s');
    }
  }

  /** The next thing the pass does. */
  ghost function Onward(s: State): Event
    requires Working(s.pc)
  {
    match s.pc
    case Extracting(_, todo, _) => ReadSection(Item(if todo == [] then Company else todo[0], "", ""))
    case Gating(_, items) => if items == [] then Finish else Check(s.clock)
    case Sealing(_, _, _) => Enqueue(s.clock)
  }

  lemma {:induction false} StaysLost(s: State, sec: Section, e: Event)
    requires Lost(s, sec) && SealConsistent(s)
    requires e == Onward(s) && !e.Finish? && Enabled(s, e)
    ensures Lost(Apply(s, e), sec) && SealConsistent(Apply(s, e))
    ensures ToGo(Apply(s, e).pc) < ToGo(s.pc)
  {
    var s' := Apply(s, e);
    if s.pc.Extracting? {
      assert Remaining(s'.pc) == Remaining(s.pc);
    } else {
      var items := s.pc.items;
      assert SectionsIn(items) == [items[0].section] + SectionsIn(items[1..]);
    }
  }

  /** A reset keeps the invariant exactly when no company is in hand or none of its sections is behind the gate. */
  lemma {:induction false} ResetKeepsInvExactlyWhenQuiet(forward: bool, s: State)
    requires Inv(forward, s)
    ensures Inv(forward, Apply(s, Reset)) <==> Quiet(s.pc)
  {
    if Quiet(s.pc) {
      QuietResetKeepsInv(forward, s);
    } else {
      var sec: Section :| sec !in Remaining(s.pc);
      assert (s.pc.job.probe.companyGuid, sec) in s.last;
    }
  }

  /**
   * A reset loses something, in some continuation of the run, exactly when it is not quiet. Only the program
   * counter decides: which company is in hand, and which sections it still has to put through the gate.
   */
  lemma {:induction false} ResetLosesExactlyWhenNotQuiet(forward: bool, s: State)
    requires Inv(forward, s)
    ensures (exists s' :: Leads(Hypotheses(!forward, forward, true, iset{}, iset{}), Apply(s, Reset), s')
                          && !NothingDropped(s')) <==> !Quiet(s.pc)
  {
    var h := Hypotheses(!forward, forward, true, iset{}, iset{});
    var wiped := Apply(s, Reset);
    if Quiet(s.pc) {
      QuietResetKeepsInv(forward, s);
      forall s' | Leads(h, wiped, s')
        ensures NothingDropped(s')
      {
        var es :| After(h, wiped, es) == Some(s');
        RunKeepsInv(h, forward, wiped, es);
      }
    } else {
      var sec: Section :| sec !in Remaining(s.pc);
      assert Lost(wiped, sec);
      var s' := FinishingForgets(h, wiped, sec);
    }
  }
}
