/** The sync scheduler: a tick's block, and the block when its cycle settles (apps/bridge/src/main/scheduler.ts). */
module Scheduler {

  /** The fields, and what was done to the outside: cycles awaited, and when each was started. */
  datatype State = State(running: bool, pending: bool, stopped: bool, timer: bool, listeners: nat,
                         lastRunAt: int, inFlight: nat, starts: seq<int>)

  const INITIAL := State(false, false, true, false, 0, 0, 0, [])

  datatype Event =
    | Start
    | Stop
    | Interval(now: int)
    | Resume(now: int)
    | SyncNow(now: int)
    | CycleEnds(now: int)

  function BeginCycle(s: State, now: int): State {
    s.(running := true, pending := false, lastRunAt := now, inFlight := s.inFlight + 1, starts := s.starts + [now])
  }

  function TickStep(s: State, manual: bool, now: int): State {
    if s.stopped && !manual then s
    else if s.running then s.(pending := true)
    else BeginCycle(s, now)
  }

  function Ticks(s: State, n: nat, now: int): State
    decreases n
  {
    if n == 0 then s else Ticks(TickStep(s, false, now), n - 1, now)
  }

  function Step(s: State, e: Event): State
    requires Enabled(s, e)
  {
    match e
    case Start => if s.stopped then s.(stopped := false, timer := true, listeners := s.listeners + 1) else s
    case Stop => s.(stopped := true, timer := false)
    case Interval(now) => TickStep(s, false, now)
    case Resume(now) => Ticks(s, s.listeners, now)
    case SyncNow(now) => TickStep(s, true, now)
    case CycleEnds(now) =>
      var settled := s.(inFlight := s.inFlight - 1);
      if s.pending && !s.stopped then BeginCycle(settled, now) else settled.(running := false)
  }

  /** A timer fires while it is set; a cycle settles while one is awaited. */
  predicate Enabled(s: State, e: Event) {
    match e
    case Interval(_) => s.timer
    case CycleEnds(_) => s.inFlight > 0
    case _ => true
  }

  /** Every event can happen in the state it finds. */
  predicate Happens(s: State, es: seq<Event>)
    decreases |es|
  {
    es == [] || (Enabled(s, es[0]) && Happens(Step(s, es[0]), es[1..]))
  }

  function After(s: State, es: seq<Event>): State
    requires Happens(s, es)
    decreases |es|
  {
    if es == [] then s else After(Step(s, es[0]), es[1..])
  }

  // ------------------------------------------------------------------ the class

  class Scheduler {
    var running: bool
    var stopped: bool
    var pending: bool
    var lastRunAt: int
    var timer: bool
    var listeners: nat
    ghost var inFlight: nat
    ghost var starts: seq<int>

    constructor ()
      ensures View() == INITIAL
    {
      running, stopped, pending, lastRunAt, timer, listeners := false, true, false, 0, false, 0;
      inFlight, starts := 0, [];
    }

    ghost function View(): State
      reads this
    {
      State(running, pending, stopped, timer, listeners, lastRunAt, inFlight, starts)
    }

    method Start()
      modifies this
      ensures View() == Step(old(View()), Event.Start)
    {
      if !stopped {
        return;
      }
      stopped := false;
      timer := true;
      listeners := listeners + 1;
    }

    method Stop()
      modifies this
      ensures View() == Step(old(View()), Event.Stop)
    {
      stopped := true;
      timer := false;
    }

    /** Calls `runCycle`; what comes back is awaited. */
    method Begin(now: int)
      modifies this
      ensures View() == BeginCycle(old(View()), now)
    {
      running := true;
      pending := false;
      lastRunAt := now;
      inFlight := inFlight + 1;
      starts := starts + [now];
    }

    method Tick(manual: bool, now: int)
      modifies this
      ensures View() == TickStep(old(View()), manual, now)
    {
      if stopped && !manual {
        return;
      }
      if running {
        pending := true;
        return;
      }
      Begin(now);
    }

    method OnResume(now: int)
      modifies this
      ensures View() == Step(old(View()), Resume(now))
    {
      for i := 0 to listeners
        invariant listeners == old(listeners)
        invariant Ticks(View(), listeners - i, now) == Ticks(old(View()), old(listeners), now)
      {
        Tick(false, now);
      }
    }

    /** The reporter is called if there is one, and what it throws goes no further. */
    method Report(hasReporter: bool, reporterThrows: bool) returns (swallowed: bool)
      ensures swallowed <==> hasReporter && reporterThrows
    {
      swallowed := false;
      if !hasReporter {
        return;
      }
      swallowed := reporterThrows;
    }

    /** The awaited cycle settled: the same next step whether it threw, and whether reporting it threw. */
    method CycleSettled(threw: bool, hasReporter: bool, reporterThrows: bool, now: int)
      requires inFlight > 0
      modifies this
      ensures View() == Step(old(View()), CycleEnds(now))
    {
      inFlight := inFlight - 1;
      if threw {
        var _ := Report(hasReporter, reporterThrows);
      }
      if pending && !stopped {
        Begin(now);
      } else {
        running := false;
      }
    }
  }

  // ------------------------------------------------------------------ one cycle at a time

  ghost predicate Inv(s: State) {
    && s.inFlight == (if s.running then 1 else 0)
    && (s.timer <==> !s.stopped)
    && (!s.stopped ==> s.listeners > 0)
  }

  lemma {:induction false} TicksKeep(s: State, n: nat, now: int)
    requires Inv(s)
    ensures var u := Ticks(s, n, now);
            && Inv(u) && u.stopped == s.stopped && u.listeners == s.listeners && u.timer == s.timer
            && s.starts <= u.starts
    ensures s.running ==> Ticks(s, n, now) == s.(pending := s.pending || (n > 0 && !s.stopped))
    decreases n
  {
    if n > 0 {
      TicksKeep(TickStep(s, false, now), n - 1, now);
    }
  }

  lemma {:induction false} StepKeepsInv(s: State, e: Event)
    requires Inv(s) && Enabled(s, e)
    ensures Inv(Step(s, e)) && s.starts <= Step(s, e).starts
  {
    if e.Resume? {
      TicksKeep(s, s.listeners, e.now);
    }
  }

  lemma {:induction false} RunKeepsInv(s: State, es: seq<Event>)
    requires Inv(s) && Happens(s, es)
    ensures Inv(After(s, es)) && s.starts <= After(s, es).starts
    decreases |es|
  {
    if es != [] {
      StepKeepsInv(s, es[0]);
      RunKeepsInv(Step(s, es[0]), es[1..]);
    }
  }

  /** However ticks, starts, stops and settling cycles are ordered, at most one cycle is in flight. */
  lemma {:induction false} AtMostOneInFlight(es: seq<Event>)
    requires Happens(INITIAL, es)
    ensures After(INITIAL, es).inFlight <= 1
    ensures After(INITIAL, es).running <==> After(INITIAL, es).inFlight == 1
  {
    RunKeepsInv(INITIAL, es);
  }

  // ------------------------------------------------------------------ bursts collapse

  /** The event is a tick the scheduler listens to. */
  predicate Asks(s: State, e: Event) {
    match e
    case Interval(_) => !s.stopped
    case Resume(_) => !s.stopped && s.listeners > 0
    case SyncNow(_) => true
    case _ => false
  }

  /** Some event of the run was a tick the scheduler listened to. */
  predicate AnyAsks(s: State, es: seq<Event>)
    requires Happens(s, es)
    decreases |es|
  {
    es != [] && (Asks(s, es[0]) || AnyAsks(Step(s, es[0]), es[1..]))
  }

  predicate NoneEnd(es: seq<Event>) {
    forall i | 0 <= i < |es| :: !es[i].CycleEnds?
  }

  predicate NoneStop(es: seq<Event>) {
    forall i | 0 <= i < |es| :: !es[i].Stop?
  }

  lemma {:induction false} BurstIsRemembered(s: State, es: seq<Event>)
    requires Inv(s) && s.running && Happens(s, es) && NoneEnd(es)
    ensures var t := After(s, es);
            t.running && t.starts == s.starts && t.inFlight == 1 && (t.pending <==> s.pending || AnyAsks(s, es))
    decreases |es|
  {
    if es != [] {
      StepKeepsInv(s, es[0]);
      if es[0].Resume? {
        TicksKeep(s, s.listeners, es[0].now);
      }
      BurstIsRemembered(Step(s, es[0]), es[1..]);
    }
  }

  /**
   * Whatever happens during a cycle, when it settles exactly one further cycle starts if a tick was
   * wanted and the scheduler is not stopped by then, and otherwise none does.
   */
  lemma {:induction false} BurstCollapses(s: State, es: seq<Event>, now: int)
    requires Inv(s) && s.running && Happens(s, es) && NoneEnd(es)
    ensures var t := After(s, es);
            && Enabled(t, CycleEnds(now))
            && var u := Step(t, CycleEnds(now));
               if (s.pending || AnyAsks(s, es)) && !t.stopped
               then u.starts == s.starts + [now] && u.running && !u.pending
               else u.starts == s.starts && !u.running
  {
    BurstIsRemembered(s, es);
  }

  /** A manual sync asked for after a stop is dropped with the cycle it waited for. */
  lemma {:induction false} ManualSyncAfterStopIsDropped()
    ensures var es := [Start, Interval(1), Stop, SyncNow(2), CycleEnds(3)];
            Happens(INITIAL, es) && After(INITIAL, es).starts == [1] && !After(INITIAL, es).running
  {
    var s1 := Step(INITIAL, Start);
    var s2 := Step(s1, Interval(1));
    var s3 := Step(s2, Stop);
    var s4 := Step(s3, SyncNow(2));
    var s5 := Step(s4, CycleEnds(3));
    OneEvent(s4, CycleEnds(3), []);
    OneEvent(s3, SyncNow(2), [CycleEnds(3)]);
    OneEvent(s2, Stop, [SyncNow(2), CycleEnds(3)]);
    OneEvent(s1, Interval(1), [Stop, SyncNow(2), CycleEnds(3)]);
    OneEvent(INITIAL, Start, [Interval(1), Stop, SyncNow(2), CycleEnds(3)]);
  }

  lemma {:induction false} OneEvent(s: State, e: Event, es: seq<Event>)
    requires Enabled(s, e) && Happens(Step(s, e), es)
    ensures Happens(s, [e] + es) && After(s, [e] + es) == After(Step(s, e), es)
  {
    assert ([e] + es)[1..] == es;
  }

  // ------------------------------------------------------------------ every tick is served

  function TimeOf(e: Event): int
    requires e.Interval? || e.Resume? || e.SyncNow? || e.CycleEnds?
  {
    e.now
  }

  predicate NoEarlier(es: seq<Event>, t: int) {
    forall i | 0 <= i < |es| && !es[i].Start? && !es[i].Stop? :: TimeOf(es[i]) >= t
  }

  ghost predicate StartedSince(s: State, u: State, t: int) {
    exists k | |s.starts| <= k < |u.starts| :: u.starts[k] >= t
  }

  lemma {:induction false} PendingIsServed(s: State, es: seq<Event>, t: int)
    requires Inv(s) && s.running && s.pending && !s.stopped
    requires Happens(s, es) && NoneStop(es) && !NoneEnd(es) && NoEarlier(es, t)
    ensures StartedSince(s, After(s, es), t)
    decreases |es|
  {
    var u := Step(s, es[0]);
    StepKeepsInv(s, es[0]);
    if es[0].CycleEnds? {
      assert u.starts == s.starts + [es[0].now];
      RunKeepsInv(u, es[1..]);
      assert After(s, es).starts[|s.starts|] == u.starts[|s.starts|] == es[0].now;
    } else {
      if es[0].Resume? {
        TicksKeep(s, s.listeners, es[0].now);
      }
      assert es == [es[0]] + es[1..];
      PendingIsServed(u, es[1..], t);
    }
  }

  /**
   * A tick that finds no cycle running gets one at once, a manual one even while stopped, whatever follows; a tick that
   * finds one running gets a cycle that starts no earlier than it once that one settles, if no stop is in effect.
   */
  lemma {:induction false} TickIsServed(s: State, e: Event, es: seq<Event>)
    requires Inv(s) && Enabled(s, e) && Asks(s, e) && Happens(Step(s, e), es)
    requires s.running ==> !s.stopped && NoneStop(es) && !NoneEnd(es) && NoEarlier(es, TimeOf(e))
    ensures StartedSince(s, After(Step(s, e), es), TimeOf(e))
  {
    var u := Step(s, e);
    StepKeepsInv(s, e);
    RunKeepsInv(u, es);
    if s.running {
      if e.Resume? {
        TicksKeep(s, s.listeners, e.now);
      }
      PendingIsServed(u, es, TimeOf(e));
    } else {
      if e.Resume? {
        TicksKeep(BeginCycle(s, e.now), s.listeners - 1, e.now);
      }
      assert u.starts[|s.starts|] == e.now;
      assert After(u, es).starts[|s.starts|] == e.now;
    }
  }

  // ------------------------------------------------------------------ waking up

  /** How often the scheduler went from stopped to started. */
  function Restarts(s: State, es: seq<Event>): nat
    requires Happens(s, es)
    decreases |es|
  {
    if es == [] then 0 else (if es[0].Start? && s.stopped then 1 else 0) + Restarts(Step(s, es[0]), es[1..])
  }

  lemma {:induction false} ListenersPileUp(s: State, es: seq<Event>)
    requires Inv(s) && Happens(s, es)
    ensures After(s, es).listeners == s.listeners + Restarts(s, es)
    decreases |es|
  {
    if es != [] {
      StepKeepsInv(s, es[0]);
      if es[0].Resume? {
        TicksKeep(s, s.listeners, es[0].now);
      }
      ListenersPileUp(Step(s, es[0]), es[1..]);
    }
  }

  /**
   * Waking an idle scheduler runs exactly one cycle if and only if it was started only once: every
   * later start registers its wake-up listener again, and the second one asks for a second cycle.
   */
  lemma {:induction false} ResumeRunsOnceExactlyIfStartedOnce(es: seq<Event>, now: int, later: int)
    requires Happens(INITIAL, es)
    requires var s := After(INITIAL, es); !s.running && !s.stopped
    ensures var s := After(INITIAL, es); var u := Step(s, Resume(now));
            && u.starts == s.starts + [now] && Enabled(u, CycleEnds(later))
            && (Step(u, CycleEnds(later)).starts == u.starts <==> Restarts(INITIAL, es) == 1)
  {
    var s := After(INITIAL, es);
    RunKeepsInv(INITIAL, es);
    ListenersPileUp(INITIAL, es);
    TicksKeep(BeginCycle(s, now), s.listeners - 1, now);
  }

  /** Started, stopped and started again: two listeners. */
  const STARTED_TWICE := State(false, false, false, true, 2, 0, 0, [])

  lemma {:induction false} StartsTwice()
    ensures Happens(INITIAL, [Start, Stop, Start]) && After(INITIAL, [Start, Stop, Start]) == STARTED_TWICE
    ensures Restarts(INITIAL, [Start, Stop, Start]) == 2
  {
    var s1 := Step(INITIAL, Start);
    var s2 := Step(s1, Stop);
    OneEvent(s2, Start, []);
    OneEvent(s1, Stop, [Start]);
    OneEvent(INITIAL, Start, [Stop, Start]);
    assert [Start] + [Stop, Start] == [Start, Stop, Start] && [Stop] + [Start] == [Stop, Start];
    assert [Start, Stop, Start][1..] == [Stop, Start] && [Stop, Start][1..] == [Start] && [Start][1..] == [];
    assert Restarts(s2, [Start]) == 1 + Restarts(Step(s2, Start), []);
    assert Restarts(s1, [Stop, Start]) == Restarts(s2, [Start]);
  }

  lemma {:induction false} WakesTwice()
    ensures Happens(STARTED_TWICE, [Resume(1), CycleEnds(2)])
    ensures After(STARTED_TWICE, [Resume(1), CycleEnds(2)]).starts == [1, 2]
  {
    var s := STARTED_TWICE;
    var once := TickStep(s, false, 1);
    assert Ticks(s, 2, 1) == Ticks(once, 1, 1) && Ticks(once, 1, 1) == Ticks(TickStep(once, false, 1), 0, 1);
    var woken := Step(s, Resume(1));
    assert woken == once.(pending := true);
    assert Step(woken, CycleEnds(2)).starts == [1] + [2];
    OneEvent(woken, CycleEnds(2), []);
    OneEvent(s, Resume(1), [CycleEnds(2)]);
    assert [Resume(1)] + [CycleEnds(2)] == [Resume(1), CycleEnds(2)];
  }

  /** Such a scheduler wakes up to two cycles, where the source's comment promises one. */
  lemma {:induction false} StartedTwiceWakesTwice()
    ensures var es := [Start, Stop, Start];
            && Happens(INITIAL, es) && Restarts(INITIAL, es) == 2
            && var s := After(INITIAL, es);
               && !s.running && !s.stopped && s.starts == []
               && Happens(s, [Resume(1), CycleEnds(2)]) && After(s, [Resume(1), CycleEnds(2)]).starts == [1, 2]
  {
    StartsTwice();
    WakesTwice();
  }
}
