/**
 * The unlock session (apps/bridge/src/main/session.ts). Attempts are queued one behind the other, so
 * an attempt is one step; opening the wrapped key and every store are what the attempt meets.
 */
module Session {
  import opened Wrappers
  import opened Seqs
  import opened Bytes

  const IDLE_MS := 900_000
  const MAX_FAILURES: nat := 5
  const COOLDOWN_MS := 15_000
  const MAX_PASSPHRASE_LENGTH: nat := 1024

  datatype Problem = CoolingDown | NoKeyHere | KeyDamaged | MemoryDamaged | NotSafeToUse | MemoryNotSaved

  datatype Stored = NoBlob | BadBlob | Blob

  datatype Opened = WrongPassphrase | UnsafeRoster | Identity(secretKey: array<byte>)

  // ------------------------------------------------------------------ the throttle on values

  /** What an attempt met, in the order it is asked. */
  datatype Outcome = Malformed | StoredKey(problem: Problem) | Memory | Wrong | Unsafe | Unsaved | Success

  /** `at` is the clock when an attempt is checked or the session locked, `settledAt` when a failure is counted. */
  datatype Event =
    | Attempt(at: int, settledAt: int, outcome: Outcome)
    | Lock(at: int, settledAt: int)

  datatype State = State(unlocked: bool, failures: nat, cooldownUntil: int)

  datatype Verdict = AlreadyOpen | Refused | Failed | Unlocked | Locked

  function VerdictOf(s: State, e: Event): Verdict {
    if e.Lock? then Locked
    else if s.unlocked then AlreadyOpen
    else if e.at < s.cooldownUntil then Refused
    else if e.outcome.Success? then Unlocked
    else Failed
  }

  function CountFailure(s: State, now: int): State {
    if s.failures + 1 >= MAX_FAILURES then s.(cooldownUntil := now + COOLDOWN_MS, failures := 0)
    else s.(failures := s.failures + 1)
  }

  function Step(s: State, e: Event): State {
    match VerdictOf(s, e)
    case AlreadyOpen => s
    case Refused => s
    case Failed => CountFailure(s, e.settledAt)
    case Unlocked => State(true, 0, 0)
    case Locked => s.(unlocked := false)
  }

  /** The key derivation is reached. */
  predicate Derives(s: State, e: Event) {
    && e.Attempt? && !s.unlocked && e.at >= s.cooldownUntil
    && (e.outcome.Wrong? || e.outcome.Unsafe? || e.outcome.Unsaved? || e.outcome.Success?)
  }

  function After(s: State, events: seq<Event>): State {
    if events == [] then s else Step(After(s, Init(events)), Last(events))
  }

  /** When the failures of a run were counted. */
  function FailureTimes(s: State, events: seq<Event>): seq<int> {
    if events == [] then []
    else
      FailureTimes(s, Init(events)) +
      if VerdictOf(After(s, Init(events)), Last(events)).Failed? then [Last(events).settledAt] else []
  }

  /** The clock never goes back, within an attempt or from one to the next. */
  predicate ClockForward(events: seq<Event>) {
    && (forall i | 0 <= i < |events| :: events[i].at <= events[i].settledAt)
    && (forall i | 0 < i < |events| :: events[i - 1].settledAt <= events[i].at)
  }

  /** A stretch in which nothing was unlocked. */
  predicate NoSuccess(s: State, events: seq<Event>) {
    events == [] ||
    (NoSuccess(s, Init(events)) &&
     !VerdictOf(After(s, Init(events)), Last(events)).Unlocked? &&
     !VerdictOf(After(s, Init(events)), Last(events)).AlreadyOpen?)
  }

  /** Any six failures in a row span a whole cool-down. */
  predicate Spread(times: seq<int>) {
    forall i | 0 <= i && i + 5 < |times| :: times[i] + 15_000 <= times[i + 5]
  }

  /** All but the failures still being counted are a cool-down before the next attempt that is let through. */
  ghost predicate Throttled(s: State, times: seq<int>, clock: int) {
    && s.failures < MAX_FAILURES
    && (forall i, j | 0 <= i < j < |times| :: times[i] <= times[j])
    && (forall i | 0 <= i < |times| :: times[i] <= clock)
    && (forall i | 0 <= i < |times| - s.failures :: times[i] + COOLDOWN_MS <= s.cooldownUntil)
    && Spread(times)
  }

  lemma {:induction false} FailureKeepsThrottled(s: State, times: seq<int>, clock: int, e: Event)
    requires Throttled(s, times, clock) && clock <= e.at <= e.settledAt && e.at >= s.cooldownUntil
    ensures Throttled(CountFailure(s, e.settledAt), times + [e.settledAt], e.settledAt)
  {
    var more := times + [e.settledAt];
    forall i | 0 <= i && i + MAX_FAILURES < |more|
      ensures more[i] + COOLDOWN_MS <= more[i + MAX_FAILURES]
    {
      if i + MAX_FAILURES < |times| {
        assert more[i] == times[i];
      } else {
        assert i < |times| - s.failures;
      }
    }
  }

  lemma {:induction false} StretchIsThrottled(s: State, events: seq<Event>)
    requires s.failures < MAX_FAILURES && ClockForward(events) && NoSuccess(s, events) && events != []
    ensures Throttled(After(s, events), FailureTimes(s, events), Last(events).settledAt)
    decreases |events|
  {
    var before, e := Init(events), Last(events);
    var mid, times := After(s, before), FailureTimes(s, before);
    assert forall i | 0 <= i < |before| :: before[i] == events[i];
    if before == [] {
      assert Throttled(mid, times, e.at);
    } else {
      StretchIsThrottled(s, before);
      assert events[|events| - 2] == Last(before);
      assert Throttled(mid, times, e.at);
    }
    if VerdictOf(mid, e).Failed? {
      FailureKeepsThrottled(mid, times, e.at, e);
    } else {
      assert times + [] == times;
    }
  }

  /** How many of the times are in the half-open window from `from`. */
  function InWindow(times: seq<int>, from: int): nat {
    if times == [] then 0
    else InWindow(Init(times), from) + if from <= Last(times) < from + 15_000 then 1 else 0
  }

  lemma {:induction false} WindowHoldsFew(times: seq<int>, from: int)
    requires (forall i, j | 0 <= i < j < |times| :: times[i] <= times[j]) && Spread(times)
    ensures InWindow(times, from) <= 5
    decreases |times|
  {
    if times != [] {
      WindowHoldsFew(Init(times), from);
      if from <= Last(times) < from + COOLDOWN_MS {
        WindowIsTail(times, from, |times|);
        assert times[..|times|] == times;
      }
    }
  }

  /** Counting back from the end of the window, what is in it is a stretch of fewer than six. */
  lemma {:induction false} WindowIsTail(times: seq<int>, from: int, n: nat)
    requires (forall i, j | 0 <= i < j < |times| :: times[i] <= times[j]) && Spread(times)
    requires n <= |times| && times != [] && Last(times) < from + COOLDOWN_MS
    ensures InWindow(times[..n], from) <= if n + MAX_FAILURES <= |times| then 0 else n + MAX_FAILURES - |times|
    decreases n
  {
    if n > 0 {
      WindowIsTail(times, from, n - 1);
      assert Init(times[..n]) == times[..n - 1] && Last(times[..n]) == times[n - 1];
      if n - 1 + MAX_FAILURES < |times| {
        assert times[n - 1] + COOLDOWN_MS <= times[n - 1 + MAX_FAILURES] <= Last(times);
      }
    }
  }

  /** With no success in between, no half-open window of the cool-down length holds more than five counted failures. */
  lemma {:induction false} GuessesAreThrottled(s: State, events: seq<Event>, from: int)
    requires s.failures < MAX_FAILURES && ClockForward(events) && NoSuccess(s, events)
    ensures InWindow(FailureTimes(s, events), from) <= 5
  {
    if events != [] {
      StretchIsThrottled(s, events);
      WindowHoldsFew(FailureTimes(s, events), from);
    }
  }

  /** In any run at all the counter stays below the limit, so every stretch starts below it. */
  lemma {:induction false} CounterStaysBelow(s: State, events: seq<Event>)
    requires s.failures < 5
    ensures After(s, events).failures < 5
  {
    if events != [] {
      CounterStaysBelow(s, Init(events));
    }
  }

  const NEW: State := State(false, 0, 0)

  /** How many failures there have been in a row, since the last unlocking or the last fifth. */
  function InARow(events: seq<Event>): nat {
    if events == [] then 0
    else
      match VerdictOf(After(NEW, Init(events)), Last(events))
      case Failed => if InARow(Init(events)) == 4 then 0 else InARow(Init(events)) + 1
      case Unlocked => 0
      case _ => InARow(Init(events))
  }

  /** The counter is that number, after every run. */
  lemma {:induction false} CounterIsInARow(events: seq<Event>)
    ensures After(NEW, events).failures == InARow(events) < 5
  {
    if events != [] {
      CounterIsInARow(Init(events));
    }
  }

  /** The failure that makes five in a row. */
  predicate FifthAt(events: seq<Event>, i: int)
    requires 0 <= i < |events|
  {
    VerdictOf(After(NEW, events[..i]), events[i]).Failed? && InARow(events[..i]) == 4
  }

  /** At time `t` some fifth failure of the run is less than a cool-down back. */
  predicate ShutOut(events: seq<Event>, t: int) {
    exists i | 0 <= i < |events| :: FifthAt(events, i) && t < events[i].settledAt + 15_000
  }

  lemma {:induction false} FifthAtEarlier(events: seq<Event>, i: int)
    requires 0 <= i < |events| - 1
    ensures Init(events)[i] == events[i] && (FifthAt(Init(events), i) <==> FifthAt(events, i))
  {
    assert Init(events)[..i] == events[..i];
  }

  /** One more event shuts out whatever was shut out before it, and after a fifth failure a whole cool-down. */
  lemma {:induction false} ShutOutOneMore(events: seq<Event>, t: int)
    requires events != []
    ensures var e := Last(events);
            ShutOut(events, t) <==>
            ShutOut(Init(events), t) || (FifthAt(events, |events| - 1) && t < e.settledAt + 15_000)
  {
    if ShutOut(Init(events), t) {
      var i :| 0 <= i < |Init(events)| && FifthAt(Init(events), i) && t < Init(events)[i].settledAt + COOLDOWN_MS;
      FifthAtEarlier(events, i);
    }
    if ShutOut(events, t) {
      var i :| 0 <= i < |events| && FifthAt(events, i) && t < events[i].settledAt + COOLDOWN_MS;
      if i < |events| - 1 {
        FifthAtEarlier(events, i);
      }
    }
  }

  /** Later times are shut out less. */
  lemma {:induction false} ShutOutEarlier(events: seq<Event>, t: int, u: int)
    requires ShutOut(events, u) && t <= u
    ensures ShutOut(events, t)
  {
    var i :| 0 <= i < |events| && FifthAt(events, i) && u < events[i].settledAt + COOLDOWN_MS;
  }

  /** No fifth failure is later than the clock. */
  lemma {:induction false} ShutOutEnds(events: seq<Event>, t: int, u: int)
    requires ClockForward(events) && ShutOut(events, t)
    requires events != [] ==> Last(events).settledAt <= u
    ensures t < u + COOLDOWN_MS
    decreases |events|
  {
    ShutOutOneMore(events, t);
    if ShutOut(Init(events), t) {
      ForwardBefore(events);
      ShutOutEnds(Init(events), t, u);
    }
  }

  lemma {:induction false} ForwardBefore(events: seq<Event>)
    requires events != [] && ClockForward(events)
    ensures ClockForward(Init(events))
    ensures |events| > 1 ==> Last(Init(events)).settledAt <= Last(events).at <= Last(events).settledAt
  {
    assert forall i | 0 <= i < |Init(events)| :: Init(events)[i] == events[i];
  }

  /** The cool-down on record is that of the last fifth failure, and nothing can have been unlocked during it. */
  lemma {:induction false} CooldownIsShutOut(events: seq<Event>, t: int)
    requires ClockForward(events) && 0 <= t
    requires events != [] ==> 0 <= events[0].at && Last(events).settledAt <= t
    ensures t < After(NEW, events).cooldownUntil <==> ShutOut(events, t)
    decreases |events|
  {
    if events != [] {
      var before, e := Init(events), Last(events);
      ForwardBefore(events);
      StartsAtZero(events);
      CooldownIsShutOut(before, t);
      CooldownIsShutOut(before, e.at);
      CounterIsInARow(before);
      ShutOutOneMore(events, t);
      assert events[..|events| - 1] == before;
      if ShutOut(before, t) {
        ShutOutEarlier(before, e.at, t);
        ShutOutEnds(before, t, e.at);
      }
    }
  }

  lemma {:induction false} StartsAtZero(events: seq<Event>)
    requires events != [] && ClockForward(events) && 0 <= events[0].at
    ensures 0 <= Last(events).at
    decreases |events|
  {
    if |events| > 1 {
      ForwardBefore(events);
      StartsAtZero(Init(events));
    }
  }

  /**
   * Over every run from a new session, unlocking and locking included: an attempt is turned away unexamined if and
   * only if a fifth failure in a row was counted less than a cool-down before it, and then no key is derived.
   */
  lemma {:induction false} ShutOutExactlyAfterFive(events: seq<Event>, e: Event)
    requires ClockForward(events + [e]) && 0 <= (events + [e])[0].at && e.Attempt?
    ensures VerdictOf(After(NEW, events), e).Refused? <==> ShutOut(events, e.at)
    ensures ShutOut(events, e.at) ==> !Derives(After(NEW, events), e) && After(NEW, events + [e]) == After(NEW, events)
  {
    var more := events + [e];
    assert Init(more) == events && Last(more) == e;
    ForwardBefore(more);
    StartsAtZero(more);
    assert events != [] ==> events[0] == more[0];
    CooldownIsShutOut(events, e.at);
    if e.at < After(NEW, events).cooldownUntil {
      CoolingIsLocked(events);
    }
  }

  /** While a cool-down is on record the session is locked. */
  lemma {:induction false} CoolingIsLocked(events: seq<Event>)
    ensures After(NEW, events).unlocked ==> After(NEW, events).cooldownUntil == 0
    decreases |events|
  {
    if events != [] {
      CoolingIsLocked(Init(events));
    }
  }

  // ------------------------------------------------------------------ the class

  predicate Zeroed(bytes: seq<byte>) {
    forall i | 0 <= i < |bytes| :: bytes[i] == 0
  }

  /** What was typed can be a passphrase at all. */
  predicate Typed(passphrase: Option<string>) {
    passphrase.Some? && 0 < |passphrase.value| <= 1024
  }

  class UnlockSession {
    var key: array?<byte>
    /** When the idle timer fires. */
    var idleAt: Option<int>
    var failures: nat
    var cooldownUntil: int
    var lastProblem: Option<Problem>

    /** A timer runs exactly while a key is held. */
    ghost predicate Valid()
      reads this
    {
      (key == null <==> idleAt.None?) && failures < MAX_FAILURES
    }

    ghost function View(): State
      reads this
    {
      State(key != null, failures, cooldownUntil)
    }

    constructor ()
      ensures Valid() && View() == State(false, 0, 0) && lastProblem == None
    {
      key, idleAt, failures, cooldownUntil, lastProblem := null, None, 0, 0, None;
    }

    method ArmIdleTimer(now: int)
      modifies this`idleAt
      ensures idleAt == Some(now + IDLE_MS)
    {
      idleAt := Some(now + IDLE_MS);
    }

    method Fail(problem: Option<Problem>, now: int) returns (ok: bool)
      requires Valid()
      modifies this`lastProblem, this`failures, this`cooldownUntil
      ensures !ok && Valid() && lastProblem == problem
      ensures View() == CountFailure(old(View()), now)
    {
      lastProblem := problem;
      failures := failures + 1;
      if failures >= MAX_FAILURES {
        cooldownUntil := now + COOLDOWN_MS;
        failures := 0;
      }
      ok := false;
    }

    method Wipe(bytes: array<byte>)
      modifies bytes
      ensures Zeroed(bytes[..])
    {
      for i := 0 to bytes.Length
        invariant forall j | 0 <= j < i :: bytes[j] == 0
      {
        bytes[i] := 0;
      }
    }

    /**
     * `passphrase` is none when what was passed is not a string. The two clocks are when the attempt
     * is checked and when its outcome is dealt with; `derived` says the key derivation was run.
     */
    method UnlockNow(passphrase: Option<string>, stored: Stored, memoryReads: bool, unwrapped: Opened, saves: bool,
                     checkedAt: int, settledAt: int)
      returns (ok: bool, derived: bool, ghost attempt: Event)
      requires Valid()
      modifies this, if unwrapped.Identity? then {unwrapped.secretKey} else {}
      ensures Valid() && attempt.Attempt? && attempt.at == checkedAt && attempt.settledAt == settledAt
      ensures View() == Step(old(View()), attempt)
      ensures ok <==> VerdictOf(old(View()), attempt).AlreadyOpen? || VerdictOf(old(View()), attempt).Unlocked?
      ensures derived <==> Derives(old(View()), attempt)
      ensures attempt.outcome.Success? <==>
                && Typed(passphrase)
                && stored.Blob? && memoryReads && unwrapped.Identity? && saves
      ensures VerdictOf(old(View()), attempt).Unlocked? ==>
                key == unwrapped.secretKey && idleAt == Some(settledAt + 900_000) && lastProblem == None
      ensures attempt.outcome.Unsaved? && derived ==> unwrapped.Identity? && Zeroed(unwrapped.secretKey[..])
      ensures old(key) != null ==> lastProblem == old(lastProblem)
      ensures old(key) == null && checkedAt < old(cooldownUntil) ==> lastProblem == Some(CoolingDown)
      ensures old(key) == null && checkedAt >= old(cooldownUntil) ==>
                && (!Typed(passphrase) ==> lastProblem == None)
                && (Typed(passphrase) && stored.NoBlob? ==> lastProblem == Some(NoKeyHere))
                && (Typed(passphrase) && stored.BadBlob? ==> lastProblem == Some(KeyDamaged))
                && (Typed(passphrase) && stored.Blob? && !memoryReads ==> lastProblem == Some(MemoryDamaged))
      ensures old(key) == null && checkedAt >= old(cooldownUntil)
              && Typed(passphrase) && stored.Blob? && memoryReads ==>
                && derived
                && (unwrapped.UnsafeRoster? ==> lastProblem == Some(NotSafeToUse))
                && (unwrapped.WrongPassphrase? ==> lastProblem == None)
                && (unwrapped.Identity? && !saves ==> lastProblem == Some(MemoryNotSaved))
                && (unwrapped.Identity? && saves ==> ok && lastProblem == None)
      ensures unwrapped.Identity? && (ok || !derived) ==> unwrapped.secretKey[..] == old(unwrapped.secretKey[..])
    {
      ghost var outcome :=
        if !Typed(passphrase) then Malformed
        else if stored.NoBlob? then StoredKey(NoKeyHere)
        else if stored.BadBlob? then StoredKey(KeyDamaged)
        else if !memoryReads then Memory
        else if unwrapped.WrongPassphrase? then Wrong
        else if unwrapped.UnsafeRoster? then Unsafe
        else if !saves then Unsaved
        else Success;
      attempt := Attempt(checkedAt, settledAt, outcome);
      derived := false;
      if key != null {
        return true, derived, attempt;
      }
      if checkedAt < cooldownUntil {
        lastProblem := Some(CoolingDown);
        return false, derived, attempt;
      }
      if passphrase.None? || |passphrase.value| == 0 || |passphrase.value| > MAX_PASSPHRASE_LENGTH {
        ok := Fail(None, settledAt);
        return;
      }
      if stored.NoBlob? {
        ok := Fail(Some(NoKeyHere), settledAt);
        return;
      }
      if stored.BadBlob? {
        ok := Fail(Some(KeyDamaged), settledAt);
        return;
      }
      if !memoryReads {
        ok := Fail(Some(MemoryDamaged), settledAt);
        return;
      }
      derived := true;
      if unwrapped.UnsafeRoster? {
        ok := Fail(Some(NotSafeToUse), settledAt);
        return;
      }
      if unwrapped.WrongPassphrase? {
        ok := Fail(None, settledAt);
        return;
      }
      if !saves {
        Wipe(unwrapped.secretKey);
        ok := Fail(Some(MemoryNotSaved), settledAt);
        return;
      }
      key := unwrapped.secretKey;
      failures := 0;
      cooldownUntil := 0;
      lastProblem := None;
      ArmIdleTimer(settledAt);
      ok := true;
    }

    /** Reading the open session counts as activity. */
    method Current(now: int) returns (open: array?<byte>)
      requires Valid()
      modifies this`idleAt
      ensures Valid() && open == key && View() == old(View())
      ensures idleAt == if key == null then None else Some(now + 900_000)
    {
      if key == null {
        return null;
      }
      ArmIdleTimer(now);
      return key;
    }

    /** Every holder of the key reads zeros from here on, and the throttle is untouched. */
    method Lock()
      requires Valid()
      modifies this`key, this`idleAt, if key == null then {} else {key}
      ensures Valid() && View() == old(View()).(unlocked := false) && idleAt == None
      ensures old(key) != null ==> Zeroed(old(key)[..])
    {
      idleAt := None;
      if key == null {
        return;
      }
      Wipe(key);
      key := null;
    }
  }
}
