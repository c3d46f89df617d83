/** Replay safety with two clocks (packages/protocol/src/signing.ts, apps/server/src/db.ts), handlers interleaving. */
module Replay {
  import opened Wrappers
  import opened Signing
  import opened Door

  // The function's clock decides the skew window, the database's when a spent nonce may be swept.

  /** What one signature covers, as far as replay is concerned. */
  datatype Signed = Signed(device: string, timestamp: int, nonce: string)

  /** A request that passed the skew check when the function's clock read `checkedAt`. */
  datatype InFlight = InFlight(signed: Signed, checkedAt: int)

  datatype State = State(nonces: map<NonceKey, int>, inFlight: set<InFlight>, accepted: multiset<Signed>, dbNow: int)

  datatype Step =
    | CheckSkew(request: InFlight)
    | Sweep(device: string, dbNow: int)
    | Spend(request: InFlight, dbNow: int)

  ghost predicate Enabled(s: State, step: Step) {
    match step
    case CheckSkew(r) => InSkew(r.checkedAt, r.signed.timestamp)
    case Sweep(_, now) => s.dbNow <= now
    case Spend(r, now) => r in s.inFlight && s.dbNow <= now
  }

  ghost function Apply(s: State, step: Step): State
    requires Enabled(s, step)
  {
    match step
    case CheckSkew(r) => s.(inFlight := s.inFlight + {r})
    case Sweep(device, now) => s.(nonces := SweepNonces(s.nonces, device, now), dbNow := now)
    case Spend(r, now) =>
      var (t, unseen) := Remember(Tables([], s.nonces), r.signed.device, r.signed.nonce, ExpiryOf(r.signed.timestamp));
      s.(nonces := t.nonces, dbNow := now, accepted := if unseen then s.accepted + multiset{r.signed} else s.accepted)
  }

  /**
   * The two clocks agree well enough, handler delay included: when a nonce is spent, the database's
   * clock is at most `slack` past the function's reading that passed the skew check.
   */
  ghost predicate Within(slack: int, step: Step) {
    step.Spend? ==> step.dbNow - step.request.checkedAt <= slack
  }

  ghost function Run(slack: int, s: State, steps: seq<Step>): Option<State>
    decreases |steps|
  {
    if steps == [] then Some(s)
    else if Enabled(s, steps[0]) && Within(slack, steps[0]) then Run(slack, Apply(s, steps[0]), steps[1..])
    else None
  }

  /**
   * Every acceptance is remembered until no clock within the slack could pass it again: its nonce
   * is in the table, or it expired longer ago than the retention. A row in the table carries the
   * expiry of every acceptance of its nonce that is still that recent.
   */
  ghost predicate Remembered(s: State) {
    && (forall r | r in s.inFlight :: InSkew(r.checkedAt, r.signed.timestamp))
    && (forall a | a in s.accepted ::
          && s.accepted[a] == 1
          && (ExpiryOf(a.timestamp) + NONCE_RETENTION_MS >= s.dbNow ==>
                (a.device, a.nonce) in s.nonces && s.nonces[(a.device, a.nonce)] == ExpiryOf(a.timestamp)))
  }

  lemma {:induction false} StepRemembers(s: State, step: Step)
    requires Remembered(s) && Enabled(s, step) && Within(NONCE_RETENTION_MS, step)
    ensures Remembered(Apply(s, step))
  {
  }

  /**
   * Each signed request is accepted at most once, over any interleaving of handlers and sweeps:
   * deleting an expired nonce never reopens the skew window, as long as the database's clock is
   * monotone and within the retention of the clock that checked the skew.
   */
  lemma {:induction false} AcceptedAtMostOnce(s: State, steps: seq<Step>, request: Signed)
    requires Remembered(s) && Run(NONCE_RETENTION_MS, s, steps).Some?
    ensures Run(NONCE_RETENTION_MS, s, steps).value.accepted[request] <= 1
    decreases |steps|
  {
    if steps != [] {
      StepRemembers(s, steps[0]);
      AcceptedAtMostOnce(Apply(s, steps[0]), steps[1..], request);
    } else {
      assert s.accepted[request] == 0 || request in s.accepted;
    }
  }

  /** One millisecond more of slack and the same request can be accepted twice. */
  lemma {:induction false} OneMillisecondMoreAcceptsTwice()
    ensures var s := State(map[], {}, multiset{}, 0);
            var request := Signed("device", 0, "nonce");
            var r := InFlight(request, MAX_CLOCK_SKEW_MS);
            var late := MAX_CLOCK_SKEW_MS + NONCE_RETENTION_MS + 1;
            var steps := [CheckSkew(r), Spend(r, MAX_CLOCK_SKEW_MS), Sweep("device", late), Spend(r, late)];
            && Remembered(s)
            && Run(NONCE_RETENTION_MS + 1, s, steps).Some?
            && Run(NONCE_RETENTION_MS + 1, s, steps).value.accepted[request] == 2
  {
    var s := State(map[], {}, multiset{}, 0);
    var request := Signed("device", 0, "nonce");
    var r := InFlight(request, MAX_CLOCK_SKEW_MS);
    var late := MAX_CLOCK_SKEW_MS + NONCE_RETENTION_MS + 1;
    var steps := [CheckSkew(r), Spend(r, MAX_CLOCK_SKEW_MS), Sweep("device", late), Spend(r, late)];
    var slack := NONCE_RETENTION_MS + 1;
    var s1 := Apply(s, steps[0]);
    var s2 := Apply(s1, steps[1]);
    var s3 := Apply(s2, steps[2]);
    assert s3.nonces == map[];
    var s4 := Apply(s3, steps[3]);
    assert steps[3..][1..] == [] && steps[2..][1..] == steps[3..] && steps[1..][1..] == steps[2..];
    assert Run(slack, s3, steps[3..]) == Run(slack, s4, []);
    assert Run(slack, s2, steps[2..]) == Run(slack, s3, steps[3..]);
    assert Run(slack, s1, steps[1..]) == Run(slack, s2, steps[2..]);
    assert Run(slack, s, steps) == Run(slack, s1, steps[1..]);
  }
}
