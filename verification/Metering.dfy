/** What the rate limit bounds: attempts counted, requests admitted and nonce rows kept (apps/server/src/db.ts). */
module Metering {
  import opened Seqs
  import opened Wrappers
  import opened Signing
  import opened Door

  /**
   * What handlers do to the tables, statement by statement, in the order the database sees it: a request arriving, its
   * checks made and its slot reserved, or the nonce statement of the handler that arrived at an earlier step.
   */
  datatype Step =
    | Arrive(request: Request, world: World)
    | Spend(handler: nat, at: int)

  /** When the step's statement runs, by the database's clock. */
  function At(step: Step): int {
    match step
    case Arrive(_, w) => w.dbNow
    case Spend(_, at) => at
  }

  ghost function TablesAfter(steps: seq<Step>): Tables
    decreases |steps|
  {
    if steps == [] then Tables([], map[])
    else
      var t := TablesAfter(Init(steps));
      match Last(steps)
      case Arrive(r, w) => Arrived(t, r, w).0
      case Spend(h, _) =>
        if h < |Init(steps)| && Admits(Init(steps), h) then
          var r := Init(steps)[h].request;
          Remember(t, r.device.s, r.nonce.s, ExpiryOf(r.timestamp.value)).0
        else t
  }

  /** The handler that arrived at step `i` was admitted, and so may spend its nonce at any later step. */
  ghost predicate Admits(steps: seq<Step>, i: nat)
    requires i < |steps|
    ensures Admits(steps, i) ==> steps[i].Arrive? && Genuine(steps[i].request, steps[i].world)
    decreases |steps|
  {
    steps[i].Arrive? && Arrived(TablesAfter(steps[..i]), steps[i].request, steps[i].world).1.Admitted?
  }

  lemma {:induction false} AdmitsEarlier(steps: seq<Step>, i: nat)
    requires i < |steps| - 1
    ensures Admits(Init(steps), i) <==> Admits(steps, i)
  {
    assert Init(steps)[..i] == steps[..i];
  }

  /** The step got as far as the reservation, for this device and within these minutes. */
  ghost predicate Attempt(step: Step, device: string, lo: int, hi: int) {
    && step.Arrive?
    && Genuine(step.request, step.world) && step.request.device.s == device && device in step.world.tenants
    && lo <= MinuteOf(step.world.dbNow) <= hi
  }

  ghost function Attempts(steps: seq<Step>, device: string, lo: int, hi: int): nat {
    if steps == [] then 0
    else Attempts(Init(steps), device, lo, hi) + if Attempt(Last(steps), device, lo, hi) then 1 else 0
  }

  /** The last step is an attempt that the admission gate let past. */
  ghost predicate Admission(steps: seq<Step>, device: string, lo: int, hi: int)
    requires steps != []
  {
    Attempt(Last(steps), device, lo, hi) && Admits(steps, |steps| - 1)
  }

  ghost function Admissions(steps: seq<Step>, device: string, lo: int, hi: int): nat {
    if steps == [] then 0
    else Admissions(Init(steps), device, lo, hi) + if Admission(steps, device, lo, hi) then 1 else 0
  }

  /** The database clock does not run backwards. */
  ghost predicate InTime(steps: seq<Step>) {
    forall i, j | 0 <= i < j < |steps| :: At(steps[i]) <= At(steps[j])
  }

  function SumIn(bs: seq<Bucket>, device: string, lo: int, hi: int): nat {
    if bs == [] then 0
    else
      (if bs[0].device == device && lo <= bs[0].minute <= hi then bs[0].uploads else 0)
      + SumIn(bs[1..], device, lo, hi)
  }

  predicate OneRowPerMinute(bs: seq<Bucket>) {
    forall i, j | 0 <= i < j < |bs| :: bs[i].device != bs[j].device || bs[i].minute != bs[j].minute
  }

  lemma {:induction false} GcKeeps(bs: seq<Bucket>, device: string, now: int, d: string, lo: int, hi: int)
    requires lo * MINUTE_MS >= now - BUCKET_RETENTION_MS
    ensures SumIn(GcBuckets(bs, device, now), d, lo, hi) == SumIn(bs, d, lo, hi)
  {
    if bs != [] {
      GcKeeps(bs[1..], device, now, d, lo, hi);
    }
  }

  lemma {:induction false} OneMoreRow(b: Bucket, bs: seq<Bucket>, kept: seq<Bucket>)
    requires OneRowPerMinute([b] + bs) && OneRowPerMinute(kept)
    requires forall x | x in kept :: x in bs
    ensures OneRowPerMinute([b] + kept)
  {
    forall i | 0 <= i < |kept|
      ensures b.device != kept[i].device || b.minute != kept[i].minute
    {
      assert kept[i] in bs;
      var j :| 0 <= j < |bs| && bs[j] == kept[i];
      assert ([b] + bs)[0] == b && ([b] + bs)[j + 1] == kept[i];
    }
  }

  lemma {:induction false} GcRows(bs: seq<Bucket>, device: string, now: int)
    requires OneRowPerMinute(bs)
    ensures forall b | b in GcBuckets(bs, device, now) :: b in bs
    ensures OneRowPerMinute(GcBuckets(bs, device, now))
  {
    if bs != [] {
      GcRows(bs[1..], device, now);
      assert bs == [bs[0]] + bs[1..];
      OneMoreRow(bs[0], bs[1..], GcBuckets(bs[1..], device, now));
    }
  }

  lemma {:induction false} BumpAdds(bs: seq<Bucket>, device: string, minute: int, d: string, lo: int, hi: int)
    ensures SumIn(Bump(bs, device, minute), d, lo, hi) ==
            SumIn(bs, d, lo, hi) + if d == device && lo <= minute <= hi then 1 else 0
  {
    if bs == [] {
      assert Bump(bs, device, minute)[1..] == [];
    } else {
      assert Bump(bs, device, minute)[1..] ==
             if IsBucket(bs[0], device, minute) then bs[1..] else Bump(bs[1..], device, minute);
      BumpAdds(bs[1..], device, minute, d, lo, hi);
    }
  }

  lemma {:induction false} BumpRows(bs: seq<Bucket>, device: string, minute: int)
    requires OneRowPerMinute(bs)
    ensures forall b | b in Bump(bs, device, minute) ::
              IsBucket(b, device, minute) || b in bs
    ensures OneRowPerMinute(Bump(bs, device, minute))
  {
    if bs != [] {
      if IsBucket(bs[0], device, minute) {
        assert forall i | 0 < i < |bs| :: bs[i] == bs[1..][i - 1];
      } else {
        BumpRows(bs[1..], device, minute);
        var rest := Bump(bs[1..], device, minute);
        assert forall i | 0 < i < |bs| :: bs[i].device != bs[0].device || bs[i].minute != bs[0].minute;
        forall i | 0 <= i < |rest|
          ensures rest[i].device != bs[0].device || rest[i].minute != bs[0].minute
        {
          assert rest[i] in rest;
        }
      }
    }
  }

  /** The SQL window, start later than an hour before now, is exactly the 59 minutes before this one. */
  lemma {:induction false} EarlierIsSum(bs: seq<Bucket>, device: string, now: int)
    ensures EarlierUploads(bs, device, now, MinuteOf(now)) == SumIn(bs, device, MinuteOf(now) - 59, MinuteOf(now) - 1)
  {
    if bs != [] {
      EarlierIsSum(bs[1..], device, now);
    }
  }

  lemma {:induction false} UploadsIsSum(bs: seq<Bucket>, device: string, minute: int)
    requires OneRowPerMinute(bs)
    ensures Uploads(bs, device, minute) == SumIn(bs, device, minute, minute)
  {
    if bs != [] {
      if IsBucket(bs[0], device, minute) {
        NoneElsewhere(bs[1..], device, minute);
      } else {
        UploadsIsSum(bs[1..], device, minute);
      }
    }
  }

  lemma {:induction false} NoneElsewhere(bs: seq<Bucket>, device: string, minute: int)
    requires forall b | b in bs :: !IsBucket(b, device, minute)
    ensures SumIn(bs, device, minute, minute) == 0
  {
    if bs != [] {
      assert bs[0] in bs;
      NoneElsewhere(bs[1..], device, minute);
    }
  }

  lemma {:induction false} SumSplits(bs: seq<Bucket>, device: string, lo: int, mid: int, hi: int)
    requires lo <= mid + 1 && mid <= hi
    ensures SumIn(bs, device, lo, hi) == SumIn(bs, device, lo, mid) + SumIn(bs, device, mid + 1, hi)
  {
    if bs != [] {
      SumSplits(bs[1..], device, lo, mid, hi);
    }
  }

  /** Within the retention, the buckets are a plain count of attempts. */
  ghost predicate CountsAttempts(bs: seq<Bucket>, steps: seq<Step>, now: int) {
    && OneRowPerMinute(bs)
    && forall device, lo, hi | lo * MINUTE_MS >= now - BUCKET_RETENTION_MS ::
         SumIn(bs, device, lo, hi) == Attempts(steps, device, lo, hi)
  }

  lemma {:induction false} BucketsCountAttempts(steps: seq<Step>, now: int)
    requires InTime(steps) && forall i | 0 <= i < |steps| :: At(steps[i]) <= now
    ensures CountsAttempts(TablesAfter(steps).buckets, steps, now)
    decreases |steps|
  {
    if steps != [] {
      var init, step := Init(steps), Last(steps);
      BucketsCountAttempts(init, At(step));
      var bs := TablesAfter(init).buckets;
      if step.Arrive? && Genuine(step.request, step.world) && step.request.device.s in step.world.tenants {
        var device, minute := step.request.device.s, MinuteOf(step.world.dbNow);
        var kept := GcBuckets(bs, device, step.world.dbNow);
        GcRows(bs, device, step.world.dbNow);
        BumpRows(kept, device, minute);
        forall d, lo, hi | lo * MINUTE_MS >= now - BUCKET_RETENTION_MS
          ensures SumIn(Bump(kept, device, minute), d, lo, hi) == Attempts(steps, d, lo, hi)
        {
          BumpAdds(kept, device, minute, d, lo, hi);
          GcKeeps(bs, device, step.world.dbNow, d, lo, hi);
        }
      } else {
        assert TablesAfter(steps).buckets == bs;
        forall d, lo, hi
          ensures Attempts(steps, d, lo, hi) == Attempts(init, d, lo, hi)
        {
        }
      }
    }
  }

  /**
   * The number the reservation returns is the number of this device's attempts in the last sixty
   * minute buckets, this one included, whatever the sweeps removed.
   */
  lemma {:induction false} ReservationCountsTheWindow(steps: seq<Step>)
    requires steps != [] && InTime(steps) && Last(steps).Arrive?
    requires Genuine(Last(steps).request, Last(steps).world)
    requires Last(steps).request.device.s in Last(steps).world.tenants
    ensures var device, now := Last(steps).request.device.s, Last(steps).world.dbNow;
            Reserve(TablesAfter(Init(steps)), device, now).1 ==
            Attempts(steps, device, MinuteOf(now) - 59, MinuteOf(now))
  {
    var init, device, now := Init(steps), Last(steps).request.device.s, Last(steps).world.dbNow;
    var minute := MinuteOf(now);
    forall i | 0 <= i < |init|
      ensures At(init[i]) <= now
    {
      assert init[i] == steps[i];
    }
    BucketsCountAttempts(init, now);
    ReservedCount(TablesAfter(init), device, now);
    assert SumIn(TablesAfter(init).buckets, device, minute - 59, minute) == Attempts(init, device, minute - 59, minute);
  }

  /** The statement's answer in terms of the table it starts from. */
  lemma {:induction false} ReservedCount(t: Tables, device: string, now: int)
    requires OneRowPerMinute(t.buckets)
    ensures Reserve(t, device, now).1 == SumIn(t.buckets, device, MinuteOf(now) - 59, MinuteOf(now)) + 1
  {
    var bs, minute := t.buckets, MinuteOf(now);
    var kept := GcBuckets(bs, device, now);
    GcRows(bs, device, now);
    BumpRows(kept, device, minute);
    EarlierIsSum(bs, device, now);
    UploadsIsSum(Bump(kept, device, minute), device, minute);
    BumpAdds(kept, device, minute, device, minute, minute);
    GcKeeps(bs, device, now, device, minute, minute);
    SumSplits(bs, device, minute - 59, minute - 1, minute);
  }

  lemma {:induction false} AttemptsGrow(steps: seq<Step>, device: string, lo: int, hi: int, lo': int, hi': int)
    requires lo' <= lo && (hi <= hi' || forall i | 0 <= i < |steps| :: MinuteOf(At(steps[i])) <= hi')
    ensures Admissions(steps, device, lo, hi) <= Attempts(steps, device, lo', hi')
    decreases |steps|
  {
    if steps != [] {
      AttemptsGrow(Init(steps), device, lo, hi, lo', hi');
    }
  }

  /** A request is let past the gate only when the count, itself included, is at most sixty. */
  lemma {:induction false} AdmittedMeansCounted(t: Tables, r: Request, w: World)
    requires Arrived(t, r, w).1.Admitted?
    ensures Genuine(r, w) && r.device.s in w.tenants && Reserve(t, r.device.s, w.dbNow).1 <= 60
  {
  }

  /** In any sixty consecutive minute buckets at most sixty of a device's requests are admitted. */
  lemma {:induction false} AtMostSixtyAdmitted(steps: seq<Step>, device: string, first: int)
    requires InTime(steps)
    ensures Admissions(steps, device, first, first + 59) <= 60
    decreases |steps|
  {
    if steps != [] {
      AtMostSixtyAdmitted(Init(steps), device, first);
      if Admission(steps, device, first, first + 59) {
        var minute := MinuteOf(Last(steps).world.dbNow);
        LastAdmitted(steps, device, minute);
        AttemptsGrow(steps, device, first, first + 59, minute - 59, minute);
      }
    }
  }

  /** The count that let the last request in covers its own minute and the fifty-nine before. */
  lemma {:induction false} LastAdmitted(steps: seq<Step>, device: string, minute: int)
    requires steps != [] && InTime(steps) && Admission(steps, device, minute, minute)
    ensures Attempts(steps, device, minute - 59, minute) <= 60
  {
    AdmittedMeansCounted(TablesAfter(Init(steps)), Last(steps).request, Last(steps).world);
    ReservationCountsTheWindow(steps);
  }

  // ------------------------------------------------------------------ who is admitted

  /** The tenant's stored bytes as the admission reads them. */
  function StoredBytes(w: World, device: string): Reading
    requires device in w.tenants
  {
    var tenant := w.tenants[device];
    if tenant in w.tenantBytes then w.tenantBytes[tenant] else Garbled
  }

  /** The answer to a genuine arrival, by its counts alone: the caps in the order in which they are looked at. */
  function AnswerTo(payload: int, attempts: nat, stored: Reading): Gate {
    if !(0 <= payload <= 9_007_199_254_740_991) || attempts > 9_007_199_254_740_992
       || stored.Garbled? || !(0 <= stored.n <= 9_007_199_254_740_991) then Unadmitted(400)
    else if payload > 1_048_576 then Unadmitted(413)
    else if attempts > 60 then Unadmitted(429)
    else if stored.n + payload > 524_288_000 then Unadmitted(507)
    else Admitted
  }

  /**
   * Over every run: what a genuine arrival is told depends on its payload, on the attempts of its device in the last
   * sixty minute buckets, itself included, and on what its tenant has stored, and on nothing else.
   */
  lemma {:induction false} AnsweredExactly(steps: seq<Step>)
    requires steps != [] && InTime(steps) && Last(steps).Arrive? && Genuine(Last(steps).request, Last(steps).world)
    ensures var r, w := Last(steps).request, Last(steps).world;
            var device, minute := r.device.s, MinuteOf(w.dbNow);
            Arrived(TablesAfter(Init(steps)), r, w).1 ==
            if device !in w.tenants then Unadmitted(401)
            else AnswerTo(r.payloadBytes, Attempts(steps, device, minute - 59, minute), StoredBytes(w, device))
  {
    var r, w := Last(steps).request, Last(steps).world;
    if r.device.s in w.tenants {
      ReservationCountsTheWindow(steps);
    }
  }

  /** Admission is exact: it is given if and only if no cap is exceeded. */
  lemma {:induction false} AdmittedExactly(steps: seq<Step>)
    requires steps != [] && InTime(steps) && Last(steps).Arrive? && Genuine(Last(steps).request, Last(steps).world)
    ensures var r, w := Last(steps).request, Last(steps).world;
            var device, minute := r.device.s, MinuteOf(w.dbNow);
            Admits(steps, |steps| - 1) <==>
            && device in w.tenants
            && Attempts(steps, device, minute - 59, minute) <= 60
            && 0 <= r.payloadBytes <= 1_048_576
            && StoredBytes(w, device).Reads? && 0 <= StoredBytes(w, device).n
            && StoredBytes(w, device).n + r.payloadBytes <= 524_288_000
  {
    AnsweredExactly(steps);
  }

  /** As many arrivals of one request, all in one minute. */
  ghost function Burst(n: nat, r: Request, w: World): seq<Step> {
    if n == 0 then [] else Burst(n - 1, r, w) + [Arrive(r, w)]
  }

  lemma {:induction false} BurstSteps(n: nat, r: Request, w: World)
    ensures |Burst(n, r, w)| == n && forall i | 0 <= i < n :: Burst(n, r, w)[i] == Arrive(r, w)
  {
    if n > 0 {
      BurstSteps(n - 1, r, w);
    }
  }

  lemma {:induction false} BurstCounts(n: nat, r: Request, w: World)
    requires Genuine(r, w) && r.device.s in w.tenants
    ensures Attempts(Burst(n, r, w), r.device.s, MinuteOf(w.dbNow) - 59, MinuteOf(w.dbNow)) == n
  {
    if n > 0 {
      BurstCounts(n - 1, r, w);
      InitLast(Burst(n - 1, r, w), Arrive(r, w));
    }
  }

  /** What the n-th arrival of a burst is told. */
  lemma {:induction false} BurstAnswered(n: nat, r: Request, w: World)
    requires n > 0 && Genuine(r, w) && r.device.s in w.tenants
    ensures Arrived(TablesAfter(Burst(n - 1, r, w)), r, w).1 ==
            AnswerTo(r.payloadBytes, n, StoredBytes(w, r.device.s))
  {
    BurstSteps(n, r, w);
    BurstCounts(n, r, w);
    InitLast(Burst(n - 1, r, w), Arrive(r, w));
    AnsweredExactly(Burst(n, r, w));
  }

  lemma {:induction false} BurstAdmission(n: nat, r: Request, w: World, minute: int)
    requires 0 < n <= 60 && Genuine(r, w) && r.device.s in w.tenants && minute == MinuteOf(w.dbNow)
    requires AnswerTo(r.payloadBytes, 60, StoredBytes(w, r.device.s)).Admitted?
    ensures Admission(Burst(n, r, w), r.device.s, minute - 59, minute)
  {
    InitLast(Burst(n - 1, r, w), Arrive(r, w));
    BurstSteps(n, r, w);
    BurstAnswered(n, r, w);
  }

  /** The cap is reached: of any request that is small enough a device's first sixty in one window are all admitted. */
  lemma {:induction false} SixtyAreAdmitted(n: nat, r: Request, w: World)
    requires n <= 60 && Genuine(r, w) && r.device.s in w.tenants
    requires AnswerTo(r.payloadBytes, 60, StoredBytes(w, r.device.s)).Admitted?
    ensures Admissions(Burst(n, r, w), r.device.s, MinuteOf(w.dbNow) - 59, MinuteOf(w.dbNow)) == n
  {
    if n > 0 {
      SixtyAreAdmitted(n - 1, r, w);
      InitLast(Burst(n - 1, r, w), Arrive(r, w));
      BurstAdmission(n, r, w, MinuteOf(w.dbNow));
    }
  }

  /** And every one from the sixty-first on is told to wait. */
  lemma {:induction false} LaterOnesAreRefused(n: nat, r: Request, w: World)
    requires 60 <= n < 9_007_199_254_740_992 && Genuine(r, w) && r.device.s in w.tenants
    requires AnswerTo(r.payloadBytes, 60, StoredBytes(w, r.device.s)).Admitted?
    ensures Arrived(TablesAfter(Burst(n, r, w)), r, w).1 == Unadmitted(429)
  {
    BurstAnswered(n + 1, r, w);
  }

  /** And there are such requests. */
  lemma {:induction false} SixtyCanBeAdmitted() returns (r: Request, w: World)
    ensures Genuine(r, w) && r.device.s in w.tenants
    ensures Admissions(Burst(60, r, w), r.device.s, MinuteOf(w.dbNow) - 59, MinuteOf(w.dbNow)) == 60
  {
    r := Request(Text("d"), Text("0"), Text("n"), Text("s"), Some(0), Some("s"), "POST", "/p", "h", 0);
    w := World(Some(0), 0, map["d" := Device("k", false)], map["d" := "t"], map["t" := Reads(0)],
               (s: string) => s, (key: string, text: string, signature: string) => true);
    RefusedExactly(SignatureInput("d", "POST", "/p", "h", 0, "n"), w.upper);
    SixtyAreAdmitted(60, r, w);
  }

  // ------------------------------------------------------------------ bucket rows

  /** The last step is this device's reservation, which sweeps its rows. */
  ghost predicate Sweeps(steps: seq<Step>, device: string, minute: int) {
    steps != [] && Attempt(Last(steps), device, minute, minute)
  }

  lemma {:induction false} GcRecent(bs: seq<Bucket>, device: string, now: int)
    ensures forall b | b in GcBuckets(bs, device, now) && b.device == device :: b.minute * 60_000 >= now - 7_200_000
  {
    if bs != [] {
      GcRecent(bs[1..], device, now);
    }
  }

  lemma {:induction false} NoLaterBuckets(steps: seq<Step>, now: int)
    requires InTime(steps) && forall i | 0 <= i < |steps| :: At(steps[i]) <= now
    ensures OneRowPerMinute(TablesAfter(steps).buckets)
    ensures forall b | b in TablesAfter(steps).buckets :: b.minute <= MinuteOf(now)
    decreases |steps|
  {
    if steps != [] {
      var init, step := Init(steps), Last(steps);
      NoLaterBuckets(init, At(step));
      if step.Arrive? && Genuine(step.request, step.world) && step.request.device.s in step.world.tenants {
        var bs, device := TablesAfter(init).buckets, step.request.device.s;
        GcRows(bs, device, step.world.dbNow);
        BumpRows(GcBuckets(bs, device, step.world.dbNow), device, MinuteOf(step.world.dbNow));
      }
    }
  }

  function MinutesOf(bs: seq<Bucket>, device: string): set<int> {
    set b | b in bs && b.device == device :: b.minute
  }

  lemma {:induction false} RangeSize(range: set<int>, lo: int, n: nat)
    requires forall m | m in range :: lo <= m < lo + n
    ensures |range| <= n
    decreases n
  {
    if n > 0 {
      RangeSize(range - {lo + n - 1}, lo, n - 1);
    } else {
      assert forall m :: m !in range;
      assert range == {};
    }
  }

  /** Whenever a reservation by a device sweeps the table, it has one row a minute there and at most 121 of them. */
  lemma {:induction false} AtMost121Buckets(steps: seq<Step>, device: string, minute: int)
    requires Sweeps(steps, device, minute) && InTime(steps)
    ensures OneRowPerMinute(TablesAfter(steps).buckets)
    ensures |MinutesOf(TablesAfter(steps).buckets, device)| <= 121
  {
    var init, now := Init(steps), Last(steps).world.dbNow;
    var bs := TablesAfter(init).buckets;
    NoLaterBuckets(steps, now);
    NoLaterBuckets(init, now);
    GcRows(bs, device, now);
    BumpRows(GcBuckets(bs, device, now), device, minute);
    GcRecent(bs, device, now);
    RangeSize(MinutesOf(TablesAfter(steps).buckets, device), minute - 120, 121);
  }

  // ------------------------------------------------------------------ nonce rows

  /** The clock that checks the skew is the one that stores, and a request is checked before its slot is reserved. */
  ghost predicate OneClock(steps: seq<Step>) {
    forall i | 0 <= i < |steps| && steps[i].Arrive? && steps[i].world.now.Some? ::
      steps[i].world.now.value <= steps[i].world.dbNow
  }

  /** The row is the one that the handler of step `i` spends. */
  ghost predicate RowOf(step: Step, k: NonceKey, expiresAt: int) {
    && step.Arrive? && Genuine(step.request, step.world)
    && k == (step.request.device.s, step.request.nonce.s) && expiresAt == ExpiryOf(step.request.timestamp.value)
  }

  /** Every nonce row was spent by an admitted handler, however long it waited and whatever came in between. */
  lemma {:induction false} RowsWereAdmitted(steps: seq<Step>, k: NonceKey) returns (i: nat)
    requires k in TablesAfter(steps).nonces
    ensures i < |steps| && Admits(steps, i) && RowOf(steps[i], k, TablesAfter(steps).nonces[k])
    decreases |steps|
  {
    var init := Init(steps);
    if k in TablesAfter(init).nonces && TablesAfter(init).nonces[k] == TablesAfter(steps).nonces[k] {
      i := RowsWereAdmitted(init, k);
    } else {
      i := Last(steps).handler;
    }
    AdmitsEarlier(steps, i);
  }

  /** On one clock that handler had reserved its slot no more than ten minutes before the expiry on the row. */
  lemma {:induction false} ReservedLate(steps: seq<Step>, i: nat, k: NonceKey, expiresAt: int)
    requires OneClock(steps) && i < |steps| && Admits(steps, i) && RowOf(steps[i], k, expiresAt)
    ensures expiresAt - 2 * MAX_CLOCK_SKEW_MS <= At(steps[i])
    ensures k.0 in steps[i].world.tenants
  {
    assert InSkew(steps[i].world.now.value, steps[i].request.timestamp.value);
    AdmittedMeansCounted(TablesAfter(steps[..i]), steps[i].request, steps[i].world);
  }

  ghost function NoncesAdmitted(steps: seq<Step>, device: string, lo: int, hi: int): set<string> {
    if steps == [] then {}
    else
      NoncesAdmitted(Init(steps), device, lo, hi)
      + if Admission(steps, device, lo, hi) then {Last(steps).request.nonce.s} else {}
  }

  lemma {:induction false} NoncesCounted(steps: seq<Step>, device: string, lo: int, hi: int)
    ensures |NoncesAdmitted(steps, device, lo, hi)| <= Admissions(steps, device, lo, hi)
    decreases |steps|
  {
    if steps != [] {
      NoncesCounted(Init(steps), device, lo, hi);
    }
  }

  lemma {:induction false} NonceIsAdmitted(steps: seq<Step>, i: nat, lo: int, hi: int)
    requires i < |steps| && Admits(steps, i) && Attempt(steps[i], steps[i].request.device.s, lo, hi)
    ensures steps[i].request.nonce.s in NoncesAdmitted(steps, steps[i].request.device.s, lo, hi)
    decreases |steps|
  {
    if i < |steps| - 1 {
      AdmitsEarlier(steps, i);
      NonceIsAdmitted(Init(steps), i, lo, hi);
    }
  }

  lemma {:induction false} AdmissionsSplit(steps: seq<Step>, device: string, lo: int, mid: int, hi: int)
    requires lo <= mid + 1 && mid <= hi
    ensures Admissions(steps, device, lo, hi) <=
            Admissions(steps, device, lo, mid) + Admissions(steps, device, mid + 1, hi)
    decreases |steps|
  {
    if steps != [] {
      AdmissionsSplit(Init(steps), device, lo, mid, hi);
    }
  }

  lemma {:induction false} AdmissionsGrow(steps: seq<Step>, device: string, lo: int, hi: int, hi': int)
    requires hi <= hi'
    ensures Admissions(steps, device, lo, hi) <= Admissions(steps, device, lo, hi')
    decreases |steps|
  {
    if steps != [] {
      AdmissionsGrow(Init(steps), device, lo, hi, hi');
    }
  }

  ghost function RowsOf(nonces: map<NonceKey, int>, device: string): set<string> {
    set k | k in nonces && k.0 == device :: k.1
  }

  lemma {:induction false} SweptRow(steps: seq<Step>, device: string, minute: int, k: NonceKey)
    requires Sweeps(steps, device, minute) && k in TablesAfter(steps).nonces && k.0 == device
    ensures TablesAfter(steps).nonces[k] >= At(Last(steps)) - NONCE_RETENTION_MS
  {
  }

  /** What a sweep leaves was admitted in the last 71 minute buckets. */
  lemma {:induction false} SweptRowsAreRecent(steps: seq<Step>, device: string, minute: int)
    requires Sweeps(steps, device, minute) && InTime(steps) && OneClock(steps)
    ensures RowsOf(TablesAfter(steps).nonces, device) <= NoncesAdmitted(steps, device, minute - 70, minute)
  {
    forall nonce | nonce in RowsOf(TablesAfter(steps).nonces, device)
      ensures nonce in NoncesAdmitted(steps, device, minute - 70, minute)
    {
      var k := (device, nonce);
      SweptRow(steps, device, minute, k);
      var i := RowsWereAdmitted(steps, k);
      ReservedLate(steps, i, k, TablesAfter(steps).nonces[k]);
      assert At(steps[i]) <= At(Last(steps));
      NonceIsAdmitted(steps, i, minute - 70, minute);
    }
  }

  /** Whenever a reservation by a device sweeps the table, at most 120 of its nonce rows are left. */
  lemma {:induction false} AtMost120NonceRows(steps: seq<Step>, device: string, minute: int)
    requires Sweeps(steps, device, minute) && InTime(steps) && OneClock(steps)
    ensures |RowsOf(TablesAfter(steps).nonces, device)| <= 120
  {
    var lo := minute - 70;
    SweptRowsAreRecent(steps, device, minute);
    SubsetSize(RowsOf(TablesAfter(steps).nonces, device), NoncesAdmitted(steps, device, lo, minute));
    NoncesCounted(steps, device, lo, minute);
    AdmissionsSplit(steps, device, lo, lo + 59, minute);
    AtMostSixtyAdmitted(steps, device, lo);
    AtMostSixtyAdmitted(steps, device, lo + 60);
    AdmissionsGrow(steps, device, lo + 60, minute, lo + 119);
  }
}
