/** The device door: admission, buckets and spent nonces (apps/server/src/db.ts), and the checks before them. */
module Door {
  import opened Wrappers
  import opened Signing
  import D = Decimal

  const MINUTE_MS: int := 60_000
  const RATE_WINDOW_MS: int := 3_600_000
  const BUCKET_RETENTION_MS: int := 7_200_000
  const NONCE_RETENTION_MS: int := 3_600_000

  const MAX_PAYLOAD_BYTES: int := 1_048_576
  const MAX_UPLOADS_PER_HOUR_PER_DEVICE: int := 60
  const MAX_TENANT_BYTES: int := 524_288_000

  // ------------------------------------------------------------------ quota

  /** A count as the server sees it: an unreadable answer, a fraction and NaN are all `Garbled`. */
  datatype Reading = Garbled | Reads(n: int) {
    predicate Measurable() {
      Reads? && 0 <= n <= D.MAX_SAFE_INTEGER
    }

    function MinusOne(): Reading {
      if Garbled? then Garbled else Reads(n - 1)
    }
  }

  datatype QuotaFailure = PayloadTooLarge | RateLimited | TenantQuotaExceeded | Unmeasurable

  datatype QuotaState = QuotaState(payloadBytes: Reading, uploadsInLastHour: Reading, tenantBytesStored: Reading)

  function CheckQuota(q: QuotaState): Result<(), QuotaFailure> {
    if !q.payloadBytes.Measurable() || !q.uploadsInLastHour.Measurable() || !q.tenantBytesStored.Measurable()
    then Err(Unmeasurable)
    else if q.payloadBytes.n > MAX_PAYLOAD_BYTES then Err(PayloadTooLarge)
    else if q.uploadsInLastHour.n >= MAX_UPLOADS_PER_HOUR_PER_DEVICE then Err(RateLimited)
    else if q.tenantBytesStored.n + q.payloadBytes.n > MAX_TENANT_BYTES then Err(TenantQuotaExceeded)
    else Ok(())
  }

  /** The statuses of refused requests are all 4xx or 507. */
  function QuotaStatus(f: QuotaFailure): nat {
    match f
    case PayloadTooLarge => 413
    case RateLimited => 429
    case TenantQuotaExceeded => 507
    case Unmeasurable => 400
  }

  // ------------------------------------------------------------------ the two tables

  /** One row of upload_window; minute m starts at m * 60000 ms. */
  datatype Bucket = Bucket(device: string, minute: int, uploads: nat)

  type NonceKey = (string, string)

  datatype Tables = Tables(buckets: seq<Bucket>, nonces: map<NonceKey, int>)

  function MinuteOf(at: int): int {
    at / MINUTE_MS
  }

  function GcBuckets(bs: seq<Bucket>, device: string, now: int): seq<Bucket> {
    if bs == [] then []
    else if bs[0].device == device && bs[0].minute * MINUTE_MS < now - BUCKET_RETENTION_MS
    then GcBuckets(bs[1..], device, now)
    else [bs[0]] + GcBuckets(bs[1..], device, now)
  }

  function Bump(bs: seq<Bucket>, device: string, minute: int): seq<Bucket> {
    if bs == [] then [Bucket(device, minute, 1)]
    else if bs[0].device == device && bs[0].minute == minute then [bs[0].(uploads := bs[0].uploads + 1)] + bs[1..]
    else [bs[0]] + Bump(bs[1..], device, minute)
  }

  /** The uploads counter of one bucket, 0 when there is no row. */
  function Uploads(bs: seq<Bucket>, device: string, minute: int): nat {
    if bs == [] then 0
    else if bs[0].device == device && bs[0].minute == minute then bs[0].uploads
    else Uploads(bs[1..], device, minute)
  }

  /** SUM(uploads) over the closed buckets that are still inside the window. */
  function EarlierUploads(bs: seq<Bucket>, device: string, now: int, current: int): nat {
    if bs == [] then 0
    else
      (if bs[0].device == device && bs[0].minute * MINUTE_MS > now - RATE_WINDOW_MS && bs[0].minute < current
       then bs[0].uploads else 0)
      + EarlierUploads(bs[1..], device, now, current)
  }

  function SweepNonces(nonces: map<NonceKey, int>, device: string, now: int): map<NonceKey, int> {
    map k | k in nonces && !(k.0 == device && nonces[k] < now - NONCE_RETENTION_MS) :: nonces[k]
  }

  /** The whole of the reservation statement, on one table snapshot. */
  function Reserve(t: Tables, device: string, now: int): (Tables, nat) {
    var current := MinuteOf(now);
    var buckets := Bump(GcBuckets(t.buckets, device, now), device, current);
    (Tables(buckets, SweepNonces(t.nonces, device, now)),
     Uploads(buckets, device, current) + EarlierUploads(t.buckets, device, now, current))
  }

  function Remember(t: Tables, device: string, nonce: string, expiresAt: int): (Tables, bool) {
    if (device, nonce) in t.nonces then (t, false)
    else (t.(nonces := t.nonces[(device, nonce) := expiresAt]), true)
  }

  method SweepBuckets(bs: seq<Bucket>, device: string, now: int) returns (kept: seq<Bucket>, earlier: nat)
    ensures kept == GcBuckets(bs, device, now)
    ensures earlier == EarlierUploads(bs, device, now, MinuteOf(now))
  {
    kept, earlier := [], 0;
    var i := 0;
    while i < |bs|
      invariant 0 <= i <= |bs|
      invariant earlier + EarlierUploads(bs[i..], device, now, MinuteOf(now)) ==
                EarlierUploads(bs, device, now, MinuteOf(now))
      invariant kept + GcBuckets(bs[i..], device, now) == GcBuckets(bs, device, now)
    {
      var b := bs[i];
      assert bs[i..][1..] == bs[i + 1..];
      if b.device == device && b.minute * MINUTE_MS > now - RATE_WINDOW_MS && b.minute < MinuteOf(now) {
        earlier := earlier + b.uploads;
      }
      if !(b.device == device && b.minute * MINUTE_MS < now - BUCKET_RETENTION_MS) {
        assert kept + ([b] + GcBuckets(bs[i + 1..], device, now)) == kept + [b] + GcBuckets(bs[i + 1..], device, now);
        kept := kept + [b];
      }
      i := i + 1;
    }
    assert bs[i..] == [];
  }

  predicate IsBucket(b: Bucket, device: string, minute: int) {
    b.device == device && b.minute == minute
  }

  /** The upsert, by position: the bucket of this minute if it is there, a new row if not. */
  lemma {:induction false} BumpAt(bs: seq<Bucket>, device: string, current: int, j: nat)
    requires j <= |bs| && forall i | 0 <= i < j :: !IsBucket(bs[i], device, current)
    requires j < |bs| ==> IsBucket(bs[j], device, current)
    ensures j < |bs| ==>
              && Bump(bs, device, current) == bs[j := bs[j].(uploads := bs[j].uploads + 1)]
              && Uploads(Bump(bs, device, current), device, current) == bs[j].uploads + 1
    ensures j == |bs| ==>
              && Bump(bs, device, current) == bs + [Bucket(device, current, 1)]
              && Uploads(Bump(bs, device, current), device, current) == 1
  {
    if bs != [] && j > 0 {
      assert !IsBucket(bs[0], device, current);
      BumpAt(bs[1..], device, current, j - 1);
      assert Bump(bs, device, current)[1..] == Bump(bs[1..], device, current);
    }
  }

  method BumpBucket(bs: seq<Bucket>, device: string, current: int) returns (bumped: seq<Bucket>, uploads: nat)
    ensures bumped == Bump(bs, device, current)
    ensures uploads == Uploads(bumped, device, current)
  {
    var j := 0;
    while j < |bs| && !IsBucket(bs[j], device, current)
      invariant 0 <= j <= |bs|
      invariant forall i | 0 <= i < j :: !IsBucket(bs[i], device, current)
    {
      j := j + 1;
    }
    BumpAt(bs, device, current, j);
    if j < |bs| {
      uploads := bs[j].uploads + 1;
      bumped := bs[j := bs[j].(uploads := uploads)];
    } else {
      uploads := 1;
      bumped := bs + [Bucket(device, current, 1)];
    }
  }

  class DoorTables {
    var buckets: seq<Bucket>
    var nonces: map<NonceKey, int>

    constructor ()
      ensures Contents() == Tables([], map[])
    {
      buckets, nonces := [], map[];
    }

    function Contents(): Tables
      reads this
    {
      Tables(buckets, nonces)
    }

    /** One round trip: sweep, bump this minute's bucket, report the attempts in the trailing hour. */
    method ReserveUpload(device: string, now: int) returns (uploadsInWindow: nat)
      modifies this
      ensures (Contents(), uploadsInWindow) == Reserve(old(Contents()), device, now)
    {
      var current := MinuteOf(now);
      var kept, earlier := SweepBuckets(buckets, device, now);
      var bumped, uploads := BumpBucket(kept, device, current);
      buckets := bumped;
      nonces := map k | k in nonces && !(k.0 == device && nonces[k] < now - NONCE_RETENTION_MS) :: nonces[k];
      uploadsInWindow := uploads + earlier;
    }

    /** INSERT ... ON CONFLICT DO NOTHING RETURNING: true only for the statement that inserted. */
    method RememberNonce(device: string, nonce: string, expiresAt: int) returns (fresh_: bool)
      modifies this
      ensures (Contents(), fresh_) == Remember(old(Contents()), device, nonce, expiresAt)
    {
      fresh_ := (device, nonce) !in nonces;
      if fresh_ {
        nonces := nonces[(device, nonce) := expiresAt];
      }
    }
  }

  // ------------------------------------------------------------------ a request at the door

  datatype Header = Missing | Several | Text(s: string)

  datatype Device = Device(publicKey: string, revoked: bool)

  /** A request as it arrives; `timestamp` and `signature` are what the headers decode to, if they do. */
  datatype Request = Request(
    device: Header, timestampHeader: Header, nonce: Header, signatureHeader: Header,
    timestamp: Option<int>, signature: Option<string>,
    method_: string, path: string, bodyHash: string, payloadBytes: int)

  datatype World = World(
    now: Option<int>,
    dbNow: int,
    devices: map<string, Device>,
    tenants: map<string, string>,
    tenantBytes: map<string, Reading>,
    upper: string -> string,
    verifies: (string, string, string) -> bool)

  datatype VerifyFailure =
    | MissingHeader | Malformed | UnusableClock | UnknownDevice | RevokedDevice | ClockSkew
    | BadSignature | NotAdmitted(status: nat) | ReplayedNonce

  function Admit(t: Tables, w: World, device: string, payloadBytes: int): (Tables, Result<string, nat>) {
    if device !in w.tenants then (t, Err(401))
    else
      var tenant := w.tenants[device];
      var (t', count) := Reserve(t, device, w.dbNow);
      var stored := if tenant in w.tenantBytes then w.tenantBytes[tenant] else Garbled;
      match CheckQuota(QuotaState(Reads(payloadBytes), Reads(count).MinusOne(), stored))
      case Err(f) => (t', Err(QuotaStatus(f)))
      case Ok(_) => (t', Ok(tenant))
  }

  predicate HasText(h: Header) {
    h == Several || (h.Text? && h.s != "")
  }

  /** What must hold of a request before anything is written for it. */
  ghost predicate Genuine(r: Request, w: World) {
    && r.device.Text? && r.nonce.Text? && r.timestampHeader.Text? && r.timestampHeader.s != ""
    && r.signatureHeader.Text? && r.signatureHeader.s != ""
    && CheckField(r.device.s, MAX_DEVICE_ID_LENGTH) && CheckField(r.nonce.s, MAX_NONCE_LENGTH)
    && r.timestamp.Some? && r.signature.Some? && w.now.Some?
    && r.device.s in w.devices && !w.devices[r.device.s].revoked
    && InSkew(w.now.value, r.timestamp.value)
    && SigningStringOf(r, w).Ok?
    && w.verifies(w.devices[r.device.s].publicKey, SigningStringOf(r, w).value, r.signature.value)
  }

  /** The checks made before anything is written, in the order the code makes them. */
  datatype Stage =
    | Present | Single | Bounded | Decoded | Clocked | Known | Live | Recent | Framed | Verified

  const STAGES: seq<Stage> :=
    [Present, Single, Bounded, Decoded, Clocked, Known, Live, Recent, Framed, Verified]

  function FailureAt(stage: Stage): VerifyFailure {
    match stage
    case Present => MissingHeader
    case Single => Malformed
    case Bounded => Malformed
    case Decoded => Malformed
    case Clocked => UnusableClock
    case Known => UnknownDevice
    case Live => RevokedDevice
    case Recent => ClockSkew
    case Framed => Malformed
    case Verified => BadSignature
  }

  ghost predicate Passes(stage: Stage, r: Request, w: World) {
    match stage
    case Present => HasText(r.device) && HasText(r.timestampHeader) && HasText(r.nonce) && HasText(r.signatureHeader)
    case Single => r.device.Text? && r.timestampHeader.Text? && r.nonce.Text? && r.signatureHeader.Text?
    case Bounded =>
      && r.device.Text? && r.nonce.Text?
      && CheckField(r.device.s, MAX_DEVICE_ID_LENGTH) && CheckField(r.nonce.s, MAX_NONCE_LENGTH)
    case Decoded => r.timestamp.Some? && r.signature.Some?
    case Clocked => w.now.Some?
    case Known => r.device.Text? && r.device.s in w.devices
    case Live => r.device.Text? && r.device.s in w.devices && !w.devices[r.device.s].revoked
    case Recent => w.now.Some? && r.timestamp.Some? && InSkew(w.now.value, r.timestamp.value)
    case Framed => r.device.Text? && r.nonce.Text? && r.timestamp.Some? && SigningStringOf(r, w).Ok?
    case Verified =>
      && r.device.Text? && r.nonce.Text? && r.timestamp.Some? && SigningStringOf(r, w).Ok?
      && r.device.s in w.devices && r.signature.Some?
      && w.verifies(w.devices[r.device.s].publicKey, SigningStringOf(r, w).value, r.signature.value)
  }

  /** Stage `i` is the first that the request does not pass. */
  ghost predicate FailsFirst(i: nat, r: Request, w: World)
    requires i < |STAGES|
  {
    !Passes(STAGES[i], r, w) && forall j | 0 <= j < i :: Passes(STAGES[j], r, w)
  }

  /** A request is genuine exactly when it passes every stage. */
  lemma {:induction false} GenuineExactly(r: Request, w: World)
    ensures Genuine(r, w) <==> forall i | 0 <= i < |STAGES| :: Passes(STAGES[i], r, w)
  {
    if forall i | 0 <= i < |STAGES| :: Passes(STAGES[i], r, w) {
      assert Passes(STAGES[0], r, w) && Passes(STAGES[1], r, w) && Passes(STAGES[2], r, w);
      assert Passes(STAGES[3], r, w) && Passes(STAGES[4], r, w) && Passes(STAGES[5], r, w);
      assert Passes(STAGES[6], r, w) && Passes(STAGES[7], r, w) && Passes(STAGES[8], r, w);
      assert Passes(STAGES[9], r, w);
    }
  }

  predicate InSkew(now: int, timestamp: int) {
    -MAX_CLOCK_SKEW_MS <= now - timestamp <= MAX_CLOCK_SKEW_MS
  }

  function SigningStringOf(r: Request, w: World): Result<string, Field>
    requires r.device.Text? && r.nonce.Text? && r.timestamp.Some?
  {
    BuildSigningString(SignatureInput(r.device.s, r.method_, r.path, r.bodyHash, r.timestamp.value, r.nonce.s), w.upper)
  }

  /** `admitDevice`: reserve first, then decide. */
  method AdmitDevice(tables: DoorTables, device: string, payloadBytes: int, w: World)
    returns (gate: Result<string, nat>)
    modifies tables
    ensures (tables.Contents(), gate) == Admit(old(tables.Contents()), w, device, payloadBytes)
  {
    if device !in w.tenants {
      return Err(401);
    }
    var tenant := w.tenants[device];
    var count := tables.ReserveUpload(device, w.dbNow);
    var stored := if tenant in w.tenantBytes then w.tenantBytes[tenant] else Garbled;
    var quota := CheckQuota(QuotaState(Reads(payloadBytes), Reads(count).MinusOne(), stored));
    gate := match quota case Err(f) => Err(QuotaStatus(f)) case Ok(_) => Ok(tenant);
  }

  datatype Gate = TurnedAway | Unadmitted(status: nat) | Admitted

  datatype Outcome = Stopped(gate: Gate) | Replayed | Through

  /** What a request comes to at the gate, and what its reservation leaves in the tables. */
  ghost function Arrived(t: Tables, r: Request, w: World): (Tables, Gate) {
    if !Genuine(r, w) then (t, TurnedAway)
    else
      var (reserved, gate) := Admit(t, w, r.device.s, r.payloadBytes);
      (reserved, if gate.Err? then Unadmitted(gate.error) else Admitted)
  }

  /** The end of the skew window, up to which a nonce row may be needed. */
  function ExpiryOf(timestamp: int): int {
    timestamp + MAX_CLOCK_SKEW_MS
  }

  /** A request served with nothing in between: the gate, and for an admitted one the nonce. */
  ghost function Served(t: Tables, r: Request, w: World): (Tables, Outcome) {
    var (arrived, gate) := Arrived(t, r, w);
    if !gate.Admitted? then (arrived, Stopped(gate))
    else
      var (spent, unseen) := Remember(arrived, r.device.s, r.nonce.s, ExpiryOf(r.timestamp.value));
      (spent, if unseen then Through else Replayed)
  }

  /** Everything that is checked before the first write: the answer names the first check that the request fails. */
  method CheckRequest(r: Request, w: World) returns (failure: Option<VerifyFailure>)
    ensures failure.None? <==> Genuine(r, w)
    ensures failure.Some? ==>
              exists i: nat | i < |STAGES| :: FailsFirst(i, r, w) && failure == Some(FailureAt(STAGES[i]))
  {
    if !HasText(r.device) || !HasText(r.timestampHeader) || !HasText(r.nonce) || !HasText(r.signatureHeader) {
      assert FailsFirst(0, r, w);
      return Some(MissingHeader);
    }
    if r.device.Several? || r.timestampHeader.Several? || r.nonce.Several? || r.signatureHeader.Several? {
      assert FailsFirst(1, r, w);
      return Some(Malformed);
    }
    var device, nonce := r.device.s, r.nonce.s;
    if !CheckField(device, MAX_DEVICE_ID_LENGTH) || !CheckField(nonce, MAX_NONCE_LENGTH) {
      assert FailsFirst(2, r, w);
      return Some(Malformed);
    }
    if r.timestamp.None? || r.signature.None? {
      assert FailsFirst(3, r, w);
      return Some(Malformed);
    }
    if w.now.None? {
      assert FailsFirst(4, r, w);
      return Some(UnusableClock);
    }
    if device !in w.devices {
      assert FailsFirst(5, r, w);
      return Some(UnknownDevice);
    }
    if w.devices[device].revoked {
      assert FailsFirst(6, r, w);
      return Some(RevokedDevice);
    }
    var skew := w.now.value - r.timestamp.value;
    if (if skew < 0 then -skew else skew) > MAX_CLOCK_SKEW_MS {
      assert FailsFirst(7, r, w);
      return Some(ClockSkew);
    }
    var signingString := SigningStringOf(r, w);
    if signingString.Err? {
      assert FailsFirst(8, r, w);
      return Some(Malformed);
    }
    if !w.verifies(w.devices[device].publicKey, signingString.value, r.signature.value) {
      assert FailsFirst(9, r, w);
      return Some(BadSignature);
    }
    failure := None;
  }

  /**
   * Nothing is written for a request that is not genuine, and the answer names the first check it fails; a genuine
   * one reserves a slot before it can spend a nonce; a refused one spends none; and only a fresh nonce gets through.
   */
  method VerifyRequest(tables: DoorTables, r: Request, w: World) returns (result: Result<string, VerifyFailure>)
    modifies tables
    ensures var (t, outcome) := Served(old(tables.Contents()), r, w);
            && tables.Contents() == t
            && (outcome == Through <==> result.Ok?)
            && (result.Ok? ==> result.value == r.device.s)
            && (outcome.Stopped? && outcome.gate.Unadmitted? ==> result == Err(NotAdmitted(outcome.gate.status)))
            && (outcome == Replayed <==> result == Err(ReplayedNonce))
            && (outcome == Stopped(TurnedAway) ==>
                  exists i: nat | i < |STAGES| :: FailsFirst(i, r, w) && result == Err(FailureAt(STAGES[i])))
  {
    var failure := CheckRequest(r, w);
    if failure.Some? {
      return Err(failure.value);
    }
    var device, nonce := r.device.s, r.nonce.s;
    var gate := AdmitDevice(tables, device, r.payloadBytes, w);
    if gate.Err? {
      return Err(NotAdmitted(gate.error));
    }
    var unseen := tables.RememberNonce(device, nonce, ExpiryOf(r.timestamp.value));
    result := if unseen then Ok(device) else Err(ReplayedNonce);
  }

  /**
   * Only a genuine, admitted request can add a nonce row, and it adds its own, up to the end of the skew window; it
   * gets through if and only if that row is not there, or is so old that its own reservation sweeps it. Whatever
   * else is in the table goes only by that sweep.
   */
  lemma {:induction false} NonceRowsAreEarned(t: Tables, r: Request, w: World)
    ensures var (t', outcome) := Served(t, r, w);
            && (outcome == Stopped(TurnedAway) <==> !Genuine(r, w))
            && (outcome == Stopped(TurnedAway) ==> t' == t)
            && (outcome != Through ==> forall k | k in t'.nonces :: k in t.nonces && t'.nonces[k] == t.nonces[k])
            && (!outcome.Stopped? ==>
                  (outcome == Through <==>
                   var k := (r.device.s, r.nonce.s);
                   k in t.nonces ==> t.nonces[k] < w.dbNow - 3_600_000))
            && (outcome == Through ==>
                  && (r.device.s, r.nonce.s) in t'.nonces
                  && t'.nonces[(r.device.s, r.nonce.s)] == r.timestamp.value + 300_000
                  && forall k | k in t'.nonces && k != (r.device.s, r.nonce.s) ::
                       k in t.nonces && t'.nonces[k] == t.nonces[k])
            && (forall k | k in t.nonces && k !in t'.nonces ::
                  Genuine(r, w) && k.0 == r.device.s && t.nonces[k] < w.dbNow - 3_600_000)
  {
  }
}
