/**
 * Padme lengths and the padded frame around a payload (packages/crypto/src/padme.ts), after
 * "Reducing Metadata Leakage from Encrypted Files" by Nikitin et al.
 *
 * A length is rounded up so that few lengths are told apart and little is wasted.
 */
module Padme {
  import opened Wrappers
  import opened Bytes
  import opened Seqs

  datatype RangeError = NotALength | TooLarge | NoPrefix | DeclaredTooLong

  const LIMIT := 0x4000_0000  // 2 to the 30th

  function Pow2(n: nat): (p: nat)
    ensures p > 0
  {
    if n == 0 then 1 else 2 * Pow2(n - 1)
  }

  /** `31 - clz32(n)`. */
  function Log2(n: nat): nat
    requires n > 0
  {
    if n == 1 then 0 else 1 + Log2(n / 2)
  }

  function ZeroBits(len: nat): int
    requires len >= 2
  {
    Log2(len) - (Log2(Log2(len)) + 1)
  }

  /** `x & ~mask` for a mask of z ones, bit by bit. */
  function ClearLow(x: nat, z: nat): nat {
    if z == 0 then x else 2 * ClearLow(x / 2, z - 1)
  }

  function AlignUp(len: nat, z: nat): nat {
    ClearLow(len + (Pow2(z) - 1), z)
  }

  function PadmeLength(len: int): Result<nat, RangeError> {
    if len < 0 then Err(NotALength)
    else if len >= LIMIT then Err(TooLarge)
    else if len < 2 then Ok(len)
    else
      var z := ZeroBits(len);
      if z <= 0 then Ok(len) else Ok(AlignUp(len, z))
  }

  /** The padded length of any accepted length. */
  function Padded(len: nat): nat
    requires len < LIMIT
  {
    PadmeLength(len).value
  }

  // ------------------------------------------------------------------ arithmetic

  lemma {:induction false} Log2Bounds(n: nat)
    requires n > 0
    ensures Pow2(Log2(n)) <= n < 2 * Pow2(Log2(n))
  {
    if n > 1 {
      Log2Bounds(n / 2);
    }
  }

  lemma {:induction false} Pow2Adds(m: nat, n: nat)
    ensures Pow2(m + n) == Pow2(m) * Pow2(n)
  {
    if m > 0 {
      Pow2Adds(m - 1, n);
      assert Pow2(m + n) == 2 * (Pow2(m - 1) * Pow2(n));
    }
  }

  lemma {:induction false} Pow2Grows(m: nat, n: nat)
    requires m <= n
    ensures Pow2(m) <= Pow2(n)
  {
    if m < n {
      Pow2Grows(m, n - 1);
    }
  }

  lemma {:induction false} Log2Unique(n: nat, e: nat)
    requires n > 0 && Pow2(e) <= n < 2 * Pow2(e)
    ensures Log2(n) == e
  {
    Log2Bounds(n);
    Pow2Reflects(e, Log2(n));
    Pow2Reflects(Log2(n), e);
  }

  lemma {:induction false} Pow2Reflects(m: nat, n: nat)
    requires Pow2(m) < 2 * Pow2(n)
    ensures m <= n
  {
    if n < m {
      Pow2Grows(n + 1, m);
    }
  }

  lemma {:induction false} Log2Monotone(m: nat, n: nat)
    requires 0 < m <= n
    ensures Log2(m) <= Log2(n)
  {
    Log2Bounds(m);
    Log2Bounds(n);
    if Log2(n) < Log2(m) {
      Pow2Grows(Log2(n) + 1, Log2(m));
    }
  }

  /** Rounding up to a multiple: the least multiple that is not below. */
  lemma {:induction false} RoundsUp(len: nat, m: nat, k: nat)
    requires m > 0 && k == (len + (m - 1)) / m
    ensures len <= k * m <= len + (m - 1)
  {
    var x := len + (m - 1);
    assert x == m * (x / m) + x % m;
    assert k * m == m * (x / m);
  }

  lemma {:induction false} MulGrows(a: nat, b: nat, m: nat)
    requires a <= b
    ensures a * m <= b * m
  {
  }

  lemma {:induction false} DivGrows(a: nat, b: nat, m: nat)
    requires a <= b && m > 0
    ensures a / m <= b / m
  {
    assert a == m * (a / m) + a % m;
    assert b == m * (b / m) + b % m;
    if b / m < a / m {
      MulGrows(b / m + 1, a / m, m);
    }
  }

  function AlignTo(len: nat, m: nat): nat
    requires m > 0
  {
    (len + (m - 1)) / m * m
  }

  lemma {:induction false} ClearLowIsMultiple(x: nat, z: nat)
    ensures ClearLow(x, z) == x / Pow2(z) * Pow2(z)
  {
    if z > 0 {
      ClearLowIsMultiple(x / 2, z - 1);
      var p := Pow2(z - 1);
      DivDiv(x, p);
      assert 2 * (x / 2 / p * p) == x / 2 / p * (2 * p);
    }
  }

  lemma {:induction false} DivDiv(x: nat, p: nat)
    requires p > 0
    ensures x / 2 / p == x / (2 * p)
  {
    var q := x / 2 / p;
    var r := x / 2 - q * p;
    assert x / 2 == p * q + r && 0 <= r < p;
    assert x == (2 * p) * q + (2 * r + x % 2) && 0 <= 2 * r + x % 2 < 2 * p;
    DivIs(x, 2 * p, q, 2 * r + x % 2);
  }

  lemma {:induction false} DivIs(x: nat, d: nat, q: nat, r: nat)
    requires d > 0 && x == d * q + r && r < d
    ensures x / d == q
  {
    assert x == d * (x / d) + x % d;
    if x / d < q {
      MulGrows(x / d + 1, q, d);
    }
    if q < x / d {
      MulGrows(q + 1, x / d, d);
    }
  }

  /** The unit a length is rounded to. */
  function Unit(e: nat): nat {
    var z := if e == 0 then 0 else e - (Log2(e) + 1);
    if z <= 0 then 1 else Pow2(z)
  }

  /** How many units a power of two holds: at most twice the exponent. */
  lemma {:induction false} UnitDivides(e: nat) returns (units: nat)
    ensures Pow2(e) == units * Unit(e) && units <= 2 * e + 1
    ensures units > 0 && (e >= 1 ==> units <= 2 * e)
    ensures e >= 2 && Unit(e) > 1 ==> units == 2 * Pow2(Log2(e))
  {
    if e >= 1 {
      Log2Bounds(e);
      var s := Log2(e) + 1;
      if e - s > 0 {
        Pow2Adds(s, e - s);
        units := Pow2(s);
      } else {
        Log2SmallerThan(e);
        assert e == s;
        units := Pow2(e);
      }
    } else {
      units := 1;
    }
  }

  lemma {:induction false} Log2SmallerThan(n: nat)
    requires n > 0
    ensures Log2(n) + 1 <= n
  {
    if n > 1 {
      Log2SmallerThan(n / 2);
    }
  }

  /** One formula for every accepted length: rounded up to the unit of its exponent. */
  lemma {:induction false} PaddedIs(len: nat)
    requires 0 < len < LIMIT
    ensures PadmeLength(len).Ok? && Padded(len) == AlignTo(len, Unit(Log2(len)))
  {
    if len >= 2 && ZeroBits(len) > 0 {
      AlignUpIs(len, ZeroBits(len));
    } else {
      assert AlignTo(len, 1) == len;
    }
  }

  lemma {:induction false} AlignUpIs(len: nat, z: nat)
    ensures AlignUp(len, z) == AlignTo(len, Pow2(z))
  {
    ClearLowIsMultiple(len + (Pow2(z) - 1), z);
  }

  // ------------------------------------------------------------------ properties

  lemma {:induction false} PaddedRoundsUp(len: nat) returns (k: nat)
    requires 0 < len < LIMIT
    ensures var m := Unit(Log2(len));
            m > 0 && Padded(len) == k * m && len <= Padded(len) <= len + (m - 1) && k == (len + (m - 1)) / m
  {
    PaddedIs(len);
    var m := Unit(Log2(len));
    k := (len + (m - 1)) / m;
    RoundsUp(len, m, k);
  }

  /**
   * Padme by its definition: with `e` the exponent of the length and `s` the number of bits that the exponent takes,
   * the result is the least multiple of two to the `e - s` that is not below the length.
   */
  lemma {:induction false} PaddedExactly(len: nat, e: nat, s: nat) returns (k: nat)
    requires 1 < len < 0x4000_0000 && Pow2(e) <= len < 2 * Pow2(e)
    requires s > 0 && Pow2(s - 1) <= e < 2 * Pow2(s - 1)
    ensures PadmeLength(len).Ok?
    ensures var unit := if e > s then Pow2(e - s) else 1;
            PadmeLength(len).value == k * unit && len <= k * unit < len + unit
  {
    Log2Unique(len, e);
    Log2Unique(e, s - 1);
    k := PaddedRoundsUp(len);
  }

  /** Within one power of two: the result stays between it and the next. */
  lemma {:induction false} PaddedStaysInClass(len: nat)
    requires 0 < len < LIMIT
    ensures var e := Log2(len); Pow2(e) <= Padded(len) <= 2 * Pow2(e)
  {
    var k, units := PaddedUnits(len);
    var m := Unit(Log2(len));
    TimesBetween(units, k, m);
  }

  lemma {:induction false} TimesBetween(units: nat, k: nat, m: nat)
    requires units <= k <= 2 * units
    ensures units * m <= k * m <= 2 * (units * m)
  {
    MulGrows(k - units, units, m);
    assert k * m == units * m + (k - units) * m;
  }

  /** In units, the result is between the class's power of two and the next. */
  lemma {:induction false} PaddedUnits(len: nat) returns (k: nat, units: nat)
    requires 0 < len < LIMIT
    ensures var e := Log2(len);
            && Padded(len) == k * Unit(e) && Pow2(e) == units * Unit(e)
            && units <= k <= 2 * units && units <= 2 * e + 1 && (e > 0 ==> units <= 2 * e)
  {
    Log2Bounds(len);
    units := UnitDivides(Log2(len));
    k := PaddedRoundsUp(len);
    UnitsBetween(len, k, units, Unit(Log2(len)));
  }

  lemma {:induction false} UnitsBetween(len: nat, k: nat, units: nat, m: nat)
    requires m > 0 && units * m <= len < 2 * (units * m) && len <= k * m <= len + (m - 1)
    ensures units <= k <= 2 * units
  {
    if k < units {
      MulGrows(k + 1, units, m);
    }
    if 2 * units < k {
      MulGrows(2 * units + 1, k, m);
    }
  }

  lemma {:induction false} PowerIsFixed(e: nat)
    requires Pow2(e) < LIMIT
    ensures Padded(Pow2(e)) == Pow2(e)
  {
    Log2Unique(Pow2(e), e);
    var units := UnitDivides(e);
    var k := PaddedRoundsUp(Pow2(e));
    MultipleIsFixed(units, Unit(e));
  }

  lemma {:induction false} MultipleIsFixed(k: nat, m: nat)
    requires m > 0
    ensures AlignTo(k * m, m) == k * m
  {
    DivIs(k * m + (m - 1), m, k, m - 1);
  }

  /** Never shorter, and padding a padded length changes nothing. */
  lemma {:induction false} PaddedIsIdempotent(len: nat)
    requires len < LIMIT
    ensures len <= Padded(len) <= LIMIT
    ensures Padded(len) < LIMIT ==> Padded(Padded(len)) == Padded(len)
  {
    if len > 0 {
      var e := Log2(len);
      Log2Bounds(len);
      var k := PaddedRoundsUp(len);
      PaddedStaysInClass(len);
      ClassBelowLimit(len);
      if Padded(len) < LIMIT {
        if Padded(len) == 2 * Pow2(e) {
          PowerIsFixed(e + 1);
        } else {
          Log2Unique(Padded(len), e);
          PaddedIs(Padded(len));
          MultipleIsFixed(k, Unit(e));
        }
      }
    }
  }

  lemma {:induction false} ClassBelowLimit(len: nat)
    requires 0 < len < LIMIT
    ensures Log2(len) <= 29 && 2 * Pow2(Log2(len)) <= LIMIT
  {
    LimitIsPow2();
    Log2Bounds(len);
    if Log2(len) >= 30 {
      Pow2Grows(30, Log2(len));
    }
    Pow2Grows(Log2(len) + 1, 30);
  }

  lemma {:induction false} LimitIsPow2()
    ensures Pow2(30) == LIMIT
  {
    assert Pow2(10) == 1024;
    Pow2Adds(10, 10);
    Pow2Adds(20, 10);
  }

  lemma {:induction false} PaddedIsMonotone(a: nat, b: nat)
    requires a <= b < LIMIT
    ensures Padded(a) <= Padded(b)
  {
    PaddedIsIdempotent(b);
    if 0 < a {
      var i := PaddedRoundsUp(a);
      var j := PaddedRoundsUp(b);
      Log2Monotone(a, b);
      if Log2(a) == Log2(b) {
        var m := Unit(Log2(a));
        DivGrows(a + (m - 1), b + (m - 1), m);
        MulGrows(i, j, m);
      } else {
        PaddedStaysInClass(a);
        PaddedStaysInClass(b);
        Pow2Grows(Log2(a) + 1, Log2(b));
      }
    }
  }

  /** Under twelve per cent, for every length. */
  lemma {:induction false} OverheadUnderTwelvePercent(len: nat)
    requires 0 < len < LIMIT
    ensures 100 * (Padded(len) - len) < 12 * len
  {
    var e := Log2(len);
    Log2Bounds(len);
    ClassBelowLimit(len);
    var m := Unit(e);
    var k := PaddedRoundsUp(len);
    if len == Pow2(e) {
      PowerIsFixed(e);
    } else if m > 1 {
      UnitAgainstClass(e);
    }
  }

  lemma {:induction false} UnitAgainstClass(e: nat)
    requires e <= 29 && Unit(e) > 1
    ensures 100 * (Unit(e) - 1) < 12 * (Pow2(e) + 1)
  {
    var units := UnitDivides(e);
    if e >= 8 {
      Log2Monotone(8, e);
      assert Log2(8) == 3 && Pow2(3) == 8;
      Pow2Grows(3, Log2(e));
      MulGrows(16, units, Unit(e));
    } else if e >= 4 {
      Log2Monotone(4, e);
      Log2Monotone(e, 7);
      assert Log2(4) == 2 && Log2(7) == 2 && Pow2(2) == 4 && Pow2(4) == 16;
      Pow2Grows(e - 3, 4);
    } else {
      assert Log2(3) == 1 && Log2(2) == 1 && Log2(1) == 0;
      assert Pow2(1) == 2;
    }
  }

  /** Every length of one exponent pads to one of at most 2e + 1 lengths. */
  lemma {:induction false} FewPaddedLengths(e: nat, lens: set<nat>)
    requires forall len | len in lens :: 0 < len < LIMIT && Log2(len) == e
    ensures |set len | len in lens :: Padded(len)| <= 2 * e + 1
  {
    var m := Unit(e);
    var units := UnitDivides(e);
    var results := set len | len in lens :: Padded(len);
    forall r | r in results
      ensures IsMultiple(r, units, if e == 0 then 1 else 2 * units, m)
    {
      var len :| len in lens && Padded(len) == r;
      Log2Bounds(len);
      var k, units' := PaddedUnits(len);
      SameUnits(units, units', m);
      assert r == Times(k, m);
    }
    FewMultiples(results, units, if e == 0 then 1 else 2 * units, m);
  }

  lemma {:induction false} SameUnits(a: nat, b: nat, m: nat)
    requires m > 0 && a * m == b * m
    ensures a == b
  {
    DivIs(a * m, m, a, 0);
    DivIs(b * m, m, b, 0);
  }

  function Times(k: nat, m: nat): nat {
    k * m
  }

  ghost predicate IsMultiple(x: nat, lo: nat, hi: nat, m: nat) {
    exists k | lo <= k <= hi :: x == Times(k, m)
  }

  lemma {:induction false} FewMultiples(xs: set<nat>, lo: nat, hi: nat, m: nat)
    requires lo <= hi + 1
    requires forall x | x in xs :: IsMultiple(x, lo, hi, m)
    ensures |xs| <= hi + 1 - lo
    decreases hi + 1 - lo
  {
    if lo <= hi {
      var rest := xs - {Times(lo, m)};
      forall x | x in rest
        ensures IsMultiple(x, lo + 1, hi, m)
      {
        var k: nat :| lo <= k <= hi && x == Times(k, m);
        assert k != lo;
      }
      FewMultiples(rest, lo + 1, hi, m);
      assert xs <= rest + {Times(lo, m)};
      SubsetSize(xs, rest + {Times(lo, m)});
    } else {
      assert xs == {};
    }
  }

  /** The 32-bit operands stay below the sign bit. */
  lemma {:induction false} NoInt32Overflow(len: nat)
    requires 2 <= len < LIMIT && ZeroBits(len) > 0
    ensures len + (Pow2(ZeroBits(len)) - 1) < 0x8000_0000
  {
    ClassBelowLimit(len);
    Pow2Grows(ZeroBits(len), Log2(len));
  }

  // ------------------------------------------------------------------ frames

  const LENGTH_PREFIX_BYTES := 4

  method Pad(data: seq<byte>) returns (r: Result<array<byte>, RangeError>)
    ensures r.Ok? <==> LENGTH_PREFIX_BYTES + |data| < LIMIT
    ensures r.Ok? ==> fresh(r.value) && IsFrame(r.value[..], data)
  {
    var framed := LENGTH_PREFIX_BYTES + |data|;
    var target := PadmeLength(framed);
    if target.Err? {
      return Err(target.error);
    }
    PaddedIsIdempotent(framed);
    var out := new byte[target.value](_ => 0);
    ghost var blank := out[..];
    PutU32(out, 0, |data|);
    ghost var prefixed := out[..];
    Put(out, LENGTH_PREFIX_BYTES, data);
    WrittenIsFrame(blank, prefixed, out[..], data);
    r := Ok(out);
  }

  lemma {:induction false} WrittenIsFrame(blank: seq<byte>, prefixed: seq<byte>, frame: seq<byte>, data: seq<byte>)
    requires var framed := LENGTH_PREFIX_BYTES + |data|;
             && framed < LIMIT && |blank| == Padded(framed) >= framed
             && prefixed == blank[..0] + U32be(|data|) + blank[4..]
             && frame == prefixed[..4] + data + prefixed[framed..]
    requires forall i | 0 <= i < |blank| :: blank[i] == 0
    ensures IsFrame(frame, data)
  {
    assert prefixed[..4] == U32be(|data|);
  }

  /** The data behind its length, then zeros up to the padded length. */
  ghost predicate IsFrame(frame: seq<byte>, data: seq<byte>) {
    var framed := LENGTH_PREFIX_BYTES + |data|;
    && framed < LIMIT && |frame| == Padded(framed) >= framed
    && frame[..framed] == U32be(|data|) + data
    && forall i | framed <= i < |frame| :: frame[i] == 0
  }

  method Unpad(padded: seq<byte>) returns (r: Result<seq<byte>, RangeError>)
    ensures r.Err? <==> |padded| < LENGTH_PREFIX_BYTES || LENGTH_PREFIX_BYTES + ReadU32(padded) > |padded|
    ensures r.Ok? ==> |r.value| <= U32_MAX && U32be(|r.value|) + r.value <= padded
  {
    if |padded| < LENGTH_PREFIX_BYTES {
      return Err(NoPrefix);
    }
    var trueLength := ReadU32(padded);
    if trueLength > |padded| - LENGTH_PREFIX_BYTES {
      return Err(DeclaredTooLong);
    }
    WriteRead(padded);
    r := Ok(padded[LENGTH_PREFIX_BYTES..LENGTH_PREFIX_BYTES + trueLength]);
  }

  /** Unpadding gives the data back: the contract of `Unpad` leaves it no other answer on a frame. */
  lemma {:induction false} FramesUnpad(frame: seq<byte>, data: seq<byte>, answer: seq<byte>)
    requires IsFrame(frame, data) && |answer| <= U32_MAX
    ensures LENGTH_PREFIX_BYTES + ReadU32(frame) <= |frame|
    ensures U32be(|answer|) + answer <= frame <==> answer == data
  {
    var framed := LENGTH_PREFIX_BYTES + |data|;
    assert frame == U32be(|data|) + (data + frame[framed..]);
    ReadWritten(|data|, data + frame[framed..]);
    if U32be(|answer|) + answer <= frame {
      assert frame == U32be(|answer|) + (answer + frame[4 + |answer|..]);
      ReadWritten(|answer|, answer + frame[4 + |answer|..]);
      assert answer == frame[4..4 + |answer|] && data == frame[4..framed];
    }
  }

  method PadThenUnpad(data: seq<byte>) returns (r: Result<seq<byte>, RangeError>)
    ensures r == if LENGTH_PREFIX_BYTES + |data| < LIMIT then Ok(data) else Err(TooLarge)
  {
    var padded := Pad(data);
    if padded.Err? {
      return Err(TooLarge);
    }
    r := Unpad(padded.value[..]);
    FramesUnpad(padded.value[..], data, if r.Ok? then r.value else data);
  }
}
