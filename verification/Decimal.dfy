/** Decimal digit strings, as `String(n)` prints safe integers and `Number(s)` reads digit runs. */
module Decimal {

  /** The largest integer up to which JavaScript's numbers are exact. */
  const MAX_SAFE_INTEGER: nat := 9_007_199_254_740_991

  predicate AllDigits(ds: seq<nat>) {
    forall i | 0 <= i < |ds| :: ds[i] < 10
  }

  /** The digits of n, most significant first, without leading zeros. */
  function Digits(n: nat): (ds: seq<nat>)
    ensures |ds| > 0 && AllDigits(ds)
  {
    if n < 10 then [n] else Digits(n / 10) + [n % 10]
  }

  function Value(ds: seq<nat>): nat {
    if ds == [] then 0 else Value(ds[..|ds| - 1]) * 10 + ds[|ds| - 1]
  }

  predicate Canonical(ds: seq<nat>) {
    AllDigits(ds) && |ds| > 0 && (ds[0] == 0 ==> |ds| == 1)
  }

  lemma {:induction false} DigitsHaveValue(n: nat)
    ensures Value(Digits(n)) == n
  {
    if n >= 10 {
      DigitsHaveValue(n / 10);
      assert Digits(n)[..|Digits(n)| - 1] == Digits(n / 10);
    } else {
      assert Digits(n)[..0] == [];
    }
  }

  lemma {:induction false} DigitsAreCanonical(n: nat)
    ensures Canonical(Digits(n)) && (n > 0 ==> Digits(n)[0] != 0)
  {
    if n >= 10 {
      DigitsAreCanonical(n / 10);
    }
  }

  lemma {:induction false} CanonicalIsDigits(ds: seq<nat>)
    requires Canonical(ds)
    ensures Digits(Value(ds)) == ds && (ds[0] != 0 ==> Value(ds) > 0)
  {
    var init, last := ds[..|ds| - 1], ds[|ds| - 1];
    if |ds| == 1 {
      assert Value(init) == 0;
    } else {
      CanonicalIsDigits(init);
      assert Value(ds) == Value(init) * 10 + last;
      assert Value(ds) / 10 == Value(init) && Value(ds) % 10 == last;
    }
  }

  lemma {:induction false} ValueOfSplit(a: seq<nat>, b: seq<nat>)
    ensures Value(a + b) == Value(a) * Pow10(|b|) + Value(b)
  {
    if b == [] {
      assert a + b == a;
    } else {
      var init, last := b[..|b| - 1], b[|b| - 1];
      ValueOfSplit(a, init);
      assert (a + b)[..|a + b| - 1] == a + init;
    }
  }

  function Pow10(n: nat): nat {
    if n == 0 then 1 else 10 * Pow10(n - 1)
  }

  function Digit(d: nat): char
    requires d < 10
  {
    ('0' as int + d) as char
  }

  predicate IsDigit(c: char) {
    '0' <= c <= '9'
  }

  function DigitOf(c: char): nat
    requires IsDigit(c)
  {
    c as int - '0' as int
  }

  function Text(ds: seq<nat>): string
    requires AllDigits(ds)
  {
    seq(|ds|, i requires 0 <= i < |ds| => Digit(ds[i]))
  }

  predicate AllDigitChars(s: string) {
    forall i | 0 <= i < |s| :: IsDigit(s[i])
  }

  function DigitsOf(s: string): (ds: seq<nat>)
    requires AllDigitChars(s)
    ensures AllDigits(ds)
  {
    seq(|s|, i requires 0 <= i < |s| => DigitOf(s[i]))
  }

  lemma {:induction false} TextReadsBack(ds: seq<nat>)
    requires AllDigits(ds)
    ensures AllDigitChars(Text(ds)) && DigitsOf(Text(ds)) == ds
  {
  }

  function NatText(n: nat): string {
    Text(Digits(n))
  }

  function IntText(n: int): string {
    if n < 0 then "-" + NatText(-n) else NatText(n)
  }

  lemma {:induction false} NatTextInjective(m: nat, n: nat)
    requires NatText(m) == NatText(n)
    ensures m == n
  {
    TextReadsBack(Digits(m));
    TextReadsBack(Digits(n));
    DigitsHaveValue(m);
    DigitsHaveValue(n);
  }

  lemma {:induction false} SignShows(n: int)
    ensures n < 0 <==> IntText(n)[0] == '-'
  {
    var digits := NatText(if n < 0 then -n else n);
    assert IsDigit(digits[0]);
  }

  lemma {:induction false} IntTextInjective(m: int, n: int)
    requires IntText(m) == IntText(n)
    ensures m == n
  {
    SignShows(m);
    SignShows(n);
    if m < 0 {
      assert NatText(-m) == IntText(m)[1..] && NatText(-n) == IntText(n)[1..];
      NatTextInjective(-m, -n);
    } else {
      NatTextInjective(m, n);
    }
  }
}
