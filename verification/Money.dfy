/**
 * Amounts as integer paise: the exact parser, the two printers and the checked sum
 * (packages/core/src/canonical.ts, apps/bridge/src/main/cycle.ts).
 */
module Money {
  import opened Wrappers
  import opened Decimal
  import opened Space

  /** A JavaScript number that is an integer: negative zero is a value of its own. */
  datatype Number = Number(negative: bool, abs: nat) {
    predicate Safe() {
      abs <= MAX_SAFE_INTEGER
    }

    function Value(): int {
      if negative then 0 - abs else abs
    }

    predicate IsNegativeZero() {
      negative && abs == 0
    }
  }

  function FromInt(n: int): Number {
    if n < 0 then Number(true, -n) else Number(false, n)
  }

  datatype Failure = NotAnAmount | NotPaise | OutOfRange

  // ------------------------------------------------------------------ printing

  /** `padStart(width, '0')`. */
  function PadStart(s: string, width: nat): string
    decreases width - |s|
  {
    if |s| >= width then s else PadStart("0" + s, width)
  }

  /** Slices a digit string two places from the end. */
  function CanonicalAmountFromPaise(p: Number): Result<string, Failure> {
    if !p.Safe() then Err(NotPaise)
    else
      var digits := PadStart(NatText(p.abs), 3);
      PadStartLength(NatText(p.abs), 3);
      var body := digits[..|digits| - 2] + "." + digits[|digits| - 2..];
      Ok(if p.Value() < 0 then "-" + body else body)
  }

  /** Divides by a hundred. */
  function PaiseToDecimalString(p: Number): string {
    var body := NatText(p.abs / 100) + "." + PadStart(NatText(p.abs % 100), 2);
    if p.Value() < 0 then "-" + body else body
  }

  lemma {:induction false} PadStartLength(s: string, width: nat)
    ensures |PadStart(s, width)| == if |s| >= width then |s| else width
    decreases width - |s|
  {
    if |s| < width {
      PadStartLength("0" + s, width);
    }
  }

  function TwoDigits(n: nat): seq<nat>
    requires n < 100
  {
    [n / 10, n % 10]
  }

  /** The digits of whole rupees followed by exactly two of paise: what both printers print. */
  function AmountDigits(abs: nat): seq<nat> {
    Digits(abs / 100) + TwoDigits(abs % 100)
  }

  lemma {:induction false} PaddedTwo(n: nat)
    requires n < 100
    ensures PadStart(NatText(n), 2) == Text(TwoDigits(n))
  {
    if n < 10 {
      assert "0" + NatText(n) == Text(TwoDigits(n));
    } else {
      assert Digits(n) == TwoDigits(n);
    }
  }

  lemma {:induction false} PaddedThree(abs: nat)
    ensures PadStart(NatText(abs), 3) == Text(AmountDigits(abs))
  {
    if abs < 10 {
      var once := "0" + NatText(abs);
      assert PadStart(once, 3) == PadStart("0" + once, 3);
      assert "0" + once == Text(AmountDigits(abs));
    } else if abs < 100 {
      assert Digits(abs) == TwoDigits(abs);
      assert "0" + NatText(abs) == Text(AmountDigits(abs));
    } else {
      assert Digits(abs) == Digits(abs / 10) + [abs % 10];
      assert abs / 10 >= 10 && abs / 10 / 10 == abs / 100;
      assert Digits(abs / 10) == Digits(abs / 100) + [abs / 10 % 10];
      assert Digits(abs) == AmountDigits(abs);
    }
  }

  /** The text both printers produce. */
  function AmountText(p: Number): string {
    var body := NatText(p.abs / 100) + "." + Text(TwoDigits(p.abs % 100));
    if p.negative && p.abs != 0 then "-" + body else body
  }

  /** The text is what the printers print for that many paise. */
  predicate Says(text: string, paise: int) {
    FromInt(paise).Safe() && text == AmountText(FromInt(paise))
  }

  /** Slicing digits and dividing by a hundred print the same amount. */
  lemma {:induction false} PrintersAgree(p: Number)
    ensures PaiseToDecimalString(p) == AmountText(p)
    ensures p.Safe() ==> CanonicalAmountFromPaise(p) == Ok(AmountText(p))
  {
    PaddedTwo(p.abs % 100);
    PaddedThree(p.abs);
    var digits := Text(AmountDigits(p.abs));
    assert digits[..|digits| - 2] == NatText(p.abs / 100);
    assert digits[|digits| - 2..] == Text(TwoDigits(p.abs % 100));
  }

  // ------------------------------------------------------------------ parsing

  function DigitRun(s: string): (n: nat)
    ensures n <= |s| && AllDigitChars(s[..n]) && (n < |s| ==> !IsDigit(s[n]))
  {
    if s != "" && IsDigit(s[0]) then
      var n := DigitRun(s[1..]);
      assert s[..n + 1] == [s[0]] + s[1..][..n];
      n + 1
    else 0
  }

  /** Optional fraction: a point and one or two digits. `None` when a point is there without them. */
  function Fraction(s: string): Option<(string, string)> {
    if s == "" || s[0] != '.' then Some(("", s))
    else
      var n := DigitRun(s[1..]);
      if 1 <= n <= 2 then Some((s[1..n + 1], s[n + 1..])) else None
  }

  /** What the digits of a decimal amount are worth in paise. */
  function Paise(whole: string, frac: string): nat
    requires AllDigitChars(whole) && AllDigitChars(frac) && |frac| <= 2
  {
    Value(DigitsOf(whole) + DigitsOf(frac) + (if |frac| == 2 then [] else if |frac| == 1 then [0] else [0, 0]))
  }

  /** `(\d+)(?:\.(\d{1,2}))?\s*$` */
  function Magnitude(u: string): Option<nat> {
    var n := DigitRun(u);
    if n == 0 then None
    else
      match Fraction(u[n..])
      case None => None
      case Some((frac, rest)) =>
        if SkipSpace(rest) == "" && AllDigitChars(frac) && |frac| <= 2 then Some(Paise(u[..n], frac)) else None
  }

  /** `([+-]?)` and then the magnitude, digits straight to paise. */
  function ParseSigned(t: string): Result<Number, Failure> {
    var signed := t != "" && (t[0] == '-' || t[0] == '+');
    match Magnitude(if signed then t[1..] else t)
    case None => Err(NotAnAmount)
    case Some(paise) => FromMagnitude(t[..if signed then 1 else 0], paise)
  }

  function FromMagnitude(sign: string, paise: nat): Result<Number, Failure> {
    if paise > MAX_SAFE_INTEGER then Err(OutOfRange)
    else Ok(if paise == 0 then Number(false, 0) else Number(sign == "-", paise))
  }

  function ParseAmountToPaise(s: string): Result<Number, Failure> {
    ParseSigned(SkipSpace(s))
  }

  lemma {:induction false} DigitRunOf(ds: string, rest: string)
    requires AllDigitChars(ds) && (rest == "" || !IsDigit(rest[0]))
    ensures DigitRun(ds + rest) == |ds|
  {
    if ds == "" {
      assert ds + rest == rest;
    } else {
      DigitRunOf(ds[1..], rest);
      assert (ds + rest)[1..] == ds[1..] + rest;
    }
  }

  lemma {:induction false} AmountDigitsHaveValue(abs: nat)
    ensures Value(AmountDigits(abs)) == abs
  {
    DigitsHaveValue(abs / 100);
    var two := TwoDigits(abs % 100);
    ValueOfSplit(Digits(abs / 100), two);
    assert Pow10(2) == 100;
    assert two[..1][..0] == [] && two[..1] == [two[0]];
    assert Value(two) == Value(two[..1]) * 10 + two[1];
    assert Value(two[..1]) == Value(two[..1][..0]) * 10 + two[0];
  }

  /** The written fraction: nothing, or a point and its digits. */
  function Point(frac: string): string {
    if frac == "" then "" else "." + frac
  }

  lemma {:induction false} MagnitudeOf(whole: string, frac: string, trail: string)
    requires forall i | 0 <= i < |trail| :: IsSpace(trail[i])
    requires whole != "" && AllDigitChars(whole) && AllDigitChars(frac) && |frac| <= 2
    ensures Magnitude(whole + (Point(frac) + trail)) == Some(Paise(whole, frac))
  {
    var tail := Point(frac) + trail;
    var u := whole + tail;
    DigitRunOf(whole, tail);
    assert u[..|whole|] == whole && u[|whole|..] == tail;
    FractionOf(frac, trail);
    SkipsSpace(trail, "");
    assert trail + "" == trail;
  }

  lemma {:induction false} ParsedFrom(lead: string, sign: string, whole: string, frac: string, trail: string)
    requires forall i | 0 <= i < |lead| :: IsSpace(lead[i])
    requires forall i | 0 <= i < |trail| :: IsSpace(trail[i])
    requires sign in {"", "+", "-"} && whole != "" && AllDigitChars(whole)
    requires AllDigitChars(frac) && |frac| <= 2
    ensures ParseAmountToPaise(lead + sign + whole + Point(frac) + trail) ==
            FromMagnitude(sign, Paise(whole, frac))
  {
    var u := whole + (Point(frac) + trail);
    assert lead + sign + whole + Point(frac) + trail == lead + (sign + u);
    assert IsDigit(u[0]);
    SignOf(sign, u);
    SkipsSpace(lead, sign + u);
    MagnitudeOf(whole, frac, trail);
  }

  /** What a fraction is worth in paise: one digit counts tens, two count tens and ones. */
  function FractionWorth(frac: string): nat
    requires AllDigitChars(frac) && |frac| <= 2
  {
    match |frac|
    case 0 => 0
    case 1 => 10 * DigitOf(frac[0])
    case _ => 10 * DigitOf(frac[0]) + DigitOf(frac[1])
  }

  lemma {:induction false} PaiseIsWorth(whole: string, frac: string)
    requires AllDigitChars(whole) && AllDigitChars(frac) && |frac| <= 2
    ensures Paise(whole, frac) == 100 * Value(DigitsOf(whole)) + FractionWorth(frac)
  {
    var padded := DigitsOf(frac) + (if |frac| == 2 then [] else if |frac| == 1 then [0] else [0, 0]);
    var first := if frac == "" then 0 else DigitOf(frac[0]);
    var second := if |frac| < 2 then 0 else DigitOf(frac[1]);
    assert padded == [first, second];
    assert DigitsOf(whole) + padded ==
           DigitsOf(whole) + DigitsOf(frac) + (if |frac| == 2 then [] else if |frac| == 1 then [0] else [0, 0]);
    TwoMoreDigits(DigitsOf(whole), first, second);
  }

  lemma {:induction false} TwoMoreDigits(ds: seq<nat>, first: nat, second: nat)
    ensures Value(ds + [first, second]) == 100 * Value(ds) + 10 * first + second
  {
    assert (ds + [first, second])[..|ds| + 1] == ds + [first];
    assert (ds + [first])[..|ds|] == ds;
  }

  /**
   * The whole accepted grammar: white space, an optional sign, digits with or without leading zeros, and up to two
   * decimals. Rupees count a hundred, and the error comes exactly beyond the safe integers.
   */
  lemma {:induction false} ParsesEveryAmount(lead: string, sign: string, whole: string, frac: string, trail: string)
    requires forall i | 0 <= i < |lead| :: IsSpace(lead[i])
    requires forall i | 0 <= i < |trail| :: IsSpace(trail[i])
    requires sign in {"", "+", "-"} && whole != "" && AllDigitChars(whole)
    requires AllDigitChars(frac) && |frac| <= 2
    ensures var worth := 100 * Value(DigitsOf(whole)) + FractionWorth(frac);
            ParseAmountToPaise(lead + sign + whole + Point(frac) + trail) ==
            if worth > MAX_SAFE_INTEGER then Err(OutOfRange) else Ok(Number(sign == "-" && worth > 0, worth))
  {
    ParsedFrom(lead, sign, whole, frac, trail);
    PaiseIsWorth(whole, frac);
  }

  lemma {:induction false} SignOf(sign: string, u: string)
    requires sign in {"", "+", "-"} && u != "" && IsDigit(u[0])
    ensures !IsSpace((sign + u)[0])
    ensures ParseSigned(sign + u) ==
            if Magnitude(u).None? then Err(NotAnAmount) else FromMagnitude(sign, Magnitude(u).value)
  {
    var t := sign + u;
    if sign == "" {
      assert t == u && t[..0] == sign;
    } else {
      assert t[1..] == u && t[..1] == sign;
    }
  }

  lemma {:induction false} FractionOf(frac: string, trail: string)
    requires forall i | 0 <= i < |trail| :: IsSpace(trail[i])
    requires AllDigitChars(frac) && |frac| <= 2
    ensures Fraction(Point(frac) + trail) == Some((frac, trail))
  {
    if frac == "" {
      assert "" + trail == trail;
    } else {
      DigitRunOf(frac, trail);
      var s := "." + frac + trail;
      assert s[1..] == frac + trail;
      assert s[1..|frac| + 1] == frac && s[|frac| + 1..] == trail;
    }
  }

  /** White space, an optional sign, digits, up to two decimals, white space. */
  ghost predicate IsAmountOf(s: string, lead: string, sign: string, whole: string, frac: string, trail: string) {
    && (forall i | 0 <= i < |lead| :: IsSpace(lead[i])) && (forall i | 0 <= i < |trail| :: IsSpace(trail[i]))
    && sign in {"", "+", "-"} && whole != "" && AllDigitChars(whole) && AllDigitChars(frac) && |frac| <= 2
    && s == lead + sign + whole + Point(frac) + trail
  }

  lemma {:induction false} SkippedIsSpace(s: string) returns (k: nat)
    ensures k <= |s| && SkipSpace(s) == s[k..] && forall i | 0 <= i < k :: IsSpace(s[i])
  {
    if s != "" && IsSpace(s[0]) {
      var j := SkippedIsSpace(s[1..]);
      k := j + 1;
      assert forall i | 0 < i < k :: s[i] == s[1..][i - 1];
    } else {
      k := 0;
    }
  }

  lemma {:induction false} FractionHasForm(s: string)
    requires Fraction(s).Some?
    ensures s == Point(Fraction(s).value.0) + Fraction(s).value.1
  {
    if s != "" && s[0] == '.' {
      var n := DigitRun(s[1..]);
      assert s == ["."[0]] + s[1..n + 1] + s[n + 1..];
    }
  }

  lemma {:induction false} MagnitudeParts(u: string)
    requires Magnitude(u).Some?
    ensures DigitRun(u) > 0 && Fraction(u[DigitRun(u)..]).Some?
    ensures var (frac, rest) := Fraction(u[DigitRun(u)..]).value;
            AllDigitChars(frac) && |frac| <= 2 && SkipSpace(rest) == ""
  {
  }

  lemma {:induction false} AllSpace(s: string)
    requires SkipSpace(s) == ""
    ensures forall i | 0 <= i < |s| :: IsSpace(s[i])
  {
    var k := SkippedIsSpace(s);
  }

  lemma {:induction false} MagnitudeHasForm(u: string) returns (whole: string, frac: string, trail: string)
    requires Magnitude(u).Some?
    ensures whole != "" && AllDigitChars(whole) && AllDigitChars(frac) && |frac| <= 2
    ensures forall i | 0 <= i < |trail| :: IsSpace(trail[i])
    ensures u == whole + (Point(frac) + trail)
  {
    var n := DigitRun(u);
    MagnitudeParts(u);
    FractionHasForm(u[n..]);
    whole, frac, trail := u[..n], Fraction(u[n..]).value.0, Fraction(u[n..]).value.1;
    AllSpace(trail);
    assert u == u[..n] + u[n..];
  }

  lemma {:induction false} Regroup(a: string, b: string, c: string, d: string, e: string)
    ensures a + (b + (c + (d + e))) == a + b + c + d + e
  {
  }

  /** Anything that is not refused as no amount has the form of one. */
  lemma {:induction false} ParsedHasForm(s: string)
      returns (lead: string, sign: string, whole: string, frac: string, trail: string)
    requires ParseAmountToPaise(s) != Err(NotAnAmount)
    ensures IsAmountOf(s, lead, sign, whole, frac, trail)
  {
    var t;
    lead, t := LeadOf(s);
    sign := SignPart(t);
    whole, frac, trail := MagnitudeHasForm(t[|sign|..]);
    assert t == sign + t[|sign|..];
    Regroup(lead, sign, whole, Point(frac), trail);
  }

  lemma {:induction false} LeadOf(s: string) returns (lead: string, t: string)
    ensures (forall i | 0 <= i < |lead| :: IsSpace(lead[i])) && s == lead + t && t == SkipSpace(s)
  {
    var k := SkippedIsSpace(s);
    lead, t := s[..k], s[k..];
  }

  function SignPart(t: string): (sign: string)
    ensures |sign| <= |t| && t[..|sign|] == sign && sign in {"", "+", "-"}
  {
    if t == "" then ""
    else if t[0] == '-' then assert t[..1] == "-"; "-"
    else if t[0] == '+' then assert t[..1] == "+"; "+"
    else ""
  }

  /** The grammar is exact: a string is an amount, in or out of range, if and only if it has the form. */
  lemma {:induction false} AmountsExactly(s: string)
    ensures ParseAmountToPaise(s) != Err(NotAnAmount) <==>
            exists lead, sign, whole, frac, trail :: IsAmountOf(s, lead, sign, whole, frac, trail)
  {
    if ParseAmountToPaise(s) != Err(NotAnAmount) {
      var lead, sign, whole, frac, trail := ParsedHasForm(s);
    }
    if lead, sign, whole, frac, trail :| IsAmountOf(s, lead, sign, whole, frac, trail) {
      ParsesEveryAmount(lead, sign, whole, frac, trail);
    }
  }

  lemma {:induction false} PrintedPaise(abs: nat)
    ensures var whole, frac := NatText(abs / 100), Text(TwoDigits(abs % 100));
            AllDigitChars(whole) && AllDigitChars(frac) && whole != "" && Paise(whole, frac) == abs
  {
    var whole, frac := NatText(abs / 100), Text(TwoDigits(abs % 100));
    TextReadsBack(Digits(abs / 100));
    TextReadsBack(TwoDigits(abs % 100));
    AmountDigitsHaveValue(abs);
    assert DigitsOf(whole) + DigitsOf(frac) + [] == AmountDigits(abs);
  }

  /** Parsing what a printer printed gives the amount back, and never negative zero. */
  lemma {:induction false} ParsePrintRoundTrip(p: Number)
    requires p.Safe()
    ensures ParseAmountToPaise(AmountText(p)) == Ok(FromInt(p.Value()))
  {
    var whole, frac := NatText(p.abs / 100), Text(TwoDigits(p.abs % 100));
    var sign := if p.negative && p.abs != 0 then "-" else "";
    PrintedPaise(p.abs);
    ParsedFrom("", sign, whole, frac, "");
    PrintedForm(p, sign, whole, frac);
    PrintedMagnitude(p, sign);
  }

  lemma {:induction false} PrintedMagnitude(p: Number, sign: string)
    requires p.Safe() && sign == if p.negative && p.abs != 0 then "-" else ""
    ensures FromMagnitude(sign, p.abs) == Ok(FromInt(p.Value()))
  {
  }

  lemma {:induction false} PrintedForm(p: Number, sign: string, whole: string, frac: string)
    requires whole == NatText(p.abs / 100) && frac == Text(TwoDigits(p.abs % 100))
    requires sign == if p.negative && p.abs != 0 then "-" else ""
    ensures AmountText(p) == "" + sign + whole + Point(frac) + ""
  {
    assert frac != "";
    assert "" + sign + whole + ("." + frac) + "" == sign + (whole + "." + frac);
  }

  /** What is parsed is safe and is never negative zero. */
  lemma {:induction false} ParsedIsSafe(s: string)
    ensures ParseAmountToPaise(s).Ok? ==>
              ParseAmountToPaise(s).value.Safe() && !ParseAmountToPaise(s).value.IsNegativeZero()
  {
  }

  lemma {:induction false} NumberOfItsValue(a: Number)
    requires !a.IsNegativeZero()
    ensures FromInt(a.Value()) == a
  {
  }

  lemma {:induction false} PrintingIsInjective(a: Number, b: Number)
    requires a.Safe() && b.Safe() && !a.IsNegativeZero() && !b.IsNegativeZero()
    ensures a.Value() == b.Value() <==> AmountText(a) == AmountText(b)
  {
    NumberOfItsValue(a);
    NumberOfItsValue(b);
    if AmountText(a) == AmountText(b) {
      ParsePrintRoundTrip(a);
      ParsePrintRoundTrip(b);
    }
  }

  /** Every amount that parses is safe, is not negative zero, and prints back to one string for its value. */
  lemma {:induction false} ParsedAmountsAreCanonical(s: string, t: string)
    requires ParseAmountToPaise(s).Ok? && ParseAmountToPaise(t).Ok?
    ensures var a, b := ParseAmountToPaise(s).value, ParseAmountToPaise(t).value;
            && a.Safe() && !a.IsNegativeZero()
            && (a.Value() == b.Value() <==> AmountText(a) == AmountText(b))
  {
    ParsedIsSafe(s);
    ParsedIsSafe(t);
    PrintingIsInjective(ParseAmountToPaise(s).value, ParseAmountToPaise(t).value);
  }

  /** `amountFrom`: a blank column is zero, anything else must parse. */
  function AmountFrom(col: Option<string>): Result<string, Failure> {
    if col.None? || col.value == "" then Ok("0.00")
    else
      match ParseAmountToPaise(col.value)
      case Err(e) => Err(e)
      case Ok(p) => Ok(PaiseToDecimalString(p))
  }

  /** What a column that is blank or parses is worth. */
  function Worth(col: Option<string>): int {
    if col.None? || col.value == "" || ParseAmountToPaise(col.value).Err? then 0
    else ParseAmountToPaise(col.value).value.Value()
  }

  lemma {:induction false} RewrittenIs(col: Option<string>)
    requires AmountFrom(col).Ok?
    ensures AmountFrom(col) == Ok(AmountText(FromInt(Worth(col)))) && FromInt(Worth(col)).Safe()
  {
    if col.None? || col.value == "" {
      PrintersAgree(Number(false, 0));
      assert NatText(0) == "0" && Text(TwoDigits(0)) == "00";
      assert AmountText(Number(false, 0)) == "0" + "." + "00" == "0.00";
    } else {
      ParsedIsSafe(col.value);
      PrintersAgree(ParseAmountToPaise(col.value).value);
    }
  }

  /** A rewritten column is rewritten to itself, and two columns are rewritten alike exactly when worth the same. */
  lemma {:induction false} RewritingIsCanonical(a: Option<string>, b: Option<string>)
    requires AmountFrom(a).Ok? && AmountFrom(b).Ok?
    ensures AmountFrom(Some(AmountFrom(a).value)) == AmountFrom(a)
    ensures AmountFrom(a) == AmountFrom(b) <==> Worth(a) == Worth(b)
  {
    RewrittenIs(a);
    RewrittenIs(b);
    var p := FromInt(Worth(a));
    ParsePrintRoundTrip(p);
    PrintersAgree(p);
    PrintingIsInjective(p, FromInt(Worth(b)));
  }

  /** `negatedAmount`: the unary minus may make a negative zero, which the printer must not show. */
  function NegatedAmount(a: string): Result<string, Failure> {
    match ParseAmountToPaise(a)
    case Err(e) => Err(e)
    case Ok(p) => Ok(PaiseToDecimalString(p.(negative := !p.negative)))
  }

  /** Negating twice is the identity on canonical amounts, and negation negates the value. */
  lemma {:induction false} NegationIsExact(p: Number)
    requires p.Safe()
    ensures NegatedAmount(AmountText(p)) == Ok(AmountText(FromInt(-p.Value())))
    ensures NegatedAmount(NegatedAmount(AmountText(p)).value) == Ok(AmountText(p))
  {
    ParsePrintRoundTrip(p);
    PrintersAgree(FromInt(p.Value()).(negative := !FromInt(p.Value()).negative));
    var q := FromInt(-p.Value());
    ParsePrintRoundTrip(q);
    PrintersAgree(FromInt(q.Value()).(negative := !FromInt(q.Value()).negative));
  }

  // ------------------------------------------------------------------ summing

  function Total(ps: seq<int>): int {
    if ps == [] then 0 else Total(ps[..|ps| - 1]) + ps[|ps| - 1]
  }

  predicate SafeInt(n: int) {
    0 - MAX_SAFE_INTEGER <= n <= MAX_SAFE_INTEGER
  }

  /** Every element and every running total is exact. */
  ghost predicate SumsSafely(ps: seq<int>) {
    forall i | 0 <= i <= |ps| :: SafeInt(Total(ps[..i])) && (i < |ps| ==> SafeInt(ps[i]))
  }

  /** Exact, or a throw: it returns the mathematical sum if and only if no step left the safe range. */
  method SumPaise(ps: seq<int>) returns (r: Result<int, Failure>)
    ensures r.Ok? <==> SumsSafely(ps)
    ensures r.Ok? ==> r.value == Total(ps)
    ensures r == Err(NotPaise) ==> exists i | 0 <= i < |ps| :: !SafeInt(ps[i])
  {
    var total := 0;
    for i := 0 to |ps|
      invariant total == Total(ps[..i])
      invariant forall j | 0 <= j <= i :: SafeInt(Total(ps[..j])) && (j < i ==> SafeInt(ps[j]))
    {
      assert ps[..i + 1][..i] == ps[..i];
      if !SafeInt(ps[i]) {
        return Err(NotPaise);
      }
      total := total + ps[i];
      if !SafeInt(total) {
        assert !SafeInt(Total(ps[..i + 1]));
        return Err(OutOfRange);
      }
    }
    assert ps[..|ps|] == ps;
    r := Ok(total);
  }
}
