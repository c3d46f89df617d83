/**
 * The string a device signs (packages/protocol/src/signing.ts): six fields joined by newlines,
 * none of which may hold one.
 */
module Signing {
  import opened Wrappers
  import opened Decimal

  const MAX_CLOCK_SKEW_MS: int := 300_000
  const MAX_DEVICE_ID_LENGTH: nat := 200
  const MAX_NONCE_LENGTH: nat := 64
  const MAX_METHOD_LENGTH: nat := 16
  const MAX_PATH_LENGTH: nat := 2048

  const DELIMITER: char := '\n'

  /** `bodyHash` is the base64 SHA-256 of the body: only its text enters the framing. */
  datatype SignatureInput = SignatureInput(
    deviceId: string, method_: string, path: string, bodyHash: string, timestamp: int, nonce: string)

  datatype Field = DeviceId | Method | Path | BodyHash | Timestamp | Nonce

  predicate CheckField(value: string, maxLength: nat) {
    value != "" && |value| <= maxLength && DELIMITER !in value && '\r' !in value
  }

  function Fields(input: SignatureInput, upper: string -> string): seq<string> {
    [input.deviceId, upper(input.method_), input.path, input.bodyHash, IntText(input.timestamp), input.nonce]
  }

  function Join(fields: seq<string>): string
    requires fields != []
  {
    if |fields| == 1 then fields[0] else fields[0] + [DELIMITER] + Join(fields[1..])
  }

  /** `upper` stands for `toUpperCase`; nothing about it is assumed, its result is checked like any field. */
  function BuildSigningString(input: SignatureInput, upper: string -> string): Result<string, Field> {
    if !CheckField(input.method_, MAX_METHOD_LENGTH) then Err(Method)
    else if !CheckField(input.deviceId, MAX_DEVICE_ID_LENGTH) then Err(DeviceId)
    else if !CheckField(upper(input.method_), MAX_METHOD_LENGTH) then Err(Method)
    else if !CheckField(input.path, MAX_PATH_LENGTH) then Err(Path)
    else if !CheckField(input.nonce, MAX_NONCE_LENGTH) then Err(Nonce)
    else if DELIMITER in input.bodyHash then Err(BodyHash)
    else if DELIMITER in IntText(input.timestamp) then Err(Timestamp)
    else Ok(Join(Fields(input, upper)))
  }

  /** The line a string starts with and what follows its first delimiter. */
  function FirstLine(s: string): (n: nat)
    ensures n <= |s| && DELIMITER !in s[..n] && (n < |s| ==> s[n] == DELIMITER)
  {
    if s == "" || s[0] == DELIMITER then 0
    else
      var n := FirstLine(s[1..]);
      assert s[..n + 1] == [s[0]] + s[1..][..n];
      n + 1
  }

  function Split(s: string): seq<string>
    decreases |s|
  {
    var n := FirstLine(s);
    if n == |s| then [s] else [s[..n]] + Split(s[n + 1..])
  }

  lemma {:induction false} FirstLineOf(line: string, rest: string)
    requires DELIMITER !in line && (rest == "" || rest[0] == DELIMITER)
    ensures FirstLine(line + rest) == |line|
  {
    if line == "" {
      assert line + rest == rest;
    } else {
      FirstLineOf(line[1..], rest);
      assert (line + rest)[1..] == line[1..] + rest;
    }
  }

  /** Splitting at the delimiter undoes the join when no field contains it. */
  lemma {:induction false} SplitJoin(fields: seq<string>)
    requires fields != [] && forall i | 0 <= i < |fields| :: DELIMITER !in fields[i]
    ensures Split(Join(fields)) == fields
  {
    var line, others := fields[0], fields[1..];
    assert fields == [line] + others;
    if others == [] {
      SplitLast(line);
    } else {
      SplitJoin(others);
      SplitFirst(line, Join(others));
      JoinFirst(line, others);
    }
  }

  lemma {:induction false} SplitLast(line: string)
    requires DELIMITER !in line
    ensures Split(line) == [line]
  {
    FirstLineOf(line, "");
    assert line + "" == line;
  }

  lemma {:induction false} JoinFirst(line: string, others: seq<string>)
    requires others != []
    ensures Join([line] + others) == line + ([DELIMITER] + Join(others))
  {
    assert ([line] + others)[1..] == others;
    assert line + [DELIMITER] + Join(others) == line + ([DELIMITER] + Join(others));
  }

  lemma {:induction false} SplitFirst(line: string, rest: string)
    requires DELIMITER !in line
    ensures Split(line + ([DELIMITER] + rest)) == [line] + Split(rest)
  {
    FirstLineOf(line, [DELIMITER] + rest);
    var s := line + ([DELIMITER] + rest);
    assert s[..|line|] == line && s[|line| + 1..] == rest;
  }

  lemma {:induction false} DigitsHaveNoNewline(n: int)
    ensures DELIMITER !in IntText(n)
  {
    var digits := NatText(if n < 0 then -n else n);
    assert forall i | 0 <= i < |digits| :: IsDigit(digits[i]);
  }

  /**
   * One signed string authenticates one request: whenever the checks pass, the string splits back
   * into its six fields, so equal strings mean equal device, method as signed, path, body hash,
   * timestamp and nonce.
   */
  lemma {:induction false} SigningStringIsInjective(a: SignatureInput, b: SignatureInput, upper: string -> string)
    requires BuildSigningString(a, upper).Ok? && BuildSigningString(b, upper).Ok?
    ensures Split(BuildSigningString(a, upper).value) ==
            [a.deviceId, upper(a.method_), a.path, a.bodyHash, IntText(a.timestamp), a.nonce]
    ensures BuildSigningString(a, upper) == BuildSigningString(b, upper) <==>
            a.(method_ := upper(a.method_)) == b.(method_ := upper(b.method_))
  {
    SplitJoin(Fields(a, upper));
    SplitJoin(Fields(b, upper));
    if Fields(a, upper) == Fields(b, upper) {
      assert Fields(a, upper)[4] == Fields(b, upper)[4];
      IntTextInjective(a.timestamp, b.timestamp);
      assert forall i | 0 <= i < 6 :: Fields(a, upper)[i] == Fields(b, upper)[i];
    }
  }

  /** One line of text, and not an empty one. */
  predicate OneLine(s: string) {
    s != "" && forall i | 0 <= i < |s| :: s[i] != '\n' && s[i] != '\r'
  }

  /** The output check on the two unlisted fields can only ever refuse the body hash. */
  lemma {:induction false} RefusedExactly(input: SignatureInput, upper: string -> string)
    ensures BuildSigningString(input, upper).Ok? <==>
            && OneLine(input.deviceId) && |input.deviceId| <= 200
            && OneLine(input.method_) && |input.method_| <= 16
            && OneLine(upper(input.method_)) && |upper(input.method_)| <= 16
            && OneLine(input.path) && |input.path| <= 2048
            && OneLine(input.nonce) && |input.nonce| <= 64
            && '\n' !in input.bodyHash
  {
    DigitsHaveNoNewline(input.timestamp);
  }

  lemma {:induction false} JoinSix(a: string, b: string, c: string, d: string, e: string, f: string)
    ensures Join([a, b, c, d, e, f]) ==
            a + ("\n" + (b + ("\n" + (c + ("\n" + (d + ("\n" + (e + ("\n" + f)))))))))
  {
    assert [a] + [b, c, d, e, f] == [a, b, c, d, e, f] && [b] + [c, d, e, f] == [b, c, d, e, f];
    assert [c] + [d, e, f] == [c, d, e, f] && [d] + [e, f] == [d, e, f] && [e] + [f] == [e, f];
    JoinFirst(a, [b, c, d, e, f]);
    JoinFirst(b, [c, d, e, f]);
    JoinFirst(c, [d, e, f]);
    JoinFirst(d, [e, f]);
    JoinFirst(e, [f]);
  }

  /** Without the checks the framing is ambiguous: a path can swallow the next three fields. */
  lemma {:induction false} UncheckedFramingIsAmbiguous()
    ensures Join(["d", "POST", "/a\nh\n1\nm", "g", "2", "n"]) == Join(["d", "POST", "/a", "h", "1", "m\ng\n2\nn"])
  {
    JoinSix("d", "POST", "/a\nh\n1\nm", "g", "2", "n");
    JoinSix("d", "POST", "/a", "h", "1", "m\ng\n2\nn");
  }
}
