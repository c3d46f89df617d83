/**
 * The bytes an envelope signature covers: length-prefixed fields, written into one buffer
 * (packages/crypto/src/envelope.ts).
 *
 * They keep apart from the string a request signature covers, except where a device id spells an envelope.
 */
module EnvelopeFraming {
  import opened Wrappers
  import opened Seqs
  import opened Bytes
  import Signing
  import D = Decimal

  /** "tally-bridge/envelope-signature/v1" in ASCII. */
  const SIG_DOMAIN: seq<byte> := Ascii("tally-bridge/envelope-signature/v1")

  function Ascii(s: string): seq<byte>
    requires forall i | 0 <= i < |s| :: s[i] < 128 as char
  {
    seq(|s|, i requires 0 <= i < |s| => s[i] as int)
  }

  /** `alg` as the bytes its text encodes to. */
  datatype Parts = Parts(sigVer: int, alg: seq<byte>, aad: seq<byte>, nonce: seq<byte>,
                         sealedCek: seq<byte>, ciphertext: seq<byte>, contentHash: seq<byte>)

  datatype FramingError = NotU32(sigVer: int) | TooLong(length: nat)

  function Fields(p: Parts): seq<seq<byte>>
    requires 0 <= p.sigVer <= U32_MAX
  {
    [SIG_DOMAIN, U32be(p.sigVer), p.alg, p.aad, p.nonce, p.sealedCek, p.ciphertext, p.contentHash]
  }

  ghost predicate Fit(fields: seq<seq<byte>>) {
    forall i | 0 <= i < |fields| :: |fields[i]| <= U32_MAX
  }

  ghost function Prefixed(field: seq<byte>): seq<byte>
    requires |field| <= U32_MAX
  {
    U32be(|field|) + field
  }

  ghost function PrefixedAll(fields: seq<seq<byte>>): seq<byte>
    requires Fit(fields)
  {
    if fields == [] then [] else PrefixedAll(Init(fields)) + Prefixed(Last(fields))
  }

  ghost function Frame(fields: seq<seq<byte>>): seq<byte>
    requires Fit(fields) && |fields| <= U32_MAX
  {
    U32be(|fields|) + PrefixedAll(fields)
  }

  // ------------------------------------------------------------------ writing

  method Measure(fields: seq<seq<byte>>) returns (r: Result<nat, FramingError>)
    ensures r.Ok? <==> Fit(fields)
    ensures r.Ok? ==> r.value == 4 + |PrefixedAll(fields)|
  {
    var total := 4;
    for i := 0 to |fields|
      invariant Fit(fields[..i]) && total == 4 + |PrefixedAll(fields[..i])|
    {
      if |fields[i]| > U32_MAX {
        return Err(TooLong(|fields[i]|));
      }
      assert fields[..i + 1] == fields[..i] + [fields[i]];
      InitLast(fields[..i], fields[i]);
      total := total + 4 + |fields[i]|;
    }
    assert fields[..|fields|] == fields;
    r := Ok(total);
  }

  lemma {:induction false} PrefixIsShorter(fields: seq<seq<byte>>, i: nat)
    requires Fit(fields) && i < |fields|
    ensures Fit(fields[..i]) && |PrefixedAll(fields[..i])| + 4 + |fields[i]| <= |PrefixedAll(fields)|
    decreases |fields|
  {
    if i == |fields| - 1 {
      assert fields[..i] == Init(fields);
    } else {
      PrefixIsShorter(Init(fields), i);
      assert Init(fields)[..i] == fields[..i];
    }
  }

  lemma {:induction false} NextPrefix(fields: seq<seq<byte>>, i: nat)
    requires Fit(fields) && i < |fields|
    ensures Fit(fields[..i]) && Fit(fields[..i + 1])
    ensures PrefixedAll(fields[..i + 1]) == PrefixedAll(fields[..i]) + Prefixed(fields[i])
  {
    assert fields[..i + 1] == fields[..i] + [fields[i]];
    InitLast(fields[..i], fields[i]);
  }

  /** Writes one length and one field at the offset. */
  method PutField(out: array<byte>, o: nat, field: seq<byte>) returns (o': nat)
    requires |field| <= U32_MAX && o + 4 + |field| <= out.Length
    modifies out
    ensures o' == o + 4 + |field| && out[..o'] == old(out[..o]) + Prefixed(field)
  {
    PutU32(out, o, |field|);
    Put(out, o + 4, field);
    o' := o + 4 + |field|;
    assert out[..o] == old(out[..o]) && out[o..o + 4] == U32be(|field|) && out[o + 4..o'] == field;
  }

  method EnvelopeSigningBytes(parts: Parts) returns (r: Result<array<byte>, FramingError>)
    ensures r.Ok? <==> 0 <= parts.sigVer <= U32_MAX && Fit(Fields(parts))
    ensures r.Ok? ==> fresh(r.value) && r.value[..] == Frame(Fields(parts))
  {
    if parts.sigVer < 0 || parts.sigVer > U32_MAX {
      return Err(NotU32(parts.sigVer));
    }
    var fields := Fields(parts);
    var total := Measure(fields);
    if total.Err? {
      return Err(total.error);
    }
    var out := new byte[total.value](_ => 0);
    PutU32(out, 0, |fields|);
    var o := 4;
    assert out[..4] == U32be(|fields|) + PrefixedAll(fields[..0]);
    for i := 0 to |fields|
      invariant o == 4 + |PrefixedAll(fields[..i])| && o <= out.Length
      invariant out[..o] == U32be(|fields|) + PrefixedAll(fields[..i])
    {
      PrefixIsShorter(fields, i);
      NextPrefix(fields, i);
      o := PutField(out, o, fields[i]);
      Regroup(U32be(|fields|), PrefixedAll(fields[..i]), Prefixed(fields[i]));
    }
    assert fields[..|fields|] == fields && out[..o] == out[..];
    r := Ok(out);
  }

  // ------------------------------------------------------------------ reading back

  /** Reads `count` length-prefixed fields from the head. */
  ghost function ReadFields(bs: seq<byte>, count: nat): Option<(seq<seq<byte>>, seq<byte>)>
    decreases count
  {
    if count == 0 then Some(([], bs))
    else if |bs| < 4 || |bs| < 4 + ReadU32(bs) then None
    else
      var end := 4 + ReadU32(bs);
      match ReadFields(bs[end..], count - 1)
      case None => None
      case Some((fields, rest)) => Some(([bs[4..end]] + fields, rest))
  }

  /** The whole of `bs` as a counted list of fields. */
  ghost function Unframe(bs: seq<byte>): Option<seq<seq<byte>>> {
    if |bs| < 4 then None
    else
      match ReadFields(bs[4..], ReadU32(bs))
      case None => None
      case Some((fields, rest)) => if rest == [] then Some(fields) else None
  }

  lemma {:induction false} PrefixedAllFront(field: seq<byte>, fields: seq<seq<byte>>)
    requires |field| <= U32_MAX && Fit(fields)
    ensures Fit([field] + fields) && PrefixedAll([field] + fields) == Prefixed(field) + PrefixedAll(fields)
  {
    if fields == [] {
      assert [field] + fields == [field] && Init([field]) == [];
    } else {
      var before, last := Init(fields), Last(fields);
      PrefixedAllFront(field, before);
      assert [field] + fields == ([field] + before) + [last];
      InitLast([field] + before, last);
      Regroup(Prefixed(field), PrefixedAll(before), Prefixed(last));
    }
  }

  lemma {:induction false} FieldsReadBack(fields: seq<seq<byte>>, rest: seq<byte>)
    requires Fit(fields)
    ensures ReadFields(PrefixedAll(fields) + rest, |fields|) == Some((fields, rest))
  {
    if fields == [] {
      assert PrefixedAll(fields) + rest == rest;
    } else {
      var first, others := fields[0], fields[1..];
      assert fields == [first] + others;
      PrefixedAllFront(first, others);
      FieldsReadBack(others, rest);
      Regroup(Prefixed(first), PrefixedAll(others), rest);
      FieldReadsBack(first, PrefixedAll(others) + rest, |others|);
    }
  }

  lemma {:induction false} FieldReadsBack(field: seq<byte>, tail: seq<byte>, others: nat)
    requires |field| <= U32_MAX
    ensures ReadFields(Prefixed(field) + tail, others + 1) ==
            match ReadFields(tail, others)
            case None => None
            case Some((fields, rest)) => Some(([field] + fields, rest))
  {
    var bs := Prefixed(field) + tail;
    assert bs == U32be(|field|) + (field + tail);
    ReadWritten(|field|, field + tail);
    assert bs[4..4 + |field|] == field && bs[4 + |field|..] == tail;
  }

  /** The framing decodes to the one list it was made from. */
  lemma {:induction false} FrameReadsBack(fields: seq<seq<byte>>)
    requires Fit(fields) && |fields| <= U32_MAX
    ensures Unframe(Frame(fields)) == Some(fields)
  {
    ReadWritten(|fields|, PrefixedAll(fields));
    assert Frame(fields)[4..] == PrefixedAll(fields) + [];
    FieldsReadBack(fields, []);
  }

  lemma {:induction false} ReadFieldsExactly(bs: seq<byte>, count: nat)
    requires ReadFields(bs, count).Some?
    ensures var (fields, rest) := ReadFields(bs, count).value;
            |fields| == count && Fit(fields) && bs == PrefixedAll(fields) + rest
    decreases count
  {
    if count > 0 {
      var end := 4 + ReadU32(bs);
      ReadFieldsExactly(bs[end..], count - 1);
      var (others, rest) := ReadFields(bs[end..], count - 1).value;
      PrefixedAllFront(bs[4..end], others);
      HeadIsPrefixed(bs);
      Regroup(Prefixed(bs[4..end]), PrefixedAll(others), rest);
    }
  }

  lemma {:induction false} HeadIsPrefixed(bs: seq<byte>)
    requires |bs| >= 4 && |bs| >= 4 + ReadU32(bs)
    ensures var end := 4 + ReadU32(bs); bs == Prefixed(bs[4..end]) + bs[end..]
  {
    WriteRead(bs);
  }

  lemma {:induction false} Regroup(a: seq<byte>, b: seq<byte>, c: seq<byte>)
    ensures a + (b + c) == a + b + c
  {
  }

  /** And nothing else decodes to it: a byte string is the frame of what it decodes to. */
  lemma {:induction false} OnlyFramesUnframe(bs: seq<byte>)
    requires Unframe(bs).Some?
    ensures var fields := Unframe(bs).value;
            |fields| <= U32_MAX && Fit(fields) && Frame(fields) == bs
  {
    ReadFieldsExactly(bs[4..], ReadU32(bs));
    WriteRead(bs);
    assert bs == bs[..4] + bs[4..];
  }

  /** Equal signed bytes mean equal envelopes, part by part. */
  lemma {:induction false} SigningBytesAreInjective(p: Parts, q: Parts)
    requires 0 <= p.sigVer <= U32_MAX && Fit(Fields(p))
    requires 0 <= q.sigVer <= U32_MAX && Fit(Fields(q))
    ensures Frame(Fields(p)) == Frame(Fields(q)) <==> p == q
  {
    if Frame(Fields(p)) == Frame(Fields(q)) {
      FrameReadsBack(Fields(p));
      FrameReadsBack(Fields(q));
      var a, b := Fields(p), Fields(q);
      assert a[1] == U32be(p.sigVer) && b[1] == U32be(q.sigVer);
      U32beInjective(p.sigVer, q.sigVer);
      assert a[2] == p.alg && a[3] == p.aad && a[4] == p.nonce && b[2] == q.alg && b[3] == q.aad && b[4] == q.nonce;
      assert a[5] == p.sealedCek && a[6] == p.ciphertext && a[7] == p.contentHash;
      assert b[5] == q.sealedCek && b[6] == q.ciphertext && b[7] == q.contentHash;
    }
  }

  // ------------------------------------------------------------------ envelopes and requests

  predicate IsAscii(s: string) {
    forall i | 0 <= i < |s| :: s[i] < 128 as char
  }

  /**
   * What is used of UTF-8 (section 3 of RFC 3629): an ASCII character encodes to its own octet whatever is around it,
   * and an octet below 128 stands for nothing but its ASCII character.
   */
  ghost predicate Utf8(encode: string -> seq<byte>) {
    && encode("") == []
    && (forall s, c, t | c < 128 as char :: encode(s + [c] + t) == encode(s) + [c as int] + encode(t))
    && (forall s, b: byte | b in encode(s) && b < 128 :: b as char in s)
  }

  lemma {:induction false} AsciiEncodes(s: string, encode: string -> seq<byte>)
    requires Utf8(encode) && IsAscii(s)
    ensures encode(s) == Ascii(s)
    decreases |s|
  {
    if s != "" {
      AsciiEncodes(s[1..], encode);
      assert s == "" + [s[0]] + s[1..];
      assert encode("") + [s[0] as int] + encode(s[1..]) == Ascii(s);
    }
  }

  ghost predicate Framed(p: Parts) {
    0 <= p.sigVer <= U32_MAX && Fit(Fields(p))
  }

  /** Some envelope is signed over exactly these bytes. */
  ghost predicate IsEnvelope(bs: seq<byte>) {
    exists p :: Framed(p) && Frame(Fields(p)) == bs
  }

  /** The 46 bytes every signed envelope begins with: the count, the domain as a field, the length of the version. */
  const HEAD: seq<byte> := [0, 0, 0, 8] + [0, 0, 0, 34] + SIG_DOMAIN + [0, 0, 0, 4]

  lemma {:induction false} HeadOfFrame(p: Parts)
    requires Framed(p)
    ensures HEAD <= Frame(Fields(p))
  {
    var fields := Fields(p);
    var others := fields[2..];
    assert fields == [fields[0]] + ([fields[1]] + others);
    PrefixedAllFront(fields[1], others);
    PrefixedAllFront(fields[0], [fields[1]] + others);
    assert Prefixed(fields[0]) == [0, 0, 0, 34] + SIG_DOMAIN;
    assert Prefixed(fields[1]) == [0, 0, 0, 4] + U32be(p.sigVer);
    assert Frame(fields) == HEAD + U32be(p.sigVer) + PrefixedAll(others);
  }

  lemma {:induction false} HeadHasNoNewline()
    ensures 10 !in HEAD
  {
    assert forall i | 0 <= i < |SIG_DOMAIN| :: SIG_DOMAIN[i] != 10;
  }

  /** What follows the device id in the string a request signs. */
  function AfterDevice(input: Signing.SignatureInput, upper: string -> string): string {
    Signing.Join(Signing.Fields(input, upper)[1..])
  }

  /** The device id is the first line of what a request signs. */
  lemma {:induction false} DeviceFirst(input: Signing.SignatureInput, upper: string -> string,
                                       encode: string -> seq<byte>)
    requires Utf8(encode) && Signing.BuildSigningString(input, upper).Ok?
    ensures encode(Signing.BuildSigningString(input, upper).value) ==
            encode(input.deviceId) + [10] + encode(AfterDevice(input, upper))
    ensures 10 !in encode(input.deviceId)
  {
    assert Signing.Join(Signing.Fields(input, upper)) == input.deviceId + ['\n'] + AfterDevice(input, upper);
    assert '\n' < 128 as char && '\n' as int == 10;
    assert (10 as byte) as char == '\n';
  }

  /**
   * No byte string is both a signed envelope and a signed request, unless the device id spells the whole of the 46
   * bytes that every envelope begins with, four of them NUL. That no request over HTTP does: a field value holds no
   * NUL (section 5.5 of RFC 9110).
   */
  lemma {:induction false} NoEnvelopeIsARequest(input: Signing.SignatureInput, upper: string -> string,
                                                encode: string -> seq<byte>)
    requires Utf8(encode) && Signing.BuildSigningString(input, upper).Ok?
    requires !(HEAD <= encode(input.deviceId))
    ensures !IsEnvelope(encode(Signing.BuildSigningString(input, upper).value))
  {
    var all, line := encode(Signing.BuildSigningString(input, upper).value), encode(input.deviceId);
    DeviceFirst(input, upper, encode);
    if IsEnvelope(all) {
      var p :| Framed(p) && Frame(Fields(p)) == all;
      HeadOfFrame(p);
      HeadHasNoNewline();
      StaysInFirstLine(HEAD, line, encode(AfterDevice(input, upper)));
    }
  }

  lemma {:induction false} StaysInFirstLine(head: seq<byte>, line: seq<byte>, rest: seq<byte>)
    requires 10 !in head && head <= line + [10] + rest
    ensures head <= line
  {
    var all := line + [10] + rest;
    assert all[|line|] == 10 && all[..|line|] == line;
    assert head == all[..|head|];
  }

  /** The field list is an envelope's. */
  ghost predicate EnvelopeFields(fields: seq<seq<byte>>) {
    |fields| == 8 && fields[0] == SIG_DOMAIN && |fields[1]| == 4
  }

  lemma {:induction false} FieldsOfParts(fields: seq<seq<byte>>) returns (p: Parts)
    requires EnvelopeFields(fields) && Fit(fields)
    ensures Framed(p) && Fields(p) == fields
  {
    var f := fields;
    p := Parts(ReadU32(f[1]), f[2], f[3], f[4], f[5], f[6], f[7]);
    WriteRead(f[1]);
    assert U32be(p.sigVer) == f[1];
    assert Fields(p) == [f[0], f[1], f[2], f[3], f[4], f[5], f[6], f[7]] == f;
  }

  /** Which byte strings are signed envelopes at all. */
  lemma {:induction false} EnvelopesExactly(bs: seq<byte>)
    ensures IsEnvelope(bs) <==> Unframe(bs).Some? && EnvelopeFields(Unframe(bs).value)
  {
    if IsEnvelope(bs) {
      var p :| Framed(p) && Frame(Fields(p)) == bs;
      FrameReadsBack(Fields(p));
    }
    if Unframe(bs).Some? && EnvelopeFields(Unframe(bs).value) {
      OnlyFramesUnframe(bs);
      var p := FieldsOfParts(Unframe(bs).value);
    }
  }

  // ------------------------------------------------------------------ a device id that spells an envelope

  /** An envelope's signed bytes up to its content hash, whose length they end with. */
  ghost function Opening(p: Parts): seq<byte>
    requires Framed(p)
  {
    assert p.contentHash == Fields(p)[7];
    U32be(8) + PrefixedAll(Init(Fields(p))) + U32be(|p.contentHash|)
  }

  lemma {:induction false} FrameOpens(p: Parts, hash: seq<byte>)
    requires Framed(p) && |hash| == |p.contentHash|
    ensures Framed(p.(contentHash := hash)) && Frame(Fields(p.(contentHash := hash))) == Opening(p) + hash
  {
    var q := p.(contentHash := hash);
    assert p.contentHash == Fields(p)[7];
    assert Init(Fields(q)) == Init(Fields(p)) && Last(Fields(q)) == hash;
    Regroup(U32be(8), PrefixedAll(Init(Fields(p))), Prefixed(hash));
    Regroup(U32be(8) + PrefixedAll(Init(Fields(p))), U32be(|hash|), hash);
  }

  lemma {:induction false} FieldsArePrefixFree(a: seq<seq<byte>>, b: seq<seq<byte>>, rest: seq<byte>)
    requires Fit(a) && Fit(b) && |a| == |b| && PrefixedAll(a) == PrefixedAll(b) + rest
    ensures rest == []
  {
    FieldsReadBack(a, []);
    FieldsReadBack(b, rest);
    assert PrefixedAll(a) + [] == PrefixedAll(b) + rest;
  }

  /** Of two envelopes' signed bytes neither begins the other. */
  lemma {:induction false} NoFrameBeginsAnother(p: Parts, q: Parts, rest: seq<byte>)
    requires Framed(p) && Framed(q) && Frame(Fields(p)) == Frame(Fields(q)) + rest
    ensures rest == []
  {
    var a, b := PrefixedAll(Fields(p)), PrefixedAll(Fields(q));
    assert Frame(Fields(p))[4..] == a && (Frame(Fields(q)) + rest)[4..] == b + rest;
    FieldsArePrefixFree(Fields(p), Fields(q), rest);
  }

  /**
   * Where the device id does spell an envelope's opening, the rest of the request is taken for the content hash: the
   * two collide if and only if the length the device id ends with is the length of that rest.
   */
  lemma {:induction false} SpelledOpeningCollidesExactly(p: Parts, input: Signing.SignatureInput,
                                                         upper: string -> string, encode: string -> seq<byte>)
    requires Utf8(encode) && Signing.BuildSigningString(input, upper).Ok?
    requires Framed(p) && encode(input.deviceId) == Opening(p)
    ensures IsEnvelope(encode(Signing.BuildSigningString(input, upper).value)) <==>
            |p.contentHash| == 1 + |encode(AfterDevice(input, upper))|
  {
    var all := encode(Signing.BuildSigningString(input, upper).value);
    var rest := [10] + encode(AfterDevice(input, upper));
    DeviceFirst(input, upper, encode);
    Regroup(Opening(p), [10], encode(AfterDevice(input, upper)));
    assert all == Opening(p) + rest;
    if |rest| == |p.contentHash| {
      FrameOpens(p, rest);
    } else if IsEnvelope(all) {
      var q :| Framed(q) && Frame(Fields(q)) == all;
      OpeningFixesLength(p, q, rest);
    }
  }

  lemma {:induction false} OpeningFixesLength(p: Parts, q: Parts, rest: seq<byte>)
    requires Framed(p) && Framed(q) && Frame(Fields(q)) == Opening(p) + rest
    ensures |rest| == |p.contentHash|
  {
    var n := |p.contentHash|;
    if |rest| > n {
      FrameOpens(p, rest[..n]);
      Regroup(Opening(p), rest[..n], rest[n..]);
      assert rest == rest[..n] + rest[n..];
      NoFrameBeginsAnother(q, p.(contentHash := rest[..n]), rest[n..]);
    } else if |rest| < n {
      var pad: seq<byte> := seq(n - |rest|, _ => 0);
      FrameOpens(p, rest + pad);
      Regroup(Opening(p), rest, pad);
      NoFrameBeginsAnother(p.(contentHash := rest + pad), q, pad);
    }
  }

  const NULS: string := "\U{00}\U{00}\U{00}"

  /** A short text behind its length, as text: three NULs and the character of that number. */
  function PrefixedText(s: string): string
    requires |s| < 128
  {
    NULS + [|s| as char] + s
  }

  function PrefixedTexts(texts: seq<string>): string
    requires forall i | 0 <= i < |texts| :: |texts[i]| < 128
  {
    if texts == [] then "" else PrefixedTexts(Init(texts)) + PrefixedText(Last(texts))
  }

  /** The first seven fields of an envelope whose domain, version, algorithm and content hash alone are not empty. */
  const SEVEN: seq<string> :=
    ["tally-bridge/envelope-signature/v1", NULS + "\U{01}", "ed25519", "", "", "", ""]

  /** What a device id would have to look like: the count, those fields, and the length of the last one. */
  const SPELLING: string := NULS + "\U{08}" + PrefixedTexts(SEVEN) + NULS + "@"

  /** The base64 text of a digest. */
  const HASH: string := seq(43, _ => 'A') + "="

  /** An upload signed by a device of that name. */
  const SPELLER: Signing.SignatureInput := Signing.SignatureInput(SPELLING, "POST", "/api/sync", HASH, 0, "n")

  ghost function Spelled(): Parts {
    Parts(1, Ascii("ed25519"), [], [], [], [], seq(64, _ => 0))
  }

  function Same(s: string): string {
    s
  }

  lemma {:induction false} AsciiConcat(s: string, t: string)
    requires IsAscii(s) && IsAscii(t)
    ensures IsAscii(s + t) && Ascii(s + t) == Ascii(s) + Ascii(t)
  {
  }

  lemma {:induction false} PrefixedTextIs(s: string)
    requires |s| < 128 && IsAscii(s)
    ensures IsAscii(PrefixedText(s)) && Ascii(PrefixedText(s)) == Prefixed(Ascii(s))
  {
    assert Ascii(NULS + [|s| as char]) == U32be(|s|);
    AsciiConcat(NULS + [|s| as char], s);
  }

  ghost predicate Spells(texts: seq<string>, fields: seq<seq<byte>>) {
    && |texts| == |fields|
    && forall i | 0 <= i < |texts| :: |texts[i]| < 128 && IsAscii(texts[i]) && Ascii(texts[i]) == fields[i]
  }

  lemma {:induction false} PrefixedTextsAre(texts: seq<string>, fields: seq<seq<byte>>)
    requires Spells(texts, fields) && Fit(fields)
    ensures IsAscii(PrefixedTexts(texts)) && Ascii(PrefixedTexts(texts)) == PrefixedAll(fields)
  {
    if texts != [] {
      PrefixedTextsAre(Init(texts), Init(fields));
      PrefixedTextIs(Last(texts));
      AsciiConcat(PrefixedTexts(Init(texts)), PrefixedText(Last(texts)));
    }
  }

  lemma {:induction false} SevenSpelled()
    ensures Framed(Spelled()) && Spells(SEVEN, Init(Fields(Spelled())))
  {
    var f := Fields(Spelled());
    assert f == [SIG_DOMAIN, U32be(1), Ascii("ed25519"), [], [], [], [], Spelled().contentHash];
    assert Ascii(NULS + "\U{01}") == U32be(1);
    assert Ascii("") == [];
    assert Init(f) == [SIG_DOMAIN, U32be(1), Ascii("ed25519"), [], [], [], []];
  }

  lemma {:induction false} SpellingIsAnOpening()
    ensures Framed(Spelled()) && IsAscii(SPELLING) && Ascii(SPELLING) == Opening(Spelled())
  {
    SevenSpelled();
    PrefixedTextsAre(SEVEN, Init(Fields(Spelled())));
    assert Ascii(NULS + "\U{08}") == U32be(8) && Ascii(NULS + "@") == U32be(64);
    AsciiConcat(NULS + "\U{08}", PrefixedTexts(SEVEN));
    AsciiConcat(NULS + "\U{08}" + PrefixedTexts(SEVEN), NULS + "@");
    assert SPELLING == NULS + "\U{08}" + PrefixedTexts(SEVEN) + (NULS + "@");
  }

  lemma {:induction false} NotSpelled(c: char, texts: seq<string>)
    requires forall i | 0 <= i < |texts| :: |texts[i]| < 128 && |texts[i]| as char != c && c !in texts[i]
    requires c != '\U{00}'
    ensures c !in PrefixedTexts(texts)
  {
    if texts != [] {
      NotSpelled(c, Init(texts));
      assert c !in PrefixedText(Last(texts));
    }
  }

  lemma {:induction false} OneMoreText(texts: seq<string>, s: string, more: seq<string>)
    requires forall i | 0 <= i < |texts| :: |texts[i]| < 128
    requires |s| < 128 && more == texts + [s]
    ensures |PrefixedTexts(more)| == |PrefixedTexts(texts)| + 4 + |s|
  {
    InitLast(texts, s);
  }

  lemma {:induction false} SpellingLength()
    ensures |PrefixedTexts(SEVEN)| == 73
  {
    OneMoreText([], SEVEN[0], SEVEN[..1]);
    OneMoreText(SEVEN[..1], SEVEN[1], SEVEN[..2]);
    OneMoreText(SEVEN[..2], SEVEN[2], SEVEN[..3]);
    OneMoreText(SEVEN[..3], SEVEN[3], SEVEN[..4]);
    OneMoreText(SEVEN[..4], SEVEN[4], SEVEN[..5]);
    OneMoreText(SEVEN[..5], SEVEN[5], SEVEN[..6]);
    OneMoreText(SEVEN[..6], SEVEN[6], SEVEN);
  }

  lemma {:induction false} SpellingPasses()
    ensures Signing.CheckField(SPELLING, Signing.MAX_DEVICE_ID_LENGTH)
  {
    SpellingLength();
    NotSpelled('\n', SEVEN);
    NotSpelled('\r', SEVEN);
  }

  lemma {:induction false} SpellerIsAccepted()
    ensures Signing.BuildSigningString(SPELLER, Same).Ok?
  {
    SpellingPasses();
    NoNewlineIn(HASH);
    FieldPasses("POST");
    FieldPasses("/api/sync");
    FieldPasses("n");
    Signing.RefusedExactly(SPELLER, Same);
  }

  lemma {:induction false} NoNewlineIn(s: string)
    requires s == HASH
    ensures '\n' !in s && |s| == 44 && IsAscii(s)
  {
  }

  lemma {:induction false} FieldPasses(s: string)
    requires s in ["POST", "/api/sync", "n"]
    ensures forall n: nat | n >= 9 :: Signing.CheckField(s, n)
  {
  }

  lemma {:induction false} JoinStaysAscii(fields: seq<string>)
    requires fields != [] && forall i | 0 <= i < |fields| :: IsAscii(fields[i])
    ensures IsAscii(Signing.Join(fields))
    decreases |fields|
  {
    if |fields| > 1 {
      JoinStaysAscii(fields[1..]);
    }
  }

  lemma {:induction false} JoinLength(line: string, others: seq<string>)
    requires others != []
    ensures |Signing.Join([line] + others)| == |line| + 1 + |Signing.Join(others)|
  {
    Signing.JoinFirst(line, others);
  }

  /** The rest of that request is 63 characters long, and the newline before it makes 64. */
  lemma {:induction false} RestIsSixtyThree()
    ensures IsAscii(AfterDevice(SPELLER, Same)) && |AfterDevice(SPELLER, Same)| == 63
  {
    var hash := HASH;
    NoNewlineIn(hash);
    assert D.IntText(0) == "0";
    var f := ["POST", "/api/sync", hash, "0", "n"];
    assert Signing.Fields(SPELLER, Same)[1..] == f;
    JoinStaysAscii(f);
    JoinLength("0", ["n"]);
    JoinLength(hash, ["0"] + ["n"]);
    JoinLength("/api/sync", [hash] + (["0"] + ["n"]));
    JoinLength("POST", ["/api/sync"] + ([hash] + (["0"] + ["n"])));
    assert f == ["POST"] + (["/api/sync"] + ([hash] + (["0"] + ["n"])));
  }

  /**
   * The request with a device id that spells an envelope's opening passes every check on its fields, and what it signs
   * is a signed envelope: the field checks alone do not keep the two apart.
   */
  lemma {:induction false} ADeviceIdCanSpellAnEnvelope(encode: string -> seq<byte>)
    requires Utf8(encode)
    ensures Signing.BuildSigningString(SPELLER, Same).Ok?
    ensures IsEnvelope(encode(Signing.BuildSigningString(SPELLER, Same).value))
    ensures HEAD <= encode(SPELLER.deviceId)
  {
    SpellerIsAccepted();
    SpellingIsAnOpening();
    AsciiEncodes(SPELLING, encode);
    RestIsSixtyThree();
    AsciiEncodes(AfterDevice(SPELLER, Same), encode);
    SpelledOpeningCollidesExactly(Spelled(), SPELLER, Same, encode);
    if !(HEAD <= encode(SPELLING)) {
      NoEnvelopeIsARequest(SPELLER, Same, encode);
    }
  }
}
