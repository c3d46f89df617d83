/**
 * Canonical serialization (packages/core/src/canonical.ts): deterministic JSON with sorted keys,
 * and a reader of JSON texts to show that it loses nothing.
 */
module Canonical {
  import opened Wrappers
  import opened KeyOrder
  import D = Decimal

  type SafeInt = n: int | 0 - D.MAX_SAFE_INTEGER <= n <= D.MAX_SAFE_INTEGER

  /**
   * A JavaScript value on its way into the serializer. An object's fields come in their insertion
   * order. `Foreign` is everything the serializer refuses: undefined, an array hole, a function, a
   * symbol, NaN, a fraction, and any object that is not a plain one.
   */
  datatype Value =
    | Null
    | Bool(b: bool)
    | Num(n: SafeInt)
    | Str(t: Text)
    | Arr(items: seq<Value>)
    | Obj(fields: seq<Keyed<Value>>)
    | Foreign

  const QUOTE: Unit := 0x22
  const BACKSLASH: Unit := 0x5C
  const COMMA: Unit := 0x2C
  const COLON: Unit := 0x3A
  const MINUS: Unit := 0x2D
  const OPEN_BRACKET: Unit := 0x5B
  const CLOSE_BRACKET: Unit := 0x5D
  const OPEN_BRACE: Unit := 0x7B
  const CLOSE_BRACE: Unit := 0x7D
  const ZERO: Unit := 0x30
  const NULL_TEXT: Text := [0x6E, 0x75, 0x6C, 0x6C]
  const TRUE_TEXT: Text := [0x74, 0x72, 0x75, 0x65]
  const FALSE_TEXT: Text := [0x66, 0x61, 0x6C, 0x73, 0x65]

  // ------------------------------------------------------------------ strings

  function HexDigit(d: nat): Unit
    requires d < 16
  {
    if d < 10 then ZERO + d else 0x61 + (d - 10)
  }

  /** `u` and four lower-case hexadecimal digits, as they follow a backslash. */
  function HexEscape(u: Unit): Text {
    [0x75, HexDigit(u / 4096), HexDigit(u / 256 % 16), HexDigit(u / 16 % 16), HexDigit(u % 16)]
  }

  predicate IsHighSurrogate(u: Unit) {
    0xD800 <= u <= 0xDBFF
  }

  predicate IsLowSurrogate(u: Unit) {
    0xDC00 <= u <= 0xDFFF
  }

  /** QuoteJSONString of ECMA-262, one code unit on its own. */
  function EscapeUnit(u: Unit): Text {
    if u == QUOTE || u == BACKSLASH then [BACKSLASH, u]
    else if u == 0x08 then [BACKSLASH, 0x62]
    else if u == 0x0C then [BACKSLASH, 0x66]
    else if u == 0x0A then [BACKSLASH, 0x6E]
    else if u == 0x0D then [BACKSLASH, 0x72]
    else if u == 0x09 then [BACKSLASH, 0x74]
    else if u < 0x20 || 0xD800 <= u <= 0xDFFF then [BACKSLASH] + HexEscape(u)
    else [u]
  }

  /** A surrogate pair is one code point and stays as it is; a lone surrogate is escaped. */
  function Escape(t: Text): Text {
    if t == [] then []
    else if |t| >= 2 && IsHighSurrogate(t[0]) && IsLowSurrogate(t[1]) then t[..2] + Escape(t[2..])
    else EscapeUnit(t[0]) + Escape(t[1..])
  }

  function Quote(t: Text): Text {
    [QUOTE] + Escape(t) + [QUOTE]
  }

  // ------------------------------------------------------------------ serialization

  function Digits(n: nat): Text {
    var ds := D.Digits(n);
    seq(|ds|, i requires 0 <= i < |ds| => ZERO + ds[i])
  }

  function Number(n: int): Text {
    if n < 0 then [MINUS] + Digits(-n) else Digits(n)
  }

  function Join(parts: seq<Text>): Text {
    if parts == [] then []
    else if |parts| == 1 then parts[0]
    else parts[0] + [COMMA] + Join(parts[1..])
  }

  function Member(p: Keyed<Text>): Text {
    Quote(p.key) + [COLON] + p.value
  }

  function Members(ps: seq<Keyed<Text>>): seq<Text> {
    seq(|ps|, i requires 0 <= i < |ps| => Member(ps[i]))
  }

  /** `None` is the thrown TypeError. */
  function Serialize(v: Value): Option<Text>
    decreases v, 1
  {
    match v
    case Null => Some(NULL_TEXT)
    case Bool(b) => Some(if b then TRUE_TEXT else FALSE_TEXT)
    case Num(n) => Some(Number(n))
    case Str(t) => Some(Quote(t))
    case Arr(items) =>
      (match SerializeAll(items)
       case None => None
       case Some(parts) => Some([OPEN_BRACKET] + Join(parts) + [CLOSE_BRACKET]))
    case Obj(fields) =>
      (match SerializeFields(fields)
       case None => None
       case Some(parts) => Some([OPEN_BRACE] + Join(Members(Sort(parts))) + [CLOSE_BRACE]))
    case Foreign => None
  }

  function SerializeAll(items: seq<Value>): (r: Option<seq<Text>>)
    ensures r.Some? ==> |r.value| == |items|
    decreases items, 0
  {
    if items == [] then Some([])
    else
      var first, rest := Serialize(items[0]), SerializeAll(items[1..]);
      if first.Some? && rest.Some? then Some([first.value] + rest.value) else None
  }

  function SerializeFields(fields: seq<Keyed<Value>>): (r: Option<seq<Keyed<Text>>>)
    ensures r.Some? ==> SameKeys(r.value, fields)
    decreases fields, 0
  {
    if fields == [] then Some([])
    else
      var first, rest := Serialize(fields[0].value), SerializeFields(fields[1..]);
      if first.Some? && rest.Some? then Some([Keyed(fields[0].key, first.value)] + rest.value) else None
  }

  // ------------------------------------------------------------------ reading JSON (RFC 8259)

  predicate IsWhitespace(u: Unit) {
    u == 0x20 || u == 0x09 || u == 0x0A || u == 0x0D
  }

  function Skip(s: Text): (r: Text)
    ensures |r| <= |s|
  {
    if s != [] && IsWhitespace(s[0]) then Skip(s[1..]) else s
  }

  predicate IsDigit(u: Unit) {
    ZERO <= u <= 0x39
  }

  predicate IsHex(u: Unit) {
    IsDigit(u) || 0x61 <= u <= 0x66 || 0x41 <= u <= 0x46
  }

  function HexValue(u: Unit): (d: nat)
    requires IsHex(u)
    ensures d < 16
  {
    if IsDigit(u) then u - ZERO else if u >= 0x61 then u - 0x61 + 10 else u - 0x41 + 10
  }

  predicate FourHex(s: Text) {
    |s| >= 4 && IsHex(s[0]) && IsHex(s[1]) && IsHex(s[2]) && IsHex(s[3])
  }

  function FourHexValue(s: Text): (u: Unit)
    requires FourHex(s)
  {
    HexUnit(HexValue(s[0]), HexValue(s[1]), HexValue(s[2]), HexValue(s[3]))
  }

  function HexUnit(a: nat, b: nat, c: nat, d: nat): (u: Unit)
    requires a < 16 && b < 16 && c < 16 && d < 16
  {
    a * 4096 + b * 256 + c * 16 + d
  }

  /** What an escape stands for, and what follows it; the backslash is already read. */
  function Unescape(s: Text): (r: Option<(Unit, Text)>)
    ensures r.Some? ==> |r.value.1| < |s|
  {
    if s == [] then None
    else if s[0] == QUOTE || s[0] == BACKSLASH || s[0] == 0x2F then Some((s[0], s[1..]))
    else if s[0] == 0x62 then Some((0x08, s[1..]))
    else if s[0] == 0x66 then Some((0x0C, s[1..]))
    else if s[0] == 0x6E then Some((0x0A, s[1..]))
    else if s[0] == 0x72 then Some((0x0D, s[1..]))
    else if s[0] == 0x74 then Some((0x09, s[1..]))
    else if s[0] == 0x75 && FourHex(s[1..]) then Some((FourHexValue(s[1..]), s[5..]))
    else None
  }

  /** The rest of a string whose opening quote is already read. */
  function ReadString(s: Text): (r: Option<(Text, Text)>)
    ensures r.Some? ==> |r.value.1| < |s|
    decreases |s|
  {
    if s == [] || s[0] < 0x20 then None
    else if s[0] == QUOTE then Some(([], s[1..]))
    else if s[0] == BACKSLASH then
      match Unescape(s[1..])
      case None => None
      case Some((u, rest)) =>
        (match ReadString(rest)
         case None => None
         case Some((t, rest')) => Some(([u] + t, rest')))
    else
      match ReadString(s[1..])
      case None => None
      case Some((t, rest)) => Some(([s[0]] + t, rest))
  }

  function DigitRun(s: Text): (n: nat)
    ensures n <= |s| && forall i | 0 <= i < n :: IsDigit(s[i])
  {
    if s != [] && IsDigit(s[0]) then 1 + DigitRun(s[1..]) else 0
  }

  function DigitsValue(s: Text): nat
    requires forall i | 0 <= i < |s| :: IsDigit(s[i])
  {
    D.Value(seq(|s|, i requires 0 <= i < |s| => DigitOf(s[i])))
  }

  function DigitOf(u: Unit): nat
    requires IsDigit(u)
  {
    u - ZERO
  }

  /** A unit that would carry an integer on: a digit, a point or an exponent. */
  predicate ExtendsNumber(u: Unit) {
    IsDigit(u) || u == 0x2E || u == 0x65 || u == 0x45
  }

  /** Digits without leading zeros; fractions, exponents and unsafe integers are not values here. */
  function ReadMagnitude(t: Text): (r: Option<(nat, Text)>)
    ensures r.Some? ==> |r.value.1| < |t|
  {
    var n := DigitRun(t);
    if n == 0 || (t[0] == ZERO && n > 1) then None
    else if n < |t| && ExtendsNumber(t[n]) then None
    else if DigitsValue(t[..n]) > D.MAX_SAFE_INTEGER then None
    else Some((DigitsValue(t[..n]), t[n..]))
  }

  function ReadNumber(s: Text): (r: Option<(int, Text)>)
    ensures r.Some? ==> |r.value.1| < |s|
  {
    if s != [] && s[0] == MINUS then
      match ReadMagnitude(s[1..])
      case None => None
      case Some((n, rest)) => Some((0 - n, rest))
    else
      match ReadMagnitude(s)
      case None => None
      case Some((n, rest)) => Some((n, rest))
  }

  predicate StartsWith(s: Text, prefix: Text) {
    |prefix| <= |s| && s[..|prefix|] == prefix
  }

  function Read(input: Text): (r: Option<(Value, Text)>)
    ensures r.Some? ==> |r.value.1| < |input|
    decreases |input|, 0
  {
    var s := Skip(input);
    if s == [] then None
    else if s[0] == QUOTE then
      match ReadString(s[1..])
      case None => None
      case Some((t, rest)) => Some((Str(t), rest))
    else if s[0] == OPEN_BRACKET then
      var inner := Skip(s[1..]);
      if inner != [] && inner[0] == CLOSE_BRACKET then Some((Arr([]), inner[1..]))
      else
        match ReadItems(s[1..])
        case None => None
        case Some((items, rest)) => Some((Arr(items), rest))
    else if s[0] == OPEN_BRACE then
      var inner := Skip(s[1..]);
      if inner != [] && inner[0] == CLOSE_BRACE then Some((Obj([]), inner[1..]))
      else
        match ReadFields(s[1..])
        case None => None
        case Some((fields, rest)) => Some((Obj(fields), rest))
    else if StartsWith(s, NULL_TEXT) then Some((Null, s[4..]))
    else if StartsWith(s, TRUE_TEXT) then Some((Bool(true), s[4..]))
    else if StartsWith(s, FALSE_TEXT) then Some((Bool(false), s[5..]))
    else
      match ReadNumber(s)
      case None => None
      case Some((n, rest)) => if 0 - D.MAX_SAFE_INTEGER <= n <= D.MAX_SAFE_INTEGER then Some((Num(n), rest)) else None
  }

  /** One or more values up to the closing bracket. */
  function ReadItems(s: Text): (r: Option<(seq<Value>, Text)>)
    ensures r.Some? ==> |r.value.1| < |s|
    decreases |s|, 1
  {
    match Read(s)
    case None => None
    case Some((v, rest)) =>
      var t := Skip(rest);
      if t != [] && t[0] == CLOSE_BRACKET then Some(([v], t[1..]))
      else if t != [] && t[0] == COMMA then
        match ReadItems(t[1..])
        case None => None
        case Some((vs, rest')) => Some(([v] + vs, rest'))
      else None
  }

  /** One or more members up to the closing brace. */
  function ReadFields(input: Text): (r: Option<(seq<Keyed<Value>>, Text)>)
    ensures r.Some? ==> |r.value.1| < |input|
    decreases |input|, 1
  {
    var s := Skip(input);
    if s == [] || s[0] != QUOTE then None
    else
      match ReadString(s[1..])
      case None => None
      case Some((key, afterKey)) =>
        var colon := Skip(afterKey);
        if colon == [] || colon[0] != COLON then None
        else
          match Read(colon[1..])
          case None => None
          case Some((v, rest)) =>
            var t := Skip(rest);
            if t != [] && t[0] == CLOSE_BRACE then Some(([Keyed(key, v)], t[1..]))
            else if t != [] && t[0] == COMMA then
              match ReadFields(t[1..])
              case None => None
              case Some((fields, rest')) => Some(([Keyed(key, v)] + fields, rest'))
            else None
  }
}
