/**
 * Escaping what is sent to Tally and decoding what comes back (packages/tally/src/tdl.ts,
 * packages/tally/src/codec.ts).
 *
 * The five named entities are those of section 4.6 of XML 1.0. Numeric references are decoded only to characters that
 * can be shown: controls, surrogates and numbers beyond Unicode vanish.
 */
module Entities {
  import opened Wrappers
  import opened Decimal

  // ------------------------------------------------------------------ escaping

  function ReplaceAll(s: string, c: char, entity: string): string {
    if s == "" then "" else (if s[0] == c then entity else [s[0]]) + ReplaceAll(s[1..], c, entity)
  }

  /** Five replacements, one after the other, the ampersand first. */
  function Esc(s: string): string {
    ReplaceAll(ReplaceAll(ReplaceAll(ReplaceAll(ReplaceAll(s,
      '&', "&amp;"), '<', "&lt;"), '>', "&gt;"), '"', "&quot;"), '\'', "&apos;")
  }

  function EscChar(c: char): string {
    match c
    case '&' => "&amp;"
    case '<' => "&lt;"
    case '>' => "&gt;"
    case '"' => "&quot;"
    case '\'' => "&apos;"
    case _ => [c]
  }

  function EscEach(s: string): string {
    if s == "" then "" else EscChar(s[0]) + EscEach(s[1..])
  }

  lemma {:induction false} Regroup(a: string, b: string, c: string)
    ensures a + (b + c) == a + b + c
  {
  }

  lemma {:induction false} ReplaceAllConcat(s: string, t: string, c: char, entity: string)
    ensures ReplaceAll(s + t, c, entity) == ReplaceAll(s, c, entity) + ReplaceAll(t, c, entity)
  {
    if s == "" {
      assert s + t == t;
    } else {
      ReplaceAllConcat(s[1..], t, c, entity);
      assert (s + t)[1..] == s[1..] + t;
      Regroup(if s[0] == c then entity else [s[0]], ReplaceAll(s[1..], c, entity), ReplaceAll(t, c, entity));
    }
  }

  lemma {:induction false} ReplaceAllAbsent(s: string, c: char, entity: string)
    requires forall i | 0 <= i < |s| :: s[i] != c
    ensures ReplaceAll(s, c, entity) == s
  {
    if s != "" {
      ReplaceAllAbsent(s[1..], c, entity);
    }
  }

  /** A later replacement leaves an already written entity, or another character, alone. */
  lemma {:induction false} ReplaceAllOne(c: char, s: string, d: char)
    requires s == [c] || (s == EscChar(c) && d != '&')
    requires d in {'&', '<', '>', '"', '\''}
    ensures ReplaceAll(s, d, EscChar(d)) == if s == [d] then EscChar(d) else s
  {
    if s == [d] {
      assert s[1..] == "";
      assert EscChar(d) + "" == EscChar(d);
    } else {
      ReplaceAllAbsent(s, d, EscChar(d));
    }
  }

  lemma {:induction false} EscOfChar(c: char)
    ensures Esc([c]) == EscChar(c)
  {
    ReplaceAllOne(c, [c], '&');
    var s1 := if c == '&' then EscChar(c) else [c];
    ReplaceAllOne(c, s1, '<');
    var s2 := if c == '<' then EscChar(c) else s1;
    ReplaceAllOne(c, s2, '>');
    var s3 := if c == '>' then EscChar(c) else s2;
    ReplaceAllOne(c, s3, '"');
    var s4 := if c == '"' then EscChar(c) else s3;
    ReplaceAllOne(c, s4, '\'');
  }

  lemma {:induction false} EscConcat(s: string, t: string)
    ensures Esc(s + t) == Esc(s) + Esc(t)
  {
    ReplaceAllConcat(s, t, '&', "&amp;");
    var s1, t1 := ReplaceAll(s, '&', "&amp;"), ReplaceAll(t, '&', "&amp;");
    ReplaceAllConcat(s1, t1, '<', "&lt;");
    var s2, t2 := ReplaceAll(s1, '<', "&lt;"), ReplaceAll(t1, '<', "&lt;");
    ReplaceAllConcat(s2, t2, '>', "&gt;");
    var s3, t3 := ReplaceAll(s2, '>', "&gt;"), ReplaceAll(t2, '>', "&gt;");
    ReplaceAllConcat(s3, t3, '"', "&quot;");
    ReplaceAllConcat(ReplaceAll(s3, '"', "&quot;"), ReplaceAll(t3, '"', "&quot;"), '\'', "&apos;");
  }

  /** The chained replacements are one map over the characters: no replacement touches another's output. */
  lemma {:induction false} EscIsPerCharacter(s: string)
    ensures Esc(s) == EscEach(s)
  {
    if s != "" {
      EscIsPerCharacter(s[1..]);
      EscOfChar(s[0]);
      EscConcat([s[0]], s[1..]);
      assert s == [s[0]] + s[1..];
    }
  }

  // ------------------------------------------------------------------ decoding

  predicate IsHex(c: char) {
    IsDigit(c) || 'a' <= c <= 'f' || 'A' <= c <= 'F'
  }

  function HexValue(c: char): nat
    requires IsHex(c)
  {
    if IsDigit(c) then c as int - '0' as int
    else if 'a' <= c <= 'f' then c as int - 'a' as int + 10
    else c as int - 'A' as int + 10
  }

  /** The longest run of digits of the base at the head of `s`. */
  function Run(s: string, hex: bool): (n: nat)
    ensures n <= |s| && forall i | 0 <= i < n :: IsHex(s[i])
  {
    if s != "" && (IsDigit(s[0]) || (hex && IsHex(s[0]))) then 1 + Run(s[1..], hex) else 0
  }

  function ParseInt(s: string, base: nat): nat
    requires forall i | 0 <= i < |s| :: IsHex(s[i])
  {
    if s == "" then 0 else ParseInt(s[..|s| - 1], base) * base + HexValue(s[|s| - 1])
  }

  /** Control characters, surrogates and numbers beyond Unicode are dropped. */
  function CharOf(code: nat): string {
    if code > 0x10FFFF || code < 0x20 || 0x7F <= code <= 0x9F || 0xD800 <= code <= 0xDFFF then ""
    else [code as char]
  }

  predicate StartsWith(s: string, prefix: string) {
    |prefix| <= |s| && s[..|prefix|] == prefix
  }

  /** The entity at the head of `s`: how long it is and what it stands for. */
  function EntityAt(s: string): (r: Option<(nat, string)>)
    ensures r.Some? ==> 0 < r.value.0 <= |s|
  {
    if StartsWith(s, "&#") then
      var hex := |s| > 2 && (s[2] == 'x' || s[2] == 'X');
      var at := if hex then 3 else 2;
      var n := Run(s[at..], hex);
      if n > 0 && at + n < |s| && s[at + n] == ';'
      then Some((at + n + 1, CharOf(ParseInt(s[at..][..n], if hex then 16 else 10))))
      else None
    else if StartsWith(s, "&lt;") then Some((4, "<"))
    else if StartsWith(s, "&gt;") then Some((4, ">"))
    else if StartsWith(s, "&quot;") then Some((6, "\""))
    else if StartsWith(s, "&apos;") then Some((6, "'"))
    else if StartsWith(s, "&amp;") then Some((5, "&"))
    else None
  }

  /** One pass: what an entity decodes to is never looked at again. */
  function UnescapeEntities(s: string): string
    decreases |s|
  {
    if s == "" then ""
    else
      match EntityAt(s)
      case Some((n, text)) => text + UnescapeEntities(s[n..])
      case None => [s[0]] + UnescapeEntities(s[1..])
  }

  lemma {:induction false} NamedEntityAt(c: char, rest: string)
    ensures |EscChar(c)| > 1 ==> EntityAt(EscChar(c) + rest) == Some((|EscChar(c)|, [c]))
    ensures |EscChar(c)| == 1 ==> EntityAt(EscChar(c) + rest) == None
  {
    var e := EscChar(c);
    var s := e + rest;
    assert s[..|e|] == e;
    if |e| > 1 {
      assert s[0] == e[0] && s[1] == e[1] && s[2] == e[2] && s[3] == e[3];
      assert |s| >= 2 && s[..2][1] == s[1];
      assert s[..4][1] == s[1];
      assert |s| >= 5 ==> s[..5][1] == s[1];
      assert |s| >= 6 ==> s[..6][1] == s[1];
    } else {
      assert s[0] == c && c != '&';
      assert |s| >= 2 ==> s[..2][0] == c;
      assert |s| >= 4 ==> s[..4][0] == c;
      assert |s| >= 5 ==> s[..5][0] == c;
      assert |s| >= 6 ==> s[..6][0] == c;
    }
  }

  lemma {:induction false} UnescapeStep(e: string, text: string, rest: string)
    requires e != ""
    requires if EntityAt(e + rest).Some? then EntityAt(e + rest).value == (|e|, text) else e == text && |e| == 1
    ensures UnescapeEntities(e + rest) == text + UnescapeEntities(rest)
  {
    assert (e + rest)[|e|..] == rest;
  }

  lemma {:induction false} UnescapeEscEach(s: string)
    ensures UnescapeEntities(EscEach(s)) == s
  {
    if s != "" {
      UnescapeEscEach(s[1..]);
      NamedEntityAt(s[0], EscEach(s[1..]));
      UnescapeStep(EscChar(s[0]), [s[0]], EscEach(s[1..]));
    }
  }

  /** Decoding undoes escaping for every string, entity text in it included. */
  lemma {:induction false} UnescapeEsc(s: string)
    ensures UnescapeEntities(Esc(s)) == s
  {
    EscIsPerCharacter(s);
    UnescapeEscEach(s);
  }

  predicate IsEntity(e: string) {
    e == "&amp;" || e == "&lt;" || e == "&gt;" || e == "&quot;" || e == "&apos;"
  }

  /** The text begins with one of the five entities. */
  ghost predicate BeginsEntity(t: string) {
    exists e :: IsEntity(e) && e <= t
  }

  predicate IsBracketOrQuote(c: char) {
    c == '<' || c == '>' || c == '"' || c == '\''
  }

  /** No bracket and no quote is left, and every ampersand begins one of the five entities. */
  ghost predicate NoMarkup(t: string) {
    && (forall i | 0 <= i < |t| :: !IsBracketOrQuote(t[i]))
    && (forall i | 0 <= i < |t| && t[i] == '&' :: BeginsEntity(t[i..]))
  }

  lemma {:induction false} EscCharHasNoMarkup(c: char)
    ensures NoMarkup(EscChar(c))
  {
    var t := EscChar(c);
    if t[0] == '&' {
      assert IsEntity(t) && t <= t[0..];
    }
  }

  lemma {:induction false} BeginsEntityStill(t: string, u: string)
    requires BeginsEntity(t)
    ensures BeginsEntity(t + u)
  {
    var e :| IsEntity(e) && e <= t;
    assert e <= t + u;
  }

  lemma {:induction false} NoMarkupConcat(t: string, u: string)
    requires NoMarkup(t) && NoMarkup(u)
    ensures NoMarkup(t + u)
  {
    var v := t + u;
    forall i | 0 <= i < |v|
      ensures !IsBracketOrQuote(v[i]) && (v[i] == '&' ==> BeginsEntity(v[i..]))
    {
      if i < |t| {
        assert v[i] == t[i] && v[i..] == t[i..] + u;
        if v[i] == '&' {
          BeginsEntityStill(t[i..], u);
        }
      } else {
        assert v[i] == u[i - |t|] && v[i..] == u[i - |t|..];
      }
    }
  }

  /** Escaped text holds no markup: no bracket, no quote, and no ampersand but those of the five entities. */
  lemma {:induction false} EscapedHasNoMarkup(s: string)
    ensures NoMarkup(Esc(s))
  {
    EscIsPerCharacter(s);
    if s != "" {
      EscapedHasNoMarkup(s[1..]);
      EscIsPerCharacter(s[1..]);
      EscCharHasNoMarkup(s[0]);
      NoMarkupConcat(EscChar(s[0]), EscEach(s[1..]));
    }
  }

  // ------------------------------------------------------------------ references

  lemma {:induction false} ParseIntOfDigits(text: string)
    requires AllDigitChars(text)
    ensures ParseInt(text, 10) == Value(DigitsOf(text))
  {
    if text != "" {
      ParseIntOfDigits(text[..|text| - 1]);
      assert DigitsOf(text)[..|text| - 1] == DigitsOf(text[..|text| - 1]);
    }
  }

  lemma {:induction false} RunOf(digits: string, rest: string)
    requires AllDigitChars(digits) && (rest == "" || !IsDigit(rest[0]))
    ensures Run(digits + rest, false) == |digits|
  {
    if digits == "" {
      assert digits + rest == rest;
    } else {
      RunOf(digits[1..], rest);
      assert (digits + rest)[1..] == digits[1..] + rest;
    }
  }

  lemma {:induction false} DecimalEntityAt(digits: string, rest: string)
    requires digits != "" && AllDigitChars(digits)
    ensures EntityAt("&#" + digits + ";" + rest) == Some((|digits| + 3, CharOf(Value(DigitsOf(digits)))))
  {
    var s := "&#" + digits + ";" + rest;
    assert s[..2] == "&#" && s[2] == digits[0] && IsDigit(s[2]);
    assert s[2..] == digits + (";" + rest);
    RunOf(digits, ";" + rest);
    assert s[2..][..|digits|] == digits && s[2 + |digits|] == ';';
    ParseIntOfDigits(digits);
  }

  /** The characters that may come out of a reference: no control, no surrogate, nothing beyond Unicode. */
  predicate Shown(n: nat) {
    0x20 <= n <= 0x7E || 0xA0 <= n <= 0xD7FF || 0xE000 <= n <= 0x10FFFF
  }

  lemma {:induction false} CharOfExactly(n: nat)
    ensures CharOf(n) == if Shown(n) then [n as char] else ""
  {
  }

  /**
   * A decimal reference, with leading zeros or without, decodes to exactly the character of its number where that is
   * one of the shown ones, and to nothing otherwise; what follows it is decoded on its own.
   */
  lemma {:induction false} DecimalReference(digits: string, rest: string)
    requires digits != "" && AllDigitChars(digits)
    ensures var n := Value(DigitsOf(digits));
            UnescapeEntities("&#" + digits + ";" + rest) ==
            (if 0x20 <= n <= 0x7E || 0xA0 <= n <= 0xD7FF || 0xE000 <= n <= 0x10FFFF then [n as char] else "")
            + UnescapeEntities(rest)
  {
    var n := Value(DigitsOf(digits));
    DecimalEntityAt(digits, rest);
    UnescapeStep("&#" + digits + ";", CharOf(n), rest);
    CharOfExactly(n);
  }

  /** `c` writes the hexadecimal digit `d`, in either case. */
  predicate WritesHex(c: char, d: nat) {
    if d < 10 then c as int == '0' as int + d
    else d < 16 && (c as int == 'a' as int + d - 10 || c as int == 'A' as int + d - 10)
  }

  predicate SpellsHex(text: string, ds: seq<nat>) {
    |text| == |ds| && forall i | 0 <= i < |ds| :: WritesHex(text[i], ds[i])
  }

  function HexNumber(ds: seq<nat>): nat {
    if ds == [] then 0 else 16 * HexNumber(ds[..|ds| - 1]) + ds[|ds| - 1]
  }

  /** Every run of hexadecimal digits spells some number. */
  lemma {:induction false} EveryHexTextSpells(text: string) returns (ds: seq<nat>)
    requires forall i | 0 <= i < |text| :: IsHex(text[i])
    ensures SpellsHex(text, ds)
  {
    ds := seq(|text|, i requires 0 <= i < |text| => HexValue(text[i]));
  }

  lemma {:induction false} ParseIntOfHex(text: string, ds: seq<nat>)
    requires SpellsHex(text, ds)
    ensures (forall i | 0 <= i < |text| :: IsHex(text[i])) && ParseInt(text, 16) == HexNumber(ds)
  {
    if text != "" {
      ParseIntOfHex(text[..|text| - 1], ds[..|ds| - 1]);
      assert WritesHex(text[|text| - 1], ds[|ds| - 1]);
    }
  }

  lemma {:induction false} HexRunOf(digits: string, rest: string)
    requires forall i | 0 <= i < |digits| :: IsHex(digits[i])
    requires rest == "" || !IsHex(rest[0])
    ensures Run(digits + rest, true) == |digits|
  {
    if digits == "" {
      assert digits + rest == rest;
    } else {
      HexRunOf(digits[1..], rest);
      assert (digits + rest)[1..] == digits[1..] + rest;
    }
  }

  lemma {:induction false} HexEntityAt(x: char, digits: string, ds: seq<nat>, rest: string)
    requires (x == 'x' || x == 'X') && ds != [] && SpellsHex(digits, ds)
    ensures EntityAt("&#" + [x] + digits + ";" + rest) == Some((|digits| + 4, CharOf(HexNumber(ds))))
  {
    var s := "&#" + [x] + digits + ";" + rest;
    ParseIntOfHex(digits, ds);
    assert s[..2] == "&#" && s[2] == x;
    assert s[3..] == digits + (";" + rest);
    HexRunOf(digits, ";" + rest);
    assert s[3..][..|digits|] == digits && s[3 + |digits|] == ';';
  }

  /** A hexadecimal reference likewise, its `x` and its digits in either case. */
  lemma {:induction false} HexReference(x: char, digits: string, ds: seq<nat>, rest: string)
    requires (x == 'x' || x == 'X') && ds != [] && SpellsHex(digits, ds)
    ensures var n := HexNumber(ds);
            UnescapeEntities("&#" + [x] + digits + ";" + rest) ==
            (if 0x20 <= n <= 0x7E || 0xA0 <= n <= 0xD7FF || 0xE000 <= n <= 0x10FFFF then [n as char] else "")
            + UnescapeEntities(rest)
  {
    var n := HexNumber(ds);
    HexEntityAt(x, digits, ds, rest);
    UnescapeStep("&#" + [x] + digits + ";", CharOf(n), rest);
    CharOfExactly(n);
  }

  // ------------------------------------------------------------------ nothing else is decoded

  /** A named entity decodes to its character, and what follows it is decoded on its own. */
  lemma {:induction false} NamedEntity(c: char, rest: string)
    requires IsEntity(EscChar(c))
    ensures UnescapeEntities(EscChar(c) + rest) == [c] + UnescapeEntities(rest)
  {
    NamedEntityAt(c, rest);
    UnescapeStep(EscChar(c), [c], rest);
  }

  /** The text begins with a numeric reference, decimal or hexadecimal. */
  ghost predicate BeginsReference(t: string) {
    || (exists digits: string :: digits != "" && AllDigitChars(digits) && "&#" + digits + ";" <= t)
    || (exists x, digits: string ::
          && (x == 'x' || x == 'X')
          && digits != "" && (forall i | 0 <= i < |digits| :: IsHex(digits[i])) && "&#" + [x] + digits + ";" <= t)
  }

  lemma {:induction false} DecimalRunIsDigits(s: string)
    ensures AllDigitChars(s[..Run(s, false)])
  {
    if s != "" && IsDigit(s[0]) {
      DecimalRunIsDigits(s[1..]);
      assert s[..Run(s, false)] == [s[0]] + s[1..][..Run(s[1..], false)];
    }
  }

  lemma {:induction false} CutAt(s: string, i: nat, j: nat)
    requires i <= j < |s|
    ensures s[..i] + s[i..j] + [s[j]] <= s
  {
    assert s[..j] == s[..i] + s[i..j];
    assert s[..j + 1] == s[..j] + [s[j]];
  }

  lemma {:induction false} DecimalBegins(s: string, n: nat)
    requires StartsWith(s, "&#") && 0 < n == Run(s[2..], false) && 2 + n < |s| && s[2 + n] == ';'
    ensures BeginsReference(s)
  {
    var digits := s[2..2 + n];
    DecimalRunIsDigits(s[2..]);
    assert digits == s[2..][..n];
    CutAt(s, 2, 2 + n);
    assert "&#" + digits + ";" <= s;
  }

  lemma {:induction false} HexBegins(s: string, n: nat)
    requires StartsWith(s, "&#") && |s| > 2 && (s[2] == 'x' || s[2] == 'X')
    requires 0 < n == Run(s[3..], true) && 3 + n < |s| && s[3 + n] == ';'
    ensures BeginsReference(s)
  {
    var digits := s[3..3 + n];
    assert digits == s[3..][..n];
    CutAt(s, 3, 3 + n);
    assert s[..3] == s[..2] + [s[2]];
    HexBeginsWith(s, s[2], digits);
  }

  lemma {:induction false} HexBeginsWith(s: string, x: char, digits: string)
    requires x == 'x' || x == 'X'
    requires digits != "" && (forall i | 0 <= i < |digits| :: IsHex(digits[i])) && "&#" + [x] + digits + ";" <= s
    ensures BeginsReference(s)
  {
  }

  /** What is decoded is an entity or a reference. */
  lemma {:induction false} DecodedBegins(s: string)
    requires EntityAt(s).Some?
    ensures BeginsEntity(s) || BeginsReference(s)
  {
    if StartsWith(s, "&#") {
      if |s| > 2 && (s[2] == 'x' || s[2] == 'X') {
        HexBegins(s, Run(s[3..], true));
      } else {
        DecimalBegins(s, Run(s[2..], false));
      }
    } else {
      var e := s[..EntityAt(s).value.0];
      assert IsEntity(e) && e <= s;
    }
  }

  /** Whatever begins neither an entity nor a reference stands for itself, an ampersand included. */
  lemma {:induction false} OthersStay(s: string)
    requires s != "" && !BeginsEntity(s) && !BeginsReference(s)
    ensures UnescapeEntities(s) == [s[0]] + UnescapeEntities(s[1..])
  {
    if EntityAt(s).Some? {
      DecodedBegins(s);
    }
  }

  // ------------------------------------------------------------------ what never comes out

  predicate IsBreak(c: char) {
    c == '\r' || c == '\n' || c == '\t'
  }

  predicate NoBreaks(s: string) {
    forall i | 0 <= i < |s| :: !IsBreak(s[i])
  }

  lemma {:induction false} EntityHasNoBreaks(s: string)
    ensures EntityAt(s).Some? ==> NoBreaks(EntityAt(s).value.1)
  {
  }

  /** Decoding makes no line break and no tab. */
  lemma {:induction false} UnescapedHasNoBreaks(s: string)
    requires NoBreaks(s)
    ensures NoBreaks(UnescapeEntities(s))
    decreases |s|
  {
    if s != "" {
      EntityHasNoBreaks(s);
      if EntityAt(s).Some? {
        UnescapedHasNoBreaks(s[EntityAt(s).value.0..]);
      } else {
        UnescapedHasNoBreaks(s[1..]);
      }
    }
  }
}
