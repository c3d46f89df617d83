/**
 * Canonical serialization loses nothing and adds nothing: a JSON reader gives back exactly the
 * value, keys sorted, and two values serialize alike exactly when they are the same value.
 */
module CanonicalRoundTrip {
  import opened Wrappers
  import opened KeyOrder
  import opened Canonical
  import D = Decimal

  // ------------------------------------------------------------------ strings

  function ThenUnit(u: Unit, r: Option<(Text, Text)>): Option<(Text, Text)> {
    match r
    case None => None
    case Some((t, rest)) => Some(([u] + t, rest))
  }

  lemma {:induction false} HexReadsBack(u: Unit, rest: Text)
    ensures Unescape(HexEscape(u) + rest) == Some((u, rest))
  {
    var s := HexEscape(u) + rest;
    assert s[5..] == rest;
    assert s[1..][0] == HexEscape(u)[1] && s[1..][1] == HexEscape(u)[2];
    assert s[1..][2] == HexEscape(u)[3] && s[1..][3] == HexEscape(u)[4];
    HexParts(u);
  }

  lemma {:induction false} HexParts(u: Unit)
    ensures HexUnit(u / 4096, u / 256 % 16, u / 16 % 16, u % 16) == u
  {
    assert u / 256 / 16 == u / 4096 && u / 16 / 16 == u / 256;
  }

  lemma {:induction false} PlainUnitReads(u: Unit, rest: Text)
    requires u >= 0x20 && u != QUOTE && u != BACKSLASH
    ensures ReadString([u] + rest) == ThenUnit(u, ReadString(rest))
  {
    assert ([u] + rest)[1..] == rest;
  }

  lemma {:induction false} UnitReadsBack(u: Unit, rest: Text)
    ensures ReadString(EscapeUnit(u) + rest) == ThenUnit(u, ReadString(rest))
  {
    if EscapeUnit(u) == [u] {
      PlainUnitReads(u, rest);
    } else if |EscapeUnit(u)| == 2 {
      var letter := EscapeUnit(u)[1];
      ShortEscapeReads(u, rest);
      EscapedUnitReads([letter], u, rest);
      assert [BACKSLASH] + [letter] == EscapeUnit(u);
    } else {
      HexReadsBack(u, rest);
      EscapedUnitReads(HexEscape(u), u, rest);
    }
  }

  lemma {:induction false} ShortEscapeReads(u: Unit, rest: Text)
    requires |EscapeUnit(u)| == 2
    ensures Unescape([EscapeUnit(u)[1]] + rest) == Some((u, rest))
  {
    assert ([EscapeUnit(u)[1]] + rest)[1..] == rest;
  }

  lemma {:induction false} EscapedUnitReads(escape: Text, u: Unit, rest: Text)
    requires Unescape(escape + rest) == Some((u, rest))
    ensures ReadString([BACKSLASH] + escape + rest) == ThenUnit(u, ReadString(rest))
  {
    assert ([BACKSLASH] + escape + rest)[1..] == escape + rest;
  }

  /** The text is the inside of a quoted string and stands for `t`. */
  ghost predicate ReadsString(text: Text, t: Text) {
    forall rest: Text :: ReadString(text + ([QUOTE] + rest)) == Some((t, rest))
  }

  /** One code unit, written this way, in front of any string. */
  ghost predicate ReadsUnit(text: Text, u: Unit) {
    forall rest: Text :: ReadString(text + rest) == ThenUnit(u, ReadString(rest))
  }

  lemma {:induction false} UnitThenString(first: Text, u: Unit, text: Text, t: Text)
    requires ReadsUnit(first, u) && ReadsString(text, t)
    ensures ReadsString(first + text, [u] + t)
  {
    forall rest: Text
      ensures ReadString((first + text) + ([QUOTE] + rest)) == Some(([u] + t, rest))
    {
      var tail := text + ([QUOTE] + rest);
      assert (first + text) + ([QUOTE] + rest) == first + tail;
      assert ReadString(first + tail) == ThenUnit(u, ReadString(tail));
    }
  }

  lemma {:induction false} UnitsRead(u: Unit)
    ensures ReadsUnit(EscapeUnit(u), u)
    ensures u >= 0x20 && u != QUOTE && u != BACKSLASH ==> ReadsUnit([u], u)
  {
    forall rest: Text
      ensures ReadString(EscapeUnit(u) + rest) == ThenUnit(u, ReadString(rest))
    {
      UnitReadsBack(u, rest);
    }
    if u >= 0x20 && u != QUOTE && u != BACKSLASH {
      forall rest: Text
        ensures ReadString([u] + rest) == ThenUnit(u, ReadString(rest))
      {
        PlainUnitReads(u, rest);
      }
    }
  }

  lemma {:induction false} NothingReads()
    ensures ReadsString([], [])
  {
    forall rest: Text
      ensures ReadString([] + ([QUOTE] + rest)) == Some(([], rest))
    {
      assert [] + ([QUOTE] + rest) == [QUOTE] + rest;
      assert ([QUOTE] + rest)[1..] == rest;
    }
  }

  lemma {:induction false} StringReadsBack(t: Text)
    ensures ReadsString(Escape(t), t)
    decreases |t|
  {
    if t == [] {
      NothingReads();
    } else if |t| >= 2 && IsHighSurrogate(t[0]) && IsLowSurrogate(t[1]) {
      StringReadsBack(t[2..]);
      PairThenString(t[0], t[1], Escape(t[2..]), t[2..]);
      assert t == [t[0], t[1]] + t[2..] && t[..2] == [t[0], t[1]];
    } else {
      StringReadsBack(t[1..]);
      UnitsRead(t[0]);
      UnitThenString(EscapeUnit(t[0]), t[0], Escape(t[1..]), t[1..]);
      assert t == [t[0]] + t[1..];
    }
  }

  lemma {:induction false} PairThenString(high: Unit, low: Unit, text: Text, t: Text)
    requires IsHighSurrogate(high) && IsLowSurrogate(low) && ReadsString(text, t)
    ensures ReadsString([high, low] + text, [high, low] + t)
  {
    UnitsRead(high);
    UnitsRead(low);
    UnitThenString([low], low, text, t);
    UnitThenString([high], high, [low] + text, [low] + t);
    TwoUnits(high, low, text);
    TwoUnits(high, low, t);
  }

  lemma {:induction false} TwoUnits(high: Unit, low: Unit, text: Text)
    ensures [high] + ([low] + text) == [high, low] + text
  {
  }

  // ------------------------------------------------------------------ how strings are written

  predicate IsSurrogate(u: Unit) {
    0xD800 <= u <= 0xDFFF
  }

  /** No surrogate stands alone. */
  predicate WellFormed(t: Text)
    decreases |t|
  {
    || t == []
    || (|t| >= 2 && IsHighSurrogate(t[0]) && IsLowSurrogate(t[1]) && WellFormed(t[2..]))
    || (!IsSurrogate(t[0]) && WellFormed(t[1..]))
  }

  lemma {:induction false} WellFormedAfter(text: Text, rest: Text)
    requires (forall i | 0 <= i < |text| :: !IsSurrogate(text[i])) && WellFormed(rest)
    ensures WellFormed(text + rest)
  {
    if text == [] {
      assert text + rest == rest;
    } else {
      WellFormedAfter(text[1..], rest);
      assert (text + rest)[1..] == text[1..] + rest;
    }
  }

  lemma {:induction false} UnitIsClean(u: Unit)
    ensures forall i | 0 <= i < |EscapeUnit(u)| :: EscapeUnit(u)[i] >= 0x20 && !IsSurrogate(EscapeUnit(u)[i])
  {
    var text := EscapeUnit(u);
    forall i | 0 <= i < |text|
      ensures text[i] >= 0x20 && !IsSurrogate(text[i])
    {
      if |text| == 6 && i > 0 {
        assert text[i] == HexEscape(u)[i - 1];
      }
    }
  }

  /** Whatever the string, its JSON text holds no control character and no surrogate on its own. */
  lemma {:induction false} EscapedIsClean(t: Text)
    ensures WellFormed(Escape(t)) && forall i | 0 <= i < |Escape(t)| :: Escape(t)[i] >= 0x20
    decreases |t|
  {
    if t == [] {
    } else if |t| >= 2 && IsHighSurrogate(t[0]) && IsLowSurrogate(t[1]) {
      EscapedIsClean(t[2..]);
      assert (t[..2] + Escape(t[2..]))[2..] == Escape(t[2..]);
    } else {
      EscapedIsClean(t[1..]);
      UnitIsClean(t[0]);
      WellFormedAfter(EscapeUnit(t[0]), Escape(t[1..]));
    }
  }

  predicate NeedsNoEscape(u: Unit) {
    u >= 0x20 && u != 0x22 && u != 0x5C
  }

  /** A well-formed string without quotes, backslashes and controls is written as it is. */
  lemma {:induction false} PlainIsWrittenAsItIs(t: Text)
    requires WellFormed(t) && forall i | 0 <= i < |t| :: NeedsNoEscape(t[i])
    ensures Quote(t) == [QUOTE] + t + [QUOTE]
    decreases |t|
  {
    if t == [] {
    } else if |t| >= 2 && IsHighSurrogate(t[0]) && IsLowSurrogate(t[1]) {
      PlainIsWrittenAsItIs(t[2..]);
      QuoteHolds(t[2..]);
      assert t == t[..2] + t[2..];
    } else {
      PlainIsWrittenAsItIs(t[1..]);
      QuoteHolds(t[1..]);
      assert t == [t[0]] + t[1..];
    }
  }

  lemma {:induction false} QuoteHolds(t: Text)
    requires Quote(t) == [QUOTE] + t + [QUOTE]
    ensures Escape(t) == t
  {
    assert Quote(t)[1..|Quote(t)| - 1] == Escape(t);
    assert ([QUOTE] + t + [QUOTE])[1..|t| + 1] == t;
  }

  /**
   * Every other code unit on its own is written in the one way that JSON.stringify has for it: two units where JSON
   * has a letter for it, or else \u and four lower-case hexadecimal digits; and that text stands for it.
   */
  lemma {:induction false} EscapesExactly(u: Unit)
    requires !NeedsNoEscape(u) || IsSurrogate(u)
    ensures var text := Escape([u]);
            && text != [] && text[0] == 0x5C && Unescape(text[1..]) == Some((u, []))
            && |text| == (if u in {0x22, 0x5C, 0x08, 0x09, 0x0A, 0x0C, 0x0D} then 2 else 6)
            && (|text| == 6 ==>
                  text[1] == 0x75
                  && forall i | 2 <= i < 6 :: 0x30 <= text[i] <= 0x39 || 0x61 <= text[i] <= 0x66)
  {
    assert Escape([u]) == EscapeUnit(u) + [] == EscapeUnit(u);
    if |EscapeUnit(u)| == 2 {
      ShortEscapeReads(u, []);
      assert EscapeUnit(u)[1..] == [EscapeUnit(u)[1]] + [];
    } else {
      HexReadsBack(u, []);
      assert EscapeUnit(u)[1..] == HexEscape(u) == HexEscape(u) + [];
    }
  }

  // ------------------------------------------------------------------ numbers

  predicate Stops(rest: Text) {
    rest == [] || !ExtendsNumber(rest[0])
  }

  lemma {:induction false} RunStops(ds: Text, rest: Text)
    requires forall i | 0 <= i < |ds| :: IsDigit(ds[i])
    requires Stops(rest)
    ensures DigitRun(ds + rest) == |ds|
  {
    if ds == [] {
      assert ds + rest == rest;
    } else {
      RunStops(ds[1..], rest);
      assert (ds + rest)[1..] == ds[1..] + rest;
    }
  }

  lemma {:induction false} DigitsReadBack(n: nat)
    ensures Digits(n) != [] && forall i | 0 <= i < |Digits(n)| :: IsDigit(Digits(n)[i])
    ensures DigitsValue(Digits(n)) == n && (Digits(n)[0] == ZERO ==> |Digits(n)| == 1)
  {
    D.DigitsHaveValue(n);
    D.DigitsAreCanonical(n);
    var ds := Digits(n);
    assert seq(|ds|, i requires 0 <= i < |ds| => DigitOf(ds[i])) == D.Digits(n);
  }

  lemma {:induction false} MagnitudeReadsBack(n: nat, rest: Text)
    requires n <= D.MAX_SAFE_INTEGER && Stops(rest)
    ensures ReadMagnitude(Digits(n) + rest) == Some((n, rest))
    ensures IsDigit(Digits(n)[0])
  {
    var ds := Digits(n);
    DigitsReadBack(n);
    RunStops(ds, rest);
    assert (ds + rest)[..|ds|] == ds && (ds + rest)[|ds|..] == rest;
  }

  lemma {:induction false} NumberReadsBack(n: SafeInt, rest: Text)
    requires Stops(rest)
    ensures ReadNumber(Number(n) + rest) == Some((n, rest))
    ensures Number(n)[0] == MINUS || IsDigit(Number(n)[0])
  {
    if n < 0 {
      MagnitudeReadsBack(-n, rest);
      NegativeReads(Digits(-n), -n, rest);
    } else {
      MagnitudeReadsBack(n, rest);
      PositiveReads(Digits(n), n, rest);
    }
  }

  lemma {:induction false} NegativeReads(digits: Text, n: nat, rest: Text)
    requires ReadMagnitude(digits + rest) == Some((n, rest))
    ensures ReadNumber([MINUS] + digits + rest) == Some((0 - n, rest))
  {
    assert ([MINUS] + digits + rest)[1..] == digits + rest;
  }

  lemma {:induction false} PositiveReads(digits: Text, n: nat, rest: Text)
    requires digits != [] && IsDigit(digits[0]) && ReadMagnitude(digits + rest) == Some((n, rest))
    ensures ReadNumber(digits + rest) == Some((n, rest))
  {
    assert (digits + rest)[0] == digits[0];
  }

  // ------------------------------------------------------------------ values

  /** The value with the keys of every object sorted. */
  function Canon(v: Value): Value
    decreases v, 1
  {
    match v
    case Arr(items) => Arr(CanonAll(items))
    case Obj(fields) => Obj(Sort(CanonFields(fields)))
    case _ => v
  }

  function CanonAll(items: seq<Value>): (r: seq<Value>)
    ensures |r| == |items|
    decreases items, 0
  {
    if items == [] then [] else [Canon(items[0])] + CanonAll(items[1..])
  }

  function CanonFields(fields: seq<Keyed<Value>>): (r: seq<Keyed<Value>>)
    ensures SameKeys(r, fields)
    decreases fields, 0
  {
    if fields == [] then [] else [Keyed(fields[0].key, Canon(fields[0].value))] + CanonFields(fields[1..])
  }

  /** The text is one value and nothing else, whatever follows it, unless that carries a number on. */
  ghost predicate Reads(text: Text, v: Value) {
    forall rest | Stops(rest) :: Read(text + rest) == Some((v, rest))
  }

  lemma {:induction false} QuoteReads(t: Text, rest: Text)
    ensures var s := Quote(t) + rest; s[0] == QUOTE && ReadString(s[1..]) == Some((t, rest))
  {
    var s := Quote(t) + rest;
    assert s[1..] == Escape(t) + ([QUOTE] + rest);
    StringReadsBack(t);
  }

  lemma {:induction false} WordReads(word: Text, v: Value, rest: Text)
    requires (word, v) in {(NULL_TEXT, Null), (TRUE_TEXT, Bool(true)), (FALSE_TEXT, Bool(false))}
    ensures Read(word + rest) == Some((v, rest))
  {
    var s := word + rest;
    assert s[0] == word[0] && s[..|word|] == word && s[|word|..] == rest;
    assert s[0] == 0x66 ==> !StartsWith(s, NULL_TEXT) && !StartsWith(s, TRUE_TEXT) by {
      assert NULL_TEXT[0] == 0x6E && TRUE_TEXT[0] == 0x74;
      assert |s| >= 4 ==> s[..4][0] == s[0];
    }
    assert s[0] == 0x74 ==> !StartsWith(s, NULL_TEXT) by {
      assert |s| >= 4 ==> s[..4][0] == s[0];
    }
  }

  lemma {:induction false} NumReads(n: SafeInt, rest: Text)
    requires Stops(rest)
    ensures Read(Number(n) + rest) == Some((Num(n), rest))
  {
    NumberReadsBack(n, rest);
    var s := Number(n) + rest;
    assert s[0] == Number(n)[0];
    OtherWord(s, NULL_TEXT);
    OtherWord(s, TRUE_TEXT);
    OtherWord(s, FALSE_TEXT);
  }

  lemma {:induction false} OtherWord(s: Text, word: Text)
    requires s != [] && word != [] && s[0] != word[0]
    ensures !StartsWith(s, word)
  {
    if |word| <= |s| {
      assert s[..|word|][0] == s[0];
    }
  }

  lemma {:induction false} StrReads(t: Text, rest: Text)
    ensures Read(Quote(t) + rest) == Some((Str(t), rest))
  {
    QuoteReads(t, rest);
  }

  lemma {:induction false} ScalarReads(v: Value)
    requires v.Null? || v.Bool? || v.Num? || v.Str?
    ensures Serialize(v).Some? && Reads(Serialize(v).value, v)
  {
    forall rest | Stops(rest)
      ensures Read(Serialize(v).value + rest) == Some((v, rest))
    {
      match v
      case Num(n) => NumReads(n, rest);
      case Str(t) => StrReads(t, rest);
      case Null => WordReads(NULL_TEXT, v, rest);
      case Bool(b) => WordReads(if b then TRUE_TEXT else FALSE_TEXT, v, rest);
    }
  }

  /** A readable list does not begin, after white space, with its closing bracket. */
  lemma {:induction false} ReadableBegins(s: Text)
    requires ReadItems(s).Some?
    ensures Skip(s) != [] && Skip(s)[0] != CLOSE_BRACKET
  {
  }

  ghost predicate AllRead(parts: seq<Text>, vs: seq<Value>) {
    |parts| == |vs| && forall i | 0 <= i < |parts| :: Reads(parts[i], vs[i])
  }

  lemma {:induction false} LastItem(s: Text, v: Value, rest: Text)
    requires Read(s) == Some((v, [CLOSE_BRACKET] + rest))
    ensures ReadItems(s) == Some(([v], rest))
  {
    assert ([CLOSE_BRACKET] + rest)[1..] == rest;
  }

  lemma {:induction false} NextItem(s: Text, v: Value, more: Text, vs: seq<Value>, rest: Text)
    requires Read(s) == Some((v, [COMMA] + more)) && ReadItems(more) == Some((vs, rest))
    ensures ReadItems(s) == Some(([v] + vs, rest))
  {
    assert ([COMMA] + more)[1..] == more;
  }

  /** The text is a list of values, up to its closing bracket. */
  ghost predicate ReadsItems(text: Text, vs: seq<Value>) {
    forall rest: Text :: ReadItems(text + ([CLOSE_BRACKET] + rest)) == Some((vs, rest))
  }

  lemma {:induction false} OneItem(text: Text, v: Value)
    requires Reads(text, v)
    ensures ReadsItems(text, [v])
  {
    forall rest: Text
      ensures ReadItems(text + ([CLOSE_BRACKET] + rest)) == Some(([v], rest))
    {
      assert Read(text + ([CLOSE_BRACKET] + rest)) == Some((v, [CLOSE_BRACKET] + rest));
      LastItem(text + ([CLOSE_BRACKET] + rest), v, rest);
    }
  }

  lemma {:induction false} ItemThenItems(text: Text, v: Value, more: Text, vs: seq<Value>)
    requires Reads(text, v) && ReadsItems(more, vs)
    ensures ReadsItems(text + [COMMA] + more, [v] + vs)
  {
    forall rest: Text
      ensures ReadItems((text + [COMMA] + more) + ([CLOSE_BRACKET] + rest)) == Some(([v] + vs, rest))
    {
      ItemThenItemsOn(text, v, more, vs, rest);
    }
  }

  lemma {:induction false} ItemThenItemsOn(text: Text, v: Value, more: Text, vs: seq<Value>, rest: Text)
    requires Reads(text, v) && ReadItems(more + ([CLOSE_BRACKET] + rest)) == Some((vs, rest))
    ensures ReadItems((text + [COMMA] + more) + ([CLOSE_BRACKET] + rest)) == Some(([v] + vs, rest))
  {
    var tail := more + ([CLOSE_BRACKET] + rest);
    RegroupComma(text, more, [CLOSE_BRACKET] + rest);
    assert Stops([COMMA] + tail);
    NextItem(text + ([COMMA] + tail), v, tail, vs, rest);
  }

  lemma {:induction false} RegroupComma(a: Text, b: Text, c: Text)
    ensures a + [COMMA] + b + c == a + ([COMMA] + (b + c))
  {
  }

  lemma {:induction false} ItemsRead(parts: seq<Text>, vs: seq<Value>)
    requires parts != [] && AllRead(parts, vs)
    ensures ReadsItems(Join(parts), vs)
  {
    assert Reads(parts[0], vs[0]);
    if |parts| == 1 {
      OneItem(parts[0], vs[0]);
      assert vs == [vs[0]];
    } else {
      ItemsRead(parts[1..], vs[1..]);
      ItemThenItems(parts[0], vs[0], Join(parts[1..]), vs[1..]);
      assert vs == [vs[0]] + vs[1..];
    }
  }

  ghost predicate AllFieldsRead(ps: seq<Keyed<Text>>, vs: seq<Keyed<Value>>) {
    SameKeys(ps, vs) && forall i | 0 <= i < |ps| :: Reads(ps[i].value, vs[i].value)
  }

  /** A member up to the point where a comma or a brace is expected. */
  lemma {:induction false} MemberReads(p: Keyed<Text>, v: Value, rest: Text)
    requires Reads(p.value, v) && Stops(rest)
    ensures var s := Member(p) + rest;
            var after := [COLON] + (p.value + rest);
            s[0] == QUOTE && ReadString(s[1..]) == Some((p.key, after)) && Read(after[1..]) == Some((v, rest))
  {
    var after := [COLON] + (p.value + rest);
    assert Member(p) + rest == Quote(p.key) + after;
    QuoteReads(p.key, after);
    assert after[1..] == p.value + rest;
  }

  lemma {:induction false} LastMember(p: Keyed<Text>, v: Value, rest: Text)
    requires Reads(p.value, v)
    ensures ReadFields(Member(p) + ([CLOSE_BRACE] + rest)) == Some(([Keyed(p.key, v)], rest))
  {
    MemberReads(p, v, [CLOSE_BRACE] + rest);
    assert ([CLOSE_BRACE] + rest)[1..] == rest;
  }

  lemma {:induction false} NextMember(p: Keyed<Text>, v: Value, more: Text, fields: seq<Keyed<Value>>, rest: Text)
    requires Reads(p.value, v) && ReadFields(more) == Some((fields, rest))
    ensures ReadFields(Member(p) + ([COMMA] + more)) == Some(([Keyed(p.key, v)] + fields, rest))
  {
    MemberReads(p, v, [COMMA] + more);
    assert ([COMMA] + more)[1..] == more;
  }

  /** The text is a list of members, up to its closing brace. */
  ghost predicate ReadsFields(text: Text, fields: seq<Keyed<Value>>) {
    forall rest: Text :: ReadFields(text + ([CLOSE_BRACE] + rest)) == Some((fields, rest))
  }

  lemma {:induction false} OneMember(p: Keyed<Text>, v: Value)
    requires Reads(p.value, v)
    ensures ReadsFields(Member(p), [Keyed(p.key, v)])
  {
    forall rest: Text
      ensures ReadFields(Member(p) + ([CLOSE_BRACE] + rest)) == Some(([Keyed(p.key, v)], rest))
    {
      LastMember(p, v, rest);
    }
  }

  lemma {:induction false} Regroup(a: Text, b: Text, c: Text, d: Text)
    ensures (a + b + c) + d == a + (b + (c + d))
  {
  }

  lemma {:induction false} MemberThenMembers(p: Keyed<Text>, v: Value, more: Text, fields: seq<Keyed<Value>>)
    requires Reads(p.value, v) && ReadsFields(more, fields)
    ensures ReadsFields(Member(p) + [COMMA] + more, [Keyed(p.key, v)] + fields)
  {
    forall rest: Text
      ensures ReadFields((Member(p) + [COMMA] + more) + ([CLOSE_BRACE] + rest)) ==
              Some(([Keyed(p.key, v)] + fields, rest))
    {
      var tail := more + ([CLOSE_BRACE] + rest);
      Regroup(Member(p), [COMMA], more, [CLOSE_BRACE] + rest);
      NextMember(p, v, tail, fields, rest);
    }
  }

  lemma {:induction false} FieldsRead(ps: seq<Keyed<Text>>, vs: seq<Keyed<Value>>)
    requires ps != [] && AllFieldsRead(ps, vs)
    ensures ReadsFields(Join(Members(ps)), vs)
    ensures Join(Members(ps)) != [] && Join(Members(ps))[0] == QUOTE
  {
    assert vs[0] == Keyed(ps[0].key, vs[0].value);
    assert Members(ps)[0] == Member(ps[0]) && Member(ps[0])[0] == QUOTE;
    if |ps| == 1 {
      OneMember(ps[0], vs[0].value);
      assert vs == [vs[0]];
    } else {
      FieldsRead(ps[1..], vs[1..]);
      assert Members(ps)[1..] == Members(ps[1..]);
      MemberThenMembers(ps[0], vs[0].value, Join(Members(ps[1..])), vs[1..]);
      assert vs == [vs[0]] + vs[1..];
    }
  }

  /** Sorting the rendered members and sorting the fields keep each member with its field. */
  lemma {:induction false} SortedFieldsRead(ps: seq<Keyed<Text>>, vs: seq<Keyed<Value>>)
    requires AllFieldsRead(ps, vs)
    ensures AllFieldsRead(Sort(ps), Sort(vs))
  {
    SortZips(ps, vs);
    var zipped := Zip(ps, vs);
    SortSorts(zipped);
    forall i | 0 <= i < |ps|
      ensures Reads(Sort(ps)[i].value, Sort(vs)[i].value)
    {
      assert Zip(Sort(ps), Sort(vs))[i] == Sort(zipped)[i] && Sort(zipped)[i] in zipped;
      var j :| 0 <= j < |zipped| && zipped[j] == Sort(zipped)[i];
      assert zipped[j] == Keyed(ps[j].key, (ps[j].value, vs[j].value));
    }
  }

  /**
   * What canonicalization writes reads back as exactly the value it was given, keys sorted, with
   * the rest of the input untouched.
   */
  lemma {:induction false} ReadsBack(v: Value)
    requires Serialize(v).Some?
    ensures Reads(Serialize(v).value, Canon(v))
    decreases v, 1
  {
    match v
    case Arr(items) =>
      ItemsReadBack(items);
      BracketedReads(SerializeAll(items).value, CanonAll(items));
    case Obj(fields) =>
      FieldsReadBack(fields);
      var ps, vs := SerializeFields(fields).value, CanonFields(fields);
      SortedFieldsRead(ps, vs);
      BracedReads(Sort(ps), Sort(vs));
    case Foreign =>
    case _ => ScalarReads(v);
  }

  lemma {:induction false} BracketedReads(parts: seq<Text>, vs: seq<Value>)
    requires AllRead(parts, vs)
    ensures Reads([OPEN_BRACKET] + Join(parts) + [CLOSE_BRACKET], Arr(vs))
  {
    forall rest | Stops(rest)
      ensures Read([OPEN_BRACKET] + Join(parts) + [CLOSE_BRACKET] + rest) == Some((Arr(vs), rest))
    {
      ArrayReads(parts, vs, rest);
      Regroup([OPEN_BRACKET], Join(parts), [CLOSE_BRACKET], rest);
    }
  }

  lemma {:induction false} BracedReads(ps: seq<Keyed<Text>>, vs: seq<Keyed<Value>>)
    requires AllFieldsRead(ps, vs)
    ensures Reads([OPEN_BRACE] + Join(Members(ps)) + [CLOSE_BRACE], Obj(vs))
  {
    forall rest | Stops(rest)
      ensures Read([OPEN_BRACE] + Join(Members(ps)) + [CLOSE_BRACE] + rest) == Some((Obj(vs), rest))
    {
      ObjectReads(ps, vs, rest);
      Regroup([OPEN_BRACE], Join(Members(ps)), [CLOSE_BRACE], rest);
    }
  }

  lemma {:induction false} ArrayReads(parts: seq<Text>, vs: seq<Value>, rest: Text)
    requires AllRead(parts, vs)
    ensures Read([OPEN_BRACKET] + (Join(parts) + ([CLOSE_BRACKET] + rest))) == Some((Arr(vs), rest))
  {
    var inner := Join(parts) + ([CLOSE_BRACKET] + rest);
    assert ([OPEN_BRACKET] + inner)[1..] == inner;
    if parts == [] {
      assert inner == [CLOSE_BRACKET] + rest && inner[1..] == rest;
    } else {
      ItemsRead(parts, vs);
      assert ReadItems(inner) == Some((vs, rest));
      ReadableBegins(inner);
    }
  }

  lemma {:induction false} ObjectReads(ps: seq<Keyed<Text>>, vs: seq<Keyed<Value>>, rest: Text)
    requires AllFieldsRead(ps, vs)
    ensures Read([OPEN_BRACE] + (Join(Members(ps)) + ([CLOSE_BRACE] + rest))) == Some((Obj(vs), rest))
  {
    var inner := Join(Members(ps)) + ([CLOSE_BRACE] + rest);
    assert ([OPEN_BRACE] + inner)[1..] == inner;
    if ps == [] {
      assert inner == [CLOSE_BRACE] + rest && inner[1..] == rest;
    } else {
      FieldsRead(ps, vs);
      assert ReadFields(inner) == Some((vs, rest));
      assert inner[0] == QUOTE;
    }
  }

  lemma {:induction false} ItemsReadBack(items: seq<Value>)
    requires SerializeAll(items).Some?
    ensures AllRead(SerializeAll(items).value, CanonAll(items))
    decreases items, 0
  {
    if items != [] {
      ReadsBack(items[0]);
      ItemsReadBack(items[1..]);
    }
  }

  lemma {:induction false} FieldsReadBack(fields: seq<Keyed<Value>>)
    requires SerializeFields(fields).Some?
    ensures AllFieldsRead(SerializeFields(fields).value, CanonFields(fields))
    decreases fields, 0
  {
    if fields != [] {
      ReadsBack(fields[0].value);
      FieldsReadBack(fields[1..]);
    }
  }

  // ------------------------------------------------------------------ what is refused

  predicate Plain(v: Value) {
    match v
    case Arr(items) => forall i | 0 <= i < |items| :: Plain(items[i])
    case Obj(fields) => forall i | 0 <= i < |fields| :: Plain(fields[i].value)
    case Foreign => false
    case _ => true
  }

  /** Serialization throws exactly on values with something foreign in them, however deep. */
  lemma {:induction false} SerializesExactly(v: Value)
    ensures Serialize(v).Some? <==> Plain(v)
    decreases v, 1
  {
    match v
    case Arr(items) => AllSerializeExactly(items);
    case Obj(fields) => FieldsSerializeExactly(fields);
    case _ =>
  }

  lemma {:induction false} AllSerializeExactly(items: seq<Value>)
    ensures SerializeAll(items).Some? <==> forall i | 0 <= i < |items| :: Plain(items[i])
    ensures SerializeAll(items).Some? ==>
              forall i | 0 <= i < |items| :: Serialize(items[i]) == Some(SerializeAll(items).value[i])
    decreases items, 0
  {
    if items != [] {
      SerializesExactly(items[0]);
      AllSerializeExactly(items[1..]);
      assert items == [items[0]] + items[1..];
    }
  }

  lemma {:induction false} FieldsSerializeExactly(fields: seq<Keyed<Value>>)
    ensures SerializeFields(fields).Some? <==> forall i | 0 <= i < |fields| :: Plain(fields[i].value)
    ensures SerializeFields(fields).Some? ==>
              forall i | 0 <= i < |fields| :: Serialize(fields[i].value) == Some(SerializeFields(fields).value[i].value)
    decreases fields, 0
  {
    if fields != [] {
      SerializesExactly(fields[0].value);
      FieldsSerializeExactly(fields[1..]);
      assert fields == [fields[0]] + fields[1..];
    }
  }

  // ------------------------------------------------------------------ equal bytes, equal values

  /** A JavaScript object cannot hold a key twice. */
  predicate KeysDistinct(v: Value) {
    match v
    case Arr(items) => forall i | 0 <= i < |items| :: KeysDistinct(items[i])
    case Obj(fields) => DistinctKeys(fields) && forall i | 0 <= i < |fields| :: KeysDistinct(fields[i].value)
    case _ => true
  }

  /** The same value, whatever order the fields of its objects were put in. */
  predicate Same(v: Value, w: Value)
    decreases v, 1
  {
    match v
    case Arr(items) => w.Arr? && AllSame(items, w.items)
    case Obj(fields) => w.Obj? && FieldsSame(fields, w.fields) && KeysCovered(w.fields, fields)
    case _ => v == w
  }

  predicate AllSame(items: seq<Value>, others: seq<Value>)
    decreases items, 0
  {
    |items| == |others| && forall i | 0 <= i < |items| :: Same(items[i], others[i])
  }

  /** Each field has a counterpart: the same key with the same value. */
  predicate FieldsSame(fields: seq<Keyed<Value>>, others: seq<Keyed<Value>>)
    decreases fields, 0
  {
    forall i | 0 <= i < |fields| :: HasSame(fields[i], others)
  }

  predicate HasSame(f: Keyed<Value>, others: seq<Keyed<Value>>)
    decreases f, 0
  {
    exists j | 0 <= j < |others| :: others[j].key == f.key && Same(f.value, others[j].value)
  }

  predicate HasKey<T>(xs: seq<Keyed<T>>, key: Text) {
    exists j | 0 <= j < |xs| :: xs[j].key == key
  }

  predicate KeysCovered<A, B>(xs: seq<Keyed<A>>, ys: seq<Keyed<B>>) {
    forall i | 0 <= i < |xs| :: HasKey(ys, xs[i].key)
  }

  lemma {:induction false} SameSerializesAlike(v: Value, w: Value)
    requires Same(v, w) && KeysDistinct(v) && KeysDistinct(w) && Plain(v) && Plain(w)
    ensures Serialize(v) == Serialize(w)
    decreases v, 1
  {
    match v
    case Arr(items) => AllSerializeAlike(items, w.items);
    case Obj(fields) =>
      FieldsSerializeAlike(fields, w.fields);
      SortIgnoresInputOrder(SerializeFields(fields).value, SerializeFields(w.fields).value);
    case _ =>
  }

  lemma {:induction false} AllSerializeAlike(items: seq<Value>, others: seq<Value>)
    requires AllSame(items, others)
    requires forall i | 0 <= i < |items| :: KeysDistinct(items[i]) && Plain(items[i])
    requires forall i | 0 <= i < |others| :: KeysDistinct(others[i]) && Plain(others[i])
    ensures SerializeAll(items).Some? && SerializeAll(items) == SerializeAll(others)
    decreases items, 0
  {
    AllSerializeExactly(items);
    AllSerializeExactly(others);
    forall i | 0 <= i < |items|
      ensures SerializeAll(items).value[i] == SerializeAll(others).value[i]
    {
      SameSerializesAlike(items[i], others[i]);
    }
    assert SerializeAll(items).value == SerializeAll(others).value;
  }

  lemma {:induction false} FieldsSerializeAlike(fields: seq<Keyed<Value>>, others: seq<Keyed<Value>>)
    requires FieldsSame(fields, others) && KeysCovered(others, fields)
    requires DistinctKeys(fields) && DistinctKeys(others)
    requires forall i | 0 <= i < |fields| :: KeysDistinct(fields[i].value) && Plain(fields[i].value)
    requires forall i | 0 <= i < |others| :: KeysDistinct(others[i].value) && Plain(others[i].value)
    ensures SerializeFields(fields).Some? && SerializeFields(others).Some?
    ensures DistinctKeys(SerializeFields(fields).value) && DistinctKeys(SerializeFields(others).value)
    ensures forall x :: x in SerializeFields(fields).value <==> x in SerializeFields(others).value
    decreases fields, 0
  {
    FieldsSerializeExactly(fields);
    FieldsSerializeExactly(others);
    var ps, qs := SerializeFields(fields).value, SerializeFields(others).value;
    forall i | 0 <= i < |ps|
      ensures ps[i] in qs
    {
      var j := FieldSerializesAlike(fields, others, i);
      assert ps[i] == qs[j];
    }
    SameKeysCover(others, fields, qs, ps);
    SameKeysDistinct(fields, ps);
    SameKeysDistinct(others, qs);
    CoversBack(ps, qs);
  }

  lemma {:induction false} FieldSerializesAlike(fields: seq<Keyed<Value>>, others: seq<Keyed<Value>>, i: nat)
      returns (j: nat)
    requires FieldsSame(fields, others) && i < |fields|
    requires KeysDistinct(fields[i].value) && Plain(fields[i].value)
    requires forall k | 0 <= k < |others| :: KeysDistinct(others[k].value) && Plain(others[k].value)
    ensures j < |others| && others[j].key == fields[i].key && Serialize(fields[i].value) == Serialize(others[j].value)
    decreases fields[i], 0
  {
    assert HasSame(fields[i], others);
    j :| 0 <= j < |others| && others[j].key == fields[i].key && Same(fields[i].value, others[j].value);
    SameSerializesAlike(fields[i].value, others[j].value);
  }

  lemma {:induction false} SameKeysCover<A, B, C, D>(xs: seq<Keyed<A>>, ys: seq<Keyed<B>>,
                                                     xs': seq<Keyed<C>>, ys': seq<Keyed<D>>)
    requires KeysCovered(xs, ys) && SameKeys(xs', xs) && SameKeys(ys', ys)
    ensures KeysCovered(xs', ys')
  {
    forall i | 0 <= i < |xs'|
      ensures HasKey(ys', xs'[i].key)
    {
      assert HasKey(ys, xs[i].key);
      var j :| 0 <= j < |ys| && ys[j].key == xs[i].key;
      assert ys'[j].key == xs'[i].key;
    }
  }

  lemma {:induction false} SameKeysDistinct<A, B>(xs: seq<Keyed<A>>, ys: seq<Keyed<B>>)
    requires DistinctKeys(xs) && SameKeys(ys, xs)
    ensures DistinctKeys(ys)
  {
  }

  /** Members of one list all in the other, over the same keys: then also the other way round. */
  lemma {:induction false} CoversBack(ps: seq<Keyed<Text>>, qs: seq<Keyed<Text>>)
    requires DistinctKeys(qs)
    requires forall i | 0 <= i < |ps| :: ps[i] in qs
    requires KeysCovered(qs, ps)
    ensures forall x :: x in ps <==> x in qs
  {
    forall x | x in qs
      ensures x in ps
    {
      var j :| 0 <= j < |qs| && qs[j] == x;
      assert HasKey(ps, qs[j].key);
      var i :| 0 <= i < |ps| && ps[i].key == qs[j].key;
      assert ps[i] in qs;
      var k :| 0 <= k < |qs| && qs[k] == ps[i];
      assert k == j;
    }
  }

  lemma {:induction false} CanonAllAt(items: seq<Value>, i: nat)
    requires i < |items|
    ensures CanonAll(items)[i] == Canon(items[i])
    decreases |items|
  {
    if i > 0 {
      CanonAllAt(items[1..], i - 1);
    }
  }

  lemma {:induction false} CanonFieldsAt(fields: seq<Keyed<Value>>, i: nat)
    requires i < |fields|
    ensures CanonFields(fields)[i] == Keyed(fields[i].key, Canon(fields[i].value))
    decreases |fields|
  {
    if i > 0 {
      CanonFieldsAt(fields[1..], i - 1);
    }
  }

  lemma {:induction false} CanonEqualIsSame(v: Value, w: Value)
    requires Canon(v) == Canon(w)
    ensures Same(v, w)
    decreases v, 1
  {
    match v
    case Arr(items) => CanonEqualAll(items, w.items);
    case Obj(fields) => CanonEqualFields(fields, w.fields);
    case _ =>
  }

  lemma {:induction false} CanonEqualAll(items: seq<Value>, others: seq<Value>)
    requires CanonAll(items) == CanonAll(others)
    ensures AllSame(items, others)
    decreases items, 0
  {
    forall i | 0 <= i < |items|
      ensures Same(items[i], others[i])
    {
      CanonAllAt(items, i);
      CanonAllAt(others, i);
      CanonEqualIsSame(items[i], others[i]);
    }
  }

  lemma {:induction false} CanonEqualFields(fields: seq<Keyed<Value>>, others: seq<Keyed<Value>>)
    requires Sort(CanonFields(fields)) == Sort(CanonFields(others))
    ensures FieldsSame(fields, others) && KeysCovered(others, fields)
    decreases fields, 0
  {
    forall i | 0 <= i < |fields|
      ensures HasSame(fields[i], others)
    {
      var j := SameSortedMember(fields, others, i);
      CanonEqualIsSame(fields[i].value, others[j].value);
    }
    SortedAlikeCovers(others, fields);
  }

  lemma {:induction false} SortedAlikeCovers(fields: seq<Keyed<Value>>, others: seq<Keyed<Value>>)
    requires Sort(CanonFields(fields)) == Sort(CanonFields(others))
    ensures KeysCovered(fields, others)
  {
    forall i | 0 <= i < |fields|
      ensures HasKey(others, fields[i].key)
    {
      var j := SameSortedMember(fields, others, i);
    }
  }

  /** A field has a counterpart in any list that sorts to the same canonical fields. */
  lemma {:induction false} SameSortedMember(fields: seq<Keyed<Value>>, others: seq<Keyed<Value>>, i: nat)
      returns (j: nat)
    requires i < |fields| && Sort(CanonFields(fields)) == Sort(CanonFields(others))
    ensures j < |others| && others[j].key == fields[i].key && Canon(others[j].value) == Canon(fields[i].value)
  {
    SortSorts(CanonFields(fields));
    SortSorts(CanonFields(others));
    CanonFieldsAt(fields, i);
    assert CanonFields(fields)[i] in CanonFields(fields);
    assert CanonFields(fields)[i] in Sort(CanonFields(others));
    j :| 0 <= j < |CanonFields(others)| && CanonFields(others)[j] == CanonFields(fields)[i];
    CanonFieldsAt(others, j);
  }

  /**
   * Two values serialize to the same bytes if and only if they are the same value: construction
   * order never changes the bytes, and no two different values share them.
   */
  lemma {:induction false} SerializationDecides(v: Value, w: Value)
    requires KeysDistinct(v) && KeysDistinct(w) && Plain(v) && Plain(w)
    ensures Serialize(v) == Serialize(w) <==> Same(v, w)
  {
    SerializesExactly(v);
    SerializesExactly(w);
    if Serialize(v) == Serialize(w) {
      ReadsBack(v);
      ReadsBack(w);
      var text := Serialize(v).value;
      assert Read(text + []) == Some((Canon(v), [])) && Read(text + []) == Some((Canon(w), []));
      CanonEqualIsSame(v, w);
    }
    if Same(v, w) {
      SameSerializesAlike(v, w);
    }
  }
}
