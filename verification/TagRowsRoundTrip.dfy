/**
 * Rows printed as Tally prints them come back unchanged (packages/tally/src/codec.ts,
 * packages/tally/src/tdl.ts).
 *
 * A cell is escaped text, line breaks and tabs in it allowed, or a blank marker in any of its spellings, or left out;
 * every cell is closed, and the whole stands inside an envelope.
 */
module TagRowsRoundTrip {
  import opened Wrappers
  import opened Decimal
  import opened Seqs
  import opened Space
  import opened Entities
  import opened TagRows

  // ------------------------------------------------------------------ what is printed

  /** What may stand inside a blank marker: white space, or a numeric reference however it is written. */
  datatype Filler = Gap(c: char) | Reference(body: string)

  /** A blank marker, self-closing or not; the names are FLDBLANK in any mixture of cases, the gaps white space. */
  datatype Marker =
    | SelfClosing(name: string, gap: string)
    | Paired(name: string, gap: string, fillers: seq<Filler>, closing: string, lastGap: string)

  /** A run of line breaks and tabs, and the text after it. */
  datatype Part = Part(breaks: string, word: string)

  datatype CellText = LeftOut | Marked(marker: Marker) | Written(first: string, parts: seq<Part>)

  datatype Row = Row(cells: seq<CellText>)

  /** A cell in its column. */
  datatype Printed = Printed(tag: nat, cell: CellText)

  predicate AllSpace(s: string) {
    forall i | 0 <= i < |s| :: IsSpace(s[i])
  }

  predicate IsName(name: string) {
    |name| == 8 && forall i | 0 <= i < 8 :: Upper(name[i]) == "FLDBLANK"[i]
  }

  predicate IsFiller(f: Filler) {
    match f
    case Gap(c) => IsSpace(c)
    case Reference(body) => body != "" && forall i | 0 <= i < |body| :: IsReferenceChar(body[i])
  }

  predicate IsMarker(m: Marker) {
    && IsName(m.name) && AllSpace(m.gap)
    && (m.Paired? ==>
          IsName(m.closing) && AllSpace(m.lastGap) && forall i | 0 <= i < |m.fillers| :: IsFiller(m.fillers[i]))
  }

  /** Runs of breaks are not empty, and only the last may have no text after it. */
  predicate IsText(first: string, parts: seq<Part>) {
    && NoBreaks(first)
    && forall i | 0 <= i < |parts| ::
         && parts[i].breaks != "" && (forall j | 0 <= j < |parts[i].breaks| :: IsBreak(parts[i].breaks[j]))
         && NoBreaks(parts[i].word) && (i < |parts| - 1 ==> parts[i].word != "")
  }

  predicate IsCellText(cell: CellText) {
    match cell
    case LeftOut => true
    case Marked(m) => IsMarker(m)
    case Written(first, parts) => IsText(first, parts)
  }

  /** The first cell is always there, and one more is where there are several. */
  predicate Printable(row: Row, fieldCount: nat) {
    && |row.cells| == fieldCount
    && (forall i | 0 <= i < fieldCount :: IsCellText(row.cells[i]))
    && (fieldCount >= 1 ==> !row.cells[0].LeftOut?)
    && (fieldCount >= 2 ==> exists k :: 1 <= k < fieldCount && !row.cells[k].LeftOut?)
  }

  ghost predicate AllPrintable(rows: seq<Row>, fieldCount: nat) {
    forall i | 0 <= i < |rows| :: Printable(rows[i], fieldCount)
  }

  /** The text itself, its breaks as they are. */
  function PartsText(parts: seq<Part>): string {
    if parts == [] then "" else parts[0].breaks + parts[0].word + PartsText(parts[1..])
  }

  /** The text with each run of breaks read as one space. */
  function PartsRead(parts: seq<Part>): string {
    if parts == [] then "" else " " + parts[0].word + PartsRead(parts[1..])
  }

  /** What the reader is to make of a cell: nothing of a blank one, the trimmed text of a written one. */
  function ReadAs(cell: CellText): string {
    match cell
    case LeftOut => ""
    case Marked(_) => ""
    case Written(first, parts) => Trim(first + PartsRead(parts))
  }

  /** Every text is written in exactly this way. */
  lemma {:induction false} EveryTextIsWritten(s: string) returns (first: string, parts: seq<Part>)
    ensures IsText(first, parts) && s == first + PartsText(parts)
    ensures s != "" && !IsBreak(s[0]) ==> first != ""
    decreases |s|
  {
    if s == "" {
      first, parts := "", [];
    } else if !IsBreak(s[0]) {
      first, parts := EveryTextIsWritten(s[1..]);
      assert s == [s[0]] + (first + PartsText(parts)) == ([s[0]] + first) + PartsText(parts);
      first := [s[0]] + first;
    } else {
      var n := BreakRun(s);
      var word, more := EveryTextIsWritten(s[n..]);
      first, parts := "", [Part(s[..n], word)] + more;
      PartInFront(s[..n], word, more);
      assert s == s[..n] + s[n..];
    }
  }

  function BreakRun(s: string): (n: nat)
    ensures n <= |s| && (forall i | 0 <= i < n :: IsBreak(s[i])) && (n < |s| ==> !IsBreak(s[n]))
  {
    if s == "" || !IsBreak(s[0]) then 0 else 1 + BreakRun(s[1..])
  }

  lemma {:induction false} PartInFront(breaks: string, word: string, more: seq<Part>)
    requires breaks != "" && (forall j | 0 <= j < |breaks| :: IsBreak(breaks[j]))
    requires IsText(word, more) && (more != [] ==> word != "")
    ensures IsText("", [Part(breaks, word)] + more)
    ensures "" + PartsText([Part(breaks, word)] + more) == breaks + (word + PartsText(more))
  {
    var parts := [Part(breaks, word)] + more;
    assert parts[1..] == more;
    assert forall i | 0 < i < |parts| :: parts[i] == more[i - 1];
  }

  // ------------------------------------------------------------------ printing

  function EndTagText(k: nat): string
    requires k <= MAX_FIELD_TAG
  {
    "</F" + [Digit(k / 10), Digit(k % 10)] + ">"
  }

  function FillerText(f: Filler): string {
    match f
    case Gap(c) => [c]
    case Reference(body) => "&#" + body + ";"
  }

  function FillersText(fillers: seq<Filler>): string {
    if fillers == [] then "" else FillerText(fillers[0]) + FillersText(fillers[1..])
  }

  function OpeningText(m: Marker): string {
    match m
    case SelfClosing(name, gap) => "<" + name + gap + "/>"
    case Paired(name, gap, fillers, _, _) => "<" + name + gap + ">" + FillersText(fillers)
  }

  function ClosingText(m: Marker): string {
    if m.SelfClosing? then "" else "</" + m.closing + m.lastGap + ">"
  }

  function PrintCell(cell: CellText): string {
    match cell
    case LeftOut => ""
    case Marked(m) => OpeningText(m) + ClosingText(m)
    case Written(first, parts) => Esc(first + PartsText(parts))
  }

  /** Columns the delimiter alphabet can spell, and cells that are printed at all. */
  ghost predicate AllPrinted(ps: seq<Printed>) {
    forall i | 0 <= i < |ps| :: ps[i].tag <= MAX_FIELD_TAG && !ps[i].cell.LeftOut? && IsCellText(ps[i].cell)
  }

  function PrintOne(p: Printed): string
    requires p.tag <= MAX_FIELD_TAG
  {
    StartTag(p.tag) + PrintCell(p.cell) + EndTagText(p.tag)
  }

  function PrintAll(ps: seq<Printed>): string
    requires forall i | 0 <= i < |ps| :: ps[i].tag <= MAX_FIELD_TAG
  {
    if ps == [] then "" else PrintOne(ps[0]) + PrintAll(ps[1..])
  }

  function Document(ps: seq<Printed>): string
    requires forall i | 0 <= i < |ps| :: ps[i].tag <= MAX_FIELD_TAG
  {
    "<ENVELOPE>" + PrintAll(ps) + "</ENVELOPE>"
  }

  /** What cleaning leaves of a cell, still escaped. */
  function CleanText(cell: CellText): string {
    if cell.Written? then Esc(cell.first + PartsRead(cell.parts)) else ""
  }

  function CleanToken(p: Printed): Token {
    Token(p.tag, CleanText(p.cell))
  }

  function CleanTokens(ps: seq<Printed>): seq<Token> {
    seq(|ps|, i requires 0 <= i < |ps| => CleanToken(ps[i]))
  }

  // ------------------------------------------------------------------ patterns

  ghost predicate NoAngle(s: string) {
    forall i | 0 <= i < |s| :: s[i] != '<'
  }

  lemma {:induction false} DeleteText(p: Pattern, text: string, rest: string)
    requires NoAngle(text)
    ensures Delete(p, text + rest) == text + Delete(p, rest)
  {
    if text == "" {
      assert text + rest == rest;
    } else {
      DeleteText(p, text[1..], rest);
      DeleteOne(p, text[0], text[1..] + rest);
      assert text == [text[0]] + text[1..];
      Regroup3([text[0]], text[1..], rest);
      Regroup3([text[0]], text[1..], Delete(p, rest));
    }
  }

  lemma {:induction false} DeleteOne(p: Pattern, c: char, rest: string)
    requires c != '<'
    ensures Delete(p, [c] + rest) == [c] + Delete(p, rest)
  {
    assert ([c] + rest)[1..] == rest;
  }

  lemma {:induction false} DeleteTag(p: Pattern, tag: string, rest: string)
    requires tag != "" && tag[0] == '<' && NoAngle(tag[1..])
    requires MatchAt(p, tag + rest) == 0
    ensures Delete(p, tag + rest) == tag + Delete(p, rest)
  {
    assert (tag + rest)[1..] == tag[1..] + rest;
    DeleteText(p, tag[1..], rest);
    assert [tag[0]] + tag[1..] == tag;
  }

  lemma {:induction false} StartTagStays(p: Pattern, k: nat, rest: string)
    requires k <= MAX_FIELD_TAG
    ensures Delete(p, StartTag(k) + rest) == StartTag(k) + Delete(p, rest)
  {
    var s := StartTag(k) + rest;
    assert s[0] == '<' && s[1] == 'F' && IsDigit(s[2]);
    StartsDifferently(s, "<ENVELOPE>", 1);
    StartsDifferently(s, "</ENVELOPE>", 1);
    StartsDifferently(s, "</F", 1);
    DeleteTag(p, StartTag(k), rest);
  }

  lemma {:induction false} EndTagStays(p: Pattern, k: nat, rest: string)
    requires k <= MAX_FIELD_TAG && !p.EndTag?
    ensures Delete(p, EndTagText(k) + rest) == EndTagText(k) + Delete(p, rest)
  {
    var s := EndTagText(k) + rest;
    assert s[0] == '<' && s[1] == '/' && s[2] == 'F';
    StartsDifferently(s, "<ENVELOPE>", 1);
    StartsDifferently(s, "</ENVELOPE>", 2);
    DeleteTag(p, EndTagText(k), rest);
  }

  lemma {:induction false} EndTagGoes(k: nat, rest: string)
    requires k <= MAX_FIELD_TAG
    ensures Delete(EndTag, EndTagText(k) + rest) == Delete(EndTag, rest)
  {
    var s := EndTagText(k) + rest;
    assert s[..3] == "</F" && s[6..] == rest;
  }

  lemma {:induction false} StartsDifferently(s: string, word: string, i: nat)
    requires i < |s| && i < |word| && s[i] != word[i]
    ensures !StartsWith(s, word)
  {
    if |word| <= |s| {
      assert s[..|word|][i] == s[i];
    }
  }

  lemma {:induction false} Regroup3(a: string, b: string, c: string)
    ensures a + b + c == a + (b + c)
  {
  }

  lemma {:induction false} Regroup4(a: string, b: string, c: string, d: string)
    ensures a + b + c + d == a + (b + (c + d))
  {
  }

  lemma {:induction false} EscapedHasNoAngle(v: string)
    ensures NoAngle(Esc(v))
  {
    EscapedHasNoMarkup(v);
  }

  // ------------------------------------------------------------------ the envelope goes, and nothing else with it

  lemma {:induction false} FillersHaveNoAngle(fillers: seq<Filler>)
    requires forall i | 0 <= i < |fillers| :: IsFiller(fillers[i])
    ensures NoAngle(FillersText(fillers))
  {
    if fillers != [] {
      assert IsFiller(fillers[0]);
      FillersHaveNoAngle(fillers[1..]);
    }
  }

  /** Both pieces of a marker begin with the one angle bracket they hold. */
  lemma {:induction false} MarkerPieces(m: Marker)
    requires IsMarker(m)
    ensures var o := OpeningText(m);
            |o| > 2 && o[0] == '<' && NoAngle(o[1..]) && (o[1] == 'F' || o[1] == 'f')
    ensures var c := ClosingText(m);
            m.Paired? ==> |c| > 3 && c[0] == '<' && c[1] == '/' && NoAngle(c[1..]) && (c[2] == 'F' || c[2] == 'f')
  {
    assert Upper(m.name[0]) == 'F';
    NameHasNoAngle(m.name);
    if m.Paired? {
      assert Upper(m.closing[0]) == 'F';
      NameHasNoAngle(m.closing);
      FillersHaveNoAngle(m.fillers);
    }
  }

  lemma {:induction false} NameHasNoAngle(name: string)
    requires IsName(name)
    ensures NoAngle(name)
  {
    assert forall i | 0 <= i < 8 :: Upper(name[i]) == "FLDBLANK"[i];
  }

  lemma {:induction false} MarkerStays(m: Marker, rest: string)
    requires IsMarker(m)
    ensures Delete(Envelope, OpeningText(m) + ClosingText(m) + rest) ==
            OpeningText(m) + ClosingText(m) + Delete(Envelope, rest)
  {
    var o, c := OpeningText(m), ClosingText(m);
    MarkerPieces(m);
    if m.Paired? {
      var s := c + rest;
      assert s[1] == c[1] && s[2] == c[2];
      StartsDifferently(s, "<ENVELOPE>", 1);
      StartsDifferently(s, "</ENVELOPE>", 2);
      DeleteTag(Envelope, c, rest);
    } else {
      assert c + rest == rest && c + Delete(Envelope, rest) == Delete(Envelope, rest);
    }
    var s := o + (c + rest);
    assert s[1] == o[1];
    StartsDifferently(s, "<ENVELOPE>", 1);
    StartsDifferently(s, "</ENVELOPE>", 1);
    DeleteTag(Envelope, o, c + rest);
    Regroup3(o, c, rest);
    Regroup3(o, c, Delete(Envelope, rest));
  }

  lemma {:induction false} CellStays(cell: CellText, rest: string)
    requires IsCellText(cell) && !cell.LeftOut?
    ensures Delete(Envelope, PrintCell(cell) + rest) == PrintCell(cell) + Delete(Envelope, rest)
  {
    match cell
    case Marked(m) => MarkerStays(m, rest);
    case Written(first, parts) =>
      EscapedHasNoAngle(first + PartsText(parts));
      DeleteText(Envelope, PrintCell(cell), rest);
  }

  lemma {:induction false} OneStays(p: Printed, rest: string)
    requires p.tag <= MAX_FIELD_TAG && !p.cell.LeftOut? && IsCellText(p.cell)
    ensures Delete(Envelope, PrintOne(p) + rest) == PrintOne(p) + Delete(Envelope, rest)
  {
    var closed := EndTagText(p.tag) + rest;
    EndTagStays(Envelope, p.tag, rest);
    CellStays(p.cell, closed);
    StartTagStays(Envelope, p.tag, PrintCell(p.cell) + closed);
    Regroup4(StartTag(p.tag), PrintCell(p.cell), EndTagText(p.tag), rest);
    Regroup4(StartTag(p.tag), PrintCell(p.cell), EndTagText(p.tag), Delete(Envelope, rest));
  }

  lemma {:induction false} AllStay(ps: seq<Printed>, tail: string)
    requires AllPrinted(ps)
    ensures Delete(Envelope, PrintAll(ps) + tail) == PrintAll(ps) + Delete(Envelope, tail)
    decreases |ps|
  {
    if ps == [] {
      assert "" + tail == tail;
    } else {
      var one, others := PrintOne(ps[0]), PrintAll(ps[1..]);
      AllStay(ps[1..], tail);
      OneStays(ps[0], others + tail);
      Regroup3(one, others, tail);
      Regroup3(one, others, Delete(Envelope, tail));
    }
  }

  lemma {:induction false} EnvelopeGoes(ps: seq<Printed>)
    requires AllPrinted(ps)
    ensures Delete(Envelope, Document(ps)) == PrintAll(ps)
  {
    Regroup3("<ENVELOPE>", PrintAll(ps), "</ENVELOPE>");
    OpeningEnvelopeGoes(PrintAll(ps) + "</ENVELOPE>");
    AllStay(ps, "</ENVELOPE>");
    ClosingEnvelopeGoes();
    assert PrintAll(ps) + "" == PrintAll(ps);
  }

  lemma {:induction false} OpeningEnvelopeGoes(rest: string)
    ensures Delete(Envelope, "<ENVELOPE>" + rest) == Delete(Envelope, rest)
  {
    var s := "<ENVELOPE>" + rest;
    assert s[..10] == "<ENVELOPE>" && s[10..] == rest;
  }

  lemma {:induction false} ClosingEnvelopeGoes()
    ensures Delete(Envelope, "</ENVELOPE>") == ""
  {
    assert "</ENVELOPE>"[..11] == "</ENVELOPE>" && "</ENVELOPE>"[11..] == "";
    StartsDifferently("</ENVELOPE>", "<ENVELOPE>", 1);
  }

  // ------------------------------------------------------------------ blank markers go

  lemma {:induction false} SkipsFillers(fillers: seq<Filler>, rest: string)
    requires forall i | 0 <= i < |fillers| :: IsFiller(fillers[i])
    requires rest != "" && rest[0] == '<'
    ensures SkipFiller(FillersText(fillers) + rest) == rest
    decreases |fillers|
  {
    if fillers == [] {
      assert "" + rest == rest;
      StartsDifferently(rest, "&#", 0);
    } else {
      SkipsFillers(fillers[1..], rest);
      SkipsOne(fillers[0], FillersText(fillers[1..]) + rest);
      Regroup3(FillerText(fillers[0]), FillersText(fillers[1..]), rest);
    }
  }

  lemma {:induction false} SkipsOne(f: Filler, rest: string)
    requires IsFiller(f)
    ensures SkipFiller(FillerText(f) + rest) == SkipFiller(rest)
  {
    match f
    case Gap(c) => assert ([c] + rest)[1..] == rest;
    case Reference(body) => SkipsReference(body, rest);
  }

  lemma {:induction false} SkipsReference(body: string, rest: string)
    requires body != "" && forall i | 0 <= i < |body| :: IsReferenceChar(body[i])
    ensures SkipFiller("&#" + body + ";" + rest) == SkipFiller(rest)
  {
    var s := "&#" + body + ";" + rest;
    assert s[..2] == "&#" && s[2..] == body + (";" + rest);
    ReferenceRunIs(body, ";" + rest);
    assert s[|body| + 2] == ';' && s[|body| + 3..] == rest;
  }

  lemma {:induction false} ReferenceRunIs(body: string, rest: string)
    requires (forall i | 0 <= i < |body| :: IsReferenceChar(body[i])) && rest != "" && !IsReferenceChar(rest[0])
    ensures ReferenceRun(body + rest) == |body|
  {
    if body == "" {
      assert body + rest == rest;
    } else {
      ReferenceRunIs(body[1..], rest);
      assert (body + rest)[1..] == body[1..] + rest;
    }
  }

  lemma {:induction false} NameStarts(before: string, word: string, name: string, rest: string)
    requires IsName(name) && before + "FLDBLANK" == word
    requires forall i | 0 <= i < |before| :: Upper(before[i]) == before[i]
    ensures StartsWithAnyCase(before + name + rest, word) && (before + name + rest)[|word|..] == rest
  {
    var s := before + name + rest;
    forall i | 0 <= i < |word|
      ensures Upper(s[i]) == word[i]
    {
      if i >= |before| {
        assert s[i] == name[i - |before|] && word[i] == "FLDBLANK"[i - |before|];
      }
    }
  }

  /** What the search finds behind the name and the white space after it. */
  lemma {:induction false} AfterName(name: string, gap: string, inside: string)
    requires IsName(name) && AllSpace(gap) && inside != "" && !IsSpace(inside[0])
    ensures var s := "<" + name + (gap + inside);
            StartsWithAnyCase(s, "<FLDBLANK") && SkipSpace(s[9..]) == inside && |s| == 9 + |gap| + |inside|
  {
    NameStarts("<", "<FLDBLANK", name, gap + inside);
    SkipsSpace(gap, inside);
  }

  lemma {:induction false} AfterClosingName(closing: string, gap: string, rest: string)
    requires IsName(closing) && AllSpace(gap)
    ensures var c := "</" + closing + (gap + (">" + rest));
            StartsWithAnyCase(c, "</FLDBLANK") && SkipSpace(c[10..]) == ">" + rest && c[0] == '<'
  {
    NameStarts("</", "</FLDBLANK", closing, gap + (">" + rest));
    SkipsSpace(gap, ">" + rest);
  }

  lemma {:induction false} SelfClosingIsFound(name: string, gap: string, rest: string)
    requires IsName(name) && AllSpace(gap)
    ensures BlankAt("<" + name + (gap + ("/>" + rest))) == 9 + |gap| + 2
  {
    AfterName(name, gap, "/>" + rest);
    assert ("/>" + rest)[..2] == "/>";
  }

  lemma {:induction false} PairedIsFound(name: string, gap: string, fillers: seq<Filler>, closing: string,
                                         lastGap: string, rest: string)
    requires IsMarker(Paired(name, gap, fillers, closing, lastGap))
    ensures var close := "</" + closing + (lastGap + (">" + rest));
            var s := "<" + name + (gap + (">" + (FillersText(fillers) + close)));
            BlankAt(s) == |s| - |rest|
  {
    var close := "</" + closing + (lastGap + (">" + rest));
    var inside := ">" + (FillersText(fillers) + close);
    AfterName(name, gap, inside);
    StartsDifferently(inside, "/>", 0);
    assert inside[..1] == ">" && inside[1..] == FillersText(fillers) + close;
    AfterClosingName(closing, lastGap, rest);
    SkipsFillers(fillers, close);
    assert (">" + rest)[..1] == ">";
  }

  lemma {:induction false} SelfClosingText(name: string, gap: string, rest: string)
    ensures "<" + name + gap + "/>" + "" + rest == "<" + name + (gap + ("/>" + rest))
  {
  }

  lemma {:induction false} PairedText(name: string, gap: string, fill: string, closing: string, lastGap: string,
                                      rest: string)
    ensures ("<" + name + gap + ">" + fill) + ("</" + closing + lastGap + ">") + rest ==
            "<" + name + (gap + (">" + (fill + ("</" + closing + (lastGap + (">" + rest))))))
  {
    var close := "</" + closing + (lastGap + (">" + rest));
    Regroup4("</" + closing, lastGap, ">", rest);
    assert "</" + closing + lastGap + ">" + rest == close;
    Regroup3("<" + name + gap + ">" + fill, "</" + closing + lastGap + ">", rest);
    Regroup4("<" + name, gap, ">", fill + close);
    Regroup3("<" + name + gap + ">", fill, close);
  }

  /** A marker is found whole, whatever follows it. */
  lemma {:induction false} MarkerIsFound(m: Marker, rest: string)
    requires IsMarker(m)
    ensures BlankAt(OpeningText(m) + ClosingText(m) + rest) == |OpeningText(m) + ClosingText(m)|
  {
    match m
    case SelfClosing(name, gap) =>
      SelfClosingText(name, gap, rest);
      SelfClosingIsFound(name, gap, rest);
    case Paired(name, gap, fillers, closing, lastGap) =>
      PairedText(name, gap, FillersText(fillers), closing, lastGap, rest);
      PairedIsFound(name, gap, fillers, closing, lastGap, rest);
  }

  lemma {:induction false} SpaceSkipped(s: string) returns (gap: string)
    ensures AllSpace(gap) && s == gap + SkipSpace(s)
  {
    if s != "" && IsSpace(s[0]) {
      var more := SpaceSkipped(s[1..]);
      gap := [s[0]] + more;
      Regroup3([s[0]], more, SkipSpace(s));
      assert s == [s[0]] + s[1..];
    } else {
      gap := "";
    }
  }

  lemma {:induction false} ReferenceRunChars(s: string)
    ensures forall i | 0 <= i < ReferenceRun(s) :: IsReferenceChar(s[i])
  {
    if s != "" && IsReferenceChar(s[0]) {
      ReferenceRunChars(s[1..]);
      assert forall i | 0 < i < ReferenceRun(s) :: s[i] == s[1..][i - 1];
    }
  }

  /** One more filler in front. */
  lemma {:induction false} FillerInFront(f: Filler, more: seq<Filler>, rest: string)
    requires IsFiller(f) && forall i | 0 <= i < |more| :: IsFiller(more[i])
    ensures forall i | 0 <= i < |[f] + more| :: IsFiller(([f] + more)[i])
    ensures FillersText([f] + more) + rest == FillerText(f) + (FillersText(more) + rest)
  {
    assert ([f] + more)[1..] == more;
  }

  lemma {:induction false} ReferenceCut(s: string, n: nat)
    requires StartsWith(s, "&#") && n + 2 < |s| && s[n + 2] == ';'
    ensures s == FillerText(Reference(s[2..][..n])) + s[n + 3..]
  {
    assert s[2..][..n] == s[2..n + 2];
    assert s == s[..2] + s[2..n + 2] + [s[n + 2]] + s[n + 3..];
  }

  lemma {:induction false} FillerSkipped(s: string) returns (fillers: seq<Filler>)
    ensures forall i | 0 <= i < |fillers| :: IsFiller(fillers[i])
    ensures s == FillersText(fillers) + SkipFiller(s)
    decreases |s|
  {
    fillers := [];
    if s != "" && IsSpace(s[0]) {
      var more := FillerSkipped(s[1..]);
      FillerInFront(Gap(s[0]), more, SkipFiller(s));
      fillers := [Gap(s[0])] + more;
      assert s == [s[0]] + s[1..];
    } else if StartsWith(s, "&#") {
      var n := ReferenceRun(s[2..]);
      if n > 0 && n + 2 < |s| && s[n + 2] == ';' {
        ReferenceRunChars(s[2..]);
        var f := Reference(s[2..][..n]);
        var more := FillerSkipped(s[n + 3..]);
        FillerInFront(f, more, SkipFiller(s));
        fillers := [f] + more;
        ReferenceCut(s, n);
      }
    }
  }

  lemma {:induction false} NameCut(s: string)
    requires StartsWithAnyCase(s, "<FLDBLANK")
    ensures IsName(s[1..9]) && s == "<" + s[1..9] + s[9..]
  {
    forall i | 0 <= i < 8
      ensures Upper(s[1..9][i]) == "FLDBLANK"[i]
    {
      assert Upper(s[i + 1]) == "<FLDBLANK"[i + 1];
    }
    assert Upper(s[0]) == '<';
    assert s == [s[0]] + s[1..9] + s[9..];
  }

  lemma {:induction false} EndNameCut(s: string)
    requires StartsWithAnyCase(s, "</FLDBLANK")
    ensures IsName(s[2..10]) && s == "</" + s[2..10] + s[10..]
  {
    forall i | 0 <= i < 8
      ensures Upper(s[2..10][i]) == "FLDBLANK"[i]
    {
      assert Upper(s[i + 2]) == "</FLDBLANK"[i + 2];
    }
    assert Upper(s[0]) == '<' && Upper(s[1]) == '/';
    assert s == [s[0], s[1]] + s[2..10] + s[10..];
  }

  lemma {:induction false} PrefixBy(s: string, text: string, rest: string)
    requires s == text + rest
    ensures s[..|s| - |rest|] == text
  {
  }

  lemma {:induction false} FoundSelfClosing(s: string) returns (m: Marker)
    requires BlankAt(s) > 0 && StartsWith(SkipSpace(s[9..]), "/>")
    ensures IsMarker(m) && s[..BlankAt(s)] == OpeningText(m) + ClosingText(m)
  {
    var gap := SpaceSkipped(s[9..]);
    var inside := SkipSpace(s[9..]);
    m := SelfClosing(s[1..9], gap);
    NameCut(s);
    assert inside == "/>" + inside[2..];
    SelfClosingText(s[1..9], gap, inside[2..]);
    assert s == "<" + s[1..9] + (gap + ("/>" + inside[2..]));
    PrefixBy(s, OpeningText(m) + ClosingText(m), inside[2..]);
  }

  /** A paired marker put together from the places at which the scan stops. */
  lemma {:induction false} PairedPieces(name: string, gap: string, fill: string, closing: string, lastGap: string,
                                        rest: string, inside: string, inner: string, last: string)
    requires inside == ">" + inner && inner == fill + ("</" + closing + (lastGap + last)) && last == ">" + rest
    ensures "<" + name + (gap + inside) == ("<" + name + gap + ">" + fill) + ("</" + closing + lastGap + ">") + rest
  {
    PairedText(name, gap, fill, closing, lastGap, rest);
  }

  lemma {:induction false} FoundPaired(s: string) returns (m: Marker)
    requires BlankAt(s) > 0 && !StartsWith(SkipSpace(s[9..]), "/>")
    ensures IsMarker(m) && s[..BlankAt(s)] == OpeningText(m) + ClosingText(m)
  {
    var gap := SpaceSkipped(s[9..]);
    var inside := SkipSpace(s[9..]);
    var fillers := FillerSkipped(inside[1..]);
    var closing := SkipFiller(inside[1..]);
    var lastGap := SpaceSkipped(closing[10..]);
    var last := SkipSpace(closing[10..]);
    m := Paired(s[1..9], gap, fillers, closing[2..10], lastGap);
    NameCut(s);
    EndNameCut(closing);
    assert inside == ">" + inside[1..] && last == ">" + last[1..];
    PairedPieces(s[1..9], gap, FillersText(fillers), closing[2..10], lastGap, last[1..], inside, inside[1..], last);
    PrefixBy(s, OpeningText(m) + ClosingText(m), last[1..]);
  }

  /** And nothing but a marker is found: what the pattern matches is the text of one. */
  lemma {:induction false} FoundIsMarker(s: string) returns (m: Marker)
    requires BlankAt(s) > 0
    ensures IsMarker(m) && s[..BlankAt(s)] == OpeningText(m) + ClosingText(m)
  {
    if StartsWith(SkipSpace(s[9..]), "/>") {
      m := FoundSelfClosing(s);
    } else {
      m := FoundPaired(s);
    }
  }

  lemma {:induction false} MarkerGoes(m: Marker, rest: string)
    requires IsMarker(m)
    ensures Delete(Blank, OpeningText(m) + ClosingText(m) + rest) == Delete(Blank, rest)
  {
    var text := OpeningText(m) + ClosingText(m);
    MarkerIsFound(m, rest);
    MarkerPieces(m);
    assert (text + rest)[|text|..] == rest;
  }

  function Unmark(p: Printed): Printed {
    if p.cell.Marked? then Printed(p.tag, Written("", [])) else p
  }

  function Unmarked(ps: seq<Printed>): seq<Printed> {
    seq(|ps|, i requires 0 <= i < |ps| => Unmark(ps[i]))
  }

  lemma {:induction false} CellIsUnmarked(p: Printed, rest: string)
    requires !p.cell.LeftOut? && IsCellText(p.cell)
    ensures Delete(Blank, PrintCell(p.cell) + rest) == PrintCell(Unmark(p).cell) + Delete(Blank, rest)
  {
    match p.cell
    case Marked(m) =>
      MarkerGoes(m, rest);
      EscOfNothing();
      assert "" + Delete(Blank, rest) == Delete(Blank, rest);
    case Written(first, parts) =>
      EscapedHasNoAngle(first + PartsText(parts));
      DeleteText(Blank, PrintCell(p.cell), rest);
  }

  lemma {:induction false} EscOfNothing()
    ensures PrintCell(Written("", [])) == ""
  {
    assert "" + PartsText([]) == "";
  }

  lemma {:induction false} OneIsUnmarked(p: Printed, rest: string)
    requires p.tag <= MAX_FIELD_TAG && !p.cell.LeftOut? && IsCellText(p.cell)
    ensures Delete(Blank, PrintOne(p) + rest) == PrintOne(Unmark(p)) + Delete(Blank, rest)
  {
    var closed := EndTagText(p.tag) + rest;
    EndTagStays(Blank, p.tag, rest);
    CellIsUnmarked(p, closed);
    StartTagStays(Blank, p.tag, PrintCell(p.cell) + closed);
    Regroup4(StartTag(p.tag), PrintCell(p.cell), EndTagText(p.tag), rest);
    Regroup4(StartTag(p.tag), PrintCell(Unmark(p).cell), EndTagText(p.tag), Delete(Blank, rest));
  }

  lemma {:induction false} UnmarkedArePrinted(ps: seq<Printed>)
    requires AllPrinted(ps)
    ensures AllPrinted(Unmarked(ps)) && forall i | 0 <= i < |ps| :: Unmarked(ps)[i].cell.Written?
  {
  }

  lemma {:induction false} AllAreUnmarked(ps: seq<Printed>)
    requires AllPrinted(ps) && AllPrinted(Unmarked(ps))
    ensures Delete(Blank, PrintAll(ps)) == PrintAll(Unmarked(ps))
    decreases |ps|
  {
    if ps != [] {
      assert Unmarked(ps)[1..] == Unmarked(ps[1..]) && Unmarked(ps)[0] == Unmark(ps[0]);
      AllAreUnmarked(ps[1..]);
      OneIsUnmarked(ps[0], PrintAll(ps[1..]));
    }
  }

  // ------------------------------------------------------------------ runs of breaks become spaces

  lemma {:induction false} CollapseText(text: string, rest: string, inRun: bool)
    requires NoBreaks(text)
    ensures Collapse(text + rest, inRun) == text + Collapse(rest, inRun && text == "")
  {
    if text == "" {
      assert text + rest == rest;
    } else {
      CollapseText(text[1..], rest, false);
      assert (text + rest)[1..] == text[1..] + rest;
      assert text == [text[0]] + text[1..];
      Regroup3([text[0]], text[1..], Collapse(rest, false));
    }
  }

  lemma {:induction false} CollapseBreaks(breaks: string, rest: string, inRun: bool)
    requires forall i | 0 <= i < |breaks| :: IsBreak(breaks[i])
    requires rest != "" && !IsBreak(rest[0])
    ensures Collapse(breaks + rest, inRun) == (if inRun || breaks == "" then "" else " ") + Collapse(rest, false)
  {
    if breaks == "" {
      assert breaks + rest == rest;
    } else {
      CollapseBreaks(breaks[1..], rest, true);
      assert (breaks + rest)[1..] == breaks[1..] + rest;
    }
  }

  function EscParts(parts: seq<Part>): string {
    if parts == [] then "" else parts[0].breaks + Esc(parts[0].word) + EscParts(parts[1..])
  }

  function EscRead(parts: seq<Part>): string {
    if parts == [] then "" else " " + Esc(parts[0].word) + EscRead(parts[1..])
  }

  lemma {:induction false} PlainEscapesToItself(s: string)
    requires forall i | 0 <= i < |s| :: IsBreak(s[i]) || s[i] == ' '
    ensures Esc(s) == s
  {
    EscIsPerCharacter(s);
    PlainEscEach(s);
  }

  lemma {:induction false} PlainEscEach(s: string)
    requires forall i | 0 <= i < |s| :: IsBreak(s[i]) || s[i] == ' '
    ensures EscEach(s) == s
  {
    if s != "" {
      PlainEscEach(s[1..]);
      assert s[0] != '&' && s[0] != '<' && s[0] != '>' && s[0] != '"' && s[0] != '\'';
    }
  }

  lemma {:induction false} EscPartsIs(first: string, parts: seq<Part>)
    requires IsText(first, parts)
    ensures Esc(PartsText(parts)) == EscParts(parts) && Esc(PartsRead(parts)) == EscRead(parts)
    decreases |parts|
  {
    if parts == [] {
      PlainEscapesToItself("");
    } else {
      var p := parts[0];
      EscPartsIs(p.word, parts[1..]);
      PlainEscapesToItself(p.breaks);
      PlainEscapesToItself(" ");
      EscConcat(p.breaks, p.word);
      EscConcat(p.breaks + p.word, PartsText(parts[1..]));
      EscConcat(" ", p.word);
      EscConcat(" " + p.word, PartsRead(parts[1..]));
    }
  }

  lemma {:induction false} EscHasNoBreaks(v: string)
    requires NoBreaks(v)
    ensures NoBreaks(Esc(v)) && (v != "" ==> Esc(v) != "")
  {
    EscIsPerCharacter(v);
    EscEachHasNoBreaks(v);
  }

  lemma {:induction false} EscEachHasNoBreaks(v: string)
    requires NoBreaks(v)
    ensures NoBreaks(EscEach(v)) && (v != "" ==> EscEach(v) != "")
  {
    if v != "" {
      EscEachHasNoBreaks(v[1..]);
      assert NoBreaks(EscChar(v[0])) && EscChar(v[0]) != "";
    }
  }

  lemma {:induction false} CollapseParts(first: string, parts: seq<Part>, rest: string)
    requires IsText(first, parts) && rest != "" && !IsBreak(rest[0])
    ensures Collapse(EscParts(parts) + rest, false) == EscRead(parts) + Collapse(rest, false)
    decreases |parts|
  {
    if parts == [] {
      assert "" + rest == rest && "" + Collapse(rest, false) == Collapse(rest, false);
    } else {
      var p, more := parts[0], EscParts(parts[1..]);
      CollapseParts(p.word, parts[1..], rest);
      CollapsePart(p, more, rest, parts[1..] == []);
      Regroup4(p.breaks, Esc(p.word), more, rest);
      Regroup4(" ", Esc(p.word), EscRead(parts[1..]), Collapse(rest, false));
    }
  }

  lemma {:induction false} CollapsePart(p: Part, more: string, rest: string, last: bool)
    requires p.breaks != "" && (forall j | 0 <= j < |p.breaks| :: IsBreak(p.breaks[j])) && NoBreaks(p.word)
    requires if last then more == "" else p.word != ""
    requires rest != "" && !IsBreak(rest[0])
    ensures Collapse(p.breaks + (Esc(p.word) + (more + rest)), false) ==
            " " + (Esc(p.word) + Collapse(more + rest, false))
  {
    var after := Esc(p.word) + (more + rest);
    EscHasNoBreaks(p.word);
    if p.word == "" {
      PlainEscapesToItself("");
      assert after == rest && more + rest == rest;
    }
    assert after != "" && !IsBreak(after[0]);
    CollapseBreaks(p.breaks, after, false);
    CollapseText(Esc(p.word), more + rest, false);
  }

  lemma {:induction false} CollapseCell(first: string, parts: seq<Part>, rest: string)
    requires IsText(first, parts) && rest != "" && !IsBreak(rest[0])
    ensures Collapse(Esc(first + PartsText(parts)) + rest, false) ==
            Esc(first + PartsRead(parts)) + Collapse(rest, false)
  {
    EscPartsIs(first, parts);
    EscConcat(first, PartsText(parts));
    EscConcat(first, PartsRead(parts));
    EscHasNoBreaks(first);
    CollapseParts(first, parts, rest);
    CollapseText(Esc(first), EscParts(parts) + rest, false);
    Regroup3(Esc(first), EscParts(parts), rest);
    Regroup3(Esc(first), EscRead(parts), Collapse(rest, false));
  }

  // ------------------------------------------------------------------ the tokens come back

  predicate Spellable(toks: seq<Token>) {
    forall i | 0 <= i < |toks| :: toks[i].tag <= MAX_FIELD_TAG
  }

  function PrintToken(t: Token): string
    requires t.tag <= MAX_FIELD_TAG
  {
    StartTag(t.tag) + t.value + EndTagText(t.tag)
  }

  function PrintTokens(toks: seq<Token>): string
    requires Spellable(toks)
  {
    if toks == [] then "" else PrintToken(toks[0]) + PrintTokens(toks[1..])
  }

  ghost predicate SafeText(s: string) {
    NoAngle(s) && NoBreaks(s)
  }

  ghost predicate SafeTokens(toks: seq<Token>) {
    Spellable(toks) && forall i | 0 <= i < |toks| :: SafeText(toks[i].value)
  }

  lemma {:induction false} OneIsCollapsed(p: Printed, rest: string)
    requires p.tag <= MAX_FIELD_TAG && p.cell.Written? && IsCellText(p.cell)
    ensures Collapse(PrintOne(p) + rest, false) == PrintToken(CleanToken(p)) + Collapse(rest, false)
  {
    var open, close := StartTag(p.tag), EndTagText(p.tag);
    assert NoBreaks(open) && NoBreaks(close);
    CollapseText(close, rest, false);
    CollapseCell(p.cell.first, p.cell.parts, close + rest);
    CollapseText(open, PrintCell(p.cell) + (close + rest), false);
    Regroup4(open, PrintCell(p.cell), close, rest);
    Regroup4(open, CleanText(p.cell), close, Collapse(rest, false));
  }

  lemma {:induction false} AllAreCollapsed(ps: seq<Printed>)
    requires AllPrinted(ps) && forall i | 0 <= i < |ps| :: ps[i].cell.Written?
    ensures Spellable(CleanTokens(ps)) && Collapse(PrintAll(ps), false) == PrintTokens(CleanTokens(ps))
    decreases |ps|
  {
    if ps != [] {
      AllAreCollapsed(ps[1..]);
      OneIsCollapsed(ps[0], PrintAll(ps[1..]));
      assert CleanTokens(ps)[1..] == CleanTokens(ps[1..]);
    }
  }

  lemma {:induction false} TokenIsOpened(t: Token, rest: string)
    requires t.tag <= MAX_FIELD_TAG && SafeText(t.value)
    ensures Delete(EndTag, PrintToken(t) + rest) == StartTag(t.tag) + t.value + Delete(EndTag, rest)
  {
    var closed := EndTagText(t.tag) + rest;
    EndTagGoes(t.tag, rest);
    DeleteText(EndTag, t.value, closed);
    StartTagStays(EndTag, t.tag, t.value + closed);
    assert PrintToken(t) + rest == StartTag(t.tag) + (t.value + closed);
    assert StartTag(t.tag) + (t.value + Delete(EndTag, rest)) == StartTag(t.tag) + t.value + Delete(EndTag, rest);
  }

  lemma {:induction false} EndTagsGo(toks: seq<Token>)
    requires SafeTokens(toks) && Clear(toks)
    ensures Delete(EndTag, PrintTokens(toks)) == Render(toks)
    decreases |toks|
  {
    if toks != [] {
      EndTagsGo(toks[1..]);
      TokenIsOpened(toks[0], PrintTokens(toks[1..]));
    }
  }

  lemma {:induction false} SafeIsClear(toks: seq<Token>)
    requires SafeTokens(toks)
    ensures Clear(toks)
  {
    forall i | 0 <= i < |toks|
      ensures NoStart(toks[i].value)
    {
      assert forall j | 0 <= j < |toks[i].value| :: toks[i].value[j] in toks[i].value;
    }
  }

  lemma {:induction false} CleanIsSafe(p: Printed)
    requires !p.cell.LeftOut? && IsCellText(p.cell)
    ensures SafeText(CleanText(p.cell)) && CleanToken(Unmark(p)) == CleanToken(p)
  {
    match p.cell
    case Marked(_) => EscOfNothing();
    case Written(first, parts) =>
      EscapedHasNoAngle(first + PartsRead(parts));
      ReadHasNoBreaks(first, parts);
      EscHasNoBreaks(first + PartsRead(parts));
  }

  lemma {:induction false} ReadHasNoBreaks(first: string, parts: seq<Part>)
    requires IsText(first, parts)
    ensures NoBreaks(first + PartsRead(parts))
    decreases |parts|
  {
    if parts != [] {
      var more := parts[0].word + PartsRead(parts[1..]);
      ReadHasNoBreaks(parts[0].word, parts[1..]);
      assert first + PartsRead(parts) == first + " " + more;
    }
  }

  lemma {:induction false} CleanTokensAreSafe(ps: seq<Printed>)
    requires AllPrinted(ps)
    ensures SafeTokens(CleanTokens(ps)) && CleanTokens(Unmarked(ps)) == CleanTokens(ps)
  {
    forall i | 0 <= i < |ps|
      ensures SafeText(CleanTokens(ps)[i].value) && CleanToken(Unmark(ps[i])) == CleanToken(ps[i])
    {
      CleanIsSafe(ps[i]);
    }
  }

  /** Cleaning and tokenizing a printed document gives its columns back, blanks emptied and breaks read as spaces. */
  lemma {:induction false} PrintedTokensReadBack(ps: seq<Printed>)
    requires AllPrinted(ps)
    ensures Toks(Clean(Document(ps))) == CleanTokens(ps)
  {
    var toks := CleanTokens(ps);
    EnvelopeGoes(ps);
    UnmarkedArePrinted(ps);
    AllAreUnmarked(ps);
    AllAreCollapsed(Unmarked(ps));
    CleanTokensAreSafe(ps);
    SafeIsClear(toks);
    EndTagsGo(toks);
    TokensOfRendering("", toks);
    assert "" + Render(toks) == Render(toks);
  }

  // ------------------------------------------------------------------ rows

  /** The columns of a row that are printed, among the first n. */
  function RowPrinted(row: Row, n: nat): seq<Printed>
    requires n <= |row.cells|
  {
    if n == 0 then []
    else RowPrinted(row, n - 1) + if row.cells[n - 1].LeftOut? then [] else [Printed(n, row.cells[n - 1])]
  }

  function AllRowsPrinted(rows: seq<Row>): seq<Printed> {
    if rows == [] then [] else AllRowsPrinted(Init(rows)) + RowPrinted(Last(rows), |Last(rows).cells|)
  }

  function RowTokens(row: Row, n: nat): seq<Token>
    requires n <= |row.cells|
  {
    CleanTokens(RowPrinted(row, n))
  }

  function AllRowTokens(rows: seq<Row>): seq<seq<Token>> {
    seq(|rows|, i requires 0 <= i < |rows| => RowTokens(rows[i], |rows[i].cells|))
  }

  lemma {:induction false} CleanTokensConcat(ps: seq<Printed>, qs: seq<Printed>)
    ensures CleanTokens(ps + qs) == CleanTokens(ps) + CleanTokens(qs)
  {
  }

  lemma {:induction false} RowsAreFlat(rows: seq<Row>)
    ensures Flatten(AllRowTokens(rows)) == CleanTokens(AllRowsPrinted(rows))
  {
    if rows != [] {
      RowsAreFlat(Init(rows));
      CleanTokensConcat(AllRowsPrinted(Init(rows)), RowPrinted(Last(rows), |Last(rows).cells|));
      assert Init(AllRowTokens(rows)) == AllRowTokens(Init(rows));
    }
  }

  lemma {:induction false} RowIsPrinted(row: Row, n: nat)
    requires n <= |row.cells| <= MAX_FIELD_TAG && forall i | 0 <= i < |row.cells| :: IsCellText(row.cells[i])
    ensures AllPrinted(RowPrinted(row, n))
    ensures forall i | 0 <= i < |RowPrinted(row, n)| :: 1 <= RowPrinted(row, n)[i].tag <= n
    ensures forall i, j | 0 <= i < j < |RowPrinted(row, n)| :: RowPrinted(row, n)[i].tag < RowPrinted(row, n)[j].tag
  {
    if n > 0 {
      RowIsPrinted(row, n - 1);
    }
  }

  lemma {:induction false} RowsArePrinted(rows: seq<Row>, fieldCount: nat)
    requires fieldCount <= MAX_FIELD_TAG && AllPrintable(rows, fieldCount)
    ensures AllPrinted(AllRowsPrinted(rows))
  {
    if rows != [] {
      RowsArePrinted(Init(rows), fieldCount);
      assert Printable(Last(rows), fieldCount);
      RowIsPrinted(Last(rows), |Last(rows).cells|);
    }
  }

  lemma {:induction false} RowTokenAt(row: Row, n: nat, k: nat)
    requires n <= |row.cells|
    ensures HasTag(RowTokens(row, n), k) <==> 1 <= k <= n && !row.cells[k - 1].LeftOut?
    ensures ValueOf(RowTokens(row, n), k) == if 1 <= k <= n then CleanText(row.cells[k - 1]) else ""
  {
    if n > 0 {
      RowTokenAt(row, n - 1, k);
      var init := RowTokens(row, n - 1);
      if row.cells[n - 1].LeftOut? {
        assert RowPrinted(row, n) == RowPrinted(row, n - 1);
      } else {
        var p := Printed(n, row.cells[n - 1]);
        CleanTokensConcat(RowPrinted(row, n - 1), [p]);
        assert CleanTokens([p]) == [CleanToken(p)];
        LaterTokenAt(init, CleanToken(p), k);
      }
    }
  }

  lemma {:induction false} LaterTokenAt(init: seq<Token>, t: Token, k: nat)
    ensures HasTag(init + [t], k) <==> HasTag(init, k) || t.tag == k
    ensures ValueOf(init + [t], k) == if t.tag == k then t.value else ValueOf(init, k)
  {
    var toks := init + [t];
    InitLast(init, t);
    assert forall i | 0 <= i < |init| :: toks[i] == init[i];
    assert toks[|init|] == t;
  }

  lemma {:induction false} CellReadsBack(row: Row, k: nat)
    requires 1 <= k <= |row.cells|
    ensures Cell(RowTokens(row, |row.cells|), k) == ReadAs(row.cells[k - 1])
  {
    RowTokenAt(row, |row.cells|, k);
    if row.cells[k - 1].Written? {
      UnescapeEsc(row.cells[k - 1].first + PartsRead(row.cells[k - 1].parts));
    }
  }

  function ReadRow(row: Row): seq<string> {
    seq(|row.cells|, i requires 0 <= i < |row.cells| => ReadAs(row.cells[i]))
  }

  lemma {:induction false} RowIsAccepted(row: Row, fieldCount: nat)
    requires 1 <= fieldCount <= MAX_FIELD_TAG && Printable(row, fieldCount)
    ensures Verdict(RowTokens(row, fieldCount), fieldCount, Some(fieldCount)).None?
    ensures Cells(RowTokens(row, fieldCount), Some(fieldCount)) == ReadRow(row)
  {
    RowHasItsTags(row, fieldCount);
    RefusedExactly(Tags(RowTokens(row, fieldCount)), fieldCount, Some(fieldCount));
    forall k | 1 <= k <= fieldCount
      ensures Cell(RowTokens(row, fieldCount), k) == ReadAs(row.cells[k - 1])
    {
      CellReadsBack(row, k);
    }
  }

  lemma {:induction false} RowHasItsTags(row: Row, fieldCount: nat)
    requires 1 <= fieldCount <= MAX_FIELD_TAG && Printable(row, fieldCount)
    ensures var tags := Tags(RowTokens(row, fieldCount));
            && (forall i | 0 <= i < |tags| :: 1 <= tags[i] <= fieldCount)
            && 1 in tags && (fieldCount >= 2 ==> |tags| >= 2)
  {
    RowIsPrinted(row, fieldCount);
    ColumnIsThere(row, fieldCount, 1);
    if fieldCount >= 2 {
      var k :| 1 <= k < fieldCount && !row.cells[k].LeftOut?;
      ColumnIsThere(row, fieldCount, k + 1);
      TwoElements(Tags(RowTokens(row, fieldCount)), 1, k + 1);
    }
  }

  lemma {:induction false} ColumnIsThere(row: Row, fieldCount: nat, k: nat)
    requires |row.cells| == fieldCount && 1 <= k <= fieldCount && !row.cells[k - 1].LeftOut?
    ensures k in Tags(RowTokens(row, fieldCount))
  {
    RowTokenAt(row, fieldCount, k);
    TagIsIn(RowTokens(row, fieldCount), k);
  }

  lemma {:induction false} TagIsIn(run: seq<Token>, k: nat)
    requires HasTag(run, k)
    ensures k in Tags(run)
  {
    var i :| 0 <= i < |run| && run[i].tag == k;
    assert Tags(run)[i] == k;
  }

  lemma {:induction false} TwoElements(tags: seq<nat>, j: nat, k: nat)
    requires j in tags && k in tags && j != k
    ensures |tags| >= 2
  {
  }

  lemma {:induction false} RowStartsAtOne(row: Row, fieldCount: nat)
    requires 1 <= fieldCount <= MAX_FIELD_TAG && Printable(row, fieldCount)
    ensures var run := RowTokens(row, fieldCount);
            run != [] && run[0].tag == 1 && Last(run).tag >= 1 && Increasing(run)
  {
    var run := RowTokens(row, fieldCount);
    RowIsPrinted(row, fieldCount);
    RowTokenAt(row, fieldCount, 1);
    var first :| 0 <= first < |run| && run[first].tag == 1;
    assert run[0].tag >= 1 && Last(run).tag >= 1;
  }

  lemma {:induction false} RowsAreMaximalRuns(rows: seq<Row>, fieldCount: nat)
    requires 1 <= fieldCount <= MAX_FIELD_TAG && AllPrintable(rows, fieldCount)
    ensures MaximalRuns(AllRowTokens(rows))
  {
    var runs: seq<seq<Token>> := AllRowTokens(rows);
    forall i | 0 <= i < |rows|
      ensures runs[i] != [] && runs[i][0].tag == 1 && Last(runs[i]).tag >= 1 && Increasing(runs[i])
    {
      RowStartsAtOne(rows[i], fieldCount);
    }
  }

  /** The rows as they are to be read. */
  function ReadRows(rows: seq<Row>): seq<seq<string>> {
    seq(|rows|, i requires 0 <= i < |rows| => ReadRow(rows[i]))
  }

  lemma {:induction false} EveryRowIsAccepted(rows: seq<Row>, fieldCount: nat)
    requires 1 <= fieldCount <= MAX_FIELD_TAG && AllPrintable(rows, fieldCount)
    ensures AcceptedRows(AllRowTokens(rows), fieldCount, Some(fieldCount)) == ReadRows(rows)
    ensures Rejections(AllRowTokens(rows), fieldCount, Some(fieldCount)) == []
  {
    if rows != [] {
      EveryRowIsAccepted(Init(rows), fieldCount);
      LastRowIsAccepted(rows, fieldCount);
    }
  }

  lemma {:induction false} LastRowIsAccepted(rows: seq<Row>, fieldCount: nat)
    requires rows != [] && 1 <= fieldCount <= MAX_FIELD_TAG && Printable(Last(rows), fieldCount)
    ensures AcceptedRows(AllRowTokens(rows), fieldCount, Some(fieldCount)) ==
            AcceptedRows(AllRowTokens(Init(rows)), fieldCount, Some(fieldCount)) + [ReadRow(Last(rows))]
    ensures Rejections(AllRowTokens(rows), fieldCount, Some(fieldCount)) ==
            Rejections(AllRowTokens(Init(rows)), fieldCount, Some(fieldCount))
    ensures ReadRows(rows) == ReadRows(Init(rows)) + [ReadRow(Last(rows))]
  {
    var runs := AllRowTokens(rows);
    RowIsAccepted(Last(rows), fieldCount);
    assert Init(runs) == AllRowTokens(Init(rows)) && Last(runs) == RowTokens(Last(rows), fieldCount);
  }

  /** What a response to a request of `fieldCount` fields prints as. */
  function PrintRows(rows: seq<Row>): string
    requires forall i | 0 <= i < |AllRowsPrinted(rows)| :: AllRowsPrinted(rows)[i].tag <= MAX_FIELD_TAG
  {
    Document(AllRowsPrinted(rows))
  }

  /**
   * Parsing what was printed gives exactly the rows, whatever their cells say, and rejects none: a blank marker in any
   * spelling is an empty cell, and a run of line breaks and tabs one space.
   */
  lemma {:induction false} PrintedRowsReadBack(rows: seq<Row>, fieldCount: nat)
    requires 1 <= fieldCount <= MAX_FIELD_TAG && AllPrintable(rows, fieldCount)
    ensures AllPrinted(AllRowsPrinted(rows))
    ensures var runs := Runs(Toks(Clean(PrintRows(rows))));
            && AcceptedRows(runs, fieldCount, Some(fieldCount)) == ReadRows(rows)
            && Rejections(runs, fieldCount, Some(fieldCount)) == []
  {
    RowsArePrinted(rows, fieldCount);
    PrintedTokensReadBack(AllRowsPrinted(rows));
    RowsAreFlat(rows);
    RowsAreMaximalRuns(rows, fieldCount);
    MaximalRunsAreRuns(AllRowTokens(rows));
    EveryRowIsAccepted(rows, fieldCount);
  }
}
