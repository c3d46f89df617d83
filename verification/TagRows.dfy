/**
 * The tag-indexed response parser (packages/tally/src/codec.ts): `<F04>` opens column 4 of a row, a
 * tag that does not advance opens the next row, and text is decoded only after everything is cut.
 */
module TagRows {
  import opened Wrappers
  import opened Decimal
  import opened Seqs
  import opened Space
  import opened Entities

  // ------------------------------------------------------------------ cleaning

  /** The three kinds of markup that are dropped before tokenizing. */
  datatype Pattern = Envelope | Blank | EndTag

  function Upper(c: char): char {
    if 'a' <= c <= 'z' then (c as int - 'a' as int + 'A' as int) as char else c
  }

  /** `s` begins with `word`, which is in capitals, in any mixture of cases. */
  predicate StartsWithAnyCase(s: string, word: string) {
    |word| <= |s| && forall i | 0 <= i < |word| :: Upper(s[i]) == word[i]
  }

  predicate IsReferenceChar(c: char) {
    IsHex(c) || c == 'x' || c == 'X'
  }

  function ReferenceRun(s: string): (n: nat)
    ensures n <= |s|
  {
    if s != "" && IsReferenceChar(s[0]) then 1 + ReferenceRun(s[1..]) else 0
  }

  /** White space and numeric references, as far as they go. */
  function SkipFiller(s: string): (r: string)
    ensures |r| <= |s|
    decreases |s|
  {
    if s != "" && IsSpace(s[0]) then SkipFiller(s[1..])
    else if StartsWith(s, "&#") then
      var n := ReferenceRun(s[2..]);
      if n > 0 && n + 2 < |s| && s[n + 2] == ';' then SkipFiller(s[n + 3..]) else s
    else s
  }

  lemma {:induction false} SkipSpaceShortens(s: string)
    ensures |SkipSpace(s)| <= |s|
  {
    if s != "" {
      SkipSpaceShortens(s[1..]);
    }
  }

  /** Length of a blank marker at the head of `s`, 0 if there is none. */
  function BlankAt(s: string): (n: nat)
    ensures n <= |s|
    ensures n > 0 ==> s[0] == '<' && |s| > 2 && Upper(s[2]) == 'L'
  {
    if !StartsWithAnyCase(s, "<FLDBLANK") then 0
    else
      SkipSpaceShortens(s[9..]);
      var inside := SkipSpace(s[9..]);
      if StartsWith(inside, "/>") then |s| - |inside| + 2
      else if !StartsWith(inside, ">") then 0
      else
        var closing := SkipFiller(inside[1..]);
        if !StartsWithAnyCase(closing, "</FLDBLANK") then 0
        else
          SkipSpaceShortens(closing[10..]);
          var last := SkipSpace(closing[10..]);
          if StartsWith(last, ">") then |s| - |last| + 1 else 0
  }

  /** Length of the match of the pattern at the head of `s`, 0 if there is none. */
  function MatchAt(p: Pattern, s: string): (n: nat)
    ensures n <= |s|
    ensures n > 0 ==> s[0] == '<'
  {
    match p
    case Envelope => if StartsWith(s, "<ENVELOPE>") then 10 else if StartsWith(s, "</ENVELOPE>") then 11 else 0
    case Blank => BlankAt(s)
    case EndTag => if StartsWith(s, "</F") && |s| >= 6 && IsDigit(s[3]) && IsDigit(s[4]) && s[5] == '>' then 6 else 0
  }

  /** Every match of the pattern deleted, from left to right. */
  function Delete(p: Pattern, s: string): string
    decreases |s|
  {
    if s == "" then ""
    else if MatchAt(p, s) > 0 then Delete(p, s[MatchAt(p, s)..])
    else [s[0]] + Delete(p, s[1..])
  }

  /** Every run of line breaks and tabs becomes one space. */
  function Collapse(s: string, inRun: bool): string {
    if s == "" then ""
    else if IsBreak(s[0]) then (if inRun then "" else " ") + Collapse(s[1..], true)
    else [s[0]] + Collapse(s[1..], false)
  }

  function Clean(xml: string): string {
    Delete(EndTag, Collapse(Delete(Blank, Delete(Envelope, xml)), false))
  }

  // ------------------------------------------------------------------ tokens

  const MAX_FIELD_TAG := 99

  datatype Token = Token(tag: nat, value: string)

  /** A start tag, `<F` with exactly two digits and `>`, stands at `i`. */
  predicate StartAt(s: string, i: nat) {
    i + 5 <= |s| && s[i] == '<' && s[i + 1] == 'F' && IsDigit(s[i + 2]) && IsDigit(s[i + 3]) && s[i + 4] == '>'
  }

  function TagAt(s: string, i: nat): (tag: nat)
    requires StartAt(s, i)
    ensures tag <= MAX_FIELD_TAG
  {
    10 * DigitOf(s[i + 2]) + DigitOf(s[i + 3])
  }

  /** The first start tag at or after `from`, or the end. */
  function NextStart(s: string, from: nat): (n: nat)
    requires from <= |s|
    ensures from <= n <= |s| && (n < |s| ==> StartAt(s, n))
    ensures forall i | from <= i < n :: !StartAt(s, i)
    decreases |s| - from
  {
    if from == |s| || StartAt(s, from) then from else NextStart(s, from + 1)
  }

  ghost predicate NoStart(s: string) {
    forall i | 0 <= i < |s| :: !StartAt(s, i)
  }

  /** Each start tag from `at` on, with the text up to the next one. */
  function TokensFrom(s: string, at: nat): seq<Token>
    requires at == |s| || StartAt(s, at)
    decreases |s| - at
  {
    if at == |s| then []
    else
      var next := NextStart(s, at + 5);
      [Token(TagAt(s, at), s[at + 5..next])] + TokensFrom(s, next)
  }

  /** The tokens of a text; what comes before the first start tag is noise. */
  function Toks(s: string): seq<Token> {
    TokensFrom(s, NextStart(s, 0))
  }

  /** What the loop has: finished tokens, and the tag last opened, whose value runs on to `at` at least. */
  ghost predicate SoFar(s: string, toks: seq<Token>, openTag: int, openAt: nat, at: nat) {
    && openAt <= at <= |s| && (at < |s| ==> StartAt(s, at))
    && if openTag < 0 then toks == [] && Toks(s) == TokensFrom(s, at)
       else Toks(s) == WithOpen(s, toks, openTag, openAt, at) + TokensFrom(s, at)
  }

  function WithOpen(s: string, toks: seq<Token>, openTag: int, openAt: nat, at: nat): seq<Token>
    requires openAt <= at <= |s|
  {
    if openTag < 0 then toks else toks + [Token(openTag, s[openAt..at])]
  }

  lemma {:induction false} OpensNext(s: string, toks: seq<Token>, openTag: int, openAt: nat, at: nat)
    requires SoFar(s, toks, openTag, openAt, at) && at < |s|
    ensures SoFar(s, WithOpen(s, toks, openTag, openAt, at), TagAt(s, at), at + 5, NextStart(s, at + 5))
  {
    var next := NextStart(s, at + 5);
    var done, t := WithOpen(s, toks, openTag, openAt, at), Token(TagAt(s, at), s[at + 5..next]);
    assert TokensFrom(s, at) == [t] + TokensFrom(s, next);
    assert Toks(s) == done + TokensFrom(s, at);
    OneTokenOver(done, t, TokensFrom(s, next));
  }

  lemma {:induction false} OneTokenOver(done: seq<Token>, t: Token, rest: seq<Token>)
    ensures done + ([t] + rest) == done + [t] + rest
  {
  }

  lemma {:induction false} NothingSoFar(s: string)
    ensures SoFar(s, [], -1, 0, NextStart(s, 0))
  {
  }

  lemma {:induction false} AllSoFar(s: string, toks: seq<Token>, openTag: int, openAt: nat, at: nat)
    requires SoFar(s, toks, openTag, openAt, at) && at == |s|
    ensures Toks(s) == if openTag < 0 then toks else toks + [Token(openTag, s[openAt..])]
  {
    assert TokensFrom(s, at) == [] && s[openAt..at] == s[openAt..];
  }

  method Tokenize(s: string) returns (toks: seq<Token>)
    ensures toks == Toks(s)
  {
    toks := [];
    var openTag: int := -1;
    var openAt: nat := 0;
    var at := NextStart(s, 0);
    NothingSoFar(s);
    while at < |s|
      invariant SoFar(s, toks, openTag, openAt, at)
      decreases |s| - at
    {
      OpensNext(s, toks, openTag, openAt, at);
      if openTag >= 0 {
        toks := toks + [Token(openTag, s[openAt..at])];
      }
      openTag := TagAt(s, at);
      openAt := at + 5;
      at := NextStart(s, openAt);
    }
    AllSoFar(s, toks, openTag, openAt, at);
    if openTag >= 0 {
      toks := toks + [Token(openTag, s[openAt..])];
    }
  }

  function StartTag(k: nat): (tag: string)
    requires k <= MAX_FIELD_TAG
    ensures |tag| == 5 && StartAt(tag, 0) && TagAt(tag, 0) == k
  {
    "<F" + [Digit(k / 10), Digit(k % 10)] + ">"
  }

  /** Tags the delimiter alphabet can spell, and values that hold no delimiter. */
  ghost predicate Clear(toks: seq<Token>) {
    forall i | 0 <= i < |toks| :: toks[i].tag <= MAX_FIELD_TAG && NoStart(toks[i].value)
  }

  /** The text a token list stands for. */
  ghost function Render(toks: seq<Token>): string
    requires Clear(toks)
  {
    if toks == [] then "" else StartTag(toks[0].tag) + toks[0].value + Render(toks[1..])
  }

  lemma {:induction false} NoStartInside(s: string, lo: nat, hi: nat)
    requires lo <= hi <= |s| && forall i | lo <= i < hi :: !StartAt(s, i)
    ensures NoStart(s[lo..hi])
  {
    var part := s[lo..hi];
    forall i | 0 <= i < |part|
      ensures !StartAt(part, i)
    {
      assert !StartAt(s, lo + i);
      assert forall j | 0 <= j < |part| :: part[j] == s[lo + j];
    }
  }

  lemma {:induction false} StartTagIs(s: string, at: nat)
    requires StartAt(s, at)
    ensures s[at..at + 5] == StartTag(TagAt(s, at))
  {
  }

  lemma {:induction false} TokensFromConserve(s: string, at: nat)
    requires at == |s| || StartAt(s, at)
    ensures Clear(TokensFrom(s, at)) && s[at..] == Render(TokensFrom(s, at))
    decreases |s| - at
  {
    if at < |s| {
      var next := NextStart(s, at + 5);
      var toks := TokensFrom(s, at);
      TokensFromConserve(s, next);
      NoStartInside(s, at + 5, next);
      StartTagIs(s, at);
      assert toks[1..] == TokensFrom(s, next);
      assert s[at..] == s[at..at + 5] + s[at + 5..next] + s[next..];
    }
  }

  /** No character is lost or repeated by tokenizing, and no start tag is left inside a value or the noise. */
  lemma {:induction false} TokensConserveText(s: string)
    ensures var from := NextStart(s, 0);
            Clear(Toks(s)) && NoStart(s[..from]) && s == s[..from] + Render(Toks(s))
  {
    var from := NextStart(s, 0);
    TokensFromConserve(s, from);
    NoStartInside(s, 0, from);
  }

  /** A text in which no start tag stands does not let one begin by running into the next. */
  lemma {:induction false} NextStartIs(s: string, from: nat, text: string)
    requires from + |text| <= |s| && s[from..from + |text|] == text && NoStart(text)
    requires from + |text| == |s| || s[from + |text|] == '<'
    requires from + |text| == |s| || StartAt(s, from + |text|)
    ensures NextStart(s, from) == from + |text|
  {
    forall i | from <= i < from + |text|
      ensures !StartAt(s, i)
    {
      assert !StartAt(text, i - from);
      assert forall j | from <= j < from + |text| :: s[j] == text[j - from];
    }
  }

  lemma {:induction false} TokensFromRendering(s: string, at: nat, toks: seq<Token>)
    requires at <= |s| && Clear(toks) && s[at..] == Render(toks)
    ensures (at == |s| || StartAt(s, at)) && TokensFrom(s, at) == toks
    decreases |toks|, 1
  {
    if toks == [] {
      assert at == |s|;
    } else {
      FirstRendered(s, at, toks);
      RestThenFirst(s, at, toks, at + 5 + |toks[0].value|);
    }
  }

  lemma {:induction false} RestThenFirst(s: string, at: nat, toks: seq<Token>, next: nat)
    requires toks != [] && next == at + 5 + |toks[0].value| <= |s|
    requires StartAt(s, at) && TagAt(s, at) == toks[0].tag && NoStart(toks[0].value) && Clear(toks[1..])
    requires s[at + 5..next] == toks[0].value && s[next..] == Render(toks[1..])
    ensures TokensFrom(s, at) == toks
    decreases |toks|, 0
  {
    TokensFromRendering(s, next, toks[1..]);
    FirstTokenIs(s, at, toks[0], toks[1..]);
    assert toks == [toks[0]] + toks[1..];
  }

  lemma {:induction false} FirstRendered(s: string, at: nat, toks: seq<Token>)
    requires at <= |s| && toks != [] && Clear(toks) && s[at..] == Render(toks)
    ensures StartAt(s, at) && TagAt(s, at) == toks[0].tag && NoStart(toks[0].value) && Clear(toks[1..])
    ensures var next := at + 5 + |toks[0].value|;
            next <= |s| && s[at + 5..next] == toks[0].value && s[next..] == Render(toks[1..])
  {
    SplitAt(s, at, StartTag(toks[0].tag), toks[0].value, Render(toks[1..]));
  }

  lemma {:induction false} FirstTokenIs(s: string, at: nat, t: Token, others: seq<Token>)
    requires StartAt(s, at) && TagAt(s, at) == t.tag && NoStart(t.value)
    requires var next := at + 5 + |t.value|;
             && next <= |s| && s[at + 5..next] == t.value
             && (next == |s| || StartAt(s, next)) && TokensFrom(s, next) == others
    ensures TokensFrom(s, at) == [t] + others
  {
    NextStartIs(s, at + 5, t.value);
  }

  lemma {:induction false} SplitAt(s: string, at: nat, tag: string, value: string, rest: string)
    requires at <= |s| && s[at..] == tag + value + rest && |tag| == 5 && StartAt(tag, 0)
    ensures |s| == at + 5 + |value| + |rest|
    ensures StartAt(s, at) && TagAt(s, at) == TagAt(tag, 0)
    ensures s[at + 5..at + 5 + |value|] == value && s[at + 5 + |value|..] == rest
  {
    var tail := s[at..];
    assert forall j | 0 <= j < 5 :: tail[j] == tag[j] && s[at + j] == tail[j];
    assert tail[5..5 + |value|] == value && tail[5 + |value|..] == rest;
  }

  /** Tokenizing is the one way to cut a text: any rendering of clear tokens gives those tokens back. */
  lemma {:induction false} TokensOfRendering(noise: string, toks: seq<Token>)
    requires NoStart(noise) && Clear(toks)
    ensures Toks(noise + Render(toks)) == toks
  {
    var s := noise + Render(toks);
    assert s[|noise|..] == Render(toks) && s[0..|noise|] == noise;
    TokensFromRendering(s, |noise|, toks);
    NextStartIs(s, 0, noise);
  }

  // ------------------------------------------------------------------ runs

  /** A token joins the last run if its tag advances, and otherwise begins the next. */
  predicate Advances(run: seq<Token>, t: Token) {
    run != [] && Last(run).tag < t.tag
  }

  function Runs(toks: seq<Token>): seq<seq<Token>> {
    if toks == [] then []
    else
      var runs, t := Runs(Init(toks)), Last(toks);
      if runs != [] && Advances(Last(runs), t) then Init(runs) + [Last(runs) + [t]] else runs + [[t]]
  }

  function Flatten(runs: seq<seq<Token>>): seq<Token> {
    if runs == [] then [] else Flatten(Init(runs)) + Last(runs)
  }

  predicate Increasing(run: seq<Token>) {
    forall i, j | 0 <= i < j < |run| :: run[i].tag < run[j].tag
  }

  /** `next` could not have been joined to `run`. */
  predicate Breaks(run: seq<Token>, next: seq<Token>) {
    run != [] && next != [] && Last(run).tag >= next[0].tag
  }

  /** `runs` cuts its tokens into non-empty increasing runs, none of which could be joined to the next. */
  ghost predicate MaximalRuns(runs: seq<seq<Token>>) {
    && (forall i | 0 <= i < |runs| :: runs[i] != [] && Increasing(runs[i]))
    && (forall i | 0 < i < |runs| :: Breaks(runs[i - 1], runs[i]))
  }

  lemma {:induction false} RunsAreMaximal(toks: seq<Token>)
    ensures Flatten(Runs(toks)) == toks && MaximalRuns(Runs(toks))
  {
    if toks != [] {
      var runs, t := Runs(Init(toks)), Last(toks);
      RunsAreMaximal(Init(toks));
      if runs != [] && Advances(Last(runs), t) {
        JoinKeepsMaximal(runs, t);
        JoinFlattens(Init(runs), Last(runs), t);
      } else {
        NewRunKeepsMaximal(runs, t);
        FlattenOneMore(runs, [t]);
      }
      assert toks == Init(toks) + [t];
    }
  }

  lemma {:induction false} JoinFlattens(init: seq<seq<Token>>, last: seq<Token>, t: Token)
    ensures Flatten(init + [last + [t]]) == Flatten(init) + last + [t]
  {
    FlattenOneMore(init, last + [t]);
    assert Flatten(init) + (last + [t]) == Flatten(init) + last + [t];
  }

  lemma {:induction false} JoinKeepsMaximal(runs: seq<seq<Token>>, t: Token)
    requires MaximalRuns(runs) && runs != [] && Advances(Last(runs), t)
    ensures MaximalRuns(Init(runs) + [Last(runs) + [t]])
  {
    var last := Last(runs);
    var grown := Init(runs) + [last + [t]];
    assert forall i | 0 <= i < |runs| - 1 :: grown[i] == runs[i];
    assert Increasing(last + [t]);
    assert |runs| > 1 ==> Breaks(runs[|runs| - 2], last);
  }

  lemma {:induction false} NewRunKeepsMaximal(runs: seq<seq<Token>>, t: Token)
    requires MaximalRuns(runs) && (runs != [] ==> !Advances(Last(runs), t))
    ensures MaximalRuns(runs + [[t]])
  {
    var grown := runs + [[t]];
    assert forall i | 0 <= i < |runs| :: grown[i] == runs[i];
  }

  /** There is only one such cut. */
  lemma {:induction false} MaximalRunsAreRuns(runs: seq<seq<Token>>)
    requires MaximalRuns(runs)
    ensures Runs(Flatten(runs)) == runs
    decreases |runs|, if runs == [] then 0 else |Last(runs)|
  {
    if runs != [] {
      var last := Last(runs);
      if |last| == 1 {
        WithoutLoneToken(runs);
        MaximalRunsAreRuns(Init(runs));
        LoneToken(runs);
      } else {
        var init, shorter, t := Init(runs), Init(last), Last(last);
        WithoutLaterToken(runs, init, shorter, t);
        InitLast(init, shorter);
        MaximalRunsAreRuns(init + [shorter]);
        LaterToken(init, shorter, t);
      }
    }
  }

  lemma {:induction false} LoneToken(runs: seq<seq<Token>>)
    requires runs != [] && |Last(runs)| == 1 && Runs(Flatten(Init(runs))) == Init(runs)
    requires Init(runs) != [] ==> !Advances(Last(Init(runs)), Last(Last(runs)))
    ensures Runs(Flatten(runs)) == runs
  {
    assert Last(runs) == [Last(Last(runs))];
    RunsOfOneMore(Flatten(Init(runs)), Last(Last(runs)));
  }

  lemma {:induction false} LaterToken(init: seq<seq<Token>>, last: seq<Token>, t: Token)
    requires Runs(Flatten(init + [last])) == init + [last] && Advances(last, t)
    ensures Runs(Flatten(init + [last + [t]])) == init + [last + [t]]
  {
    FlattenOneMore(init, last);
    FlattenOneMore(init, last + [t]);
    assert Flatten(init) + (last + [t]) == Flatten(init) + last + [t];
    RunsOfOneMore(Flatten(init) + last, t);
    InitLast(init, last);
  }

  lemma {:induction false} FlattenOneMore(runs: seq<seq<Token>>, run: seq<Token>)
    ensures Flatten(runs + [run]) == Flatten(runs) + run
  {
    InitLast(runs, run);
  }

  lemma {:induction false} RunsOfOneMore(toks: seq<Token>, t: Token)
    ensures Runs(toks + [t]) ==
            var runs := Runs(toks);
            if runs != [] && Advances(Last(runs), t) then Init(runs) + [Last(runs) + [t]] else runs + [[t]]
  {
    InitLast(toks, t);
  }

  lemma {:induction false} WithoutLoneToken(runs: seq<seq<Token>>)
    requires MaximalRuns(runs) && runs != [] && |Last(runs)| == 1
    ensures MaximalRuns(Init(runs))
    ensures Init(runs) != [] ==> !Advances(Last(Init(runs)), Last(Last(runs)))
  {
    var init := Init(runs);
    assert forall i | 0 <= i < |init| :: init[i] == runs[i];
    assert |runs| > 1 ==> Breaks(runs[|runs| - 2], Last(runs));
  }

  lemma {:induction false} WithoutLaterToken(runs: seq<seq<Token>>, init: seq<seq<Token>>, last: seq<Token>, t: Token)
    requires MaximalRuns(runs) && runs != [] && |Last(runs)| > 1
    requires init == Init(runs) && last == Init(Last(runs)) && t == Last(Last(runs))
    ensures MaximalRuns(init + [last]) && Advances(last, t) && runs == init + [last + [t]]
  {
    var fewer := init + [last];
    assert Last(runs) == last + [t];
    assert forall i | 0 <= i < |init| :: fewer[i] == runs[i];
    assert Increasing(Last(runs));
    assert |runs| > 1 ==> Breaks(runs[|runs| - 2], Last(runs));
  }

  // ------------------------------------------------------------------ rows

  datatype Reason = NotInSchema(tag: nat) | Beyond(tag: nat, fields: nat) | NoF01 | OnlyF01

  datatype Rejection = Rejection(row: nat, reason: Reason, tags: seq<nat>)

  function FirstBadTag(tags: seq<nat>, fieldCount: Option<nat>): Option<Reason> {
    if tags == [] then None
    else if tags[0] < 1 then Some(NotInSchema(tags[0]))
    else if fieldCount.Some? && tags[0] > fieldCount.value then Some(Beyond(tags[0], fieldCount.value))
    else FirstBadTag(tags[1..], fieldCount)
  }

  function RejectionReason(tags: seq<nat>, schemaWidth: nat, fieldCount: Option<nat>): Option<Reason> {
    var bad := FirstBadTag(tags, fieldCount);
    if bad.Some? then bad
    else if 1 !in tags then Some(NoF01)
    else if schemaWidth >= 2 && |tags| < 2 then Some(OnlyF01)
    else None
  }

  function MaxTag(tags: seq<nat>): (m: nat)
    ensures forall i | 0 <= i < |tags| :: tags[i] <= m
    ensures m > 0 ==> exists i :: 0 <= i < |tags| && tags[i] == m
  {
    if tags == [] then 0
    else
      var m := MaxTag(Init(tags));
      if m < Last(tags) then assert tags[|tags| - 1] == Last(tags); Last(tags) else m
  }

  function Tags(run: seq<Token>): seq<nat> {
    seq(|run|, i requires 0 <= i < |run| => run[i].tag)
  }

  predicate HasTag(run: seq<Token>, k: nat) {
    exists i | 0 <= i < |run| :: run[i].tag == k
  }

  /** What a run last said about column k; nothing said reads as the empty string. */
  function ValueOf(run: seq<Token>, k: nat): string {
    if run == [] then ""
    else if Last(run).tag == k then Last(run).value
    else ValueOf(Init(run), k)
  }

  function Cell(run: seq<Token>, k: nat): string {
    Trim(UnescapeEntities(ValueOf(run, k)))
  }

  function Width(run: seq<Token>, fieldCount: Option<nat>): nat {
    if fieldCount.Some? then fieldCount.value else MaxTag(Tags(run))
  }

  function Cells(run: seq<Token>, fieldCount: Option<nat>): seq<string> {
    seq(Width(run, fieldCount), i requires 0 <= i => Cell(run, i + 1))
  }

  function Verdict(run: seq<Token>, schemaWidth: nat, fieldCount: Option<nat>): Option<Reason> {
    RejectionReason(Tags(run), schemaWidth, fieldCount)
  }

  function AcceptedRows(runs: seq<seq<Token>>, schemaWidth: nat, fieldCount: Option<nat>): seq<seq<string>> {
    if runs == [] then []
    else
      var last := Last(runs);
      AcceptedRows(Init(runs), schemaWidth, fieldCount) +
      if Verdict(last, schemaWidth, fieldCount).None? then [Cells(last, fieldCount)] else []
  }

  function Rejections(runs: seq<seq<Token>>, schemaWidth: nat, fieldCount: Option<nat>): seq<Rejection> {
    if runs == [] then []
    else
      var last := Last(runs);
      var reason := Verdict(last, schemaWidth, fieldCount);
      Rejections(Init(runs), schemaWidth, fieldCount) +
      if reason.Some? then [Rejection(|runs| - 1, reason.value, Tags(last))] else []
  }

  function SchemaWidth(toks: seq<Token>, fieldCount: Option<nat>): nat {
    if fieldCount.Some? then fieldCount.value else MaxTag(Tags(toks))
  }

  // ------------------------------------------------------------------ the parser

  ghost predicate Holds(cur: map<nat, string>, run: seq<Token>) {
    forall k: nat :: (if k in cur then cur[k] else "") == ValueOf(run, k)
  }

  method Materialize(cur: map<nat, string>, width: nat, ghost run: seq<Token>) returns (row: seq<string>)
    requires Holds(cur, run)
    ensures row == seq(width, i requires 0 <= i => Cell(run, i + 1))
  {
    var out := new string[width];
    for i := 0 to width
      invariant forall j | 0 <= j < i :: out[j] == Cell(run, j + 1)
    {
      out[i] := Trim(UnescapeEntities(if i + 1 in cur then cur[i + 1] else ""));
    }
    row := out[..];
  }

  method Flush(cur: map<nat, string>, curTags: seq<nat>, schemaWidth: nat, fieldCount: Option<nat>,
               rows: seq<seq<string>>, rejected: seq<Rejection>, rowIndex: nat,
               ghost flushed: seq<seq<Token>>, ghost run: seq<Token>)
    returns (rows': seq<seq<string>>, rejected': seq<Rejection>, rowIndex': nat)
    requires Holds(cur, run) && curTags == Tags(run) && rowIndex == |flushed|
    requires rows == AcceptedRows(flushed, schemaWidth, fieldCount)
    requires rejected == Rejections(flushed, schemaWidth, fieldCount)
    ensures var after := Cut(flushed, run);
            && rows' == AcceptedRows(after, schemaWidth, fieldCount)
            && rejected' == Rejections(after, schemaWidth, fieldCount)
            && rowIndex' == |after|
  {
    rows', rejected', rowIndex' := rows, rejected, rowIndex;
    if |curTags| == 0 {
      return;
    }
    InitLast(flushed, run);
    var reason := RejectionReason(curTags, schemaWidth, fieldCount);
    if reason.Some? {
      rejected' := rejected' + [Rejection(rowIndex, reason.value, curTags)];
    } else {
      var row := Materialize(cur, if fieldCount.Some? then fieldCount.value else MaxTag(curTags), run);
      rows' := rows' + [row];
    }
    rowIndex' := rowIndex' + 1;
  }

  lemma {:induction false} HoldsNothing()
    ensures Holds(map[], [])
  {
  }

  lemma {:induction false} HoldsStep(cur: map<nat, string>, run: seq<Token>, t: Token)
    requires Holds(cur, run)
    ensures Holds(cur[t.tag := t.value], run + [t]) && Tags(run + [t]) == Tags(run) + [t.tag]
  {
    InitLast(run, t);
  }

  ghost function Cut(flushed: seq<seq<Token>>, run: seq<Token>): seq<seq<Token>> {
    if run == [] then flushed else flushed + [run]
  }

  lemma {:induction false} RunsStep(toks: seq<Token>, i: nat, flushed: seq<seq<Token>>, run: seq<Token>)
    requires i < |toks| && Runs(toks[..i]) == Cut(flushed, run) && (run == [] ==> flushed == [])
    ensures Runs(toks[..i + 1]) == if run == [] || Advances(run, toks[i]) then Cut(flushed, run + [toks[i]])
                                   else Cut(Cut(flushed, run), [toks[i]])
  {
    assert toks[..i + 1] == toks[..i] + [toks[i]];
    RunsOfOneMore(toks[..i], toks[i]);
    if run != [] {
      InitLast(flushed, run);
    } else {
      assert run + [toks[i]] == [toks[i]];
    }
  }

  // ------------------------------------------------------------------ nothing breaks a line

  lemma {:induction false} CollapsedHasNoBreaks(s: string, inRun: bool)
    ensures NoBreaks(Collapse(s, inRun))
  {
    if s != "" {
      CollapsedHasNoBreaks(s[1..], IsBreak(s[0]));
    }
  }

  lemma {:induction false} DeletedHasNoBreaks(p: Pattern, s: string)
    requires NoBreaks(s)
    ensures NoBreaks(Delete(p, s))
    decreases |s|
  {
    if s != "" {
      if MatchAt(p, s) > 0 {
        DeletedHasNoBreaks(p, s[MatchAt(p, s)..]);
      } else {
        DeletedHasNoBreaks(p, s[1..]);
      }
    }
  }

  lemma {:induction false} CleanHasNoBreaks(xml: string)
    ensures NoBreaks(Clean(xml))
  {
    var s := Delete(Blank, Delete(Envelope, xml));
    CollapsedHasNoBreaks(s, false);
    DeletedHasNoBreaks(EndTag, Collapse(s, false));
  }

  ghost predicate Unbroken(toks: seq<Token>) {
    forall i | 0 <= i < |toks| :: NoBreaks(toks[i].value)
  }

  lemma {:induction false} TokensAreUnbroken(s: string, at: nat)
    requires NoBreaks(s) && (at == |s| || StartAt(s, at))
    ensures Unbroken(TokensFrom(s, at))
    decreases |s| - at
  {
    if at < |s| {
      TokensAreUnbroken(s, NextStart(s, at + 5));
    }
  }

  lemma {:induction false} RunsAreUnbroken(toks: seq<Token>)
    requires Unbroken(toks)
    ensures forall i | 0 <= i < |Runs(toks)| :: Unbroken(Runs(toks)[i])
  {
    if toks != [] {
      RunsAreUnbroken(Init(toks));
      var runs := Runs(Init(toks));
      if runs != [] {
        assert Unbroken(Last(runs));
      }
    }
  }

  lemma {:induction false} CellIsUnbroken(run: seq<Token>, k: nat)
    requires Unbroken(run)
    ensures NoBreaks(Cell(run, k))
  {
    ValueIsUnbroken(run, k);
    UnescapedHasNoBreaks(ValueOf(run, k));
    TrimmedHasNoBreaks(UnescapeEntities(ValueOf(run, k)));
  }

  lemma {:induction false} ValueIsUnbroken(run: seq<Token>, k: nat)
    requires Unbroken(run)
    ensures NoBreaks(ValueOf(run, k))
  {
    if run != [] {
      ValueIsUnbroken(Init(run), k);
    }
  }

  lemma {:induction false} TrimmedHasNoBreaks(s: string)
    requires NoBreaks(s)
    ensures NoBreaks(Trim(s))
  {
    SkippedHasNoBreaks(s);
    TrimEndHasNoBreaks(SkipSpace(s));
  }

  lemma {:induction false} SkippedHasNoBreaks(s: string)
    requires NoBreaks(s)
    ensures NoBreaks(SkipSpace(s))
  {
    if s != "" {
      SkippedHasNoBreaks(s[1..]);
    }
  }

  lemma {:induction false} TrimEndHasNoBreaks(s: string)
    requires NoBreaks(s)
    ensures NoBreaks(TrimEnd(s))
  {
    if s != "" {
      TrimEndHasNoBreaks(s[..|s| - 1]);
    }
  }

  ghost predicate UnbrokenRows(rows: seq<seq<string>>) {
    forall i, j | 0 <= i < |rows| && 0 <= j < |rows[i]| :: NoBreaks(rows[i][j])
  }

  lemma {:induction false} AcceptedAreUnbroken(runs: seq<seq<Token>>, schemaWidth: nat, fieldCount: Option<nat>)
    requires forall i | 0 <= i < |runs| :: Unbroken(runs[i])
    ensures UnbrokenRows(AcceptedRows(runs, schemaWidth, fieldCount))
  {
    if runs != [] {
      AcceptedAreUnbroken(Init(runs), schemaWidth, fieldCount);
      forall j | 0 <= j < |Cells(Last(runs), fieldCount)|
        ensures NoBreaks(Cells(Last(runs), fieldCount)[j])
      {
        CellIsUnbroken(Last(runs), j + 1);
      }
    }
  }

  /** Whatever the response holds, no cell of an accepted row holds a line break or a tab. */
  lemma {:induction false} CellsHoldNoBreaks(xml: string, schemaWidth: nat, fieldCount: Option<nat>)
    ensures UnbrokenRows(AcceptedRows(Runs(Toks(Clean(xml))), schemaWidth, fieldCount))
  {
    var s := Clean(xml);
    CleanHasNoBreaks(xml);
    TokensAreUnbroken(s, NextStart(s, 0));
    RunsAreUnbroken(Toks(s));
    AcceptedAreUnbroken(Runs(Toks(s)), schemaWidth, fieldCount);
  }

  method ParseTagRows(xml: string, fieldCount: Option<nat>)
    returns (rows: seq<seq<string>>, rejected: seq<Rejection>)
    ensures var toks := Toks(Clean(xml)); var width := SchemaWidth(toks, fieldCount);
            && rows == AcceptedRows(Runs(toks), width, fieldCount)
            && rejected == Rejections(Runs(toks), width, fieldCount)
    ensures UnbrokenRows(rows)
  {
    var toks := Tokenize(Clean(xml));
    var schemaWidth := SchemaWidth(toks, fieldCount);
    rows, rejected := [], [];
    var rowIndex := 0;
    var cur: map<nat, string> := map[];
    var curTags: seq<nat> := [];
    var lastTag := MAX_FIELD_TAG + 1;
    ghost var flushed: seq<seq<Token>> := [];
    ghost var run: seq<Token> := [];
    for i := 0 to |toks|
      invariant Holds(cur, run) && curTags == Tags(run) && rowIndex == |flushed|
      invariant rows == AcceptedRows(flushed, schemaWidth, fieldCount)
      invariant rejected == Rejections(flushed, schemaWidth, fieldCount)
      invariant Runs(toks[..i]) == Cut(flushed, run)
      invariant if run == [] then flushed == [] else lastTag == Last(run).tag
    {
      var t := toks[i];
      RunsStep(toks, i, flushed, run);
      HoldsNothing();
      if t.tag <= lastTag {
        rows, rejected, rowIndex :=
          Flush(cur, curTags, schemaWidth, fieldCount, rows, rejected, rowIndex, flushed, run);
        flushed := Cut(flushed, run);
        cur, curTags, run := map[], [], [];
      }
      HoldsStep(cur, run, t);
      InitLast(run, t);
      cur := cur[t.tag := t.value];
      curTags := curTags + [t.tag];
      lastTag := t.tag;
      run := run + [t];
    }
    assert toks[..|toks|] == toks;
    rows, rejected, rowIndex :=
      Flush(cur, curTags, schemaWidth, fieldCount, rows, rejected, rowIndex, flushed, run);
    CellsHoldNoBreaks(xml, schemaWidth, fieldCount);
  }

  // ------------------------------------------------------------------ what the rows are

  /** A run is refused for exactly these reasons. */
  lemma {:induction false} RefusedExactly(tags: seq<nat>, schemaWidth: nat, fieldCount: Option<nat>)
    ensures RejectionReason(tags, schemaWidth, fieldCount).None? <==>
            && (forall i | 0 <= i < |tags| :: tags[i] >= 1 && (fieldCount.Some? ==> tags[i] <= fieldCount.value))
            && 1 in tags
            && (schemaWidth >= 2 ==> |tags| >= 2)
  {
    FirstBadTagExactly(tags, fieldCount);
  }

  lemma {:induction false} FirstBadTagExactly(tags: seq<nat>, fieldCount: Option<nat>)
    ensures FirstBadTag(tags, fieldCount).None? <==>
            forall i | 0 <= i < |tags| :: tags[i] >= 1 && (fieldCount.Some? ==> tags[i] <= fieldCount.value)
  {
    if tags != [] {
      FirstBadTagExactly(tags[1..], fieldCount);
      assert forall i | 0 <= i < |tags| :: i == 0 || tags[i] == tags[1..][i - 1];
    }
  }

  /** Each run gives one accepted row or one rejection, in order, and nothing else is given. */
  lemma {:induction false} EachRunIsOneRow(runs: seq<seq<Token>>, width: nat, fieldCount: Option<nat>, i: nat)
    requires i < |runs|
    ensures |AcceptedRows(runs, width, fieldCount)| + |Rejections(runs, width, fieldCount)| == |runs|
    ensures var bad := |Rejections(runs[..i], width, fieldCount)|;
            var reason := Verdict(runs[i], width, fieldCount);
            && bad <= i
            && if reason.None?
               then i - bad < |AcceptedRows(runs, width, fieldCount)| &&
                    AcceptedRows(runs, width, fieldCount)[i - bad] == Cells(runs[i], fieldCount)
               else bad < |Rejections(runs, width, fieldCount)| &&
                    Rejections(runs, width, fieldCount)[bad] == Rejection(i, reason.value, Tags(runs[i]))
    decreases |runs|
  {
    var init := Init(runs);
    RowsAndRejectionsAddUp(init, width, fieldCount);
    if i < |init| {
      EachRunIsOneRow(init, width, fieldCount, i);
      assert init[..i] == runs[..i];
    } else {
      assert runs[..i] == init;
    }
  }

  lemma {:induction false} RowsAndRejectionsAddUp(runs: seq<seq<Token>>, width: nat, fieldCount: Option<nat>)
    ensures |AcceptedRows(runs, width, fieldCount)| + |Rejections(runs, width, fieldCount)| == |runs|
  {
    if runs != [] {
      RowsAndRejectionsAddUp(Init(runs), width, fieldCount);
    }
  }

  lemma {:induction false} ValueOfToken(run: seq<Token>, i: nat)
    requires Increasing(run) && i < |run|
    ensures ValueOf(run, run[i].tag) == run[i].value
    decreases |run|
  {
    if i < |run| - 1 {
      ValueOfToken(Init(run), i);
    }
  }

  lemma {:induction false} ValueOfNothing(run: seq<Token>, k: nat)
    requires forall i | 0 <= i < |run| :: run[i].tag != k
    ensures ValueOf(run, k) == ""
  {
    if run != [] {
      ValueOfNothing(Init(run), k);
    }
  }

  /** In an accepted row every token stands in the column of its own tag, and every other column is empty. */
  lemma {:induction false} NoColumnShifts(run: seq<Token>, width: nat, fieldCount: Option<nat>, k: nat)
    requires Increasing(run) && Verdict(run, width, fieldCount).None?
    ensures HasTag(run, k) ==> 1 <= k <= Width(run, fieldCount)
    ensures 1 <= k <= Width(run, fieldCount) ==>
              |Cells(run, fieldCount)| == Width(run, fieldCount) && IsCell(Cells(run, fieldCount)[k - 1], run, k)
  {
    RefusedExactly(Tags(run), width, fieldCount);
    if HasTag(run, k) {
      var i :| 0 <= i < |run| && run[i].tag == k;
      assert Tags(run)[i] == k;
    }
    CellIs(run, k);
  }

  /** `cell` decodes the text of tag `k` of the run, or is empty where the run has no such tag. */
  ghost predicate IsCell(cell: string, run: seq<Token>, k: nat) {
    && (forall i | 0 <= i < |run| && run[i].tag == k :: cell == Trim(UnescapeEntities(run[i].value)))
    && (!HasTag(run, k) ==> cell == "")
  }

  lemma {:induction false} CellIs(run: seq<Token>, k: nat)
    requires Increasing(run)
    ensures IsCell(Cell(run, k), run, k)
  {
    forall i | 0 <= i < |run| && run[i].tag == k
      ensures ValueOf(run, k) == run[i].value
    {
      ValueOfToken(run, i);
    }
    if !HasTag(run, k) {
      ValueOfNothing(run, k);
    }
  }
}
