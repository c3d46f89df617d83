/** The field tags a request may declare (packages/tally/src/tdl.ts), the other half of the parser's contract. */
module TagAlphabet {
  import opened Wrappers
  import opened Decimal
  import Money
  import TagRows

  datatype AlphabetError = NoFields | TooMany(fields: nat) | WrongTag(index: nat)

  /** `F` and the number of the field from 1, at least two digits wide. */
  function FieldTag(i: nat): string {
    "F" + Money.PadStart(NatText(i + 1), 2)
  }

  function FirstWrong(tags: seq<string>, i: nat): Option<AlphabetError>
    requires i <= |tags|
    decreases |tags| - i
  {
    if i == |tags| then None
    else if tags[i] != FieldTag(i) then Some(WrongTag(i))
    else FirstWrong(tags, i + 1)
  }

  function CheckTagAlphabet(tags: seq<string>): Option<AlphabetError> {
    if |tags| == 0 then Some(NoFields)
    else if |tags| > TagRows.MAX_FIELD_TAG then Some(TooMany(|tags|))
    else FirstWrong(tags, 0)
  }

  lemma {:induction false} FirstWrongExactly(tags: seq<string>, i: nat)
    requires i <= |tags|
    ensures FirstWrong(tags, i).None? <==> forall j | i <= j < |tags| :: tags[j] == FieldTag(j)
    decreases |tags| - i
  {
    if i < |tags| {
      FirstWrongExactly(tags, i + 1);
    }
  }

  lemma {:induction false} FieldTagReadsBack(tag: string, i: nat)
    requires i < TagRows.MAX_FIELD_TAG
    ensures tag == FieldTag(i) <==> "<" + tag + ">" == TagRows.StartTag(i + 1)
  {
    Money.PaddedTwo(i + 1);
    var written := "<" + tag + ">";
    assert TagRows.StartTag(i + 1) == "<" + FieldTag(i) + ">";
    assert written[1..|written| - 1] == tag;
    assert TagRows.StartTag(i + 1)[1..4] == FieldTag(i);
  }

  /** A request is let through exactly when the parser reads its k-th field's tag as column k, for every field. */
  lemma {:induction false} TagAlphabetExactly(tags: seq<string>)
    ensures CheckTagAlphabet(tags).None? <==>
            && 1 <= |tags| <= TagRows.MAX_FIELD_TAG
            && forall i | 0 <= i < |tags| :: "<" + tags[i] + ">" == TagRows.StartTag(i + 1)
  {
    if 1 <= |tags| <= TagRows.MAX_FIELD_TAG {
      FirstWrongExactly(tags, 0);
      forall i | 0 <= i < |tags|
        ensures tags[i] == FieldTag(i) <==> "<" + tags[i] + ">" == TagRows.StartTag(i + 1)
      {
        FieldTagReadsBack(tags[i], i);
      }
    }
  }
}
