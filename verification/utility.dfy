/** `Utility`: clean-up of the XML label templates the label SDK produces. */
module Utility {

  import opened Text

  /** ZERO WIDTH NO-BREAK SPACE, which the label SDK writes at the head of its XML. */
  const ZeroWidthNoBreak: char := '\U{FEFF}'

  /** `RemoveZeroWidthNoBreakCharacter`: each U+FEFF becomes a space and the
      text is trimmed; text without one is left exactly as it was. */
  function RemoveZeroWidthNoBreakCharacter(xml: string): (r: string)
    ensures ZeroWidthNoBreak !in xml ==> r == xml
    ensures ZeroWidthNoBreak !in r
    ensures |r| <= |xml|
    // with a U+FEFF present: the text with spaces in its place, cut of white space at both ends
    ensures ZeroWidthNoBreak in xml ==> TrimmedSlice(ReplaceChar(xml, ZeroWidthNoBreak, ' '), r)
  {
    if ZeroWidthNoBreak in xml then
      var spaced := ReplaceChar(xml, ZeroWidthNoBreak, ' ');
      var r := Trim(spaced);
      NoZeroWidthAfterReplace(xml, spaced);
      SliceKeepsAbsence(spaced, r);
      r
    else xml
  }

  lemma NoZeroWidthAfterReplace(xml: string, spaced: string)
    requires spaced == ReplaceChar(xml, ZeroWidthNoBreak, ' ')
    ensures ZeroWidthNoBreak !in spaced
  {
    forall k | 0 <= k < |spaced|
      ensures spaced[k] != ZeroWidthNoBreak
    {
    }
  }

  /** A slice holds no character its whole does not. */
  lemma SliceKeepsAbsence(s: string, r: string)
    requires ZeroWidthNoBreak !in s
    requires TrimmedSlice(s, r)
    ensures ZeroWidthNoBreak !in r
  {
    var i :| SliceAt(s, r, i);
    forall k | 0 <= k < |r|
      ensures r[k] != ZeroWidthNoBreak
    {
      assert r[k] == s[i + k];
    }
  }

  /** Cleaning twice is cleaning once. */
  lemma RemoveIsIdempotent(xml: string)
    ensures RemoveZeroWidthNoBreakCharacter(RemoveZeroWidthNoBreakCharacter(xml))
            == RemoveZeroWidthNoBreakCharacter(xml)
  {
  }

  /** The marker at the head of a template goes, with the white space it
      leaves behind. */
  lemma LeadingMarkerRemoved(body: string)
    requires |body| > 0 && !IsWhiteSpace(body[0]) && !IsWhiteSpace(body[|body| - 1])
    requires ZeroWidthNoBreak !in body
    ensures RemoveZeroWidthNoBreakCharacter([ZeroWidthNoBreak] + body) == body
  {
    var xml := [ZeroWidthNoBreak] + body;
    var spaced := ReplaceChar(xml, ZeroWidthNoBreak, ' ');
    assert spaced == [' '] + body;
    SpaceThenBodyTrims(body);
  }

  lemma SpaceThenBodyTrims(body: string)
    requires |body| > 0 && !IsWhiteSpace(body[0]) && !IsWhiteSpace(body[|body| - 1])
    ensures Trim([' '] + body) == body
  {
    var s := [' '] + body;
    assert s[1..] == body;
    assert TrimStart(s) == TrimStart(body);
    assert TrimStart(body) == body;
  }
}
