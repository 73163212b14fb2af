/** UTF-16 text as a sequence of code units. */
module Utf16 {
  type CodeUnit = u: int | 0 <= u < 0x1_0000
  type Text = seq<CodeUnit>

  const AT: CodeUnit := 0x40
  const SPACE: CodeUnit := 0x20

  predicate IsHigh(u: CodeUnit) { 0xD800 <= u <= 0xDBFF }

  predicate IsLow(u: CodeUnit) { 0xDC00 <= u <= 0xDFFF }

  predicate SplitsSurrogatePair(text: Text, offset: int) {
    0 < offset < |text| && IsHigh(text[offset - 1]) && IsLow(text[offset])
  }

  /** Every high surrogate is followed by a low one and every low one preceded by a high one. */
  predicate WellFormed(text: Text) {
    && (forall i :: 0 <= i < |text| && IsHigh(text[i]) ==> i + 1 < |text| && IsLow(text[i + 1]))
    && (forall i :: 0 <= i < |text| && IsLow(text[i]) ==> 0 < i && IsHigh(text[i - 1]))
  }
}
