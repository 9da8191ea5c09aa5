/** The text source DirectWrite reads through while it analyses a run of text for font
    fallback (`TextAnalysisSource`). The text is a run of UTF-16 units of `UINT32`
    length; a returned text is a window into it, given by its first index and its
    length, or the null pointer with length 0. */
module TextAnalysis {
  /** `UINT32` arithmetic. */
  const U32: nat := 0x1_0000_0000

  /** The text pointer a method returns: `text_ + start`, or null. */
  datatype Window = Null | At(start: nat)

  /** What the source was built with: the length of its text and its locale name. */
  datatype Source = Source(length: nat, locale: string)
  {
    ghost predicate Valid() { length < U32 }
  }

  /** `GetTextAtPosition`: null and 0 at or past the end; otherwise the rest of the
      text from the position. Always `S_OK`. */
  function TextAtPosition(s: Source, pos: nat): (r: (Window, nat))
    requires s.Valid() && pos < U32
    ensures pos >= s.length ==> r == (Null, 0)
    ensures pos < s.length ==> r.0 == At(pos) && pos + r.1 == s.length && r.1 > 0
  {
    if pos >= s.length then (Null, 0) else (At(pos), s.length - pos)
  }

  /** `GetTextBeforePosition`: null and 0 at the start or past the end; otherwise the
      text from the start up to the position. Always `S_OK`. */
  function TextBeforePosition(s: Source, pos: nat): (r: (Window, nat))
    requires s.Valid() && pos < U32
    ensures pos == 0 || pos > s.length ==> r == (Null, 0)
    ensures 0 < pos <= s.length ==> r == (At(0), pos)
  {
    if pos == 0 || pos > s.length then (Null, 0) else (At(0), pos)
  }

  /** Up to the end of the text, the text before a position and the text at it make up
      the whole text: their lengths sum to the length, and the "before" window ends
      where the "at" window starts. Past the end both are empty. */
  lemma BeforeAndAtPartition(s: Source, pos: nat)
    requires s.Valid() && pos < U32
    ensures pos <= s.length ==> TextBeforePosition(s, pos).1 + TextAtPosition(s, pos).1 == s.length
    ensures 0 < pos < s.length ==>
      TextBeforePosition(s, pos).0.start + TextBeforePosition(s, pos).1 == TextAtPosition(s, pos).0.start
    ensures pos > s.length ==> TextBeforePosition(s, pos) == (Null, 0) && TextAtPosition(s, pos) == (Null, 0)
  {
  }

  /** The length `GetLocaleName` and `GetNumberSubstitution` report: the rest of the
      text, computed in `UINT32` without a bounds check. */
  function RestLength(s: Source, pos: nat): (r: nat)
    requires s.Valid() && pos < U32
    ensures r < U32
    ensures pos <= s.length ==> r == s.length - pos
    ensures pos > s.length ==> r == U32 - (pos - s.length)
  {
    (s.length - pos) % U32
  }

  /** `GetLocaleName`: the source's locale for the rest of the text. Always `S_OK`. */
  function LocaleName(s: Source, pos: nat): (r: (string, nat))
    requires s.Valid() && pos < U32
    ensures r.0 == s.locale && r.1 == RestLength(s, pos)
  {
    (s.locale, RestLength(s, pos))
  }

  /** `GetNumberSubstitution`: no substitution, for the rest of the text. Always `S_OK`. */
  function NumberSubstitution(s: Source, pos: nat): (r: (bool, nat))
    requires s.Valid() && pos < U32
    ensures !r.0 && r.1 == RestLength(s, pos)
  {
    (false, RestLength(s, pos))
  }

  /** Inside the text the locale run agrees with `GetTextAtPosition`; one past the end
      the unchecked subtraction wraps to the largest `UINT32`. */
  lemma LocaleRunWraps(s: Source, pos: nat)
    requires s.Valid() && pos < U32
    ensures pos < s.length ==> LocaleName(s, pos).1 == TextAtPosition(s, pos).1
    ensures pos == s.length + 1 ==> LocaleName(s, pos).1 == U32 - 1
    ensures pos > s.length ==> LocaleName(s, pos).1 > s.length
  {
  }
}
