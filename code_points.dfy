/**
 * The nine categories a code point can fall in, and `classify`, which maps
 * every code point to exactly one of them.
 */
module CodePoints {

  datatype CodePointType =
    | Normal
    | OpenStruct
    | CloseStruct
    | OpenList
    | CloseList
    | Quote
    | Escape
    | Assignment
    | WhiteSpace

  const OPEN_PARENTHESIS: int := 0x28     // '('
  const CLOSE_PARENTHESIS: int := 0x29    // ')'
  const OPEN_SQUARE_BRACKET: int := 0x5B  // '['
  const CLOSE_SQUARE_BRACKET: int := 0x5D // ']'
  const EQUALS: int := 0x3D               // '='
  const PIPE: int := 0x7C                 // '|'
  const DOUBLE_QUOTE: int := 0x22         // '"'
  const LINE_FEED: int := 0x0A

  /**
   * Java's `Character.isWhitespace`: the controls U+0009 to U+000D and
   * U+001C to U+001F, and the Unicode space, line and paragraph separators
   * other than the non-breaking spaces U+00A0, U+2007 and U+202F.
   */
  predicate IsWhitespace(cp: int) {
    (0x09 <= cp <= 0x0D) || (0x1C <= cp <= 0x20) ||
    cp == 0x1680 || (0x2000 <= cp <= 0x2006) || (0x2008 <= cp <= 0x200A) ||
    cp == 0x2028 || cp == 0x2029 || cp == 0x205F || cp == 0x3000
  }

  /** The one code point of each punctuation category; -1 for the others. */
  function Punctuation(t: CodePointType): int {
    match t
    case OpenStruct => OPEN_PARENTHESIS
    case CloseStruct => CLOSE_PARENTHESIS
    case OpenList => OPEN_SQUARE_BRACKET
    case CloseList => CLOSE_SQUARE_BRACKET
    case Quote => DOUBLE_QUOTE
    case Assignment => EQUALS
    case Escape => PIPE
    case _ => -1
  }

  predicate IsPunctuation(t: CodePointType) {
    t != Normal && t != WhiteSpace
  }

  /** `classify`: whitespace first, then the seven punctuation marks, and everything else is normal. */
  function Classify(cp: int): (t: CodePointType)
    ensures t == WhiteSpace <==> IsWhitespace(cp)
    ensures IsPunctuation(t) ==> cp == Punctuation(t)
  {
    if IsWhitespace(cp) then WhiteSpace
    else if cp == OPEN_PARENTHESIS then OpenStruct
    else if cp == CLOSE_PARENTHESIS then CloseStruct
    else if cp == OPEN_SQUARE_BRACKET then OpenList
    else if cp == CLOSE_SQUARE_BRACKET then CloseList
    else if cp == DOUBLE_QUOTE then Quote
    else if cp == EQUALS then Assignment
    else if cp == PIPE then Escape
    else Normal
  }

  /** A code point is punctuation exactly when it is not whitespace and is one of the seven marks. */
  lemma ClassifiedPunctuation(cp: int)
    ensures IsPunctuation(Classify(cp)) <==> !IsWhitespace(cp) && exists u :: IsPunctuation(u) && cp == Punctuation(u)
  {
    if !IsWhitespace(cp) && exists u :: IsPunctuation(u) && cp == Punctuation(u) {
      var u :| IsPunctuation(u) && cp == Punctuation(u);
      PunctuationInverse(u, cp);
    }
  }

  /** Each punctuation category is the class of its own code point and of no other. */
  lemma PunctuationInverse(t: CodePointType, cp: int)
    requires IsPunctuation(t)
    ensures Classify(Punctuation(t)) == t
    ensures Classify(cp) == t <==> cp == Punctuation(t)
  {
  }

  /** The whitespace code points the tests name, and the normal ones. */
  lemma ClassifiedExamples()
    ensures forall cp :: cp in {0x20, 0x09, 0x0A, 0x0B, 0x0C, 0x0D, 0x1C, 0x1D, 0x1E, 0x1F} ==> Classify(cp) == WhiteSpace
    ensures Classify('a' as int) == Normal && Classify(0x10FFFF) == Normal
  {
  }
}
