/**
 * The first classifier: four categories, and whitespace limited to space,
 * tab, line feed and carriage return.
 */
module LegacyCodePoints {
  import CodePoints

  datatype CodePointType = Normal | OpenParenthesis | CloseParenthesis | WhiteSpace

  const SPACE: int := 0x20
  const TAB: int := 0x09
  const NEW_LINE: int := 0x0A
  const CARRIAGE_RETURN: int := 0x0D

  /** `classify`: the two parentheses, four whitespace code points, and everything else normal. */
  function Classify(cp: int): (t: CodePointType)
    ensures t == OpenParenthesis <==> cp == CodePoints.OPEN_PARENTHESIS
    ensures t == CloseParenthesis <==> cp == CodePoints.CLOSE_PARENTHESIS
    ensures t == WhiteSpace <==> cp in {SPACE, TAB, NEW_LINE, CARRIAGE_RETURN}
  {
    if cp == CodePoints.OPEN_PARENTHESIS then OpenParenthesis
    else if cp == CodePoints.CLOSE_PARENTHESIS then CloseParenthesis
    else if cp == SPACE then WhiteSpace
    else if cp == TAB then WhiteSpace
    else if cp == NEW_LINE then WhiteSpace
    else if cp == CARRIAGE_RETURN then WhiteSpace
    else Normal
  }

  /**
   * Against the nine-category classifier: the parentheses agree, the old
   * whitespace is a strict subset of the new, and every code point the old
   * one calls normal is normal, whitespace or one of the five marks it did
   * not know.
   */
  lemma RefinedByStandard(cp: int)
    ensures Classify(cp) == OpenParenthesis <==> CodePoints.Classify(cp) == CodePoints.OpenStruct
    ensures Classify(cp) == CloseParenthesis <==> CodePoints.Classify(cp) == CodePoints.CloseStruct
    ensures Classify(cp) == WhiteSpace ==> CodePoints.Classify(cp) == CodePoints.WhiteSpace
    ensures Classify(cp) == Normal ==>
      CodePoints.Classify(cp) !in {CodePoints.OpenStruct, CodePoints.CloseStruct}
    ensures Classify(0x0B) == Normal && CodePoints.Classify(0x0B) == CodePoints.WhiteSpace
    ensures Classify(CodePoints.OPEN_SQUARE_BRACKET) == Normal && Classify(CodePoints.DOUBLE_QUOTE) == Normal
  {
  }
}
