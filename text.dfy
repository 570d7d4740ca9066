/**
 * Source locations: a `Position` (line and column, both counted from one),
 * a `Region` between two positions, and the older four-number `Anchor`.
 * Kotlin constructors that `require` their arguments become functions that
 * return `None` where the constructor would throw.
 */
module Text {
  import opened Wrappers
  import Decimal

  datatype Position = Position(line: int, column: int)

  /** The two `require` checks of the `Position` constructor. */
  predicate ValidPosition(p: Position) {
    p.line > 0 && p.column > 0
  }

  /** `p` is not after `q` in document order. */
  predicate NotAfter(p: Position, q: Position) {
    p.line < q.line || (p.line == q.line && p.column <= q.column)
  }

  /** `Position(line, column)`: `None` where the constructor's `require` fails. */
  function MakePosition(line: int, column: int): (r: Option<Position>)
    ensures r.Some? <==> line > 0 && column > 0
    ensures r.Some? ==> r.value.line == line && r.value.column == column && ValidPosition(r.value)
  {
    if line > 0 && column > 0 then Some(Position(line, column)) else None
  }

  /** `Position.toString()`: "line,column". */
  function PositionToString(p: Position): string
  {
    Decimal.IntToString(p.line) + "," + Decimal.IntToString(p.column)
  }

  datatype Region = Region(start: Position, end: Position)

  /** `Region.toString()`: one position, a column range on one line, or two positions. */
  function RegionToString(r: Region): string
  {
    if r.start == r.end then PositionToString(r.start)
    else if r.start.line == r.end.line then
      PositionToString(r.start) + "->" + Decimal.IntToString(r.end.column)
    else PositionToString(r.start) + "->" + PositionToString(r.end)
  }

  /** A region whose ends are valid positions, the start not after the end. */
  predicate ValidRegion(r: Region) {
    ValidPosition(r.start) && ValidPosition(r.end) && NotAfter(r.start, r.end)
  }

  datatype Anchor = Anchor(startLine: int, startPos: int, endLine: int, endPos: int)

  /** The `require` checks of the `Anchor` constructor, in the order it makes them. */
  predicate AnchorChecks(startLine: int, startPos: int, endLine: int, endPos: int) {
    startLine > 0 && endLine >= startLine && startPos > 0 &&
    (if startLine == endLine then endPos >= startPos else endPos > 0)
  }

  /** `Anchor(startLine, startPos, endLine, endPos)`: `None` where a `require` fails. */
  function MakeAnchor(startLine: int, startPos: int, endLine: int, endPos: int): (r: Option<Anchor>)
    ensures r.Some? <==> AnchorChecks(startLine, startPos, endLine, endPos)
    ensures r.Some? ==> r.value == Anchor(startLine, startPos, endLine, endPos)
  {
    if AnchorChecks(startLine, startPos, endLine, endPos)
    then Some(Anchor(startLine, startPos, endLine, endPos))
    else None
  }

  /** `Anchor.toString()`. */
  function AnchorToString(a: Anchor): string
  {
    var start := Decimal.IntToString(a.startLine) + "," + Decimal.IntToString(a.startPos);
    if a.startLine == a.endLine then
      if a.startPos == a.endPos then start
      else start + "->" + Decimal.IntToString(a.endPos)
    else start + "->" + Decimal.IntToString(a.endLine) + "," + Decimal.IntToString(a.endPos)
  }

  function AnchorRegion(a: Anchor): Region {
    Region(Position(a.startLine, a.startPos), Position(a.endLine, a.endPos))
  }

  /** The anchor checks accept exactly the valid regions. */
  lemma AnchorChecksAreValidRegion(a: Anchor)
    ensures AnchorChecks(a.startLine, a.startPos, a.endLine, a.endPos) <==> ValidRegion(AnchorRegion(a))
  {
  }

  /** An anchor prints exactly as the region between its two positions. */
  lemma AnchorPrintsAsRegion(a: Anchor)
    ensures AnchorToString(a) == RegionToString(AnchorRegion(a))
  {
  }

  /** The printed forms the tests expect: one position, a column range on one line, and two positions. */
  lemma PrintedExamples()
    ensures PositionToString(Position(3, 5)) == "3,5"
    ensures RegionToString(Region(Position(1, 10), Position(1, 10))) == "1,10"
    ensures RegionToString(Region(Position(1, 10), Position(1, 15))) == "1,10->15"
    ensures RegionToString(Region(Position(1, 10), Position(2, 15))) == "1,10->2,15"
  {
    assert Decimal.IntToString(1) == "1" && Decimal.IntToString(2) == "2";
    assert Decimal.IntToString(3) == "3" && Decimal.IntToString(5) == "5";
    assert Decimal.IntToString(10) == "10" && Decimal.IntToString(15) == "15";
  }

  // ----- Printed forms lose no information -----

  predicate Lacks(s: string, c: char) {
    forall i :: 0 <= i < |s| ==> s[i] != c
  }

  /** Decimal text contains neither ',' nor '>'. */
  lemma IntTextLacks(n: int)
    ensures Lacks(Decimal.IntToString(n), ',') && Lacks(Decimal.IntToString(n), '>')
  {
    var s := Decimal.IntToString(n);
    if n < 0 {
      forall i | 0 <= i < |s| ensures s[i] != ',' && s[i] != '>' {
        if i > 0 { assert s[i] == s[1..][i - 1]; }
      }
    }
  }

  /** Splitting at the first occurrence of a separator is unique. */
  lemma SplitAt(a: string, b: string, c: string, d: string, sep: char)
    requires Lacks(a, sep) && Lacks(c, sep)
    requires a + [sep] + b == c + [sep] + d
    ensures a == c && b == d
  {
    var s := a + [sep] + b;
    var t := c + [sep] + d;
    assert s[|a|] == sep && t[|c|] == sep;
    assert a == s[..|a|] && c == t[..|c|];
    assert b == s[|a| + 1..] && d == t[|c| + 1..];
  }

  lemma PositionTextLacksArrow(p: Position)
    ensures Lacks(PositionToString(p), '>')
  {
    IntTextLacks(p.line);
    IntTextLacks(p.column);
  }

  /** Different positions print differently. */
  lemma PositionToStringInjective(p: Position, q: Position)
    requires PositionToString(p) == PositionToString(q)
    ensures p == q
  {
    IntTextLacks(p.line);
    IntTextLacks(q.line);
    SplitAt(Decimal.IntToString(p.line), Decimal.IntToString(p.column),
            Decimal.IntToString(q.line), Decimal.IntToString(q.column), ',');
    Decimal.IntToStringInjective(p.line, q.line);
    Decimal.IntToStringInjective(p.column, q.column);
  }

  /** The text after the "->" of a printed region. */
  function RegionTail(r: Region): string
    requires r.start != r.end
  {
    if r.start.line == r.end.line then Decimal.IntToString(r.end.column) else PositionToString(r.end)
  }

  lemma RegionSplit(r: Region)
    requires r.start != r.end
    ensures RegionToString(r) == (PositionToString(r.start) + "-") + ['>'] + RegionTail(r)
    ensures Lacks(PositionToString(r.start) + "-", '>')
  {
    PositionTextLacksArrow(r.start);
  }

  lemma ArrowAt(r: Region)
    requires r.start != r.end
    ensures |PositionToString(r.start)| + 1 < |RegionToString(r)|
    ensures RegionToString(r)[|PositionToString(r.start)| + 1] == '>'
  {
  }

  /** Different regions print differently, so the three printed forms never collide. */
  lemma RegionToStringInjective(r: Region, q: Region)
    requires RegionToString(r) == RegionToString(q)
    ensures r == q
  {
    PositionTextLacksArrow(r.start);
    PositionTextLacksArrow(q.start);
    if r.start == r.end && q.start == q.end {
      PositionToStringInjective(r.start, q.start);
    } else if r.start == r.end {
      ArrowAt(q);
      assert false;
    } else if q.start == q.end {
      ArrowAt(r);
      assert false;
    } else {
      RegionSplit(r);
      RegionSplit(q);
      SplitAt(PositionToString(r.start) + "-", RegionTail(r), PositionToString(q.start) + "-", RegionTail(q), '>');
      assert PositionToString(r.start) == (PositionToString(r.start) + "-")[..|PositionToString(r.start)|];
      assert PositionToString(q.start) == (PositionToString(q.start) + "-")[..|PositionToString(q.start)|];
      PositionToStringInjective(r.start, q.start);
      IntTextLacks(r.end.line);
      IntTextLacks(q.end.line);
      if r.start.line == r.end.line && q.start.line == q.end.line {
        Decimal.IntToStringInjective(r.end.column, q.end.column);
      } else if r.start.line == r.end.line {
        var t := PositionToString(q.end);
        assert t[|Decimal.IntToString(q.end.line)|] == ',';
        assert Lacks(Decimal.IntToString(r.end.column), ',') by { IntTextLacks(r.end.column); }
      } else if q.start.line == q.end.line {
        var t := PositionToString(r.end);
        assert t[|Decimal.IntToString(r.end.line)|] == ',';
        assert Lacks(Decimal.IntToString(q.end.column), ',') by { IntTextLacks(q.end.column); }
      } else {
        PositionToStringInjective(r.end, q.end);
      }
    }
  }
}
