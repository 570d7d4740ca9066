/**
 * The position-aware decoder. Each code point is classified and pushed into
 * the current parser state together with its line and column.
 *
 * The Kotlin states form a chain of objects, each holding a reference to
 * the state it will hand its finished node to. Here that chain is a stack
 * of open containers (`frames`, innermost last) below the root, with at
 * most one leaf being read on top of the innermost container; a failed
 * decode is the absorbing `Failed` machine. `Step` is one push; `Run` folds
 * it over the text; `Decode` reads the outcome off the final machine, and
 * the `Parse` method is the driver loop.
 */
module StandardDecoder {
  import opened Wrappers
  import opened Text
  import opened Nodes
  import opened CodePoints

  datatype DecoderError =
    | InvalidSyntax(position: Position, expectedTypes: seq<CodePointType>)
    | EndOfInput(position: Position)

  /** The sub-state a struct is in: between fields, in a field name, before or after the '='. */
  datatype FieldStage = AwaitField | FieldName | PreAssign | PostAssign

  /** An open struct or list: where it started and what it has collected so far. */
  datatype Frame =
    | StructFrame(start: Position, values: map<string, Node>, labels: seq<string>, field: string, stage: FieldStage)
    | ListFrame(start: Position, items: seq<Node>)

  /** A leaf being read: unquoted (with the position of its last code point) or quoted. */
  datatype Leaf =
    | Unquoted(start: Position, end: Position, text: string)
    | Quoted(start: Position, text: string, escaped: bool)

  datatype Machine =
    | Running(value: Node, frames: seq<Frame>, leaf: Option<Leaf>)
    | Failed(error: DecoderError)

  /** The categories each state accepts, in the order its error reports them. */
  const ROOT_EXPECTED: seq<CodePointType> := [OpenStruct, OpenList, WhiteSpace]
  const STRUCT_EXPECTED: seq<CodePointType> := [Normal, CloseStruct, WhiteSpace]
  const FIELD_NAME_EXPECTED: seq<CodePointType> := [Normal, Assignment, WhiteSpace]
  const PRE_ASSIGN_EXPECTED: seq<CodePointType> := [Assignment, WhiteSpace]
  const POST_ASSIGN_EXPECTED: seq<CodePointType> := [Normal, Quote, OpenStruct, OpenList, WhiteSpace]
  const LIST_EXPECTED: seq<CodePointType> := [Normal, Quote, OpenStruct, OpenList, CloseList, WhiteSpace]

  /** Only the root state, whose document value is still the null node. */
  const Initial: Machine := Running(NullNode, [], None)

  function Top(frames: seq<Frame>): Frame
    requires frames != []
  {
    frames[|frames| - 1]
  }

  function Below(frames: seq<Frame>): seq<Frame>
    requires frames != []
  {
    frames[..|frames| - 1]
  }

  function NewStruct(start: Position): Frame {
    StructFrame(start, map[], [], "", AwaitField)
  }

  /**
   * `push(node)` on the innermost container: the root takes the node as the
   * document value, a struct stores it under the field name and clears the
   * name, a list appends it. Control is back at that container's top level.
   */
  function Deliver(value: Node, frames: seq<Frame>, node: Node): (r: (Node, seq<Frame>))
    ensures |r.1| == |frames|
    ensures frames == [] ==> r.0 == node
    ensures frames != [] ==> r.0 == value && r.1[..|frames| - 1] == Below(frames)
    ensures frames != [] && Top(frames).StructFrame? ==>
      var f := Top(frames);
      var put := Put(f.values, f.labels, f.field, node);
      r.1[|frames| - 1] == StructFrame(f.start, put.0, put.1, "", AwaitField)
    ensures frames != [] && Top(frames).ListFrame? ==>
      r.1[|frames| - 1] == ListFrame(Top(frames).start, Top(frames).items + [node])
  {
    if frames == [] then (node, [])
    else match Top(frames)
      case StructFrame(start, values, labels, field, _) =>
        var put := Put(values, labels, field, node);
        (value, Below(frames) + [StructFrame(start, put.0, put.1, "", AwaitField)])
      case ListFrame(start, items) =>
        (value, Below(frames) + [ListFrame(start, items + [node])])
  }

  function Fail(pos: Position, expected: seq<CodePointType>): Machine {
    Failed(InvalidSyntax(pos, expected))
  }

  /** The innermost container (the root when no frame is open) handles a code point of type `t` at `pos`. */
  function ContainerPush(value: Node, frames: seq<Frame>, t: CodePointType, c: char, pos: Position): Machine
  {
    if frames == [] then
      match t
      case OpenStruct => Running(value, [NewStruct(pos)], None)
      case OpenList => Running(value, [ListFrame(pos, [])], None)
      case WhiteSpace => Running(value, [], None)
      case _ => Fail(pos, ROOT_EXPECTED)
    else match Top(frames)
      case ListFrame(start, items) =>
        (match t
         case Normal => Running(value, frames, Some(Unquoted(pos, pos, [c])))
         case Quote => Running(value, frames, Some(Quoted(pos, "", false)))
         case OpenStruct => Running(value, frames + [NewStruct(pos)], None)
         case OpenList => Running(value, frames + [ListFrame(pos, [])], None)
         case CloseList =>
           var d := Deliver(value, Below(frames), ListNode(items, Some(Region(start, pos))));
           Running(d.0, d.1, None)
         case WhiteSpace => Running(value, frames, None)
         case _ => Fail(pos, LIST_EXPECTED))
      case StructFrame(start, values, labels, field, stage) =>
        match stage
        case AwaitField =>
          (match t
           case Normal => Running(value, Below(frames) + [StructFrame(start, values, labels, field + [c], FieldName)], None)
           case CloseStruct =>
             var d := Deliver(value, Below(frames), StructNode(values, labels, Some(Region(start, pos))));
             Running(d.0, d.1, None)
           case WhiteSpace => Running(value, frames, None)
           case _ => Fail(pos, STRUCT_EXPECTED))
        case FieldName =>
          (match t
           case Normal => Running(value, Below(frames) + [StructFrame(start, values, labels, field + [c], FieldName)], None)
           case Assignment => Running(value, Below(frames) + [StructFrame(start, values, labels, field, PostAssign)], None)
           case WhiteSpace => Running(value, Below(frames) + [StructFrame(start, values, labels, field, PreAssign)], None)
           case _ => Fail(pos, FIELD_NAME_EXPECTED))
        case PreAssign =>
          (match t
           case Assignment => Running(value, Below(frames) + [StructFrame(start, values, labels, field, PostAssign)], None)
           case WhiteSpace => Running(value, frames, None)
           case _ => Fail(pos, PRE_ASSIGN_EXPECTED))
        case PostAssign =>
          (match t
           case Normal => Running(value, frames, Some(Unquoted(pos, pos, [c])))
           case Quote => Running(value, frames, Some(Quoted(pos, "", false)))
           case OpenStruct => Running(value, frames + [NewStruct(pos)], None)
           case OpenList => Running(value, frames + [ListFrame(pos, [])], None)
           case WhiteSpace => Running(value, frames, None)
           case _ => Fail(pos, POST_ASSIGN_EXPECTED))
  }

  /**
   * One push of code point `c`, read at `pos`. An unquoted leaf takes normal
   * code points and extends its end; anything else finishes it and is then
   * pushed again into the container. A quoted leaf takes everything up to an
   * unescaped quote, which finishes it; '|' makes the next code point literal.
   */
  function Step(m: Machine, c: char, pos: Position): Machine
  {
    match m
    case Failed(_) => m
    case Running(value, frames, leaf) =>
      var t := Classify(c as int);
      match leaf
      case None => ContainerPush(value, frames, t, c, pos)
      case Some(Unquoted(start, end, text)) =>
        if t == Normal then Running(value, frames, Some(Unquoted(start, pos, text + [c])))
        else
          var d := Deliver(value, frames, LeafNode(text, Some(Region(start, end))));
          ContainerPush(d.0, d.1, t, c, pos)
      case Some(Quoted(start, text, escaped)) =>
        if escaped then Running(value, frames, Some(Quoted(start, text + [c], false)))
        else if t == Quote then
          var d := Deliver(value, frames, LeafNode(text, Some(Region(start, pos))));
          Running(d.0, d.1, None)
        else if t == Escape then Running(value, frames, Some(Quoted(start, text, true)))
        else Running(value, frames, Some(Quoted(start, text + [c], false)))
  }

  /** The cursor after reading `c`: a line feed moves to column 0 of the next line, anything else one column on. */
  function Advance(p: Position, c: char): (q: Position)
    ensures p.line <= q.line
    ensures c as int != LINE_FEED ==> q.line == p.line && q.column == p.column + 1
    ensures c as int == LINE_FEED ==> q == Position(p.line + 1, 0)
  {
    if c as int == LINE_FEED then Position(p.line + 1, 0) else Position(p.line, p.column + 1)
  }

  /** The cursor before the first code point. */
  const Start: Position := Position(1, 0)

  /** The machine and the cursor after the whole text. */
  function Run(text: string): (Machine, Position)
  {
    if text == [] then (Initial, Start)
    else
      var prev := Run(text[..|text| - 1]);
      var pos := Advance(prev.1, text[|text| - 1]);
      (Step(prev.0, text[|text| - 1], pos), pos)
  }

  /**
   * The outcome once the text is exhausted: the document value when control
   * is back at the root, otherwise an end-of-input error at the final cursor
   * (column 1 if the text ended with a line feed).
   */
  function Finish(m: Machine, cursor: Position): Result<Node, DecoderError> {
    match m
    case Failed(e) => Err(e)
    case Running(value, frames, leaf) =>
      if frames == [] && leaf.None? then Ok(value)
      else Err(EndOfInput(Position(cursor.line, if cursor.column < 1 then 1 else cursor.column)))
  }

  function Decode(text: string): Result<Node, DecoderError> {
    var r := Run(text);
    Finish(r.0, r.1)
  }

  /** `Decoder.parse`: classify and push every code point in turn, then read off the result. */
  method Parse(text: string) returns (r: Result<Node, DecoderError>)
    ensures r == Decode(text)
  {
    var m := Initial;
    var cursor := Start;
    var i := 0;
    while i < |text|
      invariant 0 <= i <= |text|
      invariant (m, cursor) == Run(text[..i])
    {
      cursor := Advance(cursor, text[i]);
      m := Step(m, text[i], cursor);
      assert text[..i + 1][..i] == text[..i];
      i := i + 1;
    }
    assert text[..i] == text;
    r := Finish(m, cursor);
  }
}
