/**
 * The decoder of the first generation, which records no positions. It
 * comes in two forms: one that also reads quoted leaves, and an earlier
 * one (the parser machine) in which a quote is an error wherever a value
 * may start. Both report only success or failure. Their states are the
 * same stack of open containers as in the position-aware decoder, with
 * nodes built without anchors.
 */
module LegacyDecoder {
  import opened Wrappers
  import opened Nodes
  import opened CodePoints
  import opened StandardDecoder

  /** Whether quoted leaves are part of the syntax. */
  datatype Dialect = WithQuotes | WithoutQuotes

  /** An open struct or list and what it has collected so far. */
  datatype OpenContainer =
    | OpenStructState(values: map<string, Node>, labels: seq<string>, field: string, stage: FieldStage)
    | OpenListState(items: seq<Node>)

  datatype LeafState =
    | UnquotedState(text: string)
    | QuotedState(text: string, escaped: bool)

  datatype State =
    | Active(value: Node, containers: seq<OpenContainer>, leaf: Option<LeafState>)
    | Stuck

  const Begin: State := Active(NullNode, [], None)

  function Inner(cs: seq<OpenContainer>): OpenContainer
    requires cs != []
  {
    cs[|cs| - 1]
  }

  function Outer(cs: seq<OpenContainer>): seq<OpenContainer>
    requires cs != []
  {
    cs[..|cs| - 1]
  }

  /** `push(node)` on the innermost container, or on the root when none is open. */
  function Hand(value: Node, cs: seq<OpenContainer>, node: Node): (r: (Node, seq<OpenContainer>))
    ensures |r.1| == |cs|
    ensures cs == [] ==> r.0 == node
    ensures cs != [] ==> r.0 == value && r.1[..|cs| - 1] == Outer(cs)
    ensures cs != [] && Inner(cs).OpenStructState? ==>
      var c := Inner(cs);
      var put := Put(c.values, c.labels, c.field, node);
      r.1[|cs| - 1] == OpenStructState(put.0, put.1, "", AwaitField)
    ensures cs != [] && Inner(cs).OpenListState? ==>
      r.1[|cs| - 1] == OpenListState(Inner(cs).items + [node])
  {
    if cs == [] then (node, [])
    else match Inner(cs)
      case OpenStructState(values, labels, field, _) =>
        var put := Put(values, labels, field, node);
        (value, Outer(cs) + [OpenStructState(put.0, put.1, "", AwaitField)])
      case OpenListState(items) =>
        (value, Outer(cs) + [OpenListState(items + [node])])
  }

  /** The innermost container (or the root) handles a code point of type `t`. */
  function Accept(d: Dialect, value: Node, cs: seq<OpenContainer>, t: CodePointType, c: char): State {
    if cs == [] then
      match t
      case OpenStruct => Active(value, [OpenStructState(map[], [], "", AwaitField)], None)
      case OpenList => Active(value, [OpenListState([])], None)
      case WhiteSpace => Active(value, [], None)
      case _ => Stuck
    else match Inner(cs)
      case OpenListState(items) =>
        (match t
         case Normal => Active(value, cs, Some(UnquotedState([c])))
         case Quote => if d == WithQuotes then Active(value, cs, Some(QuotedState("", false))) else Stuck
         case OpenStruct => Active(value, cs + [OpenStructState(map[], [], "", AwaitField)], None)
         case OpenList => Active(value, cs + [OpenListState([])], None)
         case CloseList =>
           var h := Hand(value, Outer(cs), ListNode(items, None));
           Active(h.0, h.1, None)
         case WhiteSpace => Active(value, cs, None)
         case _ => Stuck)
      case OpenStructState(values, labels, field, stage) =>
        match stage
        case AwaitField =>
          (match t
           case Normal => Active(value, Outer(cs) + [OpenStructState(values, labels, field + [c], FieldName)], None)
           case CloseStruct =>
             var h := Hand(value, Outer(cs), StructNode(values, labels, None));
             Active(h.0, h.1, None)
           case WhiteSpace => Active(value, cs, None)
           case _ => Stuck)
        case FieldName =>
          (match t
           case Normal => Active(value, Outer(cs) + [OpenStructState(values, labels, field + [c], FieldName)], None)
           case Assignment => Active(value, Outer(cs) + [OpenStructState(values, labels, field, PostAssign)], None)
           case WhiteSpace => Active(value, Outer(cs) + [OpenStructState(values, labels, field, PreAssign)], None)
           case _ => Stuck)
        case PreAssign =>
          (match t
           case Assignment => Active(value, Outer(cs) + [OpenStructState(values, labels, field, PostAssign)], None)
           case _ => Stuck)
        case PostAssign =>
          (match t
           case Normal => Active(value, cs, Some(UnquotedState([c])))
           case Quote => if d == WithQuotes then Active(value, cs, Some(QuotedState("", false))) else Stuck
           case OpenStruct => Active(value, cs + [OpenStructState(map[], [], "", AwaitField)], None)
           case OpenList => Active(value, cs + [OpenListState([])], None)
           case WhiteSpace => Active(value, cs, None)
           case _ => Stuck)
  }

  /** One push of code point `c`. */
  function Push(d: Dialect, s: State, c: char): State {
    match s
    case Stuck => Stuck
    case Active(value, cs, leaf) =>
      var t := Classify(c as int);
      match leaf
      case None => Accept(d, value, cs, t, c)
      case Some(UnquotedState(text)) =>
        if t == Normal then Active(value, cs, Some(UnquotedState(text + [c])))
        else
          var h := Hand(value, cs, LeafNode(text, None));
          Accept(d, h.0, h.1, t, c)
      case Some(QuotedState(text, escaped)) =>
        if escaped then Active(value, cs, Some(QuotedState(text + [c], false)))
        else if t == Quote then
          var h := Hand(value, cs, LeafNode(text, None));
          Active(h.0, h.1, None)
        else if t == Escape then Active(value, cs, Some(QuotedState(text, true)))
        else Active(value, cs, Some(QuotedState(text + [c], false)))
  }

  function PushAll(d: Dialect, text: string): State {
    if text == [] then Begin
    else Push(d, PushAll(d, text[..|text| - 1]), text[|text| - 1])
  }

  /** Success exactly when control is back at the root state. */
  function Outcome(s: State): Result<Node, ()> {
    if s.Active? && s.containers == [] && s.leaf.None? then Ok(s.value) else Err(())
  }

  function LegacyDecode(d: Dialect, text: string): Result<Node, ()> {
    Outcome(PushAll(d, text))
  }

  /** `Decoder.parse`: push every code point in turn, then check that control is at the root. */
  method LegacyParse(d: Dialect, text: string) returns (r: Result<Node, ()>)
    ensures r == LegacyDecode(d, text)
  {
    var s := Begin;
    var i := 0;
    while i < |text|
      invariant 0 <= i <= |text|
      invariant s == PushAll(d, text[..i])
    {
      s := Push(d, s, text[i]);
      assert text[..i + 1][..i] == text[..i];
      i := i + 1;
    }
    assert text[..i] == text;
    r := Outcome(s);
  }
}
