/**
 * What the position-aware decoder guarantees: whitespace is accepted in
 * every state, so no error is ever reported on a line feed; every error
 * position and every anchor is a valid position or region; struct labels
 * are never empty; an error lists exactly the categories the failing state
 * would have accepted; and once failed, a decode stays failed.
 */
module StandardDecoderProperties {
  import opened Wrappers
  import opened Text
  import opened Nodes
  import opened CodePoints
  import opened StandardDecoder

  // ----- Whitespace and errors -----

  /** No state rejects whitespace. */
  lemma WhitespaceNeverFails(m: Machine, c: char, pos: Position)
    requires m.Running? && IsWhitespace(c as int)
    ensures Step(m, c, pos).Running?
  {
  }

  /** A push that fails reports a syntax error at the position of the code point, which is not whitespace. */
  lemma FailureIsSyntaxErrorHere(m: Machine, c: char, pos: Position)
    requires m.Running? && Step(m, c, pos).Failed?
    ensures Step(m, c, pos).error.InvalidSyntax? && Step(m, c, pos).error.position == pos
    ensures !IsWhitespace(c as int) && c as int != LINE_FEED
  {
  }

  // ----- The machine invariant -----

  /**
   * A node as the decoder builds it: every leaf, struct and list carries a
   * valid anchor, no null node sits inside a container, struct labels are
   * non-empty and kept in insertion order.
   */
  ghost predicate Decoded(n: Node) {
    match n
    case NullNode => true
    case LeafNode(_, anchor) => anchor.Some? && ValidRegion(anchor.value)
    case StructNode(values, labels, anchor) =>
      anchor.Some? && ValidRegion(anchor.value) && Ordered(values, labels) &&
      forall k :: k in values ==> k != "" && !values[k].NullNode? && Decoded(values[k])
    case ListNode(items, anchor) =>
      anchor.Some? && ValidRegion(anchor.value) &&
      forall i :: 0 <= i < |items| ==> !items[i].NullNode? && Decoded(items[i])
  }

  ghost predicate GoodChild(n: Node) {
    !n.NullNode? && Decoded(n)
  }

  /** An open container started at a valid position no later than the cursor and holds decoded children. */
  ghost predicate GoodFrame(f: Frame, cursor: Position) {
    ValidPosition(f.start) && NotAfter(f.start, cursor) &&
    match f
    case StructFrame(_, values, labels, field, stage) =>
      Ordered(values, labels) && (forall k :: k in values ==> k != "" && GoodChild(values[k])) &&
      (stage == AwaitField <==> field == "")
    case ListFrame(_, items) => forall i :: 0 <= i < |items| ==> GoodChild(items[i])
  }

  /** A leaf being read started at a valid position; an unquoted one ends at a valid position no later than the cursor. */
  ghost predicate GoodLeaf(l: Leaf, cursor: Position) {
    ValidPosition(l.start) && NotAfter(l.start, cursor) &&
    (l.Unquoted? ==> ValidPosition(l.end) && NotAfter(l.start, l.end) && NotAfter(l.end, cursor))
  }

  /** A container with something open above it is a list, or a struct that has seen its '='. */
  ghost predicate AwaitingChild(f: Frame) {
    f.StructFrame? ==> f.stage == PostAssign
  }

  ghost predicate GoodFrames(frames: seq<Frame>, cursor: Position) {
    (forall i :: 0 <= i < |frames| ==> GoodFrame(frames[i], cursor)) &&
    (forall i :: 0 <= i < |frames| - 1 ==> AwaitingChild(frames[i]))
  }

  ghost predicate Inv(m: Machine, cursor: Position) {
    cursor.line >= 1 && cursor.column >= 0 &&
    match m
    case Failed(e) => ValidPosition(e.position)
    case Running(value, frames, leaf) =>
      Decoded(value) && GoodFrames(frames, cursor) &&
      (leaf.Some? ==> frames != [] && AwaitingChild(Top(frames)) && GoodLeaf(leaf.value, cursor))
  }

  lemma NotAfterTransitive(a: Position, b: Position, c: Position)
    requires NotAfter(a, b) && NotAfter(b, c)
    ensures NotAfter(a, c)
  {
  }

  /** Moving the cursor forward keeps the invariant. */
  lemma InvLater(m: Machine, p: Position, q: Position)
    requires Inv(m, p) && NotAfter(p, q) && q.column >= 0
    ensures Inv(m, q)
  {
    if m.Running? {
      forall i | 0 <= i < |m.frames| ensures GoodFrame(m.frames[i], q) {
        NotAfterTransitive(m.frames[i].start, p, q);
      }
      if m.leaf.Some? {
        NotAfterTransitive(m.leaf.value.start, p, q);
        if m.leaf.value.Unquoted? {
          NotAfterTransitive(m.leaf.value.end, p, q);
        }
      }
    }
  }

  /** Handing a decoded node to the innermost container keeps every frame good. */
  lemma DeliverKeepsFrames(value: Node, frames: seq<Frame>, node: Node, cursor: Position)
    requires Decoded(value) && GoodFrames(frames, cursor) && GoodChild(node)
    requires frames != [] ==> AwaitingChild(Top(frames))
    ensures Decoded(Deliver(value, frames, node).0)
    ensures GoodFrames(Deliver(value, frames, node).1, cursor)
  {
    if frames != [] {
      var d := Deliver(value, frames, node);
      match Top(frames)
      case StructFrame(start, values, labels, field, stage) =>
        var put := Put(values, labels, field, node);
        assert d.1 == Below(frames) + [StructFrame(start, put.0, put.1, "", AwaitField)];
        assert GoodFrame(d.1[|frames| - 1], cursor);
      case ListFrame(start, items) =>
        assert d.1 == Below(frames) + [ListFrame(start, items + [node])];
        assert GoodFrame(d.1[|frames| - 1], cursor);
    }
  }

  /** A finished struct or list made from a good frame closed at a valid later position is a good child. */
  lemma ClosedFrameIsGood(f: Frame, pos: Position)
    requires GoodFrame(f, pos) && ValidPosition(pos)
    ensures f.StructFrame? ==> GoodChild(StructNode(f.values, f.labels, Some(Region(f.start, pos))))
    ensures f.ListFrame? ==> GoodChild(ListNode(f.items, Some(Region(f.start, pos))))
  {
  }

  /** Opening a container above one that awaits a child keeps every frame good. */
  lemma OpenKeepsFrames(frames: seq<Frame>, f: Frame, pos: Position)
    requires GoodFrames(frames, pos) && GoodFrame(f, pos)
    requires frames != [] ==> AwaitingChild(Top(frames))
    ensures GoodFrames(frames + [f], pos)
  {
  }

  /** Replacing the innermost container by another good one keeps every frame good. */
  lemma ReplaceKeepsFrames(frames: seq<Frame>, f: Frame, pos: Position)
    requires frames != [] && GoodFrames(frames, pos) && GoodFrame(f, pos)
    ensures GoodFrames(Below(frames) + [f], pos)
  {
  }

  /** Closing the innermost container hands a good child to the one below. */
  lemma CloseKeepsInv(value: Node, frames: seq<Frame>, pos: Position)
    requires frames != [] && Decoded(value) && GoodFrames(frames, pos) && ValidPosition(pos)
    ensures Top(frames).ListFrame? ==>
      var d := Deliver(value, Below(frames), ListNode(Top(frames).items, Some(Region(Top(frames).start, pos))));
      Inv(Running(d.0, d.1, None), pos)
    ensures Top(frames).StructFrame? ==>
      var d := Deliver(value, Below(frames), StructNode(Top(frames).values, Top(frames).labels, Some(Region(Top(frames).start, pos))));
      Inv(Running(d.0, d.1, None), pos)
  {
    var top := Top(frames);
    ClosedFrameIsGood(top, pos);
    assert GoodFrames(Below(frames), pos);
    assert Below(frames) != [] ==> AwaitingChild(Top(Below(frames)));
    if top.ListFrame? {
      DeliverKeepsFrames(value, Below(frames), ListNode(top.items, Some(Region(top.start, pos))), pos);
    } else {
      DeliverKeepsFrames(value, Below(frames), StructNode(top.values, top.labels, Some(Region(top.start, pos))), pos);
    }
  }

  /** The innermost container's response keeps the invariant. */
  lemma ContainerPushKeepsInv(value: Node, frames: seq<Frame>, t: CodePointType, c: char, pos: Position)
    requires Decoded(value) && GoodFrames(frames, pos) && pos.line >= 1 && pos.column >= 0
    requires t != WhiteSpace ==> ValidPosition(pos)
    ensures Inv(ContainerPush(value, frames, t, c, pos), pos)
  {
    if frames == [] {
      if t == OpenStruct || t == OpenList {
        OpenKeepsFrames(frames, if t == OpenStruct then NewStruct(pos) else ListFrame(pos, []), pos);
      }
    } else if Top(frames).ListFrame? {
      ListPushKeepsInv(value, frames, t, c, pos);
    } else {
      StructPushKeepsInv(value, frames, t, c, pos);
    }
  }

  lemma ListPushKeepsInv(value: Node, frames: seq<Frame>, t: CodePointType, c: char, pos: Position)
    requires frames != [] && Top(frames).ListFrame?
    requires Decoded(value) && GoodFrames(frames, pos) && pos.line >= 1 && pos.column >= 0
    requires t != WhiteSpace ==> ValidPosition(pos)
    ensures Inv(ContainerPush(value, frames, t, c, pos), pos)
  {
    match t
    case OpenStruct => OpenKeepsFrames(frames, NewStruct(pos), pos);
    case OpenList => OpenKeepsFrames(frames, ListFrame(pos, []), pos);
    case CloseList => CloseKeepsInv(value, frames, pos);
    case _ =>
  }

  lemma StructPushKeepsInv(value: Node, frames: seq<Frame>, t: CodePointType, c: char, pos: Position)
    requires frames != [] && Top(frames).StructFrame?
    requires Decoded(value) && GoodFrames(frames, pos) && pos.line >= 1 && pos.column >= 0
    requires t != WhiteSpace ==> ValidPosition(pos)
    ensures Inv(ContainerPush(value, frames, t, c, pos), pos)
  {
    var top := Top(frames);
    if top.stage == AwaitField {
      if t == Normal {
        ReplaceKeepsFrames(frames, top.(field := top.field + [c], stage := FieldName), pos);
      } else if t == CloseStruct {
        CloseKeepsInv(value, frames, pos);
      }
    } else {
      InFieldKeepsInv(value, frames, t, c, pos);
    }
  }

  lemma InFieldKeepsInv(value: Node, frames: seq<Frame>, t: CodePointType, c: char, pos: Position)
    requires frames != [] && Top(frames).StructFrame? && Top(frames).stage != AwaitField
    requires Decoded(value) && GoodFrames(frames, pos) && pos.line >= 1 && pos.column >= 0
    requires t != WhiteSpace ==> ValidPosition(pos)
    ensures Inv(ContainerPush(value, frames, t, c, pos), pos)
  {
    var top := Top(frames);
    match top.stage
    case FieldName =>
      if t == Normal {
        ReplaceKeepsFrames(frames, top.(field := top.field + [c], stage := FieldName), pos);
      } else if t == Assignment {
        ReplaceKeepsFrames(frames, top.(stage := PostAssign), pos);
      } else if t == WhiteSpace {
        ReplaceKeepsFrames(frames, top.(stage := PreAssign), pos);
      }
    case PreAssign =>
      if t == Assignment {
        ReplaceKeepsFrames(frames, top.(stage := PostAssign), pos);
      }
    case PostAssign =>
      if t == OpenStruct {
        OpenKeepsFrames(frames, NewStruct(pos), pos);
      } else if t == OpenList {
        OpenKeepsFrames(frames, ListFrame(pos, []), pos);
      }
  }

  /** One push keeps the invariant, with the cursor moved past the code point. */
  lemma StepKeepsInv(m: Machine, c: char, p: Position)
    requires Inv(m, p)
    ensures Inv(Step(m, c, Advance(p, c)), Advance(p, c))
  {
    var q := Advance(p, c);
    InvLater(m, p, q);
    if m.Running? {
      var t := Classify(c as int);
      assert t != WhiteSpace ==> ValidPosition(q);
      match m.leaf
      case None =>
        ContainerPushKeepsInv(m.value, m.frames, t, c, q);
      case Some(Unquoted(start, end, text)) =>
        if t != Normal {
          var node := LeafNode(text, Some(Region(start, end)));
          DeliverKeepsFrames(m.value, m.frames, node, q);
          var d := Deliver(m.value, m.frames, node);
          ContainerPushKeepsInv(d.0, d.1, t, c, q);
        }
      case Some(Quoted(start, text, escaped)) =>
        if !escaped && t == Quote {
          DeliverKeepsFrames(m.value, m.frames, LeafNode(text, Some(Region(start, q))), q);
        }
    }
  }

  /** The invariant holds after any text. */
  lemma {:induction false} RunKeepsInv(text: string)
    ensures Inv(Run(text).0, Run(text).1)
  {
    if text != [] {
      RunKeepsInv(text[..|text| - 1]);
      StepKeepsInv(Run(text[..|text| - 1]).0, text[|text| - 1], Run(text[..|text| - 1]).1);
    }
  }

  /**
   * A decode yields a tree whose every anchor is a valid region and whose
   * struct labels are non-empty and in order, or an error at a valid
   * position; in particular never at column 0 after a line feed.
   */
  lemma DecodeIsWellFormed(text: string)
    ensures Decode(text).Ok? ==> Decoded(Decode(text).value)
    ensures Decode(text).Err? ==> ValidPosition(Decode(text).error.position)
  {
    RunKeepsInv(text);
  }

  // ----- Failure, blank text and expected categories -----

  /** `Run` of a longer text is one more push on `Run` of its prefix. */
  lemma RunSnoc(s: string, c: char)
    ensures Run(s + [c]) == (Step(Run(s).0, c, Advance(Run(s).1, c)), Advance(Run(s).1, c))
  {
    assert (s + [c])[..|s|] == s;
  }

  /** A code point that is not normal ends an unquoted leaf and is then pushed into the container. */
  lemma StepEndsUnquoted(value: Node, frames: seq<Frame>, start: Position, end: Position, text: string, c: char, pos: Position)
    requires Classify(c as int) != Normal
    ensures var d := Deliver(value, frames, LeafNode(text, Some(Region(start, end))));
      Step(Running(value, frames, Some(Unquoted(start, end, text))), c, pos) == ContainerPush(d.0, d.1, Classify(c as int), c, pos)
  {
  }

  // ----- Quoted leaves -----

  /** How a writer puts `c` between quotes: a quote or a pipe is preceded by the escape '|'. */
  function EscapeOne(c: char): string {
    if c == '"' || c == '|' then ['|', c] else [c]
  }

  /** The text `s` as it must appear between the quotes of a quoted leaf. */
  function Escaped(s: string): string {
    if s == [] then [] else Escaped(s[..|s| - 1]) + EscapeOne(s[|s| - 1])
  }

  /** Inside a quoted leaf, a code point other than a quote or a pipe is appended as it is. */
  lemma QuotedAppends(value: Node, frames: seq<Frame>, start: Position, text: string, c: char, pos: Position)
    requires c != '"' && c != '|'
    ensures Step(Running(value, frames, Some(Quoted(start, text, false))), c, pos) == Running(value, frames, Some(Quoted(start, text + [c], false)))
  {
    ClassifiedQuoteOrEscape(c);
  }

  /** Inside a quoted leaf, the pipe is not kept: it makes the next code point literal. */
  lemma EscapeStarts(value: Node, frames: seq<Frame>, start: Position, text: string, pos: Position)
    ensures Step(Running(value, frames, Some(Quoted(start, text, false))), '|', pos) == Running(value, frames, Some(Quoted(start, text, true)))
  {
    assert Classify('|' as int) == Escape;
  }

  /** After the escape '|', any code point at all, even a quote or a line feed, is kept literally. */
  lemma EscapedIsLiteral(value: Node, frames: seq<Frame>, start: Position, text: string, c: char, pos: Position)
    ensures Step(Running(value, frames, Some(Quoted(start, text, true))), c, pos) == Running(value, frames, Some(Quoted(start, text + [c], false)))
  {
  }

  /** An unescaped quote is consumed: the leaf is handed to its container, anchored from quote to quote. */
  lemma QuoteClosesLeaf(value: Node, frames: seq<Frame>, start: Position, text: string, pos: Position)
    ensures var d := Deliver(value, frames, LeafNode(text, Some(Region(start, pos))));
      Step(Running(value, frames, Some(Quoted(start, text, false))), '"', pos) == Running(d.0, d.1, None)
  {
    assert Classify('"' as int) == Quote;
  }

  /** Reading the escaped form of `s` inside a quoted leaf adds exactly `s` to its text. */
  lemma {:induction false} QuotedTextRead(u: string, s: string, value: Node, frames: seq<Frame>, start: Position, text: string)
    requires Run(u).0 == Running(value, frames, Some(Quoted(start, text, false)))
    ensures Run(u + Escaped(s)).0 == Running(value, frames, Some(Quoted(start, text + s, false)))
    decreases |s|
  {
    if s == [] {
      assert u + Escaped(s) == u;
      assert text + s == text;
    } else {
      var p := s[..|s| - 1];
      QuotedTextRead(u, p, value, frames, start, text);
      assert s == p + [s[|s| - 1]];
      QuotedTextStep(u, p, s[|s| - 1], value, frames, start, text);
    }
  }

  /** One more code point of the text, escaped, read after the first part of it. */
  lemma QuotedTextStep(u: string, p: string, c: char, value: Node, frames: seq<Frame>, start: Position, text: string)
    requires Run(u + Escaped(p)).0 == Running(value, frames, Some(Quoted(start, text + p, false)))
    ensures Run(u + Escaped(p + [c])).0 == Running(value, frames, Some(Quoted(start, text + (p + [c]), false)))
  {
    EscapedSnoc(u, p, c);
    assert text + (p + [c]) == (text + p) + [c];
    QuotedCharRead(u + Escaped(p), c, value, frames, start, text + p);
  }

  /** Escaping works code point by code point. */
  lemma EscapedSnoc(u: string, p: string, c: char)
    ensures u + Escaped(p + [c]) == (u + Escaped(p)) + EscapeOne(c)
  {
    assert (p + [c])[..|p|] == p;
  }

  /** Reading the escaped form of one code point inside a quoted leaf appends that code point. */
  lemma QuotedCharRead(u: string, c: char, value: Node, frames: seq<Frame>, start: Position, text: string)
    requires Run(u).0 == Running(value, frames, Some(Quoted(start, text, false)))
    ensures Run(u + EscapeOne(c)).0 == Running(value, frames, Some(Quoted(start, text + [c], false)))
  {
    if c == '"' || c == '|' {
      QuotedEscapedStep(u, c, value, frames, start, text);
    } else {
      QuotedOrdinaryStep(u, c, value, frames, start, text);
    }
  }

  /** Inside a quoted leaf, a code point other than a quote or a pipe is appended as it is. */
  lemma QuotedOrdinaryStep(u: string, c: char, value: Node, frames: seq<Frame>, start: Position, text: string)
    requires Run(u).0 == Running(value, frames, Some(Quoted(start, text, false)))
    requires c != '"' && c != '|'
    ensures Run(u + [c]).0 == Running(value, frames, Some(Quoted(start, text + [c], false)))
  {
    QuotedAppends(value, frames, start, text, c, Advance(Run(u).1, c));
    RunSnoc(u, c);
  }

  /** Inside a quoted leaf, a pipe and the code point after it append that code point. */
  lemma QuotedEscapedStep(u: string, c: char, value: Node, frames: seq<Frame>, start: Position, text: string)
    requires Run(u).0 == Running(value, frames, Some(Quoted(start, text, false)))
    ensures Run(u + ['|', c]).0 == Running(value, frames, Some(Quoted(start, text + [c], false)))
  {
    EscapeStarts(value, frames, start, text, Advance(Run(u).1, '|'));
    RunSnoc(u, '|');
    RunSnoc(u + ['|'], c);
    assert u + ['|', c] == (u + ['|']) + [c];
  }

  /** Only '"' is a quote and only '|' an escape. */
  lemma ClassifiedQuoteOrEscape(c: char)
    ensures Classify(c as int) == Quote <==> c == '"'
    ensures Classify(c as int) == Escape <==> c == '|'
  {
    PunctuationInverse(Quote, c as int);
    PunctuationInverse(Escape, c as int);
  }

  /**
   * Any text, escaped and written between quotes as the only item of a list,
   * decodes to a list holding exactly that text; the leaf is anchored from
   * its opening to its closing quote and the list from bracket to bracket.
   */
  lemma QuotedLeafRoundTrip(s: string)
    ensures var closed := "[\"" + Escaped(s) + "\"";
      Decode(closed + "]") == Ok(ListNode([LeafNode(s, Some(Region(Position(1, 2), Run(closed).1)))], Some(Region(Position(1, 1), Run(closed + "]").1))))
  {
    var closed := "[\"" + Escaped(s) + "\"";
    QuotedLeafClosed(s);
    assert Classify(']' as int) == CloseList;
    RunSnoc(closed, ']');
    assert closed + "]" == closed + [']'];
  }

  /** After the closing quote the list holds the leaf, anchored from quote to quote. */
  lemma QuotedLeafClosed(s: string)
    ensures var closed := "[\"" + Escaped(s) + "\"";
      Run(closed).0 == Running(NullNode, [ListFrame(Position(1, 1), [LeafNode(s, Some(Region(Position(1, 2), Run(closed).1)))])], None)
  {
    var front := "[\"";
    var closed := front + Escaped(s) + "\"";
    var list := [ListFrame(Position(1, 1), [])];
    QuotedLeafOpened();
    QuotedTextRead(front, s, NullNode, list, Position(1, 2), "");
    assert "" + s == s;
    RunSnoc(front + Escaped(s), '"');
    assert closed == (front + Escaped(s)) + ['"'];
    var leaf := LeafNode(s, Some(Region(Position(1, 2), Run(closed).1)));
    QuoteClosesLeaf(NullNode, list, Position(1, 2), s, Run(closed).1);
    assert [] + [leaf] == [leaf];
  }

  /** A bracket then a quote open a list and, inside it, a quoted leaf starting at 1,2. */
  lemma QuotedLeafOpened()
    ensures Run("[\"").0 == Running(NullNode, [ListFrame(Position(1, 1), [])], Some(Quoted(Position(1, 2), "", false)))
  {
    assert Classify('[' as int) == OpenList && Classify('"' as int) == Quote;
    RunSnoc([], '[');
    assert [] + ['['] == "[";
    RunSnoc("[", '"');
    assert "[" + ['"'] == "[\"";
  }

  /** Once the machine has failed, no further text changes the error. */
  lemma {:induction false} FailedAbsorbs(s: string, t: string)
    requires Run(s).0.Failed?
    ensures Run(s + t).0 == Run(s).0
    ensures Decode(s + t) == Err(Run(s).0.error)
    decreases |t|
  {
    if t == [] {
      assert s + t == s;
    } else {
      var u := t[..|t| - 1];
      FailedAbsorbs(s, u);
      assert s + t == (s + u) + [t[|t| - 1]];
      RunSnoc(s + u, t[|t| - 1]);
    }
  }

  /** A document made of whitespace only decodes to the null node. */
  lemma {:induction false} BlankDecodesToNull(s: string)
    requires forall i :: 0 <= i < |s| ==> IsWhitespace(s[i] as int)
    ensures Run(s).0 == Initial
    ensures Decode(s) == Ok(NullNode)
  {
    if s != [] {
      BlankDecodesToNull(s[..|s| - 1]);
      assert Classify(s[|s| - 1] as int) == WhiteSpace;
    }
  }

  /** The categories a container accepts: those that leave `ContainerPush` running. */
  function Accepted(frames: seq<Frame>): seq<CodePointType> {
    if frames == [] then ROOT_EXPECTED
    else match Top(frames)
      case ListFrame(_, _) => LIST_EXPECTED
      case StructFrame(_, _, _, _, stage) =>
        match stage
        case AwaitField => STRUCT_EXPECTED
        case FieldName => FIELD_NAME_EXPECTED
        case PreAssign => PRE_ASSIGN_EXPECTED
        case PostAssign => POST_ASSIGN_EXPECTED
  }

  lemma ContainerAccepts(value: Node, frames: seq<Frame>, t: CodePointType, c: char, pos: Position)
    ensures ContainerPush(value, frames, t, c, pos).Running? <==> t in Accepted(frames)
  {
    if frames == [] {
    } else if Top(frames).ListFrame? {
      ListAccepts(value, frames, t, c, pos);
    } else {
      StructAccepts(value, frames, t, c, pos);
    }
  }

  lemma ListAccepts(value: Node, frames: seq<Frame>, t: CodePointType, c: char, pos: Position)
    requires frames != [] && Top(frames).ListFrame?
    ensures ContainerPush(value, frames, t, c, pos).Running? <==> t in LIST_EXPECTED
  {
    match t
    case CloseList =>
      var d := Deliver(value, Below(frames), ListNode(Top(frames).items, Some(Region(Top(frames).start, pos))));
      assert ContainerPush(value, frames, t, c, pos) == Running(d.0, d.1, None);
    case _ =>
  }

  lemma StructAccepts(value: Node, frames: seq<Frame>, t: CodePointType, c: char, pos: Position)
    requires frames != [] && Top(frames).StructFrame?
    ensures ContainerPush(value, frames, t, c, pos).Running? <==> t in Accepted(frames)
  {
    var top := Top(frames);
    if top.stage == AwaitField {
      if t == CloseStruct {
        var d := Deliver(value, Below(frames), StructNode(top.values, top.labels, Some(Region(top.start, pos))));
        assert ContainerPush(value, frames, t, c, pos) == Running(d.0, d.1, None);
      }
    } else {
      InFieldAccepts(value, frames, t, c, pos);
    }
  }

  lemma InFieldAccepts(value: Node, frames: seq<Frame>, t: CodePointType, c: char, pos: Position)
    requires frames != [] && Top(frames).StructFrame? && Top(frames).stage != AwaitField
    ensures ContainerPush(value, frames, t, c, pos).Running? <==> t in Accepted(frames)
  {
  }

  lemma ContainerRejects(value: Node, frames: seq<Frame>, t: CodePointType, c: char, pos: Position)
    requires ContainerPush(value, frames, t, c, pos).Failed?
    ensures ContainerPush(value, frames, t, c, pos) == Fail(pos, Accepted(frames))
  {
  }

  /** For the innermost container alone: a category is accepted if and only if the error it reports lists it. */
  lemma ContainerExpectedIsExact(value: Node, frames: seq<Frame>, t: CodePointType, u: CodePointType, c: char, d: char, pos: Position)
    requires ContainerPush(value, frames, t, c, pos).Failed?
    ensures ContainerPush(value, frames, u, d, pos).Running? <==> u in ContainerPush(value, frames, t, c, pos).error.expectedTypes
  {
    ContainerRejects(value, frames, t, c, pos);
    ContainerAccepts(value, frames, u, d, pos);
  }

  /**
   * The categories listed in a syntax error are exactly those the failing
   * state accepts: a code point `d` pushed instead of `c` keeps the machine
   * running if and only if its category is in the list. Every reachable
   * state has a container below a leaf being read (see `Inv`).
   */
  lemma ExpectedIsExact(m: Machine, c: char, d: char, pos: Position)
    requires m.Running? && (m.leaf.Some? ==> m.frames != [])
    requires Step(m, c, pos).Failed?
    ensures Step(m, d, pos).Running? <==> Classify(d as int) in Step(m, c, pos).error.expectedTypes
  {
    var t, u := Classify(c as int), Classify(d as int);
    match m.leaf
    case None =>
      ContainerExpectedIsExact(m.value, m.frames, t, u, c, d, pos);
    case Some(Unquoted(start, end, text)) =>
      var r := Deliver(m.value, m.frames, LeafNode(text, Some(Region(start, end))));
      assert r.1 != [] && Top(r.1).StructFrame? ==> Top(r.1).stage == AwaitField;
      if u != Normal {
        ContainerExpectedIsExact(r.0, r.1, t, u, c, d, pos);
      } else {
        assert Normal in ContainerPush(r.0, r.1, t, c, pos).error.expectedTypes;
      }
    case Some(Quoted(_, _, _)) =>
  }
}
