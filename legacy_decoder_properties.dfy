/**
 * How the first-generation decoder relates to itself and to the
 * position-aware decoder: a stuck decode stays stuck, blank text decodes
 * to the null node, the two dialects agree on text without quotes, and
 * every document the legacy decoder accepts is accepted by the
 * position-aware decoder with the same tree once anchors are removed.
 * The converse fails: only the position-aware decoder lets whitespace
 * follow the whitespace after a field name.
 */
module LegacyDecoderProperties {
  import opened Wrappers
  import opened Text
  import opened Nodes
  import opened CodePoints
  import opened StandardDecoder
  import opened LegacyDecoder

  lemma PushAllSnoc(d: Dialect, s: string, c: char)
    ensures PushAll(d, s + [c]) == Push(d, PushAll(d, s), c)
  {
    assert (s + [c])[..|s|] == s;
  }

  /** Once stuck, no further text changes the outcome. */
  lemma {:induction false} StuckAbsorbs(d: Dialect, s: string, t: string)
    requires PushAll(d, s).Stuck?
    ensures PushAll(d, s + t).Stuck?
    ensures LegacyDecode(d, s + t) == Err(())
    decreases |t|
  {
    if t == [] {
      assert s + t == s;
    } else {
      var u := t[..|t| - 1];
      StuckAbsorbs(d, s, u);
      assert s + t == (s + u) + [t[|t| - 1]];
      PushAllSnoc(d, s + u, t[|t| - 1]);
    }
  }

  /** Whitespace-only text leaves the decoder at the root with the null node. */
  lemma {:induction false} LegacyBlankIsNull(d: Dialect, s: string)
    requires forall i :: 0 <= i < |s| ==> IsWhitespace(s[i] as int)
    ensures PushAll(d, s) == Begin
    ensures LegacyDecode(d, s) == Ok(NullNode)
  {
    if s != [] {
      LegacyBlankIsNull(d, s[..|s| - 1]);
      assert Classify(s[|s| - 1] as int) == WhiteSpace;
    }
  }

  // ----- The two dialects -----

  predicate NoQuotedLeaf(s: State) {
    s.Active? ==> s.leaf.None? || s.leaf.value.UnquotedState?
  }

  /** Away from quotes, the two dialects take the same step. */
  lemma DialectsStepAlike(s: State, c: char)
    requires NoQuotedLeaf(s) && Classify(c as int) != Quote
    ensures Push(WithoutQuotes, s, c) == Push(WithQuotes, s, c)
    ensures NoQuotedLeaf(Push(WithQuotes, s, c))
  {
  }

  /** On text without a double quote the parser machine and the decoder with quoted leaves agree. */
  lemma {:induction false} DialectsAgreeWithoutQuotes(text: string)
    requires forall i :: 0 <= i < |text| ==> Classify(text[i] as int) != Quote
    ensures PushAll(WithoutQuotes, text) == PushAll(WithQuotes, text)
    ensures NoQuotedLeaf(PushAll(WithQuotes, text))
    ensures LegacyDecode(WithoutQuotes, text) == LegacyDecode(WithQuotes, text)
  {
    if text != [] {
      DialectsAgreeWithoutQuotes(text[..|text| - 1]);
      DialectsStepAlike(PushAll(WithQuotes, text[..|text| - 1]), text[|text| - 1]);
    }
  }

  /** Where a value may start, a quote opens a quoted leaf in one dialect and is an error in the other. */
  lemma QuoteSeparatesDialects(value: Node, cs: seq<OpenContainer>)
    requires cs != [] && (Inner(cs).OpenListState? || Inner(cs).stage == PostAssign)
    ensures Push(WithQuotes, Active(value, cs, None), '"') == Active(value, cs, Some(QuotedState("", false)))
    ensures Push(WithoutQuotes, Active(value, cs, None), '"') == Stuck
  {
    assert Classify('"' as int) == Quote;
  }

  // ----- Against the position-aware decoder -----

  /** The tree with every anchor removed. */
  function Unanchored(n: Node): (r: Node)
    ensures AnchorOf(r).None?
    ensures n.NullNode? <==> r.NullNode?
    decreases n
  {
    match n
    case NullNode => NullNode
    case LeafNode(data, _) => LeafNode(data, None)
    case StructNode(values, labels, _) =>
      StructNode(map k | k in values :: Unanchored(values[k]), labels, None)
    case ListNode(items, _) =>
      ListNode(seq(|items|, i requires 0 <= i < |items| => Unanchored(items[i])), None)
  }

  /** Removing anchors keeps a node equal to the original under `Same`, the source's notion of equality. */
  lemma {:induction false} UnanchoredIsSame(n: Node)
    ensures Same(n, Unanchored(n))
  {
    match n
    case NullNode =>
    case LeafNode(_, _) =>
    case StructNode(values, _, _) =>
      forall k | k in values ensures Same(values[k], Unanchored(n).values[k]) {
        UnanchoredIsSame(values[k]);
      }
    case ListNode(items, _) =>
      forall i | 0 <= i < |items| ensures Same(items[i], Unanchored(n).items[i]) {
        UnanchoredIsSame(items[i]);
      }
  }

  function UnanchoredMap(values: map<string, Node>): map<string, Node> {
    map k | k in values :: Unanchored(values[k])
  }

  function UnanchoredSeq(items: seq<Node>): seq<Node> {
    seq(|items|, i requires 0 <= i < |items| => Unanchored(items[i]))
  }

  /** A legacy container matches a position-aware frame with the positions and anchors dropped. */
  predicate Matches(c: OpenContainer, f: Frame) {
    match c
    case OpenStructState(values, labels, field, stage) =>
      f.StructFrame? && values == UnanchoredMap(f.values) && labels == f.labels && field == f.field && stage == f.stage
    case OpenListState(items) =>
      f.ListFrame? && items == UnanchoredSeq(f.items)
  }

  predicate LeafMatches(l: Option<LeafState>, k: Option<Leaf>) {
    match l
    case None => k.None?
    case Some(UnquotedState(text)) => k.Some? && k.value.Unquoted? && k.value.text == text
    case Some(QuotedState(text, escaped)) => k.Some? && k.value.Quoted? && k.value.text == text && k.value.escaped == escaped
  }

  predicate ContainersMatch(cs: seq<OpenContainer>, frames: seq<Frame>) {
    |cs| == |frames| && forall i :: 0 <= i < |cs| ==> Matches(cs[i], frames[i])
  }

  /** Every legacy state that is still active is the position-aware machine with positions forgotten. */
  predicate Simulates(s: State, m: Machine) {
    s.Active? ==>
      m.Running? && s.value == Unanchored(m.value) && ContainersMatch(s.containers, m.frames) &&
      LeafMatches(s.leaf, m.leaf)
  }

  lemma PutUnanchored(values: map<string, Node>, labels: seq<string>, key: string, node: Node)
    ensures Put(UnanchoredMap(values), labels, key, Unanchored(node)).0 == UnanchoredMap(Put(values, labels, key, node).0)
    ensures Put(UnanchoredMap(values), labels, key, Unanchored(node)).1 == Put(values, labels, key, node).1
  {
    var u := UnanchoredMap(values);
    assert key in u <==> key in values;
    var a := u[key := Unanchored(node)];
    var b := UnanchoredMap(values[key := node]);
    assert a.Keys == b.Keys;
    assert a == b;
  }

  lemma AppendUnanchored(items: seq<Node>, node: Node)
    ensures UnanchoredSeq(items) + [Unanchored(node)] == UnanchoredSeq(items + [node])
  {
  }

  /** Handing matching nodes to matching containers keeps them matching. */
  lemma HandMatches(value: Node, frames: seq<Frame>, node: Node, cs: seq<OpenContainer>)
    requires ContainersMatch(cs, frames)
    ensures Hand(Unanchored(value), cs, Unanchored(node)).0 == Unanchored(Deliver(value, frames, node).0)
    ensures ContainersMatch(Hand(Unanchored(value), cs, Unanchored(node)).1, Deliver(value, frames, node).1)
  {
    if cs != [] {
      var h := Hand(Unanchored(value), cs, Unanchored(node));
      var d := Deliver(value, frames, node);
      var n := |cs| - 1;
      assert Outer(cs) == cs[..n] && Below(frames) == frames[..n];
      match Top(frames)
      case StructFrame(start, values, labels, field, stage) =>
        PutUnanchored(values, labels, field, node);
        assert Matches(h.1[n], d.1[n]);
      case ListFrame(start, items) =>
        AppendUnanchored(items, node);
        assert Matches(h.1[n], d.1[n]);
    }
  }

  lemma OpenMatches(cs: seq<OpenContainer>, frames: seq<Frame>, c: OpenContainer, f: Frame)
    requires ContainersMatch(cs, frames) && Matches(c, f)
    ensures ContainersMatch(cs + [c], frames + [f])
  {
  }

  lemma ReplaceMatches(cs: seq<OpenContainer>, frames: seq<Frame>, c: OpenContainer, f: Frame)
    requires cs != [] && ContainersMatch(cs, frames) && Matches(c, f)
    ensures ContainersMatch(Outer(cs) + [c], Below(frames) + [f])
  {
  }

  /** Closing matching containers hands matching nodes down. */
  lemma CloseMatches(value: Node, frames: seq<Frame>, cs: seq<OpenContainer>, pos: Position)
    requires cs != [] && ContainersMatch(cs, frames)
    ensures Inner(cs).OpenListState? ==>
      var h := Hand(Unanchored(value), Outer(cs), ListNode(Inner(cs).items, None));
      var d := Deliver(value, Below(frames), ListNode(Top(frames).items, Some(Region(Top(frames).start, pos))));
      Simulates(Active(h.0, h.1, None), Running(d.0, d.1, None))
    ensures Inner(cs).OpenStructState? ==>
      var h := Hand(Unanchored(value), Outer(cs), StructNode(Inner(cs).values, Inner(cs).labels, None));
      var d := Deliver(value, Below(frames), StructNode(Top(frames).values, Top(frames).labels, Some(Region(Top(frames).start, pos))));
      Simulates(Active(h.0, h.1, None), Running(d.0, d.1, None))
  {
    if Inner(cs).OpenListState? {
      CloseListMatches(value, frames, cs, pos);
    } else {
      CloseStructMatches(value, frames, cs, pos);
    }
  }

  lemma CloseListMatches(value: Node, frames: seq<Frame>, cs: seq<OpenContainer>, pos: Position)
    requires cs != [] && ContainersMatch(cs, frames) && Inner(cs).OpenListState?
    ensures var h := Hand(Unanchored(value), Outer(cs), ListNode(Inner(cs).items, None));
      var d := Deliver(value, Below(frames), ListNode(Top(frames).items, Some(Region(Top(frames).start, pos))));
      Simulates(Active(h.0, h.1, None), Running(d.0, d.1, None))
  {
    assert ContainersMatch(Outer(cs), Below(frames));
    assert Matches(cs[|cs| - 1], frames[|cs| - 1]);
    HandMatches(value, Below(frames), ListNode(Top(frames).items, Some(Region(Top(frames).start, pos))), Outer(cs));
  }

  lemma CloseStructMatches(value: Node, frames: seq<Frame>, cs: seq<OpenContainer>, pos: Position)
    requires cs != [] && ContainersMatch(cs, frames) && Inner(cs).OpenStructState?
    ensures var h := Hand(Unanchored(value), Outer(cs), StructNode(Inner(cs).values, Inner(cs).labels, None));
      var d := Deliver(value, Below(frames), StructNode(Top(frames).values, Top(frames).labels, Some(Region(Top(frames).start, pos))));
      Simulates(Active(h.0, h.1, None), Running(d.0, d.1, None))
  {
    assert ContainersMatch(Outer(cs), Below(frames));
    assert Matches(cs[|cs| - 1], frames[|cs| - 1]);
    HandMatches(value, Below(frames), StructNode(Top(frames).values, Top(frames).labels, Some(Region(Top(frames).start, pos))), Outer(cs));
  }

  /** Where the legacy innermost container accepts a code point, the position-aware one takes the matching step. */
  lemma AcceptMatches(value: Node, frames: seq<Frame>, cs: seq<OpenContainer>, t: CodePointType, c: char, pos: Position)
    requires ContainersMatch(cs, frames)
    ensures Simulates(Accept(WithQuotes, Unanchored(value), cs, t, c), ContainerPush(value, frames, t, c, pos))
  {
    if cs == [] {
    } else if Inner(cs).OpenListState? {
      ListAcceptMatches(value, frames, cs, t, c, pos);
    } else {
      StructAcceptMatches(value, frames, cs, t, c, pos);
    }
  }

  lemma ListAcceptMatches(value: Node, frames: seq<Frame>, cs: seq<OpenContainer>, t: CodePointType, c: char, pos: Position)
    requires cs != [] && ContainersMatch(cs, frames) && Inner(cs).OpenListState?
    ensures Simulates(Accept(WithQuotes, Unanchored(value), cs, t, c), ContainerPush(value, frames, t, c, pos))
  {
    assert Matches(cs[|cs| - 1], frames[|cs| - 1]);
    match t
    case OpenStruct => OpenMatches(cs, frames, OpenStructState(map[], [], "", AwaitField), NewStruct(pos));
    case OpenList => OpenMatches(cs, frames, OpenListState([]), ListFrame(pos, []));
    case CloseList => CloseMatches(value, frames, cs, pos);
    case _ =>
  }

  lemma StructAcceptMatches(value: Node, frames: seq<Frame>, cs: seq<OpenContainer>, t: CodePointType, c: char, pos: Position)
    requires cs != [] && ContainersMatch(cs, frames) && Inner(cs).OpenStructState?
    ensures Simulates(Accept(WithQuotes, Unanchored(value), cs, t, c), ContainerPush(value, frames, t, c, pos))
  {
    assert Matches(cs[|cs| - 1], frames[|cs| - 1]);
    if Inner(cs).stage == AwaitField || Inner(cs).stage == FieldName {
      NamingAcceptMatches(value, frames, cs, t, c, pos);
    } else {
      AssigningAcceptMatches(value, frames, cs, t, c, pos);
    }
  }

  lemma NamingAcceptMatches(value: Node, frames: seq<Frame>, cs: seq<OpenContainer>, t: CodePointType, c: char, pos: Position)
    requires cs != [] && ContainersMatch(cs, frames) && Matches(Inner(cs), Top(frames))
    requires Inner(cs).OpenStructState? && (Inner(cs).stage == AwaitField || Inner(cs).stage == FieldName)
    ensures Simulates(Accept(WithQuotes, Unanchored(value), cs, t, c), ContainerPush(value, frames, t, c, pos))
  {
    var inner, top := Inner(cs), Top(frames);
    if inner.stage == AwaitField && t == CloseStruct {
      CloseMatches(value, frames, cs, pos);
    } else if t == Normal {
      ReplaceMatches(cs, frames, inner.(field := inner.field + [c], stage := FieldName), top.(field := top.field + [c], stage := FieldName));
    } else if inner.stage == FieldName && t == Assignment {
      ReplaceMatches(cs, frames, inner.(stage := PostAssign), top.(stage := PostAssign));
    } else if inner.stage == FieldName && t == WhiteSpace {
      ReplaceMatches(cs, frames, inner.(stage := PreAssign), top.(stage := PreAssign));
    }
  }

  lemma AssigningAcceptMatches(value: Node, frames: seq<Frame>, cs: seq<OpenContainer>, t: CodePointType, c: char, pos: Position)
    requires cs != [] && ContainersMatch(cs, frames) && Matches(Inner(cs), Top(frames))
    requires Inner(cs).OpenStructState? && (Inner(cs).stage == PreAssign || Inner(cs).stage == PostAssign)
    ensures Simulates(Accept(WithQuotes, Unanchored(value), cs, t, c), ContainerPush(value, frames, t, c, pos))
  {
    var inner, top := Inner(cs), Top(frames);
    if inner.stage == PreAssign && t == Assignment {
      ReplaceMatches(cs, frames, inner.(stage := PostAssign), top.(stage := PostAssign));
    } else if inner.stage == PostAssign && t == OpenStruct {
      OpenMatches(cs, frames, OpenStructState(map[], [], "", AwaitField), NewStruct(pos));
    } else if inner.stage == PostAssign && t == OpenList {
      OpenMatches(cs, frames, OpenListState([]), ListFrame(pos, []));
    }
  }

  /** One push keeps the simulation. */
  lemma PushMatches(s: State, m: Machine, c: char, pos: Position)
    requires Simulates(s, m)
    ensures Simulates(Push(WithQuotes, s, c), Step(m, c, pos))
  {
    if s.Active? {
      var t := Classify(c as int);
      match s.leaf
      case None =>
        AcceptMatches(m.value, m.frames, s.containers, t, c, pos);
      case Some(UnquotedState(text)) =>
        if t != Normal {
          var node := LeafNode(text, Some(Region(m.leaf.value.start, m.leaf.value.end)));
          HandMatches(m.value, m.frames, node, s.containers);
          var d := Deliver(m.value, m.frames, node);
          AcceptMatches(d.0, d.1, Hand(s.value, s.containers, LeafNode(text, None)).1, t, c, pos);
        }
      case Some(QuotedState(text, escaped)) =>
        if !escaped && t == Quote {
          HandMatches(m.value, m.frames, LeafNode(text, Some(Region(m.leaf.value.start, pos))), s.containers);
        }
    }
  }

  lemma {:induction false} RunMatches(text: string)
    ensures Simulates(PushAll(WithQuotes, text), Run(text).0)
  {
    if text != [] {
      var prefix := text[..|text| - 1];
      RunMatches(prefix);
      PushMatches(PushAll(WithQuotes, prefix), Run(prefix).0, text[|text| - 1], Advance(Run(prefix).1, text[|text| - 1]));
    }
  }

  /**
   * Every document the legacy decoder accepts, the position-aware decoder
   * accepts too, with the same tree apart from anchors.
   */
  lemma LegacyAcceptedIsAccepted(text: string)
    requires LegacyDecode(WithQuotes, text).Ok?
    ensures Decode(text).Ok?
    ensures Unanchored(Decode(text).value) == LegacyDecode(WithQuotes, text).value
  {
    RunMatches(text);
  }

  /**
   * The converse fails: after a field name and whitespace the legacy decoder
   * is stuck on further whitespace, where the position-aware one carries on.
   */
  lemma WhitespaceAfterFieldNameDiffers(value: Node, cs: seq<OpenContainer>, frames: seq<Frame>, c: char, pos: Position)
    requires ContainersMatch(cs, frames) && cs != [] && Inner(cs).OpenStructState? && Inner(cs).stage == PreAssign
    requires IsWhitespace(c as int)
    ensures Push(WithQuotes, Active(Unanchored(value), cs, None), c) == Stuck
    ensures Step(Running(value, frames, None), c, pos) == Running(value, frames, None)
  {
    assert Matches(cs[|cs| - 1], frames[|cs| - 1]);
  }
}
