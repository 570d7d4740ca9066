/**
 * The node tree of the `com.github.rimasu.node.types` package: null, leaf,
 * struct and list nodes, the four kinds of `NodeError`, typed coercions,
 * struct and list lookup, structural equality and the printed form.
 *
 * A Kotlin node finds its own path by walking parent links set once, when it
 * is put into a container. Here a tree is a value; the path of a node is the
 * sequence of steps that reaches it from the root (`Lookup`), and every
 * accessor is handed the path of the node it is called on.
 */
module Nodes {
  import opened Wrappers
  import opened Text
  import opened Paths
  import Decimal

  /**
   * A struct keeps its fields in a map together with the order in which
   * their labels were first inserted (the iteration order of the
   * `LinkedHashMap` it is built from). Decoded nodes carry the region of text
   * they came from; nodes built in code carry none.
   */
  datatype Node =
    | NullNode
    | LeafNode(data: string, anchor: Option<Region>)
    | StructNode(values: map<string, Node>, labels: seq<string>, anchor: Option<Region>)
    | ListNode(items: seq<Node>, anchor: Option<Region>)

  datatype NodeError =
    | UndefinedValue(path: Path, anchor: Option<Region>)     // an undefined label or index was accessed
    | IncompatibleValue(path: Path, anchor: Option<Region>)  // the value could not be coerced
    | InvalidLowValue(path: Path, anchor: Option<Region>)    // a number below the requested minimum
    | InvalidHighValue(path: Path, anchor: Option<Region>)   // a number above the requested maximum

  function AnchorOf(n: Node): Option<Region> {
    if n.NullNode? then None else n.anchor
  }

  // ----- Struct fields -----

  /** The labels name each key of the map exactly once. */
  ghost predicate Ordered(values: map<string, Node>, labels: seq<string>) {
    (forall i, j :: 0 <= i < j < |labels| ==> labels[i] != labels[j]) &&
    (forall k :: k in values <==> k in labels)
  }

  /** `LinkedHashMap.put`: a new label goes last, an existing label keeps its place and takes the new value. */
  function Put(values: map<string, Node>, labels: seq<string>, key: string, node: Node): (r: (map<string, Node>, seq<string>))
    ensures r.0.Keys == values.Keys + {key} && r.0[key] == node
    ensures forall k :: k in values && k != key ==> r.0[k] == values[k]
    ensures |r.1| >= |labels| && r.1[..|labels|] == labels
    ensures Ordered(values, labels) ==> Ordered(r.0, r.1)
  {
    if key in values then (values[key := node], labels) else (values[key := node], labels + [key])
  }

  /** Every struct in the tree keeps its labels in order. */
  ghost predicate WellFormed(n: Node) {
    match n
    case NullNode => true
    case LeafNode(_, _) => true
    case StructNode(values, labels, _) =>
      Ordered(values, labels) && forall k :: k in values ==> WellFormed(values[k])
    case ListNode(items, _) => forall i :: 0 <= i < |items| ==> WellFormed(items[i])
  }

  // ----- Paths -----

  /** The child a step leads to, if the node has one there (list indexes start at one). */
  function Child(n: Node, s: Step): Option<Node> {
    match s
    case LabelStep(key) =>
      if n.StructNode? && key in n.values then Some(n.values[key]) else None
    case IndexStep(index) =>
      if n.ListNode? && 1 <= index <= |n.items| then Some(n.items[index - 1]) else None
  }

  /** The node reached from `n` by following `steps`. */
  function Lookup(n: Node, steps: seq<Step>): Option<Node>
    decreases |steps|
  {
    if steps == [] then Some(n)
    else match Child(n, steps[0])
      case None => None
      case Some(c) => Lookup(c, steps[1..])
  }

  /** One more step at the end of a path leads from the node the path reaches. */
  lemma {:induction false} LookupAppend(n: Node, steps: seq<Step>, s: Step)
    ensures Lookup(n, steps + [s]) == (match Lookup(n, steps) case None => None case Some(m) => Child(m, s))
    decreases |steps|
  {
    if steps == [] {
      assert ([s])[1..] == [];
    } else {
      assert (steps + [s])[1..] == steps[1..] + [s];
      match Child(n, steps[0])
      case None =>
      case Some(c) => LookupAppend(c, steps[1..], s);
    }
  }

  // ----- Coercions -----

  /** `asString`: a leaf's data; anything else is incompatible. */
  function AsString(n: Node, p: Path): (r: Result<string, NodeError>)
    ensures r.Ok? <==> n.LeafNode?
    ensures r.Ok? ==> r.value == n.data
    ensures r.Err? ==> r.error == IncompatibleValue(p, AnchorOf(n))
  {
    if n.LeafNode? then Ok(n.data) else Err(IncompatibleValue(p, AnchorOf(n)))
  }

  /** `asStruct`: a struct node returns itself. */
  function AsStruct(n: Node, p: Path): (r: Result<Node, NodeError>)
    ensures r.Ok? <==> n.StructNode?
    ensures r.Ok? ==> r.value == n
    ensures r.Err? ==> r.error == IncompatibleValue(p, AnchorOf(n))
  {
    if n.StructNode? then Ok(n) else Err(IncompatibleValue(p, AnchorOf(n)))
  }

  /** `asList`: a list node returns itself. */
  function AsList(n: Node, p: Path): (r: Result<Node, NodeError>)
    ensures r.Ok? <==> n.ListNode?
    ensures r.Ok? ==> r.value == n
    ensures r.Err? ==> r.error == IncompatibleValue(p, AnchorOf(n))
  {
    if n.ListNode? then Ok(n) else Err(IncompatibleValue(p, AnchorOf(n)))
  }

  /**
   * A number read from a leaf and checked against optional inclusive
   * bounds, the minimum first: a leaf whose text is no number of the range
   * [lo, hi] is incompatible; a number below `min` is too low and one above
   * `max` too high.
   */
  function AsInteger(n: Node, p: Path, lo: int, hi: int, min: Option<int>, max: Option<int>): (r: Result<int, NodeError>)
    ensures r.Ok? <==> n.LeafNode? && Decimal.ParseInteger(n.data, lo, hi).Some? && InBounds(Decimal.ParseInteger(n.data, lo, hi).value, min, max)
    ensures r.Ok? ==> lo <= r.value <= hi && InBounds(r.value, min, max) && Decimal.ParseInteger(n.data, lo, hi) == Some(r.value)
    ensures r.Err? ==> r.error.path == p && r.error.anchor == AnchorOf(n)
    ensures r.Err? && r.error.IncompatibleValue? <==> !n.LeafNode? || Decimal.ParseInteger(n.data, lo, hi).None?
    ensures r.Err? && r.error.InvalidLowValue? <==>
      n.LeafNode? && Decimal.ParseInteger(n.data, lo, hi).Some? && min.Some? && Decimal.ParseInteger(n.data, lo, hi).value < min.value
    ensures r.Err? ==> !r.error.UndefinedValue?
  {
    if !n.LeafNode? then Err(IncompatibleValue(p, AnchorOf(n)))
    else match Decimal.ParseInteger(n.data, lo, hi)
      case None => Err(IncompatibleValue(p, AnchorOf(n)))
      case Some(v) =>
        if min.Some? && v < min.value then Err(InvalidLowValue(p, AnchorOf(n)))
        else if max.Some? && v > max.value then Err(InvalidHighValue(p, AnchorOf(n)))
        else Ok(v)
  }

  predicate InBounds(v: int, min: Option<int>, max: Option<int>) {
    (min.None? || min.value <= v) && (max.None? || v <= max.value)
  }

  /** `asInt(min, max)`: a 32-bit number. */
  function AsInt(n: Node, p: Path, min: Option<int>, max: Option<int>): Result<int, NodeError> {
    AsInteger(n, p, Decimal.INT_MIN, Decimal.INT_MAX, min, max)
  }

  /** `asLong(min, max)`: a 64-bit number. */
  function AsLong(n: Node, p: Path, min: Option<int>, max: Option<int>): Result<int, NodeError> {
    AsInteger(n, p, Decimal.LONG_MIN, Decimal.LONG_MAX, min, max)
  }

  /** `Int.asNode()`: a leaf holding the decimal text of the number. */
  function IntNode(v: int): Node {
    LeafNode(Decimal.IntToString(v), None)
  }

  /** A leaf made from a 32-bit number reads back as that number when no bounds are given. */
  lemma IntNodeRoundTrip(v: int, p: Path)
    requires Decimal.INT_MIN <= v <= Decimal.INT_MAX
    ensures AsInt(IntNode(v), p, None, None) == Ok(v)
    ensures AsLong(IntNode(v), p, None, None) == Ok(v)
  {
    Decimal.ParseIntToString(v, Decimal.INT_MIN, Decimal.INT_MAX);
    Decimal.ParseIntToString(v, Decimal.LONG_MIN, Decimal.LONG_MAX);
  }

  /**
   * The bounds are inclusive: a number read from a leaf is accepted exactly
   * when it lies within them, is too low exactly when it is below the
   * minimum, and is too high exactly when it is above the maximum and not
   * below the minimum.
   */
  lemma BoundedIntOutcome(v: int, p: Path, min: Option<int>, max: Option<int>)
    requires Decimal.INT_MIN <= v <= Decimal.INT_MAX
    ensures AsInt(IntNode(v), p, min, max).Ok? <==> InBounds(v, min, max)
    ensures AsInt(IntNode(v), p, min, max) == Err(InvalidLowValue(p, None)) <==> min.Some? && v < min.value
    ensures AsInt(IntNode(v), p, min, max) == Err(InvalidHighValue(p, None)) <==>
      (min.None? || min.value <= v) && max.Some? && v > max.value
  {
    Decimal.ParseIntToString(v, Decimal.INT_MIN, Decimal.INT_MAX);
  }

  // ----- Lookup by label and by index -----

  /** `StructNode[label]`: the field, or `UndefinedValue` at the path extended by the label. */
  function StructGet(n: Node, p: Path, key: string): (r: Result<Node, NodeError>)
    requires n.StructNode?
    ensures r.Ok? <==> key in n.values
    ensures r.Ok? ==> Child(n, LabelStep(key)) == Some(r.value)
    ensures r.Err? ==> r.error == UndefinedValue(Plus(p, LabelStep(key)), n.anchor)
  {
    if key in n.values then Ok(n.values[key])
    else Err(UndefinedValue(Plus(p, LabelStep(key)), n.anchor))
  }

  /** `ListNode[index]`, counting from one: the element, or `UndefinedValue` at the path extended by the index. */
  function ListGet(n: Node, p: Path, index: int): (r: Result<Node, NodeError>)
    requires n.ListNode?
    ensures r.Ok? <==> 1 <= index <= |n.items|
    ensures r.Ok? ==> r.value == n.items[index - 1] && Child(n, IndexStep(index)) == Some(r.value)
    ensures r.Err? ==> r.error == UndefinedValue(Plus(p, IndexStep(index)), n.anchor)
  {
    if index < 1 then Err(UndefinedValue(Plus(p, IndexStep(index)), n.anchor))
    else if index > |n.items| then Err(UndefinedValue(Plus(p, IndexStep(index)), n.anchor))
    else Ok(n.items[index - 1])
  }

  /**
   * Whatever a caller reads from the node at path `p`, the child it gets
   * back lives at `p` extended by the step it took: the path a Kotlin node
   * computes from its parent links.
   */
  lemma ChildPath(root: Node, p: Path, n: Node, s: Step, c: Node)
    requires Lookup(root, p.steps) == Some(n)
    requires (s.LabelStep? && n.StructNode? && StructGet(n, p, s.name) == Ok(c))
          || (s.IndexStep? && n.ListNode? && ListGet(n, p, s.index) == Ok(c))
    ensures Lookup(root, Plus(p, s).steps) == Some(c)
  {
    LookupAppend(root, p.steps, s);
  }

  /** One step of navigation: view the node as the container the step needs, then look the step up. */
  function StepInto(n: Node, p: Path, s: Step): (r: Result<Node, NodeError>)
    ensures r.Ok? <==> Child(n, s).Some?
    ensures r.Ok? ==> r.value == Child(n, s).value
    ensures r.Err? ==> r.error.path == p || r.error.path == Plus(p, s)
  {
    match s
    case LabelStep(key) =>
      (match AsStruct(n, p)
       case Err(e) => Err(e)
       case Ok(st) => StructGet(st, p, key))
    case IndexStep(index) =>
      (match AsList(n, p)
       case Err(e) => Err(e)
       case Ok(l) => ListGet(l, p, index))
  }

  /** Navigation from a node at path `p` along `steps`, stopping at the first failure. */
  function Follow(n: Node, p: Path, steps: seq<Step>): Result<Node, NodeError>
    decreases |steps|
  {
    if steps == [] then Ok(n)
    else match StepInto(n, p, steps[0])
      case Err(e) => Err(e)
      case Ok(c) => Follow(c, Plus(p, steps[0]), steps[1..])
  }

  /** How many of `steps` lead somewhere before the first that leads nowhere. */
  function Reached(n: Node, steps: seq<Step>): (k: nat)
    ensures k <= |steps|
    decreases |steps|
  {
    if steps == [] then 0
    else match Child(n, steps[0])
      case None => 0
      case Some(c) => 1 + Reached(c, steps[1..])
  }

  /** When a lookup fails, the first `Reached` steps succeed and one more fails. */
  lemma {:induction false} ReachedIsFirstMiss(n: Node, steps: seq<Step>)
    requires Lookup(n, steps).None?
    ensures Reached(n, steps) < |steps|
    ensures Lookup(n, steps[..Reached(n, steps)]).Some?
    ensures Lookup(n, steps[..Reached(n, steps) + 1]).None?
    decreases |steps|
  {
    var k := Reached(n, steps);
    match Child(n, steps[0])
    case None =>
      assert steps[..0] == [];
      assert steps[..1][1..] == [];
    case Some(c) =>
      ReachedIsFirstMiss(c, steps[1..]);
      assert steps[..k][1..] == steps[1..][..k - 1];
      assert steps[..k + 1][1..] == steps[1..][..k];
  }

  /** Navigation succeeds exactly on the nodes `Lookup` reaches. */
  lemma {:induction false} FollowMatchesLookup(n: Node, p: Path, steps: seq<Step>)
    ensures Follow(n, p, steps).Ok? <==> Lookup(n, steps).Some?
    ensures Follow(n, p, steps).Ok? ==> Follow(n, p, steps).value == Lookup(n, steps).value
    decreases |steps|
  {
    if steps != [] {
      match StepInto(n, p, steps[0])
      case Err(e) =>
      case Ok(c) => FollowMatchesLookup(c, Plus(p, steps[0]), steps[1..]);
    }
  }

  /**
   * A failed navigation reports a path inside `p + steps`: the path of the
   * last node reached, or that path extended by the first step that leads
   * nowhere.
   */
  lemma {:induction false} FollowErrorPath(n: Node, p: Path, steps: seq<Step>)
    requires Follow(n, p, steps).Err?
    ensures Reached(n, steps) < |steps|
    ensures Follow(n, p, steps).error.path.steps == p.steps + steps[..Reached(n, steps)]
         || Follow(n, p, steps).error.path.steps == p.steps + steps[..Reached(n, steps) + 1]
    decreases |steps|
  {
    var s := steps[0];
    match StepInto(n, p, s)
    case Err(e) =>
      assert Reached(n, steps) == 0;
      assert steps[..0] == [] && steps[..1] == [s];
    case Ok(c) =>
      var rest := steps[1..];
      var k := Reached(c, rest);
      assert Follow(n, p, steps) == Follow(c, Plus(p, s), rest);
      assert Reached(n, steps) == k + 1;
      FollowErrorPath(c, Plus(p, s), rest);
      PrefixAfterHead(p.steps, steps, k + 1);
      PrefixAfterHead(p.steps, steps, k + 2);
  }

  lemma PrefixAfterHead(p: seq<Step>, steps: seq<Step>, j: nat)
    requires 1 <= j <= |steps|
    ensures (p + [steps[0]]) + steps[1..][..j - 1] == p + steps[..j]
  {
    assert steps[..j] == [steps[0]] + steps[1..][..j - 1];
  }

  // ----- Equality -----

  /**
   * Kotlin `equals`: all null nodes are equal, leaves compare by data,
   * structs by their label-to-node maps and lists element by element.
   * Anchors and label order play no part.
   */
  predicate Same(a: Node, b: Node) {
    match a
    case NullNode => b.NullNode?
    case LeafNode(data, _) => b.LeafNode? && b.data == data
    case StructNode(values, _, _) =>
      b.StructNode? && values.Keys == b.values.Keys && forall k :: k in values ==> Same(values[k], b.values[k])
    case ListNode(items, _) =>
      b.ListNode? && |items| == |b.items| && forall i :: 0 <= i < |items| ==> Same(items[i], b.items[i])
  }

  lemma {:induction false} SameReflexive(a: Node)
    ensures Same(a, a)
  {
    match a
    case NullNode =>
    case LeafNode(_, _) =>
    case StructNode(values, _, _) =>
      forall k | k in values ensures Same(values[k], values[k]) { SameReflexive(values[k]); }
    case ListNode(items, _) =>
      forall i | 0 <= i < |items| ensures Same(items[i], items[i]) { SameReflexive(items[i]); }
  }

  lemma {:induction false} SameSymmetric(a: Node, b: Node)
    requires Same(a, b)
    ensures Same(b, a)
  {
    match a
    case NullNode =>
    case LeafNode(_, _) =>
    case StructNode(values, _, _) =>
      forall k | k in b.values ensures Same(b.values[k], values[k]) { SameSymmetric(values[k], b.values[k]); }
    case ListNode(items, _) =>
      forall i | 0 <= i < |b.items| ensures Same(b.items[i], items[i]) { SameSymmetric(items[i], b.items[i]); }
  }

  lemma {:induction false} SameTransitive(a: Node, b: Node, c: Node)
    requires Same(a, b) && Same(b, c)
    ensures Same(a, c)
  {
    match a
    case NullNode =>
    case LeafNode(_, _) =>
    case StructNode(values, _, _) =>
      forall k | k in values ensures Same(values[k], c.values[k]) {
        SameTransitive(values[k], b.values[k], c.values[k]);
      }
    case ListNode(items, _) =>
      forall i | 0 <= i < |items| ensures Same(items[i], c.items[i]) {
        SameTransitive(items[i], b.items[i], c.items[i]);
      }
  }

  // ----- Printed form -----

  /** `toString`: "_" for null, the raw data of a leaf, "[a b c]" for a list and "{a=x b=y}" for a struct. */
  function NodeToString(n: Node): (r: string)
    requires WellFormed(n)
    ensures n.NullNode? ==> r == "_"
    ensures n.LeafNode? ==> r == n.data
    ensures n.StructNode? ==> |r| >= 2 && r[0] == '{' && r[|r| - 1] == '}' && r[1..|r| - 1] == FieldsText(n, n.labels)
    ensures n.ListNode? ==> |r| >= 2 && r[0] == '[' && r[|r| - 1] == ']' && r[1..|r| - 1] == ItemsText(n.items)
    decreases n, if n.StructNode? then |n.labels| + 1 else 0
  {
    match n
    case NullNode => "_"
    case LeafNode(data, _) => data
    case StructNode(values, labels, _) => "{" + FieldsText(n, labels) + "}"
    case ListNode(items, _) => "[" + ItemsText(items) + "]"
  }

  /** Each "label=value" in label order, separated by single spaces. */
  function FieldsText(n: Node, labels: seq<string>): string
    requires n.StructNode? && WellFormed(n)
    requires forall k :: k in labels ==> k in n.values
    decreases n, |labels|
  {
    if labels == [] then ""
    else
      var field := labels[0] + "=" + NodeToString(n.values[labels[0]]);
      if |labels| == 1 then field else field + " " + FieldsText(n, labels[1..])
  }

  /** Each element's text, separated by single spaces. */
  function ItemsText(items: seq<Node>): string
    requires forall i :: 0 <= i < |items| ==> WellFormed(items[i])
    decreases items
  {
    if items == [] then ""
    else if |items| == 1 then NodeToString(items[0])
    else NodeToString(items[0]) + " " + ItemsText(items[1..])
  }

  /** Strings separated by single spaces, built from the last one backwards. */
  function Joined(parts: seq<string>): string {
    if parts == [] then ""
    else if |parts| == 1 then parts[0]
    else Joined(parts[..|parts| - 1]) + " " + parts[|parts| - 1]
  }

  /** The data of each leaf, in order. */
  function LeafData(items: seq<Node>): (r: seq<string>)
    requires forall i :: 0 <= i < |items| ==> items[i].LeafNode?
    ensures |r| == |items| && forall i :: 0 <= i < |items| ==> r[i] == items[i].data
  {
    if items == [] then [] else LeafData(items[..|items| - 1]) + [items[|items| - 1].data]
  }

  /** Appending an element adds a single space and that element's text. */
  lemma {:induction false} ItemsTextSnoc(items: seq<Node>, last: Node)
    requires items != [] && WellFormed(last)
    requires forall i :: 0 <= i < |items| ==> WellFormed(items[i])
    ensures ItemsText(items + [last]) == ItemsText(items) + " " + NodeToString(last)
    decreases |items|
  {
    var all := items + [last];
    if |items| == 1 {
      assert all[1..] == [last];
    } else {
      assert all[1..] == items[1..] + [last];
      ItemsTextSnoc(items[1..], last);
    }
  }

  /** Any list of leaves prints as the data of its leaves, separated by single spaces, between brackets. */
  lemma LeafListPrints(items: seq<Node>, anchor: Option<Region>)
    requires forall i :: 0 <= i < |items| ==> items[i].LeafNode?
    ensures WellFormed(ListNode(items, anchor))
    ensures NodeToString(ListNode(items, anchor)) == "[" + Joined(LeafData(items)) + "]"
  {
    LeafItemsText(items);
  }

  /** Over leaves, the element texts are the leaves' data joined by single spaces. */
  lemma {:induction false} LeafItemsText(items: seq<Node>)
    requires forall i :: 0 <= i < |items| ==> items[i].LeafNode?
    ensures forall i :: 0 <= i < |items| ==> WellFormed(items[i])
    ensures ItemsText(items) == Joined(LeafData(items))
    decreases |items|
  {
    if |items| > 1 {
      var front := items[..|items| - 1];
      var last := items[|items| - 1];
      LeafItemsText(front);
      assert items == front + [last];
      ItemsTextSnoc(front, last);
      assert LeafData(items)[..|items| - 1] == LeafData(front);
    }
  }

  /** The printed form the tests expect of a three-element list. */
  lemma PrintListExample()
    ensures NodeToString(ListNode([LeafNode("a", None), LeafNode("b", None), LeafNode("c", None)], None)) == "[a b c]"
  {
    var items := [LeafNode("a", None), LeafNode("b", None), LeafNode("c", None)];
    assert items[1..][1..] == [LeafNode("c", None)];
    assert ItemsText(items[1..][1..]) == "c";
    assert ItemsText(items[1..]) == "b c";
    assert ItemsText(items) == "a b c";
  }

  /** The printed form the tests expect of a three-field struct: fields in insertion order. */
  lemma PrintStructExample()
    ensures var vs := map["a" := LeafNode("a", None), "b" := LeafNode("b", None), "c" := LeafNode("c", None)];
      WellFormed(StructNode(vs, ["a", "b", "c"], None)) &&
      NodeToString(StructNode(vs, ["a", "b", "c"], None)) == "{a=a b=b c=c}"
  {
    var vs := map["a" := LeafNode("a", None), "b" := LeafNode("b", None), "c" := LeafNode("c", None)];
    var n := StructNode(vs, ["a", "b", "c"], None);
    var labels := ["a", "b", "c"];
    assert WellFormed(n);
    assert labels[1..] == ["b", "c"] && labels[1..][1..] == ["c"];
    assert FieldsText(n, ["c"]) == "c=c";
    assert FieldsText(n, ["b", "c"]) == "b=b c=c";
    assert FieldsText(n, labels) == "a=a b=b c=c";
  }
}
