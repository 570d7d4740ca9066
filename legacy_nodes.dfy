/**
 * The older node tree of the `org.rimasu.node` package. It has no anchors,
 * no bounded coercions and no printed form; a missing label reports only the
 * key and a bad index only the index.
 */
module LegacyNodes {
  import opened Wrappers
  import opened Paths
  import Decimal

  datatype Node =
    | NullNode
    | LeafNode(data: string)
    | StructNode(values: map<string, Node>)
    | ListNode(items: seq<Node>)

  /** The errors as the accessors construct them. */
  datatype NodeError =
    | UndefinedValue(key: string)
    | IncompatibleValue
    | InvalidIndex(index: int)

  /** `asString`: a leaf's data; anything else is incompatible. */
  function AsString(n: Node): (r: Result<string, NodeError>)
    ensures r.Ok? <==> n.LeafNode?
    ensures r.Ok? ==> r.value == n.data
    ensures r.Err? ==> r.error == IncompatibleValue
  {
    if n.LeafNode? then Ok(n.data) else Err(IncompatibleValue)
  }

  /** `asInt`: the 32-bit number a leaf's data spells; anything else is incompatible. */
  function AsInt(n: Node): (r: Result<int, NodeError>)
    ensures r.Ok? <==> n.LeafNode? && Decimal.ParseInteger(n.data, Decimal.INT_MIN, Decimal.INT_MAX).Some?
    ensures r.Ok? ==> Decimal.INT_MIN <= r.value <= Decimal.INT_MAX
    ensures r.Ok? ==> Decimal.ParseInteger(n.data, Decimal.INT_MIN, Decimal.INT_MAX) == Some(r.value)
    ensures r.Err? ==> r.error == IncompatibleValue
  {
    if !n.LeafNode? then Err(IncompatibleValue)
    else match Decimal.ParseInteger(n.data, Decimal.INT_MIN, Decimal.INT_MAX)
      case None => Err(IncompatibleValue)
      case Some(v) => Ok(v)
  }

  /** `asStruct`: a struct node returns itself. */
  function AsStruct(n: Node): (r: Result<Node, NodeError>)
    ensures r.Ok? <==> n.StructNode?
    ensures r.Ok? ==> r.value == n
    ensures r.Err? ==> r.error == IncompatibleValue
  {
    if n.StructNode? then Ok(n) else Err(IncompatibleValue)
  }

  /** `asList`: a list node returns itself. */
  function AsList(n: Node): (r: Result<Node, NodeError>)
    ensures r.Ok? <==> n.ListNode?
    ensures r.Ok? ==> r.value == n
    ensures r.Err? ==> r.error == IncompatibleValue
  {
    if n.ListNode? then Ok(n) else Err(IncompatibleValue)
  }

  /** `Int.asNode()`. */
  function IntNode(v: int): Node {
    LeafNode(Decimal.IntToString(v))
  }

  /** A leaf made from a 32-bit number reads back as that number. */
  lemma IntNodeRoundTrip(v: int)
    requires Decimal.INT_MIN <= v <= Decimal.INT_MAX
    ensures AsInt(IntNode(v)) == Ok(v)
    ensures AsString(IntNode(v)) == Ok(Decimal.IntToString(v))
  {
    Decimal.ParseIntToString(v, Decimal.INT_MIN, Decimal.INT_MAX);
  }

  /** `StructNode[key]`: the field, or `UndefinedValue` naming the key. */
  function StructGet(n: Node, key: string): (r: Result<Node, NodeError>)
    requires n.StructNode?
    ensures r.Ok? <==> key in n.values
    ensures r.Ok? ==> r.value == n.values[key]
    ensures r.Err? ==> r.error == UndefinedValue(key)
  {
    if key in n.values then Ok(n.values[key]) else Err(UndefinedValue(key))
  }

  /** `ListNode[index]`, counting from one: the element, or `InvalidIndex` naming the index. */
  function ListGet(n: Node, index: int): (r: Result<Node, NodeError>)
    requires n.ListNode?
    ensures r.Ok? <==> 1 <= index <= |n.items|
    ensures r.Ok? ==> r.value == n.items[index - 1]
    ensures r.Err? ==> r.error == InvalidIndex(index)
  {
    if index < 1 then Err(InvalidIndex(index))
    else if index > |n.items| then Err(InvalidIndex(index))
    else Ok(n.items[index - 1])
  }

  /** The step a container uses for each child: its label, or its position counted from one. */
  function Child(n: Node, s: Step): Option<Node> {
    match s
    case LabelStep(name) =>
      if n.StructNode? && name in n.values then Some(n.values[name]) else None
    case IndexStep(index) =>
      if n.ListNode? && 1 <= index <= |n.items| then Some(n.items[index - 1]) else None
  }

  /** The node reached from `n` by following `steps`: the node whose `path` is `steps`. */
  function Lookup(n: Node, steps: seq<Step>): Option<Node>
    decreases |steps|
  {
    if steps == [] then Some(n)
    else match Child(n, steps[0])
      case None => None
      case Some(c) => Lookup(c, steps[1..])
  }

  lemma {:induction false} LookupAppend(n: Node, steps: seq<Step>, s: Step)
    ensures Lookup(n, steps + [s]) == (match Lookup(n, steps) case None => None case Some(m) => Child(m, s))
    decreases |steps|
  {
    if steps == [] {
      assert ([s])[1..] == [];
    } else {
      assert (steps + [s])[1..] == steps[1..] + [s];
      match Child(n, steps[0])
      case None =>
      case Some(c) => LookupAppend(c, steps[1..], s);
    }
  }

  /**
   * The `i`-th element of a list (from zero) has the list's path followed by
   * `IndexStep(i + 1)`, and a struct field has the struct's path followed by
   * its label.
   */
  lemma ChildrenPaths(root: Node, p: Path, n: Node)
    requires Lookup(root, p.steps) == Some(n)
    ensures n.ListNode? ==> forall i :: 0 <= i < |n.items| ==> Lookup(root, Plus(p, IndexStep(i + 1)).steps) == Some(n.items[i])
    ensures n.StructNode? ==> forall k :: k in n.values ==> Lookup(root, Plus(p, LabelStep(k)).steps) == Some(n.values[k])
  {
    if n.ListNode? {
      forall i | 0 <= i < |n.items| ensures Lookup(root, Plus(p, IndexStep(i + 1)).steps) == Some(n.items[i]) {
        LookupAppend(root, p.steps, IndexStep(i + 1));
      }
    }
    if n.StructNode? {
      forall k | k in n.values ensures Lookup(root, Plus(p, LabelStep(k)).steps) == Some(n.values[k]) {
        LookupAppend(root, p.steps, LabelStep(k));
      }
    }
  }
}
