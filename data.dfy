/** The values the pipeline handles: the raw objects a deserializer produces,
    the wrappers around them (DataNode, TraceableValue, LiveValue,
    ElementValue), and the data-node tree with its per-scalar check level. */
module Data {

  /** How a scalar has been examined. A comparison touching the node moves it
      from None to ExplicitAssert; it never moves back. */
  datatype CheckLevel = None | ExplicitAssert

  /** The Java objects the model distinguishes. `ListOf` is a java.util.List,
      `MapOf` an ordered map; `Live` is a LiveValue whose `get()` currently
      yields `current`; `Element` is a page ElementValue named `name` whose
      `get()` currently yields `current`. */
  datatype Value =
    | Null
    | Bool(b: bool)
    | Int(i: int)
    | Str(s: string)
    | Bytes(bytes: seq<bv8>)
    | ListOf(items: seq<Value>)
    | MapOf(entries: seq<(string, Value)>)
    | Node(node: DataNode)
    | Traceable(tv: TraceableValue)
    | Live(current: Value)
    | Element(name: string, current: Value)

  datatype TraceableValue = TraceableValue(value: Value, checkLevel: CheckLevel)

  datatype IdSegment = Field(name: string) | Index(index: nat)

  /** A node's id: the root name followed by the field names and indices
      that lead to it ("body", "body.price", "body[2]"). */
  type DataNodeId = seq<IdSegment>

  datatype DataNode =
    | Scalar(id: DataNodeId, tv: TraceableValue)
    | Struct(id: DataNodeId, children: seq<(string, DataNode)>)
    | Items(id: DataNodeId, elements: seq<DataNode>)

  /** Raw data: what a deserializer yields, free of any wrapper. */
  predicate Plain(v: Value)
  {
    match v
    case ListOf(items) => forall i :: 0 <= i < |items| ==> Plain(items[i])
    case MapOf(entries) => forall i :: 0 <= i < |entries| ==> Plain(entries[i].1)
    case Node(_) => false
    case Traceable(_) => false
    case Live(_) => false
    case Element(_, _) => false
    case _ => true
  }

  /** Every scalar of the tree wraps raw data. */
  predicate PlainNode(n: DataNode)
  {
    match n
    case Scalar(_, tv) => Plain(tv.value)
    case Struct(_, children) => forall i :: 0 <= i < |children| ==> PlainNode(children[i].1)
    case Items(_, elements) => forall i :: 0 <= i < |elements| ==> PlainNode(elements[i])
  }

  /** No scalar of the tree has been examined yet. */
  predicate Unchecked(n: DataNode)
  {
    match n
    case Scalar(_, tv) => tv.checkLevel == CheckLevel.None
    case Struct(_, children) => forall i :: 0 <= i < |children| ==> Unchecked(children[i].1)
    case Items(_, elements) => forall i :: 0 <= i < |elements| ==> Unchecked(elements[i])
  }

  /** DataNode.get(): the underlying raw values, all wrappers stripped. */
  function Get(n: DataNode): Value
  {
    match n
    case Scalar(_, tv) => tv.value
    case Struct(_, children) =>
      MapOf(seq(|children|, i requires 0 <= i < |children| => (children[i].0, Get(children[i].1))))
    case Items(_, elements) =>
      ListOf(seq(|elements|, i requires 0 <= i < |elements| => Get(elements[i])))
  }

  /** DataNodeBuilder.fromValue: mappings become Struct nodes, lists become
      Items nodes, anything else a Scalar; a child's id extends its parent's. */
  function FromValue(id: DataNodeId, v: Value): (n: DataNode)
    ensures n.id == id
    decreases v
  {
    match v
    case MapOf(entries) =>
      Struct(id, seq(|entries|, i requires 0 <= i < |entries| =>
        (entries[i].0, FromValue(id + [Field(entries[i].0)], entries[i].1))))
    case ListOf(items) =>
      Items(id, seq(|items|, i requires 0 <= i < |items| => FromValue(id + [Index(i)], items[i])))
    case _ => Scalar(id, TraceableValue(v, CheckLevel.None))
  }

  /** Building a tree from a value and reading it back gives the value. */
  lemma {:induction false} GetFromValue(id: DataNodeId, v: Value)
    ensures Get(FromValue(id, v)) == v
    decreases v
  {
    match v
    case MapOf(entries) =>
      var n := FromValue(id, v);
      forall i | 0 <= i < |entries|
        ensures Get(n.children[i].1) == entries[i].1
      {
        GetFromValue(id + [Field(entries[i].0)], entries[i].1);
      }
      assert Get(n).entries == entries;
    case ListOf(items) =>
      var n := FromValue(id, v);
      forall i | 0 <= i < |items|
        ensures Get(n.elements[i]) == items[i]
      {
        GetFromValue(id + [Index(i)], items[i]);
      }
      assert Get(n).items == items;
    case _ =>
  }

  /** A freshly built tree has no examined scalar. */
  lemma {:induction false} FromValueUnchecked(id: DataNodeId, v: Value)
    ensures Unchecked(FromValue(id, v))
    decreases v
  {
    match v
    case MapOf(entries) =>
      forall i | 0 <= i < |entries|
        ensures Unchecked(FromValue(id + [Field(entries[i].0)], entries[i].1))
      {
        FromValueUnchecked(id + [Field(entries[i].0)], entries[i].1);
      }
    case ListOf(items) =>
      forall i | 0 <= i < |items|
        ensures Unchecked(FromValue(id + [Index(i)], items[i]))
      {
        FromValueUnchecked(id + [Index(i)], items[i]);
      }
    case _ =>
  }

  /** Reading a tree whose scalars hold raw data gives raw data. */
  lemma {:induction false} GetPlain(n: DataNode)
    requires PlainNode(n)
    ensures Plain(Get(n))
  {
    match n
    case Scalar(_, _) =>
    case Struct(_, children) =>
      forall i | 0 <= i < |children|
        ensures Plain(Get(children[i].1))
      {
        GetPlain(children[i].1);
      }
      assert forall i :: 0 <= i < |children| ==> Get(n).entries[i].1 == Get(children[i].1);
    case Items(_, elements) =>
      forall i | 0 <= i < |elements|
        ensures Plain(Get(elements[i]))
      {
        GetPlain(elements[i]);
      }
      assert forall i :: 0 <= i < |elements| ==> Get(n).items[i] == Get(elements[i]);
  }
}
