/**
 A parsed body in the heap: arrays and objects are mutable nodes, no two of which are shared. `Holds` says
 which JSON value such a tree stands for.
 */
module LogBodyInPlace {
  import opened Basics
  import opened LogBody

  /** A slice that starts at the first element of its backing array; the array's length is its capacity. */
  datatype Slice = Slice(data: array<Value>, len: nat)

  class Object {
    var fields: map<string, Value>

    constructor (fields: map<string, Value>)
      ensures this.fields == fields
    {
      this.fields := fields;
    }
  }

  datatype Value =
    | Null
    | Bool(value: bool)
    | Num(float64: bv64)
    | Str(text: string)
    | Arr(slice: Slice)
    | Obj(node: Object)

  // ---- Which tree stands in the heap ----

  /** The nodes of a tree, for specification: which node stands where. */
  datatype Shape =
    | Leaf
    | ArrNode(data: array<Value>, items: seq<Shape>)
    | ObjNode(node: Object, fields: map<string, Shape>)

  ghost function Nodes(shape: Shape): set<object>
    decreases shape, 1
  {
    (match shape case Leaf => {} case ArrNode(data, _) => {data} case ObjNode(node, _) => {node}) + Below(shape)
  }

  ghost function Below(shape: Shape): set<object>
    decreases shape, 0
  {
    match shape
    case Leaf => {}
    case ArrNode(_, items) => set i, o | 0 <= i < |items| && o in Nodes(items[i]) :: o
    case ObjNode(_, fields) => set k, o | k in fields && o in Nodes(fields[k]) :: o
  }

  lemma ItemNodes(shape: Shape, i: nat)
    requires shape.ArrNode? && i < |shape.items|
    ensures Nodes(shape.items[i]) <= Below(shape)
  {
  }

  lemma FieldNodes(shape: Shape, k: string)
    requires shape.ObjNode? && k in shape.fields
    ensures Nodes(shape.fields[k]) <= Below(shape)
  {
  }

  /** Different children have no node in common, and none contains its parent. */
  ghost predicate Apart(shape: Shape) {
    match shape
    case Leaf => true
    case ArrNode(data, items) =>
      && (forall i :: 0 <= i < |items| ==> data !in Nodes(items[i]))
      && (forall i, j :: 0 <= i < j < |items| ==> Nodes(items[i]) !! Nodes(items[j]))
    case ObjNode(node, fields) =>
      && (forall k :: k in fields ==> node !in Nodes(fields[k]))
      && (forall k, l :: k in fields && l in fields && k != l ==> Nodes(fields[k]) !! Nodes(fields[l]))
  }

  /** The value is the root of a tree with the given nodes, no node twice, that stands for the given JSON. */
  ghost predicate Holds(v: Value, shape: Shape, json: Json)
    reads Nodes(shape)
    decreases shape, 1
  {
    match (v, json)
    case (Null, Null) => shape.Leaf?
    case (Bool(b), Bool(c)) => shape.Leaf? && b == c
    case (Num(b), Num(c)) => shape.Leaf? && b == c
    case (Str(b), Str(c)) => shape.Leaf? && b == c
    case (Arr(slice), Arr(items)) =>
      shape.ArrNode? && shape.data == slice.data && slice.len == |items| && Apart(shape) && ItemsHold(shape, items)
    case (Obj(node), Obj(fields)) =>
      shape.ObjNode? && shape.node == node && Apart(shape) && FieldsHold(shape, fields)
    case _ => false
  }

  ghost predicate ItemsHold(shape: Shape, items: seq<Json>)
    requires shape.ArrNode?
    reads Nodes(shape)
    decreases shape, 0
  {
    && |items| == |shape.items| <= shape.data.Length
    && forall i :: 0 <= i < |items| ==> (ItemNodes(shape, i); Holds(shape.data[i], shape.items[i], items[i]))
  }

  ghost predicate FieldsHold(shape: Shape, fields: map<string, Json>)
    requires shape.ObjNode?
    reads Nodes(shape)
    decreases shape, 0
  {
    && shape.node.fields.Keys == fields.Keys == shape.fields.Keys
    && forall k :: k in fields ==> (FieldNodes(shape, k); Holds(shape.node.fields[k], shape.fields[k], fields[k]))
  }

  lemma {:induction false} NodesAllocated(shape: Shape)
    ensures forall o :: o in Nodes(shape) ==> allocated(o)
    decreases shape
  {
    forall o | o in Below(shape) ensures allocated(o) {
      if shape.ArrNode? {
        var i :| 0 <= i < |shape.items| && o in Nodes(shape.items[i]);
        NodesAllocated(shape.items[i]);
      } else {
        var k :| k in shape.fields && o in Nodes(shape.fields[k]);
        NodesAllocated(shape.fields[k]);
      }
    }
  }

  /** Putting one more tree in place of a child, given that the others stand. */
  lemma ItemPut(shape: Shape, items: seq<Json>, i: nat, s: Shape, item: Json)
    requires shape.ArrNode? && i < |items| == |shape.items| <= shape.data.Length
    requires forall j :: 0 <= j < |items| && j != i ==> Holds(shape.data[j], shape.items[j], items[j])
    requires Holds(shape.data[i], s, item)
    ensures ItemsHold(shape.(items := shape.items[i := s]), items[i := item])
  {
  }

  lemma FieldPut(shape: Shape, fields: map<string, Json>, k: string, s: Shape, field: Json)
    requires shape.ObjNode? && shape.node.fields.Keys == fields.Keys == shape.fields.Keys && k in fields
    requires forall l :: l in fields && l != k ==> Holds(shape.node.fields[l], shape.fields[l], fields[l])
    requires Holds(shape.node.fields[k], s, field)
    ensures FieldsHold(shape.(fields := shape.fields[k := s]), fields[k := field])
  {
  }

  /** Children stay apart when one is replaced by a tree over its own nodes and some that occur nowhere yet. */
  lemma ItemApart(shape: Shape, i: nat, s: Shape, news: set<object>)
    requires shape.ArrNode? && i < |shape.items| && Apart(shape)
    requires Nodes(s) <= Nodes(shape.items[i]) + news && news !! Nodes(shape)
    ensures Apart(shape.(items := shape.items[i := s]))
    ensures Nodes(shape.(items := shape.items[i := s])) <= Nodes(shape) + news
  {
    forall j | 0 <= j < |shape.items| ensures Nodes(shape.items[j]) <= Below(shape) && (j != i ==> Nodes(shape.items[j]) !! Nodes(s)) {
      ItemNodes(shape, j);
      assert j != i ==> Nodes(shape.items[j]) !! Nodes(shape.items[i]);
    }
  }

  lemma FieldApart(shape: Shape, k: string, s: Shape, news: set<object>)
    requires shape.ObjNode? && k in shape.fields && Apart(shape)
    requires Nodes(s) <= Nodes(shape.fields[k]) + news && news !! Nodes(shape)
    ensures Apart(shape.(fields := shape.fields[k := s]))
    ensures Nodes(shape.(fields := shape.fields[k := s])) <= Nodes(shape) + news
  {
    forall l | l in shape.fields ensures Nodes(shape.fields[l]) <= Below(shape) && (l != k ==> Nodes(shape.fields[l]) !! Nodes(s)) {
      FieldNodes(shape, l);
      assert l != k ==> Nodes(shape.fields[l]) !! Nodes(shape.fields[k]);
    }
  }

  lemma Widen(a: set<object>, b: set<object>, c: set<object>, more: set<object>, news: set<object>)
    requires a <= b + more && b <= c + news
    ensures a <= c + (news + more)
  {
  }
}
