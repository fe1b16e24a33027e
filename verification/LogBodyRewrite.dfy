/** The methods that rewrite a parsed body in place, proved against Redact and Truncate. */
module LogBodyRewrite {
  import opened Basics
  import opened LogBody
  import opened LogBodyInPlace

  /** The fields of an object while those in `rest` are still to be visited. */
  ghost function Partly(before: map<string, Json>, after: map<string, Json>, rest: set<string>): map<string, Json>
    requires before.Keys == after.Keys
  {
    map k | k in before :: if k in rest then before[k] else after[k]
  }

  lemma PartlyEnds(before: map<string, Json>, after: map<string, Json>)
    requires before.Keys == after.Keys
    ensures Partly(before, after, before.Keys) == before && Partly(before, after, {}) == after
  {
  }

  lemma PartlyStep(before: map<string, Json>, after: map<string, Json>, rest: set<string>, k: string)
    requires before.Keys == after.Keys && k in rest && rest <= before.Keys
    ensures Partly(before, after, rest)[k] == before[k]
    ensures Partly(before, after, rest - {k}) == Partly(before, after, rest)[k := after[k]]
  {
  }

  // ---- Writing one child ----

  method StoreField(node: Object, k: string, item: Value, ghost s: Shape, ghost field: Json, ghost shape: Shape, ghost fields: map<string, Json>)
    requires shape.ObjNode? && shape.node == node && Apart(shape) && k in fields
    requires node.fields.Keys == fields.Keys == shape.fields.Keys
    requires forall l :: l in fields && l != k ==> Holds(node.fields[l], shape.fields[l], fields[l])
    requires Holds(item, s, field) && node !in Nodes(s)
    modifies node
    ensures FieldsHold(shape.(fields := shape.fields[k := s]), fields[k := field])
  {
    node.fields := node.fields[k := item];
    FieldPut(shape, fields, k, s, field);
  }

  method StoreItem(data: array<Value>, i: nat, item: Value, ghost s: Shape, ghost json: Json, ghost shape: Shape, ghost items: seq<Json>)
    requires shape.ArrNode? && shape.data == data && Apart(shape) && i < |items| == |shape.items| <= data.Length
    requires forall j :: 0 <= j < |items| && j != i ==> Holds(data[j], shape.items[j], items[j])
    requires Holds(item, s, json) && data !in Nodes(s)
    modifies data
    ensures ItemsHold(shape.(items := shape.items[i := s]), items[i := json])
  {
    data[i] := item;
    ItemPut(shape, items, i, s, json);
  }

  // ---- Redaction ----

  method RedactValues(v: Value, ghost shape: Shape, ghost json: Json) returns (r: Value, ghost shape': Shape)
    requires Holds(v, shape, json)
    modifies Nodes(shape)
    ensures Holds(r, shape', Redact(json)) && Nodes(shape') <= Nodes(shape)
    decreases shape, 1
  {
    if v.Obj? {
      shape' := RedactObject(v.node, shape, json);
    } else if v.Arr? {
      shape' := RedactArray(v.slice, shape, json);
    } else {
      shape' := Leaf;
    }
    r := v;
  }

  method RedactObject(node: Object, ghost shape: Shape, ghost json: Json) returns (ghost shape': Shape)
    requires json.Obj? && Holds(Value.Obj(node), shape, json)
    modifies Nodes(shape)
    ensures Holds(Value.Obj(node), shape', Redact(json)) && Nodes(shape') <= Nodes(shape)
    decreases shape, 0
  {
    var rest := node.fields.Keys;
    PartlyEnds(json.fields, Redact(json).fields);
    shape' := shape;
    while rest != {}
      invariant shape'.ObjNode? && shape'.node == node && Nodes(shape') <= Nodes(shape) && rest <= json.fields.Keys
      invariant Apart(shape') && FieldsHold(shape', Partly(json.fields, Redact(json).fields, rest))
      invariant forall k :: k in rest ==> k in shape'.fields && shape'.fields[k] == shape.fields[k]
    {
      var k :| k in rest;
      PartlyStep(json.fields, Redact(json).fields, rest, k);
      if Sensitive(k) {
        shape' := BlankField(node, k, shape', Partly(json.fields, Redact(json).fields, rest));
      } else {
        shape' := RedactField(node, k, shape', Partly(json.fields, Redact(json).fields, rest));
      }
      rest := rest - {k};
    }
  }

  method BlankField(node: Object, k: string, ghost shape: Shape, ghost fields: map<string, Json>) returns (ghost shape': Shape)
    requires shape.ObjNode? && shape.node == node && Apart(shape) && FieldsHold(shape, fields) && k in fields
    modifies node
    ensures shape' == shape.(fields := shape.fields[k := Leaf])
    ensures Apart(shape') && FieldsHold(shape', fields[k := REDACTED]) && Nodes(shape') <= Nodes(shape)
  {
    StoreField(node, k, Value.Str("[REDACTED]"), Leaf, REDACTED, shape, fields);
    FieldApart(shape, k, Leaf, {});
    shape' := shape.(fields := shape.fields[k := Leaf]);
  }

  method RedactField(node: Object, k: string, ghost shape: Shape, ghost fields: map<string, Json>) returns (ghost shape': Shape)
    requires shape.ObjNode? && shape.node == node && Apart(shape) && FieldsHold(shape, fields) && k in fields
    modifies node, Nodes(shape.fields[k])
    ensures shape'.ObjNode? && shape'.node == node
    ensures forall l :: l in shape.fields && l != k ==> l in shape'.fields && shape'.fields[l] == shape.fields[l]
    ensures Apart(shape') && FieldsHold(shape', fields[k := Redact(fields[k])]) && Nodes(shape') <= Nodes(shape)
    decreases shape.fields[k], 3
  {
    var item;
    ghost var s;
    item, s := RedactChild(node, k, shape, fields);
    StoreField(node, k, item, s, Redact(fields[k]), shape, fields);
    FieldApart(shape, k, s, {});
    shape' := shape.(fields := shape.fields[k := s]);
  }

  /** Redacts the subtree under one key; its siblings still stand. */
  method RedactChild(node: Object, k: string, ghost shape: Shape, ghost fields: map<string, Json>) returns (item: Value, ghost s: Shape)
    requires shape.ObjNode? && shape.node == node && Apart(shape) && FieldsHold(shape, fields) && k in fields
    modifies Nodes(shape.fields[k])
    ensures node.fields == old(node.fields)
    ensures Nodes(s) <= Nodes(shape.fields[k]) && Holds(item, s, Redact(fields[k]))
    ensures forall l :: l in fields && l != k ==> Holds(node.fields[l], shape.fields[l], fields[l])
    decreases shape.fields[k], 2
  {
    forall l | l in fields ensures forall o :: o in Nodes(shape.fields[l]) ==> allocated(o) {
      NodesAllocated(shape.fields[l]);
    }
    item, s := RedactValues(node.fields[k], shape.fields[k], fields[k]);
    assert forall l :: l in fields && l != k ==> Nodes(shape.fields[l]) !! Nodes(shape.fields[k]);
  }

  method RedactArray(slice: Slice, ghost shape: Shape, ghost json: Json) returns (ghost shape': Shape)
    requires json.Arr? && Holds(Value.Arr(slice), shape, json)
    modifies Nodes(shape)
    ensures Holds(Value.Arr(slice), shape', Redact(json)) && Nodes(shape') <= Nodes(shape)
    decreases shape, 0
  {
    ghost var done := json.items;
    shape' := shape;
    for i := 0 to slice.len
      invariant shape'.ArrNode? && shape'.data == slice.data && Nodes(shape') <= Nodes(shape)
      invariant Apart(shape') && ItemsHold(shape', done) && |done| == slice.len
      invariant forall j :: i <= j < slice.len ==> shape'.items[j] == shape.items[j] && done[j] == json.items[j]
      invariant forall j :: 0 <= j < i ==> done[j] == Redact(json.items[j])
    {
      ghost var s := RedactItem(slice.data, i, shape', done);
      ItemApart(shape', i, s, {});
      shape', done := shape'.(items := shape'.items[i := s]), done[i := Redact(done[i])];
    }
    assert done == Redact(json).items;
  }

  method RedactItem(data: array<Value>, i: nat, ghost shape: Shape, ghost items: seq<Json>) returns (ghost s: Shape)
    requires shape.ArrNode? && shape.data == data && Apart(shape) && ItemsHold(shape, items) && i < |items|
    modifies data, Nodes(shape.items[i])
    ensures Nodes(s) <= Nodes(shape.items[i])
    ensures ItemsHold(shape.(items := shape.items[i := s]), items[i := Redact(items[i])])
    decreases shape.items[i], 2
  {
    forall j | 0 <= j < |items| ensures forall o :: o in Nodes(shape.items[j]) ==> allocated(o) {
      NodesAllocated(shape.items[j]);
    }
    var item;
    item, s := RedactValues(data[i], shape.items[i], items[i]);
    data[i] := item;
    assert forall j :: 0 <= j < |items| && j != i ==> Nodes(shape.items[j]) !! Nodes(shape.items[i]) && data !in Nodes(shape.items[j]);
    assert forall j :: 0 <= j < |items| && j != i ==> Holds(data[j], shape.items[j], items[j]);
    ItemPut(shape, items, i, s, Redact(items[i]));
  }

  // ---- Truncation ----
  //
  // The nodes of the rewritten tree `shape'` are nodes of `shape` and new ones in `news`, which are none of
  // the nodes to `avoid`, any that exist before the call.

  method TruncateArrays(v: Value, ghost shape: Shape, ghost json: Json, ghost avoid: set<object>) returns (r: Value, ghost shape': Shape, ghost news: set<object>)
    requires Holds(v, shape, json)
    modifies Nodes(shape)
    ensures Holds(r, shape', Truncate(json)) && Nodes(shape') <= Nodes(shape) + news && news !! avoid
    decreases shape, 2
  {
    if v.Arr? {
      var slice;
      slice, shape', news := TruncateArray(v.slice, shape, json, avoid);
      r := Value.Arr(slice);
    } else if v.Obj? {
      shape', news := TruncateObject(v.node, shape, json, avoid);
      r := v;
    } else {
      r, shape', news := v, Leaf, {};
    }
  }

  method TruncateObject(node: Object, ghost shape: Shape, ghost json: Json, ghost avoid: set<object>) returns (ghost shape': Shape, ghost news: set<object>)
    requires json.Obj? && Holds(Value.Obj(node), shape, json)
    modifies Nodes(shape)
    ensures Holds(Value.Obj(node), shape', Truncate(json)) && Nodes(shape') <= Nodes(shape) + news && news !! avoid
    decreases shape, 0
  {
    var rest := node.fields.Keys;
    PartlyEnds(json.fields, Truncate(json).fields);
    shape', news := shape, {};
    while rest != {}
      invariant shape'.ObjNode? && shape'.node == node && rest <= json.fields.Keys
      invariant Nodes(shape') <= Nodes(shape) + news && news !! avoid
      invariant Apart(shape') && FieldsHold(shape', Partly(json.fields, Truncate(json).fields, rest))
      invariant forall k :: k in rest ==> k in shape'.fields && shape'.fields[k] == shape.fields[k]
    {
      var k :| k in rest;
      FieldNodes(shape, k);
      ghost var nodes, more := Nodes(shape'), {};
      shape', more := TruncateNextField(node, k, shape', json, rest, avoid);
      Widen(Nodes(shape'), nodes, Nodes(shape), more, news);
      news := news + more;
      rest := rest - {k};
    }
  }

  method TruncateNextField(node: Object, k: string, ghost shape: Shape, ghost json: Json, ghost rest: set<string>, ghost avoid: set<object>)
      returns (ghost shape': Shape, ghost news: set<object>)
    requires json.Obj? && k in rest && rest <= json.fields.Keys
    requires shape.ObjNode? && shape.node == node && k in shape.fields
    requires Apart(shape) && FieldsHold(shape, Partly(json.fields, Truncate(json).fields, rest))
    modifies node, Nodes(shape.fields[k])
    ensures shape'.ObjNode? && shape'.node == node
    ensures forall l :: l in rest - {k} && l in shape.fields ==> l in shape'.fields && shape'.fields[l] == shape.fields[l]
    ensures Apart(shape') && FieldsHold(shape', Partly(json.fields, Truncate(json).fields, rest - {k}))
    ensures Nodes(shape') <= Nodes(shape) + news && news !! avoid
    decreases shape.fields[k], 5
  {
    PartlyStep(json.fields, Truncate(json).fields, rest, k);
    shape', news := TruncateField(node, k, shape, Partly(json.fields, Truncate(json).fields, rest), avoid);
  }

  method TruncateField(node: Object, k: string, ghost shape: Shape, ghost fields: map<string, Json>, ghost avoid: set<object>)
      returns (ghost shape': Shape, ghost news: set<object>)
    requires shape.ObjNode? && shape.node == node && Apart(shape) && FieldsHold(shape, fields) && k in fields
    modifies node, Nodes(shape.fields[k])
    ensures shape'.ObjNode? && shape'.node == node
    ensures forall l :: l in shape.fields && l != k ==> l in shape'.fields && shape'.fields[l] == shape.fields[l]
    ensures Apart(shape') && FieldsHold(shape', fields[k := Truncate(fields[k])])
    ensures Nodes(shape') <= Nodes(shape) + news && news !! avoid
    decreases shape.fields[k], 4
  {
    var item;
    ghost var s;
    item, s, news := TruncateChild(node, k, shape, fields, avoid);
    StoreField(node, k, item, s, Truncate(fields[k]), shape, fields);
    FieldApart(shape, k, s, news);
    shape' := shape.(fields := shape.fields[k := s]);
  }

  method TruncateChild(node: Object, k: string, ghost shape: Shape, ghost fields: map<string, Json>, ghost avoid: set<object>)
      returns (item: Value, ghost s: Shape, ghost news: set<object>)
    requires shape.ObjNode? && shape.node == node && Apart(shape) && FieldsHold(shape, fields) && k in fields
    modifies Nodes(shape.fields[k])
    ensures node.fields == old(node.fields) && node !in Nodes(s)
    ensures Nodes(s) <= Nodes(shape.fields[k]) + news && news !! avoid + Nodes(shape)
    ensures Holds(item, s, Truncate(fields[k]))
    ensures forall l :: l in fields && l != k ==> Holds(node.fields[l], shape.fields[l], fields[l])
    decreases shape.fields[k], 3
  {
    forall l | l in fields ensures forall o :: o in Nodes(shape.fields[l]) ==> allocated(o) {
      NodesAllocated(shape.fields[l]);
    }
    item, s, news := TruncateArrays(node.fields[k], shape.fields[k], fields[k], avoid + Nodes(shape));
    assert forall l :: l in fields && l != k ==> Nodes(shape.fields[l]) !! Nodes(shape.fields[k]);
  }

  method TruncateArray(slice: Slice, ghost shape: Shape, ghost json: Json, ghost avoid: set<object>)
      returns (r: Slice, ghost shape': Shape, ghost news: set<object>)
    requires json.Arr? && Holds(Value.Arr(slice), shape, json)
    modifies Nodes(shape)
    ensures Holds(Value.Arr(r), shape', Truncate(json)) && Nodes(shape') <= Nodes(shape) + news && news !! avoid
    ensures r.data == slice.data
    decreases shape, 1
  {
    ghost var rewritten;
    shape', news, rewritten := TruncateItems(slice, shape, json, avoid);
    if slice.len <= MAX_ARRAY_LOG_ITEMS {
      return slice, shape', news;
    }
    ghost var nodes, more := Nodes(shape'), {};
    r, shape', more := ShortenInPlace(slice, shape', rewritten, avoid);
    Widen(Nodes(shape'), nodes, Nodes(shape), more, news);
    news := news + more;
  }

  method TruncateItems(slice: Slice, ghost shape: Shape, ghost json: Json, ghost avoid: set<object>)
      returns (ghost shape': Shape, ghost news: set<object>, ghost rewritten: seq<Json>)
    requires json.Arr? && Holds(Value.Arr(slice), shape, json)
    modifies Nodes(shape)
    ensures rewritten == seq(|json.items|, i requires 0 <= i < |json.items| => Truncate(json.items[i]))
    ensures Holds(Value.Arr(slice), shape', Json.Arr(rewritten)) && Nodes(shape') <= Nodes(shape) + news && news !! avoid
    decreases shape, 0
  {
    shape', news, rewritten := shape, {}, json.items;
    for i := 0 to slice.len
      invariant shape'.ArrNode? && shape'.data == slice.data && |rewritten| == slice.len
      invariant Nodes(shape') <= Nodes(shape) + news && news !! avoid
      invariant Apart(shape') && ItemsHold(shape', rewritten)
      invariant forall j :: i <= j < slice.len ==> shape'.items[j] == shape.items[j] && rewritten[j] == json.items[j]
      invariant forall j :: 0 <= j < i ==> rewritten[j] == Truncate(json.items[j])
    {
      ItemNodes(shape, i);
      ghost var nodes, more := Nodes(shape'), {};
      shape', more := TruncateItem(slice.data, i, shape', rewritten, avoid);
      Widen(Nodes(shape'), nodes, Nodes(shape), more, news);
      news, rewritten := news + more, rewritten[i := Truncate(rewritten[i])];
    }
  }

  method TruncateItem(data: array<Value>, i: nat, ghost shape: Shape, ghost items: seq<Json>, ghost avoid: set<object>)
      returns (ghost shape': Shape, ghost news: set<object>)
    requires shape.ArrNode? && shape.data == data && Apart(shape) && ItemsHold(shape, items) && i < |items|
    modifies data, Nodes(shape.items[i])
    ensures shape'.ArrNode? && shape'.data == data && |shape'.items| == |shape.items|
    ensures forall j :: 0 <= j < |shape.items| && j != i ==> shape'.items[j] == shape.items[j]
    ensures Apart(shape') && ItemsHold(shape', items[i := Truncate(items[i])])
    ensures Nodes(shape') <= Nodes(shape) + news && news !! avoid
    decreases shape.items[i], 4
  {
    var item;
    ghost var s;
    item, s, news := TruncateElement(data, i, shape, items, avoid);
    StoreItem(data, i, item, s, Truncate(items[i]), shape, items);
    ItemApart(shape, i, s, news);
    shape' := shape.(items := shape.items[i := s]);
  }

  method TruncateElement(data: array<Value>, i: nat, ghost shape: Shape, ghost items: seq<Json>, ghost avoid: set<object>)
      returns (item: Value, ghost s: Shape, ghost news: set<object>)
    requires shape.ArrNode? && shape.data == data && Apart(shape) && ItemsHold(shape, items) && i < |items|
    modifies Nodes(shape.items[i])
    ensures data[..] == old(data[..]) && data !in Nodes(s)
    ensures Nodes(s) <= Nodes(shape.items[i]) + news && news !! avoid + Nodes(shape)
    ensures Holds(item, s, Truncate(items[i]))
    ensures forall j :: 0 <= j < |items| && j != i ==> Holds(data[j], shape.items[j], items[j])
    decreases shape.items[i], 3
  {
    forall j | 0 <= j < |items| ensures forall o :: o in Nodes(shape.items[j]) ==> allocated(o) {
      NodesAllocated(shape.items[j]);
    }
    item, s, news := TruncateArrays(data[i], shape.items[i], items[i], avoid + Nodes(shape));
    assert forall j :: 0 <= j < |items| && j != i ==> Nodes(shape.items[j]) !! Nodes(shape.items[i]);
  }

  /** Go's append: in place while the capacity lasts, otherwise into a new backing array. */
  method Append(slice: Slice, x: Value) returns (r: Slice)
    requires slice.len <= slice.data.Length
    modifies slice.data
    ensures r.len == slice.len + 1 <= r.data.Length
    ensures r.data[..r.len] == old(slice.data[..slice.len]) + [x]
    ensures if slice.len < slice.data.Length then r.data == slice.data && slice.data[..] == old(slice.data[..])[slice.len := x]
            else fresh(r.data) && slice.data[..] == old(slice.data[..])
  {
    if slice.len < slice.data.Length {
      slice.data[slice.len] := x;
      return Slice(slice.data, slice.len + 1);
    }
    var data := new Value[2 * slice.len + 1](_ => Value.Null);
    for i := 0 to slice.len
      invariant data[..i] == slice.data[..i]
      invariant slice.data[..] == old(slice.data[..])
    {
      data[i] := slice.data[i];
    }
    data[slice.len] := x;
    return Slice(data, slice.len + 1);
  }

  /** Both appends write into the backing array itself; the first writes before the last element, which is kept. */
  method ShortenInPlace(slice: Slice, ghost shape: Shape, ghost items: seq<Json>, ghost avoid: set<object>)
      returns (r: Slice, ghost shape': Shape, ghost news: set<object>)
    requires Holds(Value.Arr(slice), shape, Json.Arr(items)) && |items| > MAX_ARRAY_LOG_ITEMS
    modifies slice.data
    ensures Holds(Value.Arr(r), shape', Json.Arr(Shorten(items))) && Nodes(shape') <= Nodes(shape) + news && news !! avoid
    ensures r.data == slice.data && r.len == 7
  {
    NodesAllocated(shape);
    var head := Slice(slice.data, MAX_ARRAY_LOG_ITEMS - 1);
    var marker := new Object(map["..." := Value.Str(Itoa(slice.len - MAX_ARRAY_LOG_ITEMS) + " items truncated")]);
    ghost var mark := ObjNode(marker, map["..." := Leaf]);
    news := {marker};
    assert Nodes(Leaf) == {} && forall k :: k in mark.fields ==> mark.fields[k] == Leaf;
    assert Nodes(mark) == {marker};
    ShortenedApart(shape, mark);
    r := AppendMarkerAndLast(head, marker, slice.len - 1, shape, mark, items);
    shape' := Shortened(shape, mark);
  }

  /** Appends the marker and then the element at `last` of the backing array. */
  method AppendMarkerAndLast(head: Slice, marker: Object, last: nat, ghost shape: Shape, ghost mark: Shape, ghost items: seq<Json>)
      returns (r: Slice)
    requires shape.ArrNode? && shape.data == head.data && head.len == MAX_ARRAY_LOG_ITEMS - 1
    requires Apart(shape) && ItemsHold(shape, items) && last == |items| - 1 >= MAX_ARRAY_LOG_ITEMS
    requires Holds(Value.Obj(marker), mark, Marker(|items| - MAX_ARRAY_LOG_ITEMS)) && head.data !in Nodes(mark)
    modifies head.data
    ensures r == Slice(head.data, 7) && ItemsHold(Shortened(shape, mark), Shorten(items))
  {
    forall j | 0 <= j < |items| ensures forall o :: o in Nodes(shape.items[j]) ==> allocated(o) {
      NodesAllocated(shape.items[j]);
    }
    NodesAllocated(mark);
    ghost var data := head.data;
    var longer := Append(head, Value.Obj(marker));
    r := Append(longer, head.data[last]);
    assert forall j :: 0 <= j < 5 ==> data[j] == old(data[j]);
    assert data[5] == Value.Obj(marker) && data[6] == old(data[last]);
    assert forall j :: 0 <= j < |items| ==> Holds(old(data[j]), shape.items[j], items[j]);
  }

  ghost function Shortened(shape: Shape, mark: Shape): Shape
    requires shape.ArrNode? && |shape.items| > MAX_ARRAY_LOG_ITEMS
  {
    shape.(items := shape.items[..5] + [mark, shape.items[|shape.items| - 1]])
  }

  lemma ShortenedApart(shape: Shape, mark: Shape)
    requires shape.ArrNode? && |shape.items| > MAX_ARRAY_LOG_ITEMS && Apart(shape) && Nodes(mark) !! Nodes(shape)
    ensures Apart(Shortened(shape, mark)) && Nodes(Shortened(shape, mark)) <= Nodes(shape) + Nodes(mark)
  {
    var items := Shortened(shape, mark).items;
    assert forall j :: 0 <= j < 5 ==> items[j] == shape.items[j];
    forall j | 0 <= j < |shape.items| ensures Nodes(shape.items[j]) <= Below(shape) && Nodes(shape.items[j]) !! Nodes(mark) {
      ItemNodes(shape, j);
    }
  }
}
