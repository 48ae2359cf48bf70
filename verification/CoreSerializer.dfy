/** The serializer of error causes and metadata in the core package, with error summaries off: its own depth limit
    (on every value), its own node budget (one per value and one more per object key) and its own cuts. */
module CoreSerializer {
  import opened Utf16
  import opened PersistedSanitizer

  const DEPTH_LIMIT := 8
  const NODE_LIMIT := 256
  const ARRAY_LIMIT := 256
  const STRING_LIMIT := 256

  /** The caller's string rule, and the name given to a value outside JSON (a function, a symbol, a bigint). */
  datatype Context = Context(transform: Str -> Str, foreign: Str)

  datatype Counted<+T> = Counted(value: T, nodes: nat)

  function CauseString(c: Context, s: Str): Str { Bounded(c.transform(s), STRING_LIMIT) }

  function Serialize(c: Context, v: Json, depth: nat, nodes: nat): Counted<Json>
    decreases v, 0
  {
    if depth >= DEPTH_LIMIT then Counted(Text(MAX_DEPTH), nodes)
    else if nodes >= NODE_LIMIT then Counted(Text(MAX_NODES), nodes)
    else match v
      case Text(s) => Counted(Text(CauseString(c, s)), nodes + 1)
      case Unsupported => Counted(Text(CauseString(c, c.foreign)), nodes + 1)
      case Array(items) =>
        var r := SerializeItems(c, if |items| > ARRAY_LIMIT then items[..ARRAY_LIMIT] else items, depth + 1, nodes + 1);
        Counted(Array(r.value + CutMarker(items)), r.nodes)
      case Object(fields) =>
        var r := SerializeFields(c, fields, [], depth + 1, nodes + 1);
        Counted(Object(r.value), r.nodes)
      case _ => Counted(v, nodes + 1)
  }

  function CutMarker(items: seq<Json>): seq<Json> { if |items| > ARRAY_LIMIT then [Text(TRUNCATED)] else [] }

  function SerializeItems(c: Context, items: seq<Json>, depth: nat, nodes: nat): Counted<seq<Json>>
    decreases items
  {
    if items == [] then Counted([], nodes)
    else if nodes >= NODE_LIMIT then Counted([Text(MAX_NODES)], nodes)
    else
      var first := Serialize(c, items[0], depth, nodes);
      var rest := SerializeItems(c, items[1..], depth, first.nodes);
      Counted([first.value] + rest.value, rest.nodes)
  }

  function SerializeFields(c: Context, fields: seq<Field>, out: seq<Field>, depth: nat, nodes: nat): Counted<seq<Field>>
    decreases fields
  {
    if fields == [] then Counted(out, nodes)
    else if nodes >= NODE_LIMIT then Counted(Put(out, TRUNCATED, Text(MAX_NODES)), nodes)
    else if |fields[0].key| > STRING_LIMIT then SerializeFields(c, fields[1..], out, depth, nodes + 1)
    else
      var value := Serialize(c, fields[0].value, depth, nodes + 1);
      SerializeFields(c, fields[1..], Put(out, fields[0].key, value.value), depth, value.nodes)
  }

  // ----- The walk as the code runs it -----

  method SerializeJsonValue(c: Context, v: Json, depth: nat, state: NodeCounter) returns (r: Json)
    modifies state
    ensures Counted(r, state.count) == Serialize(c, v, depth, old(state.count))
    decreases v, 1
  {
    if depth >= DEPTH_LIMIT { return Text(MAX_DEPTH); }
    if state.count >= NODE_LIMIT { return Text(MAX_NODES); }
    state.count := state.count + 1;
    match v
    case Text(s) => return Text(CauseString(c, s));
    case Unsupported => return Text(CauseString(c, c.foreign));
    case Array(items) =>
      var result := SerializeArray(c, if |items| > ARRAY_LIMIT then items[..ARRAY_LIMIT] else items, depth + 1, state);
      return Array(result + CutMarker(items));
    case Object(fields) =>
      var result := SerializeObject(c, fields, depth + 1, state);
      return Object(result);
    case _ => return v;
  }

  method SerializeArray(c: Context, items: seq<Json>, depth: nat, state: NodeCounter) returns (result: seq<Json>)
    modifies state
    ensures Counted(result, state.count) == SerializeItems(c, items, depth, old(state.count))
    decreases items, 0
  {
    result := [];
    ghost var whole := SerializeItems(c, items, depth, state.count);
    assert items[0..] == items && [] + whole.value == whole.value;
    var index := 0;
    while index < |items|
      invariant 0 <= index <= |items|
      invariant var rest := SerializeItems(c, items[index..], depth, state.count);
        whole == Counted(result + rest.value, rest.nodes)
    {
      if state.count >= NODE_LIMIT {
        result := result + [Text(MAX_NODES)];
        return;
      }
      assert items[index..][0] == items[index] && items[index..][1..] == items[index + 1..];
      var item := SerializeJsonValue(c, items[index], depth, state);
      assert forall tail: seq<Json> :: result + ([item] + tail) == (result + [item]) + tail;
      result := result + [item];
      index := index + 1;
    }
    assert result + [] == result;
  }

  method SerializeObject(c: Context, fields: seq<Field>, depth: nat, state: NodeCounter) returns (result: seq<Field>)
    modifies state
    ensures Counted(result, state.count) == SerializeFields(c, fields, [], depth, old(state.count))
    decreases fields, 0
  {
    result := [];
    ghost var whole := SerializeFields(c, fields, [], depth, state.count);
    assert fields[0..] == fields;
    var index := 0;
    while index < |fields|
      invariant 0 <= index <= |fields|
      invariant whole == SerializeFields(c, fields[index..], result, depth, state.count)
    {
      assert fields[index..][0] == fields[index] && fields[index..][1..] == fields[index + 1..];
      if state.count >= NODE_LIMIT {
        result := Put(result, TRUNCATED, Text(MAX_NODES));
        return;
      }
      state.count := state.count + 1;
      var key := fields[index].key;
      if |key| <= STRING_LIMIT {
        var value := SerializeJsonValue(c, fields[index].value, depth, state);
        result := Put(result, key, value);
      }
      index := index + 1;
    }
  }
}
