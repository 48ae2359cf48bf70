/** The budgeted sanitizer of persisted error values: a tree walk that threads one node counter, cuts at a depth
    limit, drops undefined fields, collapses unusable keys and redacts secrets.

    Trees stand for acyclic values; an object is its fields in enumeration order. `Unsupported` is any value the
    sanitizer refuses. A path is secret exactly when one of its keys is, so the walk carries that as a flag. */
module PersistedSanitizer {
  import opened Utf16

  datatype Json =
    | Undefined
    | Null
    | Bool(b: bool)
    | Number(n: real)
    | Text(s: Str)
    | Array(items: seq<Json>)
    | Object(fields: seq<Field>)
    | Unsupported

  datatype Field = Field(key: Str, value: Json)

  /** `redact` and `isSecret` stand for the redaction rules and the secret-name pattern. */
  datatype Options = Options(
    maxDepth: nat, maxNodes: nat, maxString: nat, redactSecrets: bool, redact: Str -> Str, isSecret: Str -> bool)

  /** "[MaxNodes]", "[MaxDepth]", "[REDACTED]" and "[Key omitted]" */
  const MAX_NODES: Str := [0x5B, 0x4D, 0x61, 0x78, 0x4E, 0x6F, 0x64, 0x65, 0x73, 0x5D]
  const MAX_DEPTH: Str := [0x5B, 0x4D, 0x61, 0x78, 0x44, 0x65, 0x70, 0x74, 0x68, 0x5D]
  const REDACTED: Str := [0x5B, 0x52, 0x45, 0x44, 0x41, 0x43, 0x54, 0x45, 0x44, 0x5D]
  const KEY_OMITTED: Str := [0x5B, 0x4B, 0x65, 0x79, 0x20, 0x6F, 0x6D, 0x69, 0x74, 0x74, 0x65, 0x64, 0x5D]

  datatype Walk<+T> = Refused(count: nat) | Done(value: T, count: nat)

  function Clean(o: Options, s: Str): Str { Bounded(o.redact(s), o.maxString) }

  function SafeKey(o: Options, key: Str): Str {
    if |key| > o.maxString then TRUNCATED else Bounded(key, o.maxString)
  }

  /** Defining a property: in place if it exists, else at the end. */
  function Put(fields: seq<Field>, key: Str, value: Json): seq<Field> {
    if fields == [] then [Field(key, value)]
    else if fields[0].key == key then [Field(key, value)] + fields[1..]
    else [fields[0]] + Put(fields[1..], key, value)
  }

  function Sanitize(o: Options, v: Json, secret: bool, depth: nat, count: nat): Walk<Json>
    decreases v, 0
  {
    if count >= o.maxNodes then Done(Text(MAX_NODES), count)
    else match v
      case Null => Done(v, count + 1)
      case Bool(_) => Done(v, count + 1)
      case Number(_) => Done(v, count + 1)
      case Text(s) => Done(Text(if o.redactSecrets && secret then REDACTED else Clean(o, s)), count + 1)
      case Undefined => Done(Undefined, count + 1)
      case Unsupported => Refused(count + 1)
      case Array(items) =>
        if depth >= o.maxDepth then Done(Text(MAX_DEPTH), count + 1)
        else (match SanitizeItems(o, items, secret, depth + 1, count + 1)
              case Refused(n) => Refused(n)
              case Done(out, n) => Done(Array(out), n))
      case Object(fields) =>
        if depth >= o.maxDepth then Done(Text(MAX_DEPTH), count + 1)
        else (match SanitizeFields(o, fields, [], secret, depth + 1, count + 1)
              case Refused(n) => Refused(n)
              case Done(out, n) => Done(Object(out), n))
  }

  function SanitizeItems(o: Options, items: seq<Json>, secret: bool, depth: nat, count: nat): Walk<seq<Json>>
    decreases items
  {
    if items == [] then Done([], count)
    else if count >= o.maxNodes then Done([Text(MAX_NODES)], count)
    else match Sanitize(o, items[0], secret, depth, count)
      case Refused(n) => Refused(n)
      case Done(first, n) =>
        match SanitizeItems(o, items[1..], secret, depth, n)
        case Refused(m) => Refused(m)
        case Done(rest, m) => Done([first] + rest, m)
  }

  function SanitizeFields(
    o: Options, fields: seq<Field>, out: seq<Field>, secret: bool, depth: nat, count: nat): Walk<seq<Field>>
    decreases fields
  {
    if fields == [] then Done(out, count)
    else if count >= o.maxNodes then Done(Put(out, TRUNCATED, Text(MAX_NODES)), count)
    else match NextOut(o, fields[0], out, secret, depth, count)
      case Refused(n) => Refused(n)
      case Done(next, n) => SanitizeFields(o, fields[1..], next, secret, depth, n)
  }

  /** What the loop makes of one field: the properties so far and the count after it. */
  function NextOut(o: Options, f: Field, out: seq<Field>, secret: bool, depth: nat, count: nat): Walk<seq<Field>>
    decreases f
  {
    if Replaced(o, f.key) then Done(Put(out, SafeKey(o, f.key), Text(OmittedValue(o, f.key))), count + 1)
    else if o.redactSecrets && o.isSecret(f.key) then Done(Put(out, f.key, Text(REDACTED)), count + 1)
    else match Sanitize(o, f.value, secret || o.isSecret(f.key), depth, count)
      case Refused(n) => Refused(n)
      case Done(value, n) => Done(if value == Undefined then out else Put(out, f.key, value), n)
  }

  predicate Replaced(o: Options, key: Str) { SafeKey(o, key) != key }

  function OmittedValue(o: Options, key: Str): Str {
    if o.redactSecrets && o.isSecret(key) then REDACTED else KEY_OMITTED
  }

  // ----- The walk as the code runs it, with one shared counter -----

  class NodeCounter {
    var count: nat
    constructor (n: nat) ensures count == n { count := n; }
  }

  datatype ReadResult<+T> = NotOk | Ok(value: T)

  function ResultOf<T>(w: Walk<T>): ReadResult<T> {
    match w case Refused(_) => NotOk case Done(value, _) => Ok(value)
  }

  method SanitizePersistedValue(
    o: Options, v: Json, secret: bool, depth: nat, nodes: NodeCounter) returns (r: ReadResult<Json>)
    modifies nodes
    ensures r == ResultOf(Sanitize(o, v, secret, depth, old(nodes.count)))
    ensures nodes.count == Sanitize(o, v, secret, depth, old(nodes.count)).count
    decreases v, 1
  {
    if nodes.count >= o.maxNodes { return Ok(Text(MAX_NODES)); }
    nodes.count := nodes.count + 1;
    match v
    case Null => return Ok(v);
    case Bool(_) => return Ok(v);
    case Number(_) => return Ok(v);
    case Text(s) => return Ok(Text(if o.redactSecrets && secret then REDACTED else Clean(o, s)));
    case Undefined => return Ok(Undefined);
    case Unsupported => return NotOk;
    case Array(items) =>
      if depth >= o.maxDepth { return Ok(Text(MAX_DEPTH)); }
      var result := SanitizeArray(o, items, secret, depth + 1, nodes);
      return if result.NotOk? then NotOk else Ok(Array(result.value));
    case Object(fields) =>
      if depth >= o.maxDepth { return Ok(Text(MAX_DEPTH)); }
      var result := SanitizeObject(o, fields, secret, depth + 1, nodes);
      return if result.NotOk? then NotOk else Ok(Object(result.value));
  }

  /** A finished prefix in front of the rest of the walk. */
  function After(done: seq<Json>, w: Walk<seq<Json>>): Walk<seq<Json>> {
    match w case Refused(n) => Refused(n) case Done(rest, n) => Done(done + rest, n)
  }

  method SanitizeArray(
    o: Options, items: seq<Json>, secret: bool, depth: nat, nodes: NodeCounter) returns (r: ReadResult<seq<Json>>)
    modifies nodes
    ensures r == ResultOf(SanitizeItems(o, items, secret, depth, old(nodes.count)))
    ensures nodes.count == SanitizeItems(o, items, secret, depth, old(nodes.count)).count
    decreases items, 0
  {
    var out: seq<Json> := [];
    var index := 0;
    ghost var whole := SanitizeItems(o, items, secret, depth, nodes.count);
    assert items[0..] == items;
    assert whole == After(out, whole) by { if whole.Done? { assert [] + whole.value == whole.value; } }
    while index < |items|
      invariant 0 <= index <= |items|
      invariant whole == After(out, SanitizeItems(o, items[index..], secret, depth, nodes.count))
    {
      if nodes.count >= o.maxNodes {
        out := out + [Text(MAX_NODES)];
        return Ok(out);
      }
      assert items[index..][0] == items[index] && items[index..][1..] == items[index + 1..];
      ghost var rest := items[index..];
      var item := SanitizePersistedValue(o, items[index], secret, depth, nodes);
      if item.NotOk? { return NotOk; }
      assert forall tail: seq<Json> :: out + ([item.value] + tail) == (out + [item.value]) + tail;
      out := out + [item.value];
      index := index + 1;
    }
    assert out + [] == out;
    return Ok(out);
  }

  method SanitizeObject(
    o: Options, fields: seq<Field>, secret: bool, depth: nat, nodes: NodeCounter) returns (r: ReadResult<seq<Field>>)
    modifies nodes
    ensures r == ResultOf(SanitizeFields(o, fields, [], secret, depth, old(nodes.count)))
    ensures nodes.count == SanitizeFields(o, fields, [], secret, depth, old(nodes.count)).count
    decreases fields, 0
  {
    var out: seq<Field> := [];
    var index := 0;
    ghost var whole := SanitizeFields(o, fields, [], secret, depth, nodes.count);
    assert fields[0..] == fields;
    while index < |fields|
      invariant 0 <= index <= |fields|
      invariant whole == SanitizeFields(o, fields[index..], out, secret, depth, nodes.count)
    {
      assert fields[index..][0] == fields[index] && fields[index..][1..] == fields[index + 1..];
      if nodes.count >= o.maxNodes {
        out := Put(out, TRUNCATED, Text(MAX_NODES));
        return Ok(out);
      }
      var next := SanitizeField(o, fields[index], out, secret, depth, nodes);
      if next.NotOk? { return NotOk; }
      out := next.value;
      index := index + 1;
    }
    return Ok(out);
  }

  /** The body of the loop over an object's keys. */
  method SanitizeField(
    o: Options, f: Field, out: seq<Field>, secret: bool, depth: nat,
    nodes: NodeCounter) returns (r: ReadResult<seq<Field>>)
    modifies nodes
    ensures r == ResultOf(NextOut(o, f, out, secret, depth, old(nodes.count)))
    ensures nodes.count == NextOut(o, f, out, secret, depth, old(nodes.count)).count
    decreases f, 0
  {
    var safeKey := SafeKey(o, f.key);
    if safeKey != f.key {
      nodes.count := nodes.count + 1;
      return Ok(Put(out, safeKey, Text(OmittedValue(o, f.key))));
    }
    if o.redactSecrets && o.isSecret(f.key) {
      nodes.count := nodes.count + 1;
      return Ok(Put(out, safeKey, Text(REDACTED)));
    }
    var nested := SanitizePersistedValue(o, f.value, secret || o.isSecret(f.key), depth, nodes);
    if nested.NotOk? { return NotOk; }
    return Ok(if nested.value == Undefined then out else Put(out, f.key, nested.value));
  }
}
