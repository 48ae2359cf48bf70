/** What the sanitizer's two budgets bound, and why its output passes through the core serializer untouched. */
module SanitizerSize {
  import opened Utf16
  import opened PersistedSanitizer
  import opened SanitizerFixpoint
  import opened CoreSerializer

  /** The number of values in a tree. */
  function Nodes(w: Json): nat
    decreases w
  {
    match w
    case Array(items) => 1 + NodesOfItems(items)
    case Object(fields) => 1 + NodesOfFields(fields)
    case _ => 1
  }

  function NodesOfItems(items: seq<Json>): nat
    decreases items
  {
    if items == [] then 0 else Nodes(items[0]) + NodesOfItems(items[1..])
  }

  function NodesOfFields(fields: seq<Field>): nat
    decreases fields
  {
    if fields == [] then 0 else Nodes(fields[0].value) + NodesOfFields(fields[1..])
  }

  /** Markers are free of charge, and one can be left behind on each level once the budget is gone. */
  function Slack(o: Options, levels: nat, count: nat): nat { if count >= o.maxNodes then levels else 0 }

  /** A value at this depth has at most so many levels of containers that the depth limit lets through. */
  ghost predicate Low(o: Options, v: Json, depth: nat, levels: nat)
    decreases v
  {
    match v
    case Array(items) =>
      depth < o.maxDepth ==> 0 < levels && forall i :: 0 <= i < |items| ==> Low(o, items[i], depth + 1, levels - 1)
    case Object(fields) => depth < o.maxDepth ==> 0 < levels && LowFields(o, fields, depth + 1, levels - 1)
    case _ => true
  }

  ghost predicate LowFields(o: Options, fields: seq<Field>, depth: nat, levels: nat)
    decreases fields
  {
    forall i :: 0 <= i < |fields| ==> Low(o, fields[i].value, depth, levels)
  }

  lemma {:induction false} LimitIsLow(o: Options, v: Json, depth: nat, levels: nat)
    requires o.maxDepth <= depth + levels
    ensures Low(o, v, depth, levels)
    decreases v, 0
  {
    match v
    case Array(items) =>
      if depth < o.maxDepth {
        forall i | 0 <= i < |items| ensures Low(o, items[i], depth + 1, levels - 1) {
          LimitIsLow(o, items[i], depth + 1, levels - 1);
        }
      }
    case Object(fields) =>
      if depth < o.maxDepth {
        forall i | 0 <= i < |fields| ensures Low(o, fields[i].value, depth + 1, levels - 1) {
          LimitIsLow(o, fields[i].value, depth + 1, levels - 1);
        }
      }
    case _ =>
  }

  lemma {:induction false} NodesOfPut(fields: seq<Field>, key: Str, value: Json)
    ensures NodesOfFields(Put(fields, key, value)) <= NodesOfFields(fields) + Nodes(value)
  {
    if fields == [] {
      assert [Field(key, value)][1..] == [];
    } else if fields[0].key == key {
      assert ([Field(key, value)] + fields[1..])[1..] == fields[1..];
    } else {
      NodesOfPut(fields[1..], key, value);
      assert ([fields[0]] + Put(fields[1..], key, value))[1..] == Put(fields[1..], key, value);
    }
  }

  lemma {:induction false} SizeOfValue(o: Options, v: Json, secret: bool, depth: nat, count: nat, levels: nat)
    requires count < o.maxNodes && Low(o, v, depth, levels) && Sanitize(o, v, secret, depth, count).Done?
    ensures var r := Sanitize(o, v, secret, depth, count);
      r.count <= o.maxNodes && Nodes(r.value) <= r.count - count + Slack(o, levels, r.count)
    decreases v, 0
  {
    match v
    case Array(items) =>
      if depth < o.maxDepth { SizeOfItems(o, items, secret, depth + 1, count + 1, levels - 1); }
    case Object(fields) =>
      if depth < o.maxDepth { SizeOfFields(o, fields, [], secret, depth + 1, count + 1, count + 1, levels - 1); }
    case _ =>
  }

  lemma {:induction false} SizeOfItems(o: Options, items: seq<Json>, secret: bool, depth: nat, count: nat, levels: nat)
    requires count <= o.maxNodes && SanitizeItems(o, items, secret, depth, count).Done?
    requires forall i :: 0 <= i < |items| ==> Low(o, items[i], depth, levels)
    ensures var r := SanitizeItems(o, items, secret, depth, count);
      && count <= r.count <= o.maxNodes
      && NodesOfItems(r.value) <= r.count - count + Slack(o, levels + 1, r.count)
    decreases items
  {
    if items != [] {
      if count >= o.maxNodes {
        assert [Text(MAX_NODES)][1..] == [];
      } else {
        SizeOfValue(o, items[0], secret, depth, count, levels);
        var first := Sanitize(o, items[0], secret, depth, count);
        SizeOfItems(o, items[1..], secret, depth, first.count, levels);
        var rest := SanitizeItems(o, items[1..], secret, depth, first.count);
        assert ([first.value] + rest.value)[1..] == rest.value;
        if first.count == o.maxNodes { OneMarkerAtMost(o, items[1..], secret, depth, first.count); }
      }
    }
  }

  lemma OneMarkerAtMost(o: Options, items: seq<Json>, secret: bool, depth: nat, count: nat)
    requires count >= o.maxNodes
    ensures var r := SanitizeItems(o, items, secret, depth, count);
      r.Done? && r.count == count && NodesOfItems(r.value) <= 1
  {
    assert [Text(MAX_NODES)][1..] == [];
  }

  /** `start` is the count with which the object's walk began; what is built so far is paid for, apart from the
      markers inside the field that used up the budget. */
  lemma {:induction false} SizeOfFields(
    o: Options, fields: seq<Field>, out: seq<Field>, secret: bool, depth: nat, start: nat, count: nat, levels: nat)
    requires start <= count <= o.maxNodes && LowFields(o, fields, depth, levels)
    requires NodesOfFields(out) <= count - start + Slack(o, levels, count)
    requires SanitizeFields(o, fields, out, secret, depth, count).Done?
    ensures var r := SanitizeFields(o, fields, out, secret, depth, count);
      && count <= r.count <= o.maxNodes
      && NodesOfFields(r.value) <= r.count - start + Slack(o, levels + 1, r.count)
    decreases fields
  {
    if fields != [] {
      if count >= o.maxNodes {
        NodesOfPut(out, TRUNCATED, Text(MAX_NODES));
      } else {
        NextIsPaidFor(o, fields[0], out, secret, depth, start, count, levels);
        var next := NextOut(o, fields[0], out, secret, depth, count);
        SizeOfFields(o, fields[1..], next.value, secret, depth, start, next.count, levels);
      }
    }
  }

  lemma NextIsPaidFor(
    o: Options, f: Field, out: seq<Field>, secret: bool, depth: nat, start: nat, count: nat, levels: nat)
    requires start <= count < o.maxNodes && Low(o, f.value, depth, levels) && NodesOfFields(out) <= count - start
    requires NextOut(o, f, out, secret, depth, count).Done?
    ensures var next := NextOut(o, f, out, secret, depth, count);
      && count < next.count <= o.maxNodes
      && NodesOfFields(next.value) <= next.count - start + Slack(o, levels, next.count)
    decreases f.value, 1
  {
    if Replaced(o, f.key) {
      NodesOfPut(out, SafeKey(o, f.key), Text(OmittedValue(o, f.key)));
    } else if o.redactSecrets && o.isSecret(f.key) {
      NodesOfPut(out, f.key, Text(REDACTED));
    } else {
      var nested := secret || o.isSecret(f.key);
      SizeOfValue(o, f.value, nested, depth, count, levels);
      WalkCounts(o, f.value, nested, depth, count);
      NodesOfPut(out, f.key, Sanitize(o, f.value, nested, depth, count).value);
    }
  }

  /** A walk that had budget uses some of it. */
  lemma {:induction false} WalkCounts(o: Options, v: Json, secret: bool, depth: nat, count: nat)
    requires count < o.maxNodes
    ensures count < Sanitize(o, v, secret, depth, count).count
    decreases v, 0
  {
    match v
    case Array(items) => ItemsCount(o, items, secret, depth + 1, count + 1);
    case Object(fields) => FieldsCount(o, fields, [], secret, depth + 1, count + 1);
    case _ =>
  }

  lemma {:induction false} ItemsCount(o: Options, items: seq<Json>, secret: bool, depth: nat, count: nat)
    ensures count <= SanitizeItems(o, items, secret, depth, count).count
    decreases items
  {
    if items != [] && count < o.maxNodes {
      WalkCounts(o, items[0], secret, depth, count);
      ItemsCount(o, items[1..], secret, depth, Sanitize(o, items[0], secret, depth, count).count);
    }
  }

  lemma {:induction false} FieldsCount(
    o: Options, fields: seq<Field>, out: seq<Field>, secret: bool, depth: nat, count: nat)
    ensures count <= SanitizeFields(o, fields, out, secret, depth, count).count
    decreases fields
  {
    if fields != [] && count < o.maxNodes {
      WalkCounts(o, fields[0].value, secret || o.isSecret(fields[0].key), depth, count);
      var next := NextOut(o, fields[0], out, secret, depth, count);
      if next.Done? { FieldsCount(o, fields[1..], next.value, secret, depth, next.count); }
    }
  }

  /** Both budgets together bound the output, whatever the input. */
  lemma SanitizedSize(o: Options, v: Json, secret: bool)
    requires 0 < o.maxNodes && Sanitize(o, v, secret, 0, 0).Done?
    ensures Nodes(Sanitize(o, v, secret, 0, 0).value) <= o.maxNodes + o.maxDepth
  {
    LimitIsLow(o, v, 0, o.maxDepth);
    SizeOfValue(o, v, secret, 0, 0, o.maxDepth);
  }

  // ----- The core serializer leaves it alone -----

  /** Strings the core serializer would not change. */
  ghost predicate TextKept(c: Context, s: Str) { c.transform(s) == s && WellFormed(s) && |s| <= STRING_LIMIT }

  /** Everything but the node budget: depth, strings, keys. `depth` counts from the root. */
  ghost predicate Plain(c: Context, w: Json, depth: nat)
    decreases w
  {
    && depth < DEPTH_LIMIT
    && match w
       case Text(s) => TextKept(c, s)
       case Array(items) => forall i :: 0 <= i < |items| ==> Plain(c, items[i], depth + 1)
       case Object(fields) => Distinct(fields) && PlainFields(c, fields, depth + 1)
       case Unsupported => false
       case _ => true
  }

  ghost predicate PlainFields(c: Context, fields: seq<Field>, depth: nat)
    decreases fields
  {
    forall i :: 0 <= i < |fields| ==> |fields[i].key| <= STRING_LIMIT && Plain(c, fields[i].value, depth)
  }

  /** The core serializer's price of a tree: keys are charged as well. */
  function Price(w: Json): nat
    decreases w
  {
    match w
    case Array(items) => 1 + PriceOfItems(items)
    case Object(fields) => 1 + PriceOfFields(fields)
    case _ => 1
  }

  function PriceOfItems(items: seq<Json>): nat
    decreases items
  {
    if items == [] then 0 else Price(items[0]) + PriceOfItems(items[1..])
  }

  function PriceOfFields(fields: seq<Field>): nat
    decreases fields
  {
    if fields == [] then 0 else 1 + Price(fields[0].value) + PriceOfFields(fields[1..])
  }

  lemma {:induction false} PriceIsAtMostDouble(w: Json)
    ensures 1 <= Nodes(w) && Price(w) <= 2 * Nodes(w) - 1
    decreases w
  {
    match w
    case Array(items) => PriceOfItemsIsAtMostDouble(items);
    case Object(fields) => PriceOfFieldsIsAtMostDouble(fields);
    case _ =>
  }

  lemma {:induction false} PriceOfItemsIsAtMostDouble(items: seq<Json>)
    ensures |items| <= NodesOfItems(items) && PriceOfItems(items) <= 2 * NodesOfItems(items)
    decreases items
  {
    if items != [] { PriceIsAtMostDouble(items[0]); PriceOfItemsIsAtMostDouble(items[1..]); }
  }

  lemma {:induction false} PriceOfFieldsIsAtMostDouble(fields: seq<Field>)
    ensures PriceOfFields(fields) <= 2 * NodesOfFields(fields)
    decreases fields
  {
    if fields != [] { PriceIsAtMostDouble(fields[0].value); PriceOfFieldsIsAtMostDouble(fields[1..]); }
  }

  /** A plain tree whose price is still within the budget is returned unchanged. */
  lemma {:induction false} PlainIsSerializedUnchanged(c: Context, w: Json, depth: nat, nodes: nat)
    requires Plain(c, w, depth) && nodes + Price(w) <= NODE_LIMIT
    ensures Serialize(c, w, depth, nodes) == Counted(w, nodes + Price(w))
    decreases w, 0
  {
    match w
    case Text(s) => BoundedString(s, STRING_LIMIT);
    case Array(items) =>
      PriceOfItemsIsAtMostDouble(items);
      LengthWithinPrice(items);
      PlainItemsUnchanged(c, items, depth + 1, nodes + 1);
      assert items + [] == items;
    case Object(fields) =>
      assert fields[..0] == [] && fields[0..] == fields;
      PlainFieldsUnchanged(c, fields, 0, depth + 1, nodes + 1);
    case _ =>
  }

  lemma {:induction false} LengthWithinPrice(items: seq<Json>)
    ensures |items| <= PriceOfItems(items)
    decreases items
  {
    if items != [] { LengthWithinPrice(items[1..]); assert Price(items[0]) >= 1; }
  }

  lemma {:induction false} PlainItemsUnchanged(c: Context, items: seq<Json>, depth: nat, nodes: nat)
    requires (forall i :: 0 <= i < |items| ==> Plain(c, items[i], depth)) && nodes + PriceOfItems(items) <= NODE_LIMIT
    ensures SerializeItems(c, items, depth, nodes) == Counted(items, nodes + PriceOfItems(items))
    decreases items
  {
    if items != [] {
      assert Price(items[0]) >= 1;
      PlainIsSerializedUnchanged(c, items[0], depth, nodes);
      PlainItemsUnchanged(c, items[1..], depth, nodes + Price(items[0]));
      assert [items[0]] + items[1..] == items;
    }
  }

  lemma {:induction false} FirstFieldUnchanged(
    c: Context, fields: seq<Field>, f: Field, rest: seq<Field>, out: seq<Field>, depth: nat, nodes: nat, after: nat)
    requires fields == [f] + rest && nodes < NODE_LIMIT && |f.key| <= STRING_LIMIT && !HasKey(out, f.key)
    requires Serialize(c, f.value, depth, nodes + 1) == Counted(f.value, after)
    ensures SerializeFields(c, fields, out, depth, nodes) == SerializeFields(c, rest, out + [f], depth, after)
  {
    assert fields[0] == f && fields[1..] == rest;
    PutAppends(out, f.key, f.value);
  }

  lemma {:induction false} PlainFieldsUnchanged(c: Context, fields: seq<Field>, n: nat, depth: nat, nodes: nat)
    requires n <= |fields| && Distinct(fields) && PlainFields(c, fields, depth)
    requires nodes + PriceOfFields(fields[n..]) <= NODE_LIMIT
    ensures SerializeFields(c, fields[n..], fields[..n], depth, nodes) ==
      Counted(fields, nodes + PriceOfFields(fields[n..]))
    decreases fields, |fields| - n
  {
    if n == |fields| {
      assert fields[..n] == fields;
    } else {
      var f, after := fields[n], nodes + 1 + Price(fields[n].value);
      assert fields[n..] == [f] + fields[n + 1..] && fields[..n + 1] == fields[..n] + [f];
      PriceOfFirst(f, fields[n + 1..]);
      PlainIsSerializedUnchanged(c, f.value, depth, nodes + 1);
      assert !HasKey(fields[..n], f.key);
      FirstFieldUnchanged(c, fields[n..], f, fields[n + 1..], fields[..n], depth, nodes, after);
      PlainFieldsUnchanged(c, fields, n + 1, depth, after);
    }
  }

  lemma {:induction false} PriceOfFirst(f: Field, rest: seq<Field>)
    ensures PriceOfFields([f] + rest) == 1 + Price(f.value) + PriceOfFields(rest)
  {
    assert ([f] + rest)[1..] == rest;
  }

  /** The caller's string rule has nothing to do on what the sanitizer writes. */
  ghost predicate Agrees(c: Context, o: Options) {
    && |KEY_OMITTED| <= o.maxString <= STRING_LIMIT
    && (forall s: Str :: c.transform(Clean(o, s)) == Clean(o, s))
    && c.transform(MAX_NODES) == MAX_NODES && c.transform(MAX_DEPTH) == MAX_DEPTH
    && c.transform(REDACTED) == REDACTED && c.transform(KEY_OMITTED) == KEY_OMITTED
  }

  lemma MarkersAreKept(c: Context, o: Options)
    requires Agrees(c, o)
    ensures TextKept(c, MAX_NODES) && TextKept(c, MAX_DEPTH) && TextKept(c, REDACTED) && TextKept(c, KEY_OMITTED)
    ensures |TRUNCATED| <= STRING_LIMIT
  {
    NoSurrogates(MAX_NODES);
    NoSurrogates(MAX_DEPTH);
    NoSurrogates(REDACTED);
    NoSurrogates(KEY_OMITTED);
  }

  lemma KeyFits(o: Options, key: Str)
    requires |TRUNCATED| <= o.maxString
    ensures |SafeKey(o, key)| <= o.maxString
  {
    BoundedString(key, o.maxString);
  }

  /** What is no container, is too deep, or comes when the budget is exhausted. */
  lemma {:induction false} SanitizedLeafIsPlain(c: Context, o: Options, v: Json, secret: bool, depth: nat, count: nat)
    requires Agrees(c, o) && depth <= o.maxDepth < DEPTH_LIMIT && Sanitize(o, v, secret, depth, count).Done?
    requires v.Array? || v.Object? ==> count >= o.maxNodes || depth >= o.maxDepth
    ensures Plain(c, Sanitize(o, v, secret, depth, count).value, depth)
  {
    MarkersAreKept(c, o);
    if v.Text? { BoundedString(o.redact(v.s), o.maxString); }
  }

  lemma {:induction false} SanitizedIsPlain(c: Context, o: Options, v: Json, secret: bool, depth: nat, count: nat)
    requires Agrees(c, o) && depth <= o.maxDepth < DEPTH_LIMIT && Sanitize(o, v, secret, depth, count).Done?
    ensures Plain(c, Sanitize(o, v, secret, depth, count).value, depth)
    decreases v, 0
  {
    if (v.Array? || v.Object?) && count < o.maxNodes && depth < o.maxDepth {
      match v
      case Array(items) => SanitizedItemsArePlain(c, o, items, secret, depth + 1, count + 1);
      case Object(fields) => SanitizedFieldsArePlain(c, o, fields, [], secret, depth + 1, count + 1);
    } else {
      SanitizedLeafIsPlain(c, o, v, secret, depth, count);
    }
  }

  lemma {:induction false} SanitizedItemsArePlain(
    c: Context, o: Options, items: seq<Json>, secret: bool, depth: nat, count: nat)
    requires Agrees(c, o) && depth <= o.maxDepth < DEPTH_LIMIT && SanitizeItems(o, items, secret, depth, count).Done?
    ensures var out := SanitizeItems(o, items, secret, depth, count).value;
      forall i :: 0 <= i < |out| ==> Plain(c, out[i], depth)
    decreases items
  {
    MarkersAreKept(c, o);
    if items != [] && count < o.maxNodes {
      SanitizedIsPlain(c, o, items[0], secret, depth, count);
      SanitizedItemsArePlain(c, o, items[1..], secret, depth, Sanitize(o, items[0], secret, depth, count).count);
    }
  }

  ghost predicate PlainSoFar(c: Context, out: seq<Field>, depth: nat) {
    Distinct(out) && PlainFields(c, out, depth)
  }

  lemma PutKeepsPlain(c: Context, out: seq<Field>, f: Field, depth: nat)
    requires PlainSoFar(c, out, depth) && |f.key| <= STRING_LIMIT && Plain(c, f.value, depth)
    ensures PlainSoFar(c, Put(out, f.key, f.value), depth)
  {
    PutField(out, f);
    var r := Put(out, f.key, f.value);
    forall i | 0 <= i < |r| ensures |r[i].key| <= STRING_LIMIT && Plain(c, r[i].value, depth) {
      assert r[i] in r;
      if r[i] != f { var j :| 0 <= j < |out| && out[j] == r[i]; }
    }
  }

  lemma {:induction false} SanitizedFieldsArePlain(
    c: Context, o: Options, fields: seq<Field>, out: seq<Field>, secret: bool, depth: nat, count: nat)
    requires Agrees(c, o) && depth <= o.maxDepth < DEPTH_LIMIT && PlainSoFar(c, out, depth)
    requires SanitizeFields(o, fields, out, secret, depth, count).Done?
    ensures PlainSoFar(c, SanitizeFields(o, fields, out, secret, depth, count).value, depth)
    decreases fields
  {
    MarkersAreKept(c, o);
    if fields != [] {
      if count >= o.maxNodes {
        PutKeepsPlain(c, out, Field(TRUNCATED, Text(MAX_NODES)), depth);
      } else {
        NextIsPlain(c, o, fields[0], out, secret, depth, count);
        var next := NextOut(o, fields[0], out, secret, depth, count);
        SanitizedFieldsArePlain(c, o, fields[1..], next.value, secret, depth, next.count);
      }
    }
  }

  lemma NextIsPlain(c: Context, o: Options, f: Field, out: seq<Field>, secret: bool, depth: nat, count: nat)
    requires Agrees(c, o) && depth <= o.maxDepth < DEPTH_LIMIT && PlainSoFar(c, out, depth) && count < o.maxNodes
    requires NextOut(o, f, out, secret, depth, count).Done?
    ensures PlainSoFar(c, NextOut(o, f, out, secret, depth, count).value, depth)
    decreases f.value, 1
  {
    MarkersAreKept(c, o);
    KeyFits(o, f.key);
    if Replaced(o, f.key) {
      PutKeepsPlain(c, out, Field(SafeKey(o, f.key), Text(OmittedValue(o, f.key))), depth);
    } else if o.redactSecrets && o.isSecret(f.key) {
      PutKeepsPlain(c, out, Field(f.key, Text(REDACTED)), depth);
    } else {
      var nested := secret || o.isSecret(f.key);
      SanitizedIsPlain(c, o, f.value, nested, depth, count);
      PutKeepsPlain(c, out, Field(f.key, Sanitize(o, f.value, nested, depth, count).value), depth);
    }
  }

  /** Persisted output fits inside the core serializer's budget although that one charges keys as well: the two
      limits compose whenever twice the size bound does not exceed the budget. */
  lemma CoreLeavesPersistedAlone(c: Context, o: Options, v: Json)
    requires Agrees(c, o) && 0 < o.maxNodes && o.maxDepth < DEPTH_LIMIT
    requires 2 * (o.maxNodes + o.maxDepth) - 1 <= NODE_LIMIT
    requires Sanitize(o, v, false, 0, 0).Done?
    ensures var w := Sanitize(o, v, false, 0, 0).value; Serialize(c, w, 0, 0).value == w
  {
    var w := Sanitize(o, v, false, 0, 0).value;
    SanitizedSize(o, v, false);
    SanitizedIsPlain(c, o, v, false, 0, 0);
    PriceIsAtMostDouble(w);
    PlainIsSerializedUnchanged(c, w, 0, 0);
  }

  /** The limits of persisted error metadata. */
  function PersistedOptions(redactSecrets: bool, redact: Str -> Str, isSecret: Str -> bool): Options {
    Options(6, 100, 256, redactSecrets, redact, isSecret)
  }

  lemma CoreLeavesPersistedMetadataAlone(
    redactSecrets: bool, redact: Str -> Str, isSecret: Str -> bool, foreign: Str, v: Json)
    requires Sanitize(PersistedOptions(redactSecrets, redact, isSecret), v, false, 0, 0).Done?
    ensures var w := Sanitize(PersistedOptions(redactSecrets, redact, isSecret), v, false, 0, 0).value;
      Nodes(w) <= 106 && Serialize(Context((s: Str) => s, foreign), w, 0, 0).value == w
  {
    var o := PersistedOptions(redactSecrets, redact, isSecret);
    SanitizedSize(o, v, false);
    CoreLeavesPersistedAlone(Context((s: Str) => s, foreign), o, v);
  }
}
