/** When sanitizing twice is sanitizing once.

    A later key may capture the name that an unusable key has collapsed to; its value then stands in an earlier place,
    where the markers that cut it are no longer free. That does no harm while there is budget over, or while the value
    has gained at most one marker, which the property that it replaces pays for. */
module SanitizerIdempotence {
  import opened Utf16
  import opened PersistedSanitizer
  import opened SanitizerFixpoint
  import opened SanitizerSize

  // ----- The properties written so far -----

  /** Every element was reached with budget left. */
  ghost predicate AllCounted(o: Options, fields: seq<Field>, count: nat)
    decreases fields
  {
    fields == [] || (count < o.maxNodes && AllCounted(o, fields[1..], End(o, fields[0].value, count)))
  }

  lemma {:induction false} AllCountedFromLess(o: Options, fields: seq<Field>, depth: nat, count: nat, less: nat)
    requires Lawful(o) && FixedFields(o, fields, depth, count) && AllCounted(o, fields, count) && less <= count
    ensures AllCounted(o, fields, less)
    decreases fields
  {
    if fields != [] {
      FixedFromLess(o, fields[0].value, depth, count, less);
      AllCountedFromLess(o, fields[1..], depth, End(o, fields[0].value, count), End(o, fields[0].value, less));
    }
  }

  /** Adding a field at the end, as an ordinary one or as the marker of an exhausted budget. */
  lemma {:induction false} AppendKeepsFixed(o: Options, fields: seq<Field>, f: Field, depth: nat, count: nat)
    requires Lawful(o) && FixedFields(o, fields, depth, count) && AllCounted(o, fields, count)
    requires var end := EndFields(o, fields, count);
      if end < o.maxNodes then FieldOk(o, f) && Fixed(o, f.value, depth, end)
      else f == Field(TRUNCATED, Text(MAX_NODES))
    ensures FixedFields(o, fields + [f], depth, count)
    ensures var end := EndFields(o, fields, count);
      && EndFields(o, fields + [f], count) == (if end < o.maxNodes then End(o, f.value, end) else end)
      && (end < o.maxNodes ==> AllCounted(o, fields + [f], count))
    decreases fields
  {
    if fields == [] {
      assert fields + [f] == [f] && [f][1..] == [];
    } else {
      assert (fields + [f])[0] == fields[0] && (fields + [f])[1..] == fields[1..] + [f];
      AppendKeepsFixed(o, fields[1..], f, depth, End(o, fields[0].value, count));
    }
  }

  /** Overwriting a field by a leaf costs no more than what it replaces. */
  lemma {:induction false} OverwriteKeepsFixed(o: Options, fields: seq<Field>, f: Field, depth: nat, count: nat)
    requires Lawful(o) && FixedFields(o, fields, depth, count) && AllCounted(o, fields, count) && HasKey(fields, f.key)
    requires FieldOk(o, f) && IsLeaf(f.value) && (f.value.Text? ==> Clean(o, f.value.s) == f.value.s)
    ensures var r := Put(fields, f.key, f.value);
      && FixedFields(o, r, depth, count) && AllCounted(o, r, count)
      && EndFields(o, r, count) <= EndFields(o, fields, count)
    decreases fields
  {
    var r, end := Put(fields, f.key, f.value), End(o, fields[0].value, count);
    if fields[0].key == f.key {
      EndGrows(o, fields[0].value, count);
      FixedFieldsFromLess(o, fields[1..], depth, end, count + 1);
      AllCountedFromLess(o, fields[1..], depth, end, count + 1);
      assert r[0] == f && r[1..] == fields[1..] && End(o, f.value, count) == count + 1;
      assert Fixed(o, r[0].value, depth, count);
    } else {
      assert HasKey(fields[1..], f.key) by {
        var i :| 0 <= i < |fields| && fields[i].key == f.key;
        assert fields[1..][i - 1].key == f.key;
      }
      OverwriteKeepsFixed(o, fields[1..], f, depth, end);
      assert r[0] == fields[0] && r[1..] == Put(fields[1..], f.key, f.value);
    }
  }

  /** What a walk over fields has built so far, having started from `start`. */
  ghost predicate Building(o: Options, out: seq<Field>, depth: nat, start: nat, count: nat) {
    && FixedFields(o, out, depth, start) && AllCounted(o, out, start) && EndFields(o, out, start) <= count
    && Distinct(out) && forall f :: f in out ==> DistinctKeys(f.value)
  }

  /** One property written while there was budget; a container only under a key that is new. */
  lemma PutKeepsBuilding(o: Options, out: seq<Field>, f: Field, depth: nat, start: nat, count: nat, after: nat)
    requires Lawful(o) && Building(o, out, depth, start, count) && count < o.maxNodes
    requires FieldOk(o, f) && DistinctKeys(f.value) && Fixed(o, f.value, depth, count)
    requires End(o, f.value, count) <= after
    requires IsLeaf(f.value) || !HasKey(out, f.key)
    ensures Building(o, Put(out, f.key, f.value), depth, start, after)
  {
    PutField(out, f);
    EndGrows(o, f.value, count);
    if HasKey(out, f.key) {
      OverwriteKeepsFixed(o, out, f, depth, start);
    } else {
      PutAppends(out, f.key, f.value);
      FixedFromLess(o, f.value, depth, count, EndFields(o, out, start));
      AppendKeepsFixed(o, out, f, depth, start);
    }
  }

  /** The last marker, written when the budget is gone. */
  lemma MarkerKeepsFixed(o: Options, out: seq<Field>, depth: nat, start: nat, count: nat)
    requires Lawful(o) && Building(o, out, depth, start, count) && count >= o.maxNodes
    ensures var r := Put(out, TRUNCATED, Text(MAX_NODES));
      && FixedFields(o, r, depth, start) && EndFields(o, r, start) <= count
      && Distinct(r) && forall f :: f in r ==> DistinctKeys(f.value)
  {
    var marker := Field(TRUNCATED, Text(MAX_NODES));
    MarkerFieldOk(o);
    PutField(out, marker);
    if HasKey(out, TRUNCATED) {
      OverwriteKeepsFixed(o, out, marker, depth, start);
    } else {
      PutAppends(out, TRUNCATED, Text(MAX_NODES));
      AppendKeepsFixed(o, out, marker, depth, start);
    }
  }

  // ----- Trees that fit into the budget -----

  /** What a walk leaves alone, but for the budget. */
  ghost predicate Shaped(o: Options, w: Json, depth: nat)
    decreases w
  {
    match w
    case Array(items) => depth < o.maxDepth && forall i :: 0 <= i < |items| ==> Shaped(o, items[i], depth + 1)
    case Object(fields) => depth < o.maxDepth && Distinct(fields) && ShapedFields(o, fields, depth + 1)
    case Text(s) => Clean(o, s) == s
    case Unsupported => false
    case _ => true
  }

  ghost predicate ShapedFields(o: Options, fields: seq<Field>, depth: nat)
    decreases fields
  {
    forall i :: 0 <= i < |fields| ==> FieldOk(o, fields[i]) && Shaped(o, fields[i].value, depth)
  }

  lemma {:induction false} ShapedFits(o: Options, w: Json, depth: nat, count: nat)
    requires Shaped(o, w, depth) && count + Nodes(w) <= o.maxNodes
    ensures Fixed(o, w, depth, count) && End(o, w, count) == count + Nodes(w) && DistinctKeys(w)
    decreases w, 0
  {
    PriceIsAtMostDouble(w);
    match w
    case Array(items) => ShapedItemsFit(o, items, depth + 1, count + 1);
    case Object(fields) => ShapedFieldsFit(o, fields, depth + 1, count + 1);
    case _ =>
  }

  lemma {:induction false} ShapedItemsFit(o: Options, items: seq<Json>, depth: nat, count: nat)
    requires (forall i :: 0 <= i < |items| ==> Shaped(o, items[i], depth))
    requires count + NodesOfItems(items) <= o.maxNodes
    ensures FixedItems(o, items, depth, count) && EndItems(o, items, count) == count + NodesOfItems(items)
    ensures forall i :: 0 <= i < |items| ==> DistinctKeys(items[i])
    decreases items
  {
    if items != [] {
      PriceIsAtMostDouble(items[0]);
      ShapedFits(o, items[0], depth, count);
      ShapedItemsFit(o, items[1..], depth, count + Nodes(items[0]));
      assert items == [items[0]] + items[1..];
    }
  }

  lemma {:induction false} ShapedFieldsFit(o: Options, fields: seq<Field>, depth: nat, count: nat)
    requires ShapedFields(o, fields, depth) && count + NodesOfFields(fields) <= o.maxNodes
    ensures FixedFields(o, fields, depth, count) && AllCounted(o, fields, count)
    ensures EndFields(o, fields, count) == count + NodesOfFields(fields)
    ensures forall i :: 0 <= i < |fields| ==> DistinctKeys(fields[i].value)
    decreases fields
  {
    if fields != [] {
      PriceIsAtMostDouble(fields[0].value);
      ShapedFits(o, fields[0].value, depth, count);
      ShapedFieldsFit(o, fields[1..], depth, count + Nodes(fields[0].value));
      assert fields == [fields[0]] + fields[1..];
    }
  }

  lemma {:induction false} FixedIsShaped(o: Options, w: Json, depth: nat, count: nat)
    requires Lawful(o) && Fixed(o, w, depth, count) && DistinctKeys(w)
    ensures Shaped(o, w, depth)
    decreases w, 0
  {
    match w
    case Array(items) => FixedItemsAreShaped(o, items, depth + 1, count + 1);
    case Object(fields) => FixedFieldsAreShaped(o, fields, depth + 1, count + 1);
    case _ =>
  }

  lemma {:induction false} FixedItemsAreShaped(o: Options, items: seq<Json>, depth: nat, count: nat)
    requires Lawful(o) && FixedItems(o, items, depth, count) && forall i :: 0 <= i < |items| ==> DistinctKeys(items[i])
    ensures forall i :: 0 <= i < |items| ==> Shaped(o, items[i], depth)
    decreases items
  {
    if items != [] && count < o.maxNodes {
      FixedIsShaped(o, items[0], depth, count);
      FixedItemsAreShaped(o, items[1..], depth, End(o, items[0], count));
      assert items == [items[0]] + items[1..];
    }
  }

  lemma {:induction false} FixedFieldsAreShaped(o: Options, fields: seq<Field>, depth: nat, count: nat)
    requires Lawful(o) && FixedFields(o, fields, depth, count)
    requires forall i :: 0 <= i < |fields| ==> DistinctKeys(fields[i].value)
    ensures ShapedFields(o, fields, depth)
    decreases fields
  {
    MarkerFieldOk(o);
    if fields != [] && count < o.maxNodes {
      FixedIsShaped(o, fields[0].value, depth, count);
      FixedFieldsAreShaped(o, fields[1..], depth, End(o, fields[0].value, count));
      assert fields == [fields[0]] + fields[1..];
    }
  }

  /** With budget left, every value was charged. */
  lemma {:induction false} EndIsNodes(o: Options, w: Json, count: nat)
    requires End(o, w, count) < o.maxNodes
    ensures End(o, w, count) == count + Nodes(w)
    decreases w, 0
  {
    match w
    case Array(items) => EndOfItemsIsNodes(o, items, count + 1);
    case Object(fields) => EndOfFieldsIsNodes(o, fields, count + 1);
    case _ =>
  }

  lemma {:induction false} EndOfItemsIsNodes(o: Options, items: seq<Json>, count: nat)
    requires EndItems(o, items, count) < o.maxNodes
    ensures EndItems(o, items, count) == count + NodesOfItems(items)
    decreases items
  {
    if items != [] && count < o.maxNodes {
      EndItemsGrows(o, items[1..], End(o, items[0], count));
      EndIsNodes(o, items[0], count);
      EndOfItemsIsNodes(o, items[1..], End(o, items[0], count));
    }
  }

  lemma {:induction false} EndOfFieldsIsNodes(o: Options, fields: seq<Field>, count: nat)
    requires EndFields(o, fields, count) < o.maxNodes
    ensures EndFields(o, fields, count) == count + NodesOfFields(fields)
    decreases fields
  {
    if fields != [] && count < o.maxNodes {
      EndFieldsGrows(o, fields[1..], End(o, fields[0].value, count));
      EndIsNodes(o, fields[0].value, count);
      EndOfFieldsIsNodes(o, fields[1..], End(o, fields[0].value, count));
    }
  }

  // ----- A container under a key that is there already -----

  lemma {:induction false} NodesOfOverwrite(fields: seq<Field>, key: Str, value: Json)
    requires HasKey(fields, key)
    ensures NodesOfFields(Put(fields, key, value)) < NodesOfFields(fields) + Nodes(value)
    decreases fields
  {
    PriceIsAtMostDouble(fields[0].value);
    if fields[0].key == key {
      assert ([Field(key, value)] + fields[1..])[1..] == fields[1..];
    } else {
      assert HasKey(fields[1..], key) by {
        var i :| 0 <= i < |fields| && fields[i].key == key;
        assert fields[1..][i - 1].key == key;
      }
      NodesOfOverwrite(fields[1..], key, value);
      assert ([fields[0]] + Put(fields[1..], key, value))[1..] == Put(fields[1..], key, value);
    }
  }

  lemma PutKeepsShaped(o: Options, out: seq<Field>, f: Field, depth: nat)
    requires Distinct(out) && ShapedFields(o, out, depth) && FieldOk(o, f) && Shaped(o, f.value, depth)
    ensures ShapedFields(o, Put(out, f.key, f.value), depth)
  {
    PutField(out, f);
    var r := Put(out, f.key, f.value);
    forall i | 0 <= i < |r| ensures FieldOk(o, r[i]) && Shaped(o, r[i].value, depth) {
      assert r[i] in r;
      if r[i] != f { var j :| 0 <= j < |out| && out[j] == r[i]; }
    }
  }

  /** A value with at most one free marker: the property that it overwrites pays for that one. */
  lemma OneMarkerIsPaidFor(o: Options, out: seq<Field>, f: Field, depth: nat, start: nat, count: nat, after: nat)
    requires Lawful(o) && Building(o, out, depth, start, count) && count < after <= o.maxNodes && count < o.maxNodes
    requires FieldOk(o, f) && DistinctKeys(f.value) && Fixed(o, f.value, depth, count)
    requires HasKey(out, f.key) && Nodes(f.value) <= after - count + 1
    ensures Building(o, Put(out, f.key, f.value), depth, start, after)
  {
    var r := Put(out, f.key, f.value);
    forall i | 0 <= i < |out| ensures DistinctKeys(out[i].value) { assert out[i] in out; }
    FixedFieldsAreShaped(o, out, depth, start);
    FixedIsShaped(o, f.value, depth, count);
    PutField(out, f);
    PutKeepsShaped(o, out, f, depth);
    EndOfFieldsIsNodes(o, out, start);
    NodesOfOverwrite(out, f.key, f.value);
    ShapedFieldsFit(o, r, depth, start);
  }

  /** A value that is the only one starts where the walk over the object did. */
  lemma OnlyFieldFits(o: Options, out: seq<Field>, f: Field, depth: nat, start: nat, count: nat, after: nat)
    requires Lawful(o) && start <= count < o.maxNodes && |out| == 1 && HasKey(out, f.key)
    requires FieldOk(o, f) && DistinctKeys(f.value) && Fixed(o, f.value, depth, count)
    requires End(o, f.value, count) <= after
    ensures Building(o, Put(out, f.key, f.value), depth, start, after)
  {
    assert Put(out, f.key, f.value) == [f] && [f][1..] == [];
    FixedFromLess(o, f.value, depth, count, start);
  }

  /** A walk with one node left leaves at most a container with one marker. */
  lemma LastNode(o: Options, v: Json, secret: bool, depth: nat, count: nat)
    requires count + 1 == o.maxNodes && Sanitize(o, v, secret, depth, count).Done?
    ensures Nodes(Sanitize(o, v, secret, depth, count).value) <= 2
  {
    match v
    case Array(items) => OneMarkerAtMost(o, items, secret, depth + 1, count + 1);
    case Object(fields) => NodesOfPut([], TRUNCATED, Text(MAX_NODES));
    case _ =>
  }

  // ----- Which trees are safe -----

  /** A captured value: an earlier unusable key collapses to its key. */
  ghost predicate Captured(o: Options, fields: seq<Field>, j: nat) {
    j < |fields| && exists i :: 0 <= i < j && Replaced(o, fields[i].key) && SafeKey(o, fields[i].key) == fields[j].key
  }

  /** Captured containers hold no container that the depth limit lets through. */
  ghost predicate Tame(o: Options, v: Json, depth: nat)
    decreases v
  {
    match v
    case Array(items) => forall i :: 0 <= i < |items| ==> Tame(o, items[i], depth + 1)
    case Object(fields) => TameFields(o, fields, depth + 1)
    case _ => true
  }

  ghost predicate TameFields(o: Options, fields: seq<Field>, depth: nat)
    decreases fields
  {
    && (forall i :: 0 <= i < |fields| ==> Tame(o, fields[i].value, depth))
    && (forall j :: 0 <= j < |fields| && Captured(o, fields, j) ==> Low(o, fields[j].value, depth, 1))
  }

  /** Nothing can go wrong: by the shape of the tree, by the limits, or because the walk ends with budget left. */
  ghost predicate Safe(o: Options, v: Json, depth: nat, end: nat) {
    Tame(o, v, depth) || o.maxNodes <= 4 || end < o.maxNodes
  }

  ghost predicate SafeFields(o: Options, fields: seq<Field>, depth: nat, end: nat) {
    TameFields(o, fields, depth) || o.maxNodes <= 4 || end < o.maxNodes
  }

  // ----- What the walk returns is fixed -----

  /** The names written so far come from the keys already visited. */
  ghost predicate FromVisited(o: Options, out: seq<Field>, all: seq<Field>, n: nat) {
    n <= |all| && forall f :: f in out ==> exists j :: 0 <= j < n && SafeKey(o, all[j].key) == f.key
  }

  lemma VisitedGrows(o: Options, out: seq<Field>, g: Field, all: seq<Field>, n: nat)
    requires n < |all| && FromVisited(o, out, all, n) && SafeKey(o, all[n].key) == g.key && Distinct(out)
    ensures FromVisited(o, Put(out, g.key, g.value), all, n + 1) && FromVisited(o, out, all, n + 1)
  {
    PutField(out, g);
  }

  lemma KeyThereIsCaptured(o: Options, out: seq<Field>, all: seq<Field>, n: nat)
    requires n < |all| && Distinct(all) && FromVisited(o, out, all, n) && !Replaced(o, all[n].key)
    requires HasKey(out, all[n].key)
    ensures Captured(o, all, n)
  {
    var i :| 0 <= i < |out| && out[i].key == all[n].key;
    assert out[i] in out;
  }

  lemma {:induction false} SanitizedIsFixed(o: Options, v: Json, secret: bool, depth: nat, count: nat)
    requires Lawful(o) && DistinctKeys(v) && (o.redactSecrets ==> !secret) && count < o.maxNodes
    requires Sanitize(o, v, secret, depth, count).Done? && Safe(o, v, depth, Sanitize(o, v, secret, depth, count).count)
    ensures var r := Sanitize(o, v, secret, depth, count);
      Fixed(o, r.value, depth, count) && End(o, r.value, count) <= r.count && DistinctKeys(r.value)
    decreases v, 0
  {
    match v
    case Array(items) => if depth < o.maxDepth { SanitizedItemsAreFixed(o, items, secret, depth + 1, count + 1); }
    case Object(fields) =>
      if depth < o.maxDepth {
        assert fields[0..] == fields;
        SanitizedFieldsAreFixed(o, fields, 0, [], secret, depth + 1, count + 1, count + 1);
        var out := SanitizeFields(o, fields, [], secret, depth + 1, count + 1).value;
        forall i | 0 <= i < |out| ensures DistinctKeys(out[i].value) { assert out[i] in out; }
      }
    case _ =>
  }

  ghost predicate SafeItems(o: Options, items: seq<Json>, depth: nat, end: nat) {
    (forall i :: 0 <= i < |items| ==> Tame(o, items[i], depth)) || o.maxNodes <= 4 || end < o.maxNodes
  }

  lemma {:induction false} SanitizedItemsAreFixed(o: Options, items: seq<Json>, secret: bool, depth: nat, count: nat)
    requires Lawful(o) && (o.redactSecrets ==> !secret) && SanitizeItems(o, items, secret, depth, count).Done?
    requires SafeItems(o, items, depth, SanitizeItems(o, items, secret, depth, count).count)
    requires forall i :: 0 <= i < |items| ==> DistinctKeys(items[i])
    ensures var r := SanitizeItems(o, items, secret, depth, count);
      && FixedItems(o, r.value, depth, count) && EndItems(o, r.value, count) <= r.count
      && forall i :: 0 <= i < |r.value| ==> DistinctKeys(r.value[i])
    decreases items
  {
    if items != [] && count < o.maxNodes {
      var first := Sanitize(o, items[0], secret, depth, count);
      ItemsCount(o, items[1..], secret, depth, first.count);
      SanitizedIsFixed(o, items[0], secret, depth, count);
      SanitizedItemsAreFixed(o, items[1..], secret, depth, first.count);
      var rest := SanitizeItems(o, items[1..], secret, depth, first.count);
      FixedItemsFromLess(o, rest.value, depth, first.count, End(o, first.value, count));
      assert ([first.value] + rest.value)[1..] == rest.value;
    }
  }

  /** The walked value of a key that is there already. */
  lemma CapturedKeepsBuilding(
    o: Options, v: Json, secret: bool, key: Str, out: seq<Field>, depth: nat, start: nat, count: nat)
    requires Lawful(o) && Building(o, out, depth, start, count) && 1 <= start && count < o.maxNodes && HasKey(out, key)
    requires var r := Sanitize(o, v, secret, depth, count);
      && r.Done? && FieldOk(o, Field(key, r.value)) && DistinctKeys(r.value)
      && Fixed(o, r.value, depth, count) && End(o, r.value, count) <= r.count
      && (Low(o, v, depth, 1) || o.maxNodes <= 4 || r.count < o.maxNodes)
    ensures var r := Sanitize(o, v, secret, depth, count);
      Building(o, Put(out, key, r.value), depth, start, r.count)
  {
    var r := Sanitize(o, v, secret, depth, count);
    var f := Field(key, r.value);
    var levels := if Low(o, v, depth, 1) then 1 else if depth <= o.maxDepth then o.maxDepth - depth else 0;
    if !Low(o, v, depth, 1) { LimitIsLow(o, v, depth, levels); }
    SizeOfValue(o, v, secret, depth, count, levels);
    WalkCounts(o, v, secret, depth, count);
    EndFieldsGrows(o, out, start);
    if Low(o, v, depth, 1) || r.count < o.maxNodes {
      OneMarkerIsPaidFor(o, out, f, depth, start, count, r.count);
    } else if |out| == 1 {
      OnlyFieldFits(o, out, f, depth, start, count, r.count);
    } else {
      EndOfFieldsIsNodes(o, out, start);
      LengthOfFields(out);
      LastNode(o, v, secret, depth, count);
      OneMarkerIsPaidFor(o, out, f, depth, start, count, r.count);
    }
  }

  lemma {:induction false} LengthOfFields(fields: seq<Field>)
    ensures |fields| <= NodesOfFields(fields)
    decreases fields
  {
    if fields != [] {
      PriceIsAtMostDouble(fields[0].value);
      LengthOfFields(fields[1..]);
    }
  }

  lemma NextIsBuilding(
    o: Options, all: seq<Field>, n: nat, out: seq<Field>, secret: bool, depth: nat, start: nat, count: nat)
    requires Lawful(o) && (o.redactSecrets ==> !secret) && n < |all| && count < o.maxNodes && 1 <= start
    requires Distinct(all) && DistinctKeys(all[n].value)
    requires Building(o, out, depth, start, count) && FromVisited(o, out, all, n)
    requires NextOut(o, all[n], out, secret, depth, count).Done?
    requires SafeFields(o, all, depth, NextOut(o, all[n], out, secret, depth, count).count)
    ensures var next := NextOut(o, all[n], out, secret, depth, count);
      Building(o, next.value, depth, start, next.count) && FromVisited(o, next.value, all, n + 1)
    decreases all[n].value, 2
  {
    var f := all[n];
    if Replaced(o, f.key) {
      var g := Field(SafeKey(o, f.key), Text(OmittedValue(o, f.key)));
      SafeKeyIsSafe(o, f.key);
      PutKeepsBuilding(o, out, g, depth, start, count, count + 1);
      VisitedGrows(o, out, g, all, n);
    } else if o.redactSecrets && o.isSecret(f.key) {
      PutKeepsBuilding(o, out, Field(f.key, Text(REDACTED)), depth, start, count, count + 1);
      VisitedGrows(o, out, Field(f.key, Text(REDACTED)), all, n);
    } else {
      WalkedKeepsBuilding(o, all, n, out, secret || o.isSecret(f.key), depth, start, count);
    }
  }

  /** The case of a usable key that is not redacted. */
  lemma WalkedKeepsBuilding(
    o: Options, all: seq<Field>, n: nat, out: seq<Field>, nested: bool, depth: nat, start: nat, count: nat)
    requires Lawful(o) && (o.redactSecrets ==> !nested) && n < |all| && count < o.maxNodes && 1 <= start
    requires Distinct(all) && DistinctKeys(all[n].value) && !Replaced(o, all[n].key)
    requires o.redactSecrets ==> !o.isSecret(all[n].key)
    requires Building(o, out, depth, start, count) && FromVisited(o, out, all, n)
    requires Sanitize(o, all[n].value, nested, depth, count).Done?
    requires SafeFields(o, all, depth, Sanitize(o, all[n].value, nested, depth, count).count)
    ensures var r := Sanitize(o, all[n].value, nested, depth, count);
      var next := if r.value == Undefined then out else Put(out, all[n].key, r.value);
      Building(o, next, depth, start, r.count) && FromVisited(o, next, all, n + 1)
    decreases all[n].value, 1
  {
    var f := all[n];
    var r := Sanitize(o, f.value, nested, depth, count);
    SanitizedIsFixed(o, f.value, nested, depth, count);
    WalkCounts(o, f.value, nested, depth, count);
    VisitedGrows(o, out, Field(f.key, r.value), all, n);
    if r.value != Undefined {
      if HasKey(out, f.key) {
        KeyThereIsCaptured(o, out, all, n);
        CapturedKeepsBuilding(o, f.value, nested, f.key, out, depth, start, count);
      } else {
        PutKeepsBuilding(o, out, Field(f.key, r.value), depth, start, count, r.count);
      }
    }
  }

  lemma {:induction false} SanitizedFieldsAreFixed(
    o: Options, all: seq<Field>, n: nat, out: seq<Field>, secret: bool, depth: nat, start: nat, count: nat)
    requires Lawful(o) && (o.redactSecrets ==> !secret) && n <= |all| && 1 <= start
    requires Distinct(all) && forall i :: 0 <= i < |all| ==> DistinctKeys(all[i].value)
    requires Building(o, out, depth, start, count) && FromVisited(o, out, all, n)
    requires SanitizeFields(o, all[n..], out, secret, depth, count).Done?
    requires SafeFields(o, all, depth, SanitizeFields(o, all[n..], out, secret, depth, count).count)
    ensures var r := SanitizeFields(o, all[n..], out, secret, depth, count);
      && FixedFields(o, r.value, depth, start) && EndFields(o, r.value, start) <= r.count
      && Distinct(r.value) && forall f :: f in r.value ==> DistinctKeys(f.value)
    decreases all, |all| - n
  {
    if n < |all| {
      if count >= o.maxNodes {
        MarkerKeepsFixed(o, out, depth, start, count);
      } else {
        FieldsUnfold(o, all, n, out, secret, depth, count);
        var next := NextOut(o, all[n], out, secret, depth, count);
        FieldsCount(o, all[n + 1..], next.value, secret, depth, next.count);
        NextIsBuilding(o, all, n, out, secret, depth, start, count);
        SanitizedFieldsAreFixed(o, all, n + 1, next.value, secret, depth, start, next.count);
      }
    }
  }

  // ----- Main results -----

  ghost predicate IsFinal(o: Options, v: Json)
    requires Sanitize(o, v, false, 0, 0).Done?
  {
    var w := Sanitize(o, v, false, 0, 0).value;
    Sanitize(o, w, false, 0, 0).Done? && Sanitize(o, w, false, 0, 0).value == w
  }

  lemma SafeIsFinal(o: Options, v: Json)
    requires Lawful(o) && DistinctKeys(v) && Sanitize(o, v, false, 0, 0).Done?
    requires Safe(o, v, 0, Sanitize(o, v, false, 0, 0).count)
    ensures IsFinal(o, v)
  {
    SanitizedIsFixed(o, v, false, 0, 0);
    FixedIsKept(o, Sanitize(o, v, false, 0, 0).value, false, 0, 0);
  }

  /** A walk charges no more than the values that there are. */
  lemma {:induction false} CountWithinNodes(o: Options, v: Json, secret: bool, depth: nat, count: nat)
    ensures Sanitize(o, v, secret, depth, count).count <= count + Nodes(v)
    decreases v, 0
  {
    match v
    case Array(items) => ItemsWithinNodes(o, items, secret, depth + 1, count + 1);
    case Object(fields) => FieldsWithinNodes(o, fields, [], secret, depth + 1, count + 1);
    case _ =>
  }

  lemma {:induction false} ItemsWithinNodes(o: Options, items: seq<Json>, secret: bool, depth: nat, count: nat)
    ensures SanitizeItems(o, items, secret, depth, count).count <= count + NodesOfItems(items)
    decreases items
  {
    if items != [] && count < o.maxNodes {
      CountWithinNodes(o, items[0], secret, depth, count);
      ItemsWithinNodes(o, items[1..], secret, depth, Sanitize(o, items[0], secret, depth, count).count);
    }
  }

  lemma {:induction false} FieldsWithinNodes(
    o: Options, fields: seq<Field>, out: seq<Field>, secret: bool, depth: nat, count: nat)
    ensures SanitizeFields(o, fields, out, secret, depth, count).count <= count + NodesOfFields(fields)
    decreases fields
  {
    if fields != [] && count < o.maxNodes {
      PriceIsAtMostDouble(fields[0].value);
      CountWithinNodes(o, fields[0].value, secret || o.isSecret(fields[0].key), depth, count);
      var next := NextOut(o, fields[0], out, secret, depth, count);
      if next.Done? { FieldsWithinNodes(o, fields[1..], next.value, secret, depth, next.count); }
    }
  }

  /** Sanitizing is final on every tree whose captured containers hold no container that the depth limit lets through,
      and on every tree smaller than the node budget. */
  lemma SanitizeIsIdempotent(o: Options, v: Json)
    requires Lawful(o) && DistinctKeys(v) && Sanitize(o, v, false, 0, 0).Done?
    requires Tame(o, v, 0) || Nodes(v) < o.maxNodes
    ensures IsFinal(o, v)
  {
    CountWithinNodes(o, v, false, 0, 0);
    SafeIsFinal(o, v);
  }

  lemma {:induction false} ShallowIsTame(o: Options, v: Json, depth: nat)
    requires o.maxDepth <= 2
    ensures Tame(o, v, depth)
    decreases v
  {
    match v
    case Array(items) =>
      forall i | 0 <= i < |items| ensures Tame(o, items[i], depth + 1) { ShallowIsTame(o, items[i], depth + 1); }
    case Object(fields) =>
      forall i | 0 <= i < |fields|
        ensures Tame(o, fields[i].value, depth + 1) && Low(o, fields[i].value, depth + 1, 1)
      {
        ShallowIsTame(o, fields[i].value, depth + 1);
        LimitIsLow(o, fields[i].value, depth + 1, 1);
      }
    case _ =>
  }

  /** Limits under which no tree can go wrong. */
  lemma SmallLimitsAreFinal(o: Options, v: Json)
    requires Lawful(o) && DistinctKeys(v) && Sanitize(o, v, false, 0, 0).Done? && (o.maxDepth <= 2 || o.maxNodes <= 4)
    ensures IsFinal(o, v)
  {
    if o.maxDepth <= 2 { ShallowIsTame(o, v, 0); }
    SafeIsFinal(o, v);
  }
}
