/** When sanitizing twice is sanitizing once.

    The counter makes this delicate: the second walk meets the markers that the first one added and no longer
    meets what it dropped. `Fixed` describes the trees that a walk starting from a given count returns unchanged. */
module SanitizerFixpoint {
  import opened Utf16
  import opened PersistedSanitizer

  /** What is assumed of the abstract string rules and the limits: cleaning is final, the markers are clean, the
      collapsed key is not secret, and repairing a key makes no secret of it. */
  ghost predicate Lawful(o: Options) {
    && 13 <= o.maxString && 0 < o.maxNodes
    && (forall s: Str :: Clean(o, Clean(o, s)) == Clean(o, s))
    && Clean(o, MAX_NODES) == MAX_NODES && Clean(o, MAX_DEPTH) == MAX_DEPTH
    && Clean(o, REDACTED) == REDACTED && Clean(o, KEY_OMITTED) == KEY_OMITTED
    && !o.isSecret(TRUNCATED)
    && (forall key: Str :: o.isSecret(Repair(key)) ==> o.isSecret(key))
  }

  // ----- Trees that a walk leaves alone -----

  /** The count after a walk over a tree that it leaves alone. */
  function End(o: Options, w: Json, count: nat): nat
    decreases w
  {
    match w
    case Array(items) => EndItems(o, items, count + 1)
    case Object(fields) => EndFields(o, fields, count + 1)
    case _ => count + 1
  }

  function EndItems(o: Options, items: seq<Json>, count: nat): nat
    decreases items
  {
    if items == [] || count >= o.maxNodes then count else EndItems(o, items[1..], End(o, items[0], count))
  }

  function EndFields(o: Options, fields: seq<Field>, count: nat): nat
    decreases fields
  {
    if fields == [] || count >= o.maxNodes then count else EndFields(o, fields[1..], End(o, fields[0].value, count))
  }

  ghost predicate Fixed(o: Options, w: Json, depth: nat, count: nat)
    decreases w
  {
    && count < o.maxNodes
    && match w
       case Array(items) => depth < o.maxDepth && FixedItems(o, items, depth + 1, count + 1)
       case Object(fields) => depth < o.maxDepth && FixedFields(o, fields, depth + 1, count + 1)
       case Text(s) => Clean(o, s) == s
       case Unsupported => false
       case _ => true
  }

  ghost predicate FixedItems(o: Options, items: seq<Json>, depth: nat, count: nat)
    decreases items
  {
    || items == []
    || (count >= o.maxNodes && items == [Text(MAX_NODES)])
    || (&& count < o.maxNodes && Fixed(o, items[0], depth, count)
        && FixedItems(o, items[1..], depth, End(o, items[0], count)))
  }

  /** A field as the walk writes it: a usable key, no undefined value, secrets redacted. */
  ghost predicate FieldOk(o: Options, f: Field) {
    && SafeKey(o, f.key) == f.key && f.value != Undefined
    && (o.redactSecrets && o.isSecret(f.key) ==> f.value == Text(REDACTED))
  }

  ghost predicate FixedFields(o: Options, fields: seq<Field>, depth: nat, count: nat)
    decreases fields
  {
    || fields == []
    || (count >= o.maxNodes && fields == [Field(TRUNCATED, Text(MAX_NODES))])
    || (count < o.maxNodes && FieldOk(o, fields[0]) && Fixed(o, fields[0].value, depth, count)
        && FixedFields(o, fields[1..], depth, End(o, fields[0].value, count)))
  }

  /** Every object in the tree has distinct keys. */
  ghost predicate DistinctKeys(w: Json)
    decreases w
  {
    match w
    case Array(items) => forall i :: 0 <= i < |items| ==> DistinctKeys(items[i])
    case Object(fields) => Distinct(fields) && forall i :: 0 <= i < |fields| ==> DistinctKeys(fields[i].value)
    case _ => true
  }

  ghost predicate Distinct(fields: seq<Field>) {
    forall i, j :: 0 <= i < j < |fields| ==> fields[i].key != fields[j].key
  }

  ghost predicate HasKey(fields: seq<Field>, key: Str) {
    exists i :: 0 <= i < |fields| && fields[i].key == key
  }

  lemma DistinctTail(fields: seq<Field>)
    requires Distinct(fields) && fields != []
    ensures Distinct(fields[1..]) && !HasKey(fields[1..], fields[0].key)
  {
    forall i, j | 0 <= i < j < |fields[1..]| ensures fields[1..][i].key != fields[1..][j].key {
      assert fields[1..][i] == fields[i + 1] && fields[1..][j] == fields[j + 1];
    }
    forall i | 0 <= i < |fields[1..]|
      ensures fields[1..][i].key != fields[0].key
    {
      assert fields[1..][i] == fields[i + 1];
    }
  }

  lemma {:induction false} PutAppends(fields: seq<Field>, key: Str, value: Json)
    requires !HasKey(fields, key)
    ensures Put(fields, key, value) == fields + [Field(key, value)]
  {
    if fields != [] {
      assert fields[0].key != key;
      forall i | 0 <= i < |fields[1..]| ensures fields[1..][i].key != key { assert fields[1..][i] == fields[i + 1]; }
      PutAppends(fields[1..], key, value);
      assert fields == [fields[0]] + fields[1..];
    }
  }

  // ----- A fixed tree is returned unchanged -----

  lemma {:induction false} EndGrows(o: Options, w: Json, count: nat)
    ensures count < End(o, w, count)
    decreases w, 0
  {
    match w
    case Array(items) => EndItemsGrows(o, items, count + 1);
    case Object(fields) => EndFieldsGrows(o, fields, count + 1);
    case _ =>
  }

  lemma {:induction false} EndItemsGrows(o: Options, items: seq<Json>, count: nat)
    ensures count <= EndItems(o, items, count)
    decreases items
  {
    if items != [] && count < o.maxNodes {
      EndGrows(o, items[0], count);
      EndItemsGrows(o, items[1..], End(o, items[0], count));
    }
  }

  lemma {:induction false} EndFieldsGrows(o: Options, fields: seq<Field>, count: nat)
    ensures count <= EndFields(o, fields, count)
    decreases fields
  {
    if fields != [] && count < o.maxNodes {
      EndGrows(o, fields[0].value, count);
      EndFieldsGrows(o, fields[1..], End(o, fields[0].value, count));
    }
  }

  lemma {:induction false} FixedIsKept(o: Options, w: Json, secret: bool, depth: nat, count: nat)
    requires Fixed(o, w, depth, count) && DistinctKeys(w) && (o.redactSecrets ==> !secret)
    ensures Sanitize(o, w, secret, depth, count) == Done(w, End(o, w, count))
    decreases w, 0
  {
    match w
    case Array(items) => FixedItemsAreKept(o, items, secret, depth + 1, count + 1);
    case Object(fields) =>
      FixedFieldsAreKept(o, fields, [], secret, depth + 1, count + 1);
      assert [] + fields == fields;
    case _ =>
  }

  lemma {:induction false} FixedItemsAreKept(o: Options, items: seq<Json>, secret: bool, depth: nat, count: nat)
    requires (o.redactSecrets ==> !secret) && FixedItems(o, items, depth, count)
    requires forall i :: 0 <= i < |items| ==> DistinctKeys(items[i])
    ensures SanitizeItems(o, items, secret, depth, count) == Done(items, EndItems(o, items, count))
    decreases items
  {
    if items != [] && count < o.maxNodes {
      FixedIsKept(o, items[0], secret, depth, count);
      FixedItemsAreKept(o, items[1..], secret, depth, End(o, items[0], count));
      assert items == [items[0]] + items[1..];
    }
  }

  lemma {:induction false} FixedFieldsAreKept(
    o: Options, fields: seq<Field>, out: seq<Field>, secret: bool, depth: nat, count: nat)
    requires (o.redactSecrets ==> !secret) && FixedFields(o, fields, depth, count) && Distinct(fields)
    requires forall i :: 0 <= i < |fields| ==> DistinctKeys(fields[i].value) && !HasKey(out, fields[i].key)
    ensures SanitizeFields(o, fields, out, secret, depth, count) == Done(out + fields, EndFields(o, fields, count))
    decreases fields
  {
    if fields == [] {
      assert out + fields == out;
    } else {
      var f, more := fields[0], out + [fields[0]];
      PutAppends(out, f.key, f.value);
      assert out + fields == more + fields[1..];
      if count < o.maxNodes {
        var nested := secret || o.isSecret(f.key);
        if o.redactSecrets && o.isSecret(f.key) {
          assert End(o, f.value, count) == count + 1;
        } else {
          FixedIsKept(o, f.value, nested, depth, count);
        }
        DistinctTail(fields);
        forall i | 0 <= i < |fields[1..]|
          ensures DistinctKeys(fields[1..][i].value) && !HasKey(more, fields[1..][i].key)
        {
          assert fields[1..][i] == fields[i + 1];
        }
        FixedFieldsAreKept(o, fields[1..], more, secret, depth, End(o, f.value, count));
      }
    }
  }

  // ----- A smaller count only helps -----

  lemma {:induction false} FixedFromLess(o: Options, w: Json, depth: nat, count: nat, less: nat)
    requires Lawful(o) && Fixed(o, w, depth, count) && less <= count
    ensures Fixed(o, w, depth, less) && End(o, w, less) <= End(o, w, count)
    decreases w, 0
  {
    match w
    case Array(items) => FixedItemsFromLess(o, items, depth + 1, count + 1, less + 1);
    case Object(fields) => FixedFieldsFromLess(o, fields, depth + 1, count + 1, less + 1);
    case _ =>
  }

  lemma {:induction false} FixedItemsFromLess(o: Options, items: seq<Json>, depth: nat, count: nat, less: nat)
    requires Lawful(o) && FixedItems(o, items, depth, count) && less <= count
    ensures FixedItems(o, items, depth, less) && EndItems(o, items, less) <= EndItems(o, items, count)
    decreases items
  {
    if items != [] {
      if count < o.maxNodes {
        FixedFromLess(o, items[0], depth, count, less);
        FixedItemsFromLess(o, items[1..], depth, End(o, items[0], count), End(o, items[0], less));
      } else if less < o.maxNodes {
        assert items[0] == Text(MAX_NODES) && items[1..] == [];
        assert Fixed(o, items[0], depth, less) && End(o, items[0], less) == less + 1;
        assert FixedItems(o, items[1..], depth, less + 1) && EndItems(o, items[1..], less + 1) == less + 1;
      }
    }
  }

  lemma {:induction false} FixedFieldsFromLess(o: Options, fields: seq<Field>, depth: nat, count: nat, less: nat)
    requires Lawful(o) && FixedFields(o, fields, depth, count) && less <= count
    ensures FixedFields(o, fields, depth, less) && EndFields(o, fields, less) <= EndFields(o, fields, count)
    decreases fields
  {
    if fields != [] {
      if count < o.maxNodes {
        FixedFromLess(o, fields[0].value, depth, count, less);
        FixedFieldsFromLess(o, fields[1..], depth, End(o, fields[0].value, count), End(o, fields[0].value, less));
      } else if less < o.maxNodes {
        MarkerFieldOk(o);
        assert fields[0] == Field(TRUNCATED, Text(MAX_NODES)) && fields[1..] == [];
        assert Fixed(o, fields[0].value, depth, less) && End(o, fields[0].value, less) == less + 1;
        assert FixedFields(o, fields[1..], depth, less + 1) && EndFields(o, fields[1..], less + 1) == less + 1;
      }
    }
  }

  lemma MarkerFieldOk(o: Options)
    requires Lawful(o)
    ensures FieldOk(o, Field(TRUNCATED, Text(MAX_NODES)))
  {
    MarkerIsWellFormed(11);
    assert TRUNCATED[..11] == TRUNCATED;
    BoundedString(TRUNCATED, o.maxString);
  }

  // ----- One turn of the loop over an object's fields -----

  predicate IsLeaf(w: Json) { w.Null? || w.Bool? || w.Number? || w.Text? }

  predicate IsContainer(w: Json) { w.Array? || w.Object? }

  lemma {:induction false} PutField(fields: seq<Field>, f: Field)
    requires Distinct(fields)
    ensures Distinct(Put(fields, f.key, f.value))
    ensures forall g :: g in Put(fields, f.key, f.value) <==> g == f || (g in fields && g.key != f.key)
  {
    if fields != [] {
      DistinctTail(fields);
      assert fields == [fields[0]] + fields[1..];
      if fields[0].key != f.key { PutField(fields[1..], f); }
    }
  }

  lemma FieldsUnfold(o: Options, all: seq<Field>, n: nat, out: seq<Field>, secret: bool, depth: nat, count: nat)
    requires n < |all| && count < o.maxNodes
    ensures SanitizeFields(o, all[n..], out, secret, depth, count) ==
      match NextOut(o, all[n], out, secret, depth, count)
      case Refused(m) => Refused(m)
      case Done(next, m) => SanitizeFields(o, all[n + 1..], next, secret, depth, m)
  {
    assert all[n..][0] == all[n] && all[n..][1..] == all[n + 1..];
  }

  lemma SafeKeyIsSafe(o: Options, key: Str)
    requires Lawful(o)
    ensures SafeKey(o, SafeKey(o, key)) == SafeKey(o, key)
    ensures FieldOk(o, Field(SafeKey(o, key), Text(OmittedValue(o, key)))) || SafeKey(o, key) == key
  {
    MarkerFieldOk(o);
    if |key| <= o.maxString {
      BoundedString(key, o.maxString);
      BoundedIsIdempotent(key, o.maxString);
    }
  }
}
