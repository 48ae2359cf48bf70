/** Where everything in a sanitized tree comes from: nothing is persisted that was not redacted and bounded, or that is
    not one of the markers; and while there is budget left, nothing that should be kept is lost. */
module SanitizerProvenance {
  import opened Utf16
  import opened PersistedSanitizer

  lemma MarkersSpell()
    ensures MAX_NODES == Units("[MaxNodes]") && MAX_DEPTH == Units("[MaxDepth]") && REDACTED == Units("[REDACTED]")
    ensures KEY_OMITTED == Units("[Key omitted]") && TRUNCATED == Units("[Truncated]")
  {
  }

  /** The name that a key has in the result: itself if it fits and is well-formed. */
  ghost predicate IsName(o: Options, key: Str, name: Str) {
    if |key| > o.maxString then name == Units("[Truncated]") else name == Repair(key)
  }

  // ----- The count never goes back -----

  lemma {:induction false} CountGrows(o: Options, v: Json, secret: bool, depth: nat, count: nat)
    ensures count <= Sanitize(o, v, secret, depth, count).count
    decreases v, 0
  {
    if count < o.maxNodes && depth < o.maxDepth {
      match v
      case Array(items) => ItemsCountGrows(o, items, secret, depth + 1, count + 1);
      case Object(fields) => FieldsCountGrows(o, fields, [], secret, depth + 1, count + 1);
      case _ =>
    }
  }

  lemma {:induction false} ItemsCountGrows(o: Options, items: seq<Json>, secret: bool, depth: nat, count: nat)
    ensures count <= SanitizeItems(o, items, secret, depth, count).count
    decreases items
  {
    if items != [] && count < o.maxNodes {
      CountGrows(o, items[0], secret, depth, count);
      ItemsCountGrows(o, items[1..], secret, depth, Sanitize(o, items[0], secret, depth, count).count);
    }
  }

  lemma {:induction false} FieldsCountGrows(
    o: Options, fields: seq<Field>, out: seq<Field>, secret: bool, depth: nat, count: nat)
    ensures count <= SanitizeFields(o, fields, out, secret, depth, count).count
    decreases fields
  {
    if fields != [] && count < o.maxNodes {
      var f, next := fields[0], NextOut(o, fields[0], out, secret, depth, count);
      CountGrows(o, f.value, secret || o.isSecret(f.key), depth, count);
      if next.Done? { FieldsCountGrows(o, fields[1..], next.value, secret, depth, next.count); }
    }
  }

  // ----- What comes from what -----

  /** `w` may stand where `v` stood, under a secret name or not, with room for `levels` containers inside each other;
      marks of an exhausted node budget occur only if it was `cut`. */
  ghost predicate Comes(o: Options, v: Json, secret: bool, levels: nat, cut: bool, w: Json)
    decreases w
  {
    match w
    case Text(t) =>
      || (cut && t == Units("[MaxNodes]"))
      || (levels == 0 && t == Units("[MaxDepth]") && (v.Array? || v.Object?))
      || (v.Text? && o.redactSecrets && secret && t == Units("[REDACTED]"))
      || (v.Text? && !(o.redactSecrets && secret) && t == Bounded(o.redact(v.s), o.maxString))
    case Array(out) =>
      && v.Array? && 0 < levels && (|out| == |v.items| || (cut && |out| < |v.items|))
      && forall i :: 0 <= i < |out| ==> Comes(o, v.items[i], secret, levels - 1, cut, out[i])
    case Object(out) =>
      && v.Object? && 0 < levels && (cut || NoneLost(o, v.fields, out))
      && forall i :: 0 <= i < |out| ==> FieldComes(o, v.fields, secret, levels - 1, cut, out[i])
    case _ => w == v && !w.Unsupported?
  }

  /** A property is the mark of the cut, or comes from a field: as the mark of an unusable key, as a redacted secret, or
      as what its value became. */
  ghost predicate FieldComes(o: Options, fields: seq<Field>, secret: bool, levels: nat, cut: bool, g: Field)
    decreases g
  {
    || (cut && g == Field(Units("[Truncated]"), Text(Units("[MaxNodes]"))))
    || exists j :: 0 <= j < |fields| && FieldFrom(o, fields[j], secret, levels, cut, g)
  }

  ghost predicate FieldFrom(o: Options, f: Field, secret: bool, levels: nat, cut: bool, g: Field)
    decreases g, 0
  {
    && IsName(o, f.key, g.key)
    && if g.key != f.key then
         g.value == Text(if o.redactSecrets && o.isSecret(f.key) then Units("[REDACTED]") else Units("[Key omitted]"))
       else if o.redactSecrets && o.isSecret(f.key) then g.value == Text(Units("[REDACTED]"))
       else Comes(o, f.value, secret || o.isSecret(f.key), levels, cut, g.value) && g.value != Undefined
  }

  /** Every field whose value is defined has its property. */
  ghost predicate NoneLost(o: Options, fields: seq<Field>, out: seq<Field>) {
    forall j, name :: 0 <= j < |fields| && fields[j].value != Undefined && IsName(o, fields[j].key, name) ==>
      HasName(out, name)
  }

  lemma NameIs(o: Options, key: Str)
    ensures IsName(o, key, SafeKey(o, key))
  {
    MarkersSpell();
  }

  lemma {:induction false} PutOnly(fields: seq<Field>, key: Str, value: Json, g: Field)
    requires g in Put(fields, key, value)
    ensures g in fields || g == Field(key, value)
  {
    if fields != [] && fields[0].key != key {
      assert Put(fields, key, value) == [fields[0]] + Put(fields[1..], key, value);
      if g != fields[0] { PutOnly(fields[1..], key, value, g); }
    }
  }

  /** The sanitized tree, part by part. */
  lemma {:induction false} SanitizedComes(
    o: Options, v: Json, secret: bool, depth: nat, levels: nat, count: nat, cut: bool)
    requires depth + levels == o.maxDepth && Sanitize(o, v, secret, depth, count).Done?
    requires cut || Sanitize(o, v, secret, depth, count).count < o.maxNodes
    ensures Comes(o, v, secret, levels, cut, Sanitize(o, v, secret, depth, count).value)
    decreases v, 0
  {
    MarkersSpell();
    if count < o.maxNodes && 0 < levels {
      match v
      case Array(items) => SanitizedItemsCome(o, items, secret, depth + 1, levels - 1, count + 1, cut);
      case Object(fields) =>
        assert fields[0..] == fields;
        SanitizedFieldsCome(o, fields, 0, [], secret, depth + 1, levels - 1, count + 1, cut);
        if !cut { NoFieldsAreLost(o, fields, secret, depth + 1, count + 1); }
      case _ =>
    }
  }

  lemma {:induction false} SanitizedItemsCome(
    o: Options, items: seq<Json>, secret: bool, depth: nat, levels: nat, count: nat, cut: bool)
    requires depth + levels == o.maxDepth && SanitizeItems(o, items, secret, depth, count).Done?
    requires cut || SanitizeItems(o, items, secret, depth, count).count < o.maxNodes
    ensures var out := SanitizeItems(o, items, secret, depth, count).value;
      && (|out| == |items| || (cut && |out| < |items|))
      && forall i :: 0 <= i < |out| ==> Comes(o, items[i], secret, levels, cut, out[i])
    decreases items
  {
    MarkersSpell();
    if items != [] && count < o.maxNodes {
      var n := Sanitize(o, items[0], secret, depth, count).count;
      ItemsCountGrows(o, items[1..], secret, depth, n);
      SanitizedComes(o, items[0], secret, depth, levels, count, cut);
      SanitizedItemsCome(o, items[1..], secret, depth, levels, n, cut);
    }
  }

  ghost predicate AllCome(o: Options, fields: seq<Field>, secret: bool, levels: nat, cut: bool, out: seq<Field>) {
    forall i :: 0 <= i < |out| ==> FieldComes(o, fields, secret, levels, cut, out[i])
  }

  lemma PutComes(
    o: Options, fields: seq<Field>, secret: bool, levels: nat, cut: bool, out: seq<Field>, g: Field)
    requires AllCome(o, fields, secret, levels, cut, out) && FieldComes(o, fields, secret, levels, cut, g)
    ensures AllCome(o, fields, secret, levels, cut, Put(out, g.key, g.value))
  {
    var more := Put(out, g.key, g.value);
    forall i | 0 <= i < |more| ensures FieldComes(o, fields, secret, levels, cut, more[i]) {
      PutOnly(out, g.key, g.value, more[i]);
    }
  }

  lemma {:induction false} SanitizedFieldsCome(
    o: Options, fields: seq<Field>, n: nat, out: seq<Field>, secret: bool, depth: nat, levels: nat, count: nat,
    cut: bool)
    requires depth + levels == o.maxDepth && n <= |fields| && AllCome(o, fields, secret, levels, cut, out)
    requires SanitizeFields(o, fields[n..], out, secret, depth, count).Done?
    requires cut || SanitizeFields(o, fields[n..], out, secret, depth, count).count < o.maxNodes
    ensures AllCome(o, fields, secret, levels, cut, SanitizeFields(o, fields[n..], out, secret, depth, count).value)
    decreases fields, |fields| - n
  {
    MarkersSpell();
    if n < |fields| {
      if count >= o.maxNodes {
        PutComes(o, fields, secret, levels, cut, out, Field(TRUNCATED, Text(MAX_NODES)));
      } else {
        assert fields[n..][0] == fields[n] && fields[n..][1..] == fields[n + 1..];
        var next := NextOut(o, fields[n], out, secret, depth, count);
        FieldsCountGrows(o, fields[n + 1..], next.value, secret, depth, next.count);
        NextComes(o, fields, n, out, secret, depth, levels, count, cut);
        SanitizedFieldsCome(o, fields, n + 1, next.value, secret, depth, levels, next.count, cut);
      }
    }
  }

  lemma {:induction false} NextComes(
    o: Options, fields: seq<Field>, n: nat, out: seq<Field>, secret: bool, depth: nat, levels: nat, count: nat,
    cut: bool)
    requires depth + levels == o.maxDepth && n < |fields| && AllCome(o, fields, secret, levels, cut, out)
    requires NextOut(o, fields[n], out, secret, depth, count).Done?
    requires cut || NextOut(o, fields[n], out, secret, depth, count).count < o.maxNodes
    ensures AllCome(o, fields, secret, levels, cut, NextOut(o, fields[n], out, secret, depth, count).value)
    decreases fields, |fields| - n, 0
  {
    var f := fields[n];
    MarkersSpell();
    NameIs(o, f.key);
    if Replaced(o, f.key) {
      var g := Field(SafeKey(o, f.key), Text(OmittedValue(o, f.key)));
      assert FieldFrom(o, f, secret, levels, cut, g);
      PutComes(o, fields, secret, levels, cut, out, g);
    } else if o.redactSecrets && o.isSecret(f.key) {
      assert FieldFrom(o, f, secret, levels, cut, Field(f.key, Text(REDACTED)));
      PutComes(o, fields, secret, levels, cut, out, Field(f.key, Text(REDACTED)));
    } else {
      var nested := secret || o.isSecret(f.key);
      var value := Sanitize(o, f.value, nested, depth, count).value;
      SanitizedComes(o, f.value, nested, depth, levels, count, cut);
      if value != Undefined {
        assert FieldFrom(o, f, secret, levels, cut, Field(f.key, value));
        PutComes(o, fields, secret, levels, cut, out, Field(f.key, value));
      }
    }
  }

  // ----- And nothing is lost -----

  ghost predicate HasName(out: seq<Field>, name: Str) { exists i :: 0 <= i < |out| && out[i].key == name }

  lemma {:induction false} PutHasName(fields: seq<Field>, key: Str, value: Json, name: Str)
    requires name == key || HasName(fields, name)
    ensures HasName(Put(fields, key, value), name)
  {
    var more := Put(fields, key, value);
    if fields == [] {
      assert more[0].key == key;
    } else if fields[0].key == key {
      assert more[0].key == key;
      if name != key {
        var i :| 0 <= i < |fields| && fields[i].key == name;
        assert more[i] == fields[i];
      }
    } else if fields[0].key == name {
      assert more[0].key == name;
    } else {
      if name != key {
        var i :| 0 <= i < |fields| && fields[i].key == name;
        assert fields[1..][i - 1].key == name;
      }
      PutHasName(fields[1..], key, value, name);
      var j :| 0 <= j < |more| - 1 && Put(fields[1..], key, value)[j].key == name;
      assert more[j + 1].key == name;
    }
  }

  /** Defining a property replaces the first one of that name, at its place, or adds one at the end. */
  lemma {:induction false} PutDefines(fields: seq<Field>, key: Str, value: Json) returns (at: nat)
    ensures at <= |fields| && forall i :: 0 <= i < at ==> fields[i].key != key
    ensures at == |fields| ==> Put(fields, key, value) == fields + [Field(key, value)]
    ensures at < |fields| ==> fields[at].key == key && Put(fields, key, value) == fields[at := Field(key, value)]
  {
    if fields == [] || fields[0].key == key { return 0; }
    var rest := PutDefines(fields[1..], key, value);
    assert fields == [fields[0]] + fields[1..];
    return rest + 1;
  }

  lemma NoFieldsAreLost(o: Options, fields: seq<Field>, secret: bool, depth: nat, count: nat)
    requires SanitizeFields(o, fields, [], secret, depth, count).Done?
    requires SanitizeFields(o, fields, [], secret, depth, count).count < o.maxNodes
    ensures NoneLost(o, fields, SanitizeFields(o, fields, [], secret, depth, count).value)
  {
    forall j, name | 0 <= j < |fields| && fields[j].value != Undefined && IsName(o, fields[j].key, name)
      ensures HasName(SanitizeFields(o, fields, [], secret, depth, count).value, name)
    {
      NoFieldIsLost(o, fields, [], secret, depth, count, name);
    }
  }

  /** While there is budget left, an object has a property for every field whose value is not undefined. */
  lemma {:induction false} NoFieldIsLost(
    o: Options, fields: seq<Field>, out: seq<Field>, secret: bool, depth: nat, count: nat, name: Str)
    requires SanitizeFields(o, fields, out, secret, depth, count).Done?
    requires SanitizeFields(o, fields, out, secret, depth, count).count < o.maxNodes
    requires HasName(out, name) || exists j :: 0 <= j < |fields| && fields[j].value != Undefined
                                               && IsName(o, fields[j].key, name)
    ensures HasName(SanitizeFields(o, fields, out, secret, depth, count).value, name)
    decreases fields
  {
    if fields != [] && count < o.maxNodes {
      var next := NextOut(o, fields[0], out, secret, depth, count);
      if HasName(out, name) || (fields[0].value != Undefined && IsName(o, fields[0].key, name)) {
        NextHasName(o, fields[0], out, secret, depth, count, name);
      }
      if j :| 0 < j < |fields| && fields[j].value != Undefined && IsName(o, fields[j].key, name) {
        assert fields[1..][j - 1] == fields[j];
      }
      NoFieldIsLost(o, fields[1..], next.value, secret, depth, next.count, name);
    }
  }

  lemma NextHasName(o: Options, f: Field, out: seq<Field>, secret: bool, depth: nat, count: nat, name: Str)
    requires NextOut(o, f, out, secret, depth, count).Done?
    requires HasName(out, name) || (f.value != Undefined && IsName(o, f.key, name))
    ensures HasName(NextOut(o, f, out, secret, depth, count).value, name)
  {
    MarkersSpell();
    NameIs(o, f.key);
    if Replaced(o, f.key) {
      PutHasName(out, SafeKey(o, f.key), Text(OmittedValue(o, f.key)), name);
    } else if o.redactSecrets && o.isSecret(f.key) {
      PutHasName(out, f.key, Text(REDACTED), name);
    } else {
      var value := Sanitize(o, f.value, secret || o.isSecret(f.key), depth, count).value;
      if value != Undefined { PutHasName(out, f.key, value, name); }
    }
  }
}
