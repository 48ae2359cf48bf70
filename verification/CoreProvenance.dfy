/** Where everything in the core serializer's output comes from: every text went through the caller's string rule and
    the 256-unit bound, or is a marker, and no part lies deeper than the limit. */
module CoreProvenance {
  import opened Utf16
  import opened PersistedSanitizer
  import opened CoreSerializer
  import opened SanitizerProvenance

  // ----- Budget -----

  /** No more than 256 nodes are ever paid for. */
  lemma {:induction false} BudgetIsKept(c: Context, v: Json, depth: nat, nodes: nat)
    requires nodes <= 256
    ensures nodes <= Serialize(c, v, depth, nodes).nodes <= 256
    decreases v, 0
  {
    if depth < DEPTH_LIMIT && nodes < NODE_LIMIT {
      match v
      case Array(items) =>
        ItemsBudgetIsKept(c, if |items| > ARRAY_LIMIT then items[..ARRAY_LIMIT] else items, depth + 1, nodes + 1);
      case Object(fields) => FieldsBudgetIsKept(c, fields, [], depth + 1, nodes + 1);
      case _ =>
    }
  }

  lemma {:induction false} ItemsBudgetIsKept(c: Context, items: seq<Json>, depth: nat, nodes: nat)
    requires nodes <= 256
    ensures nodes <= SerializeItems(c, items, depth, nodes).nodes <= 256
    decreases items
  {
    if items != [] && nodes < NODE_LIMIT {
      BudgetIsKept(c, items[0], depth, nodes);
      ItemsBudgetIsKept(c, items[1..], depth, Serialize(c, items[0], depth, nodes).nodes);
    }
  }

  lemma {:induction false} FieldsBudgetIsKept(c: Context, fields: seq<Field>, out: seq<Field>, depth: nat, nodes: nat)
    requires nodes <= 256
    ensures nodes <= SerializeFields(c, fields, out, depth, nodes).nodes <= 256
    decreases fields
  {
    if fields != [] && nodes < NODE_LIMIT {
      if |fields[0].key| > STRING_LIMIT {
        FieldsBudgetIsKept(c, fields[1..], out, depth, nodes + 1);
      } else {
        var value := Serialize(c, fields[0].value, depth, nodes + 1);
        BudgetIsKept(c, fields[0].value, depth, nodes + 1);
        FieldsBudgetIsKept(c, fields[1..], Put(out, fields[0].key, value.value), depth, value.nodes);
      }
    }
  }

  // ----- What stands for what -----

  /** `w` may stand where `v` stood, with `levels` levels of depth left; marks of an exhausted node budget occur only if
      it was `cut`. */
  ghost predicate Stands(c: Context, v: Json, levels: nat, cut: bool, w: Json)
    decreases w
  {
    if levels == 0 then w == Text(Units("[MaxDepth]")) || (cut && w == Text(Units("[MaxNodes]")))
    else match w
      case Text(t) =>
        || (cut && t == Units("[MaxNodes]"))
        || (v.Text? && t == Bounded(c.transform(v.s), 256))
        || (v.Unsupported? && t == Bounded(c.transform(c.foreign), 256))
      case Array(out) =>
        && v.Array?
        && (|v.items| > 256 ==> out != [] && out[|out| - 1] == Text(Units("[Truncated]")))
        && var kept := if |v.items| > 256 then |out| - 1 else |out|;
           && (kept == Least(|v.items|, 256) || (cut && kept < Least(|v.items|, 256)))
           && forall i :: 0 <= i < kept ==> Stands(c, v.items[i], levels - 1, cut, out[i])
      case Object(out) =>
        && v.Object? && (cut || NoneMissing(v.fields, out))
        && forall i :: 0 <= i < |out| ==> PropertyStands(c, v.fields, levels - 1, cut, out[i])
      case _ => w == v && !w.Unsupported?
  }

  function Least(a: nat, b: nat): nat { if a <= b then a else b }

  ghost predicate PropertyStands(c: Context, fields: seq<Field>, levels: nat, cut: bool, g: Field)
    decreases g
  {
    || (cut && g == Field(Units("[Truncated]"), Text(Units("[MaxNodes]"))))
    || exists j ::
         0 <= j < |fields| && fields[j].key == g.key && |g.key| <= 256
         && Stands(c, fields[j].value, levels, cut, g.value)
  }

  /** Every field whose key is not too long has its property. */
  ghost predicate NoneMissing(fields: seq<Field>, out: seq<Field>) {
    forall j :: 0 <= j < |fields| && |fields[j].key| <= 256 ==> HasName(out, fields[j].key)
  }

  lemma ArrayStands(
    c: Context, items: seq<Json>, head: seq<Json>, out: seq<Json>, levels: nat, cut: bool)
    requires head == (if |items| > 256 then items[..256] else items) && (|out| == |head| || (cut && |out| < |head|))
    requires forall i :: 0 <= i < |out| ==> Stands(c, head[i], levels, cut, out[i])
    ensures Stands(c, Array(items), levels + 1, cut, Array(out + CutMarker(items)))
  {
    MarkersSpell();
    var all := out + CutMarker(items);
    forall i | 0 <= i < |out| ensures Stands(c, items[i], levels, cut, all[i]) {
      assert all[i] == out[i] && items[i] == head[i];
    }
  }

  lemma ObjectStands(c: Context, fields: seq<Field>, out: seq<Field>, levels: nat, cut: bool)
    requires AllStand(c, fields, levels, cut, out) && (cut || NoneMissing(fields, out))
    ensures Stands(c, Object(fields), levels + 1, cut, Object(out))
  {
  }

  /** The serialized value, part by part. */
  lemma {:induction false} SerializedStands(c: Context, v: Json, depth: nat, levels: nat, nodes: nat, cut: bool)
    requires depth + levels == 8 && nodes <= 256 && (cut || Serialize(c, v, depth, nodes).nodes < 256)
    ensures Stands(c, v, levels, cut, Serialize(c, v, depth, nodes).value)
    decreases v, 1
  {
    if levels == 0 || nodes == 256 || !(v.Array? || v.Object?) {
      SimpleStands(c, v, depth, levels, nodes, cut);
    } else if v.Array? {
      SerializedArrayStands(c, v, depth, levels, nodes, cut);
    } else {
      SerializedObjectStands(c, v, depth, levels, nodes, cut);
    }
  }

  lemma SimpleStands(c: Context, v: Json, depth: nat, levels: nat, nodes: nat, cut: bool)
    requires depth + levels == 8 && nodes <= 256 && (cut || Serialize(c, v, depth, nodes).nodes < 256)
    requires levels == 0 || nodes == 256 || !(v.Array? || v.Object?)
    ensures Stands(c, v, levels, cut, Serialize(c, v, depth, nodes).value)
  {
    MarkersSpell();
  }

  lemma ArrayUnfolds(c: Context, items: seq<Json>, head: seq<Json>, depth: nat, nodes: nat)
    requires depth < 8 && nodes < 256 && head == if |items| > 256 then items[..256] else items
    ensures var r := SerializeItems(c, head, depth + 1, nodes + 1);
      Serialize(c, Array(items), depth, nodes) == Counted(Array(r.value + CutMarker(items)), r.nodes)
  {
  }

  lemma {:induction false} SerializedArrayStands(c: Context, v: Json, depth: nat, levels: nat, nodes: nat, cut: bool)
    requires depth + levels == 8 && nodes < 256 && (cut || Serialize(c, v, depth, nodes).nodes < 256)
    requires 0 < levels && v.Array?
    ensures Stands(c, v, levels, cut, Serialize(c, v, depth, nodes).value)
    decreases v, 0
  {
    var head := if |v.items| > 256 then v.items[..256] else v.items;
    ArrayUnfolds(c, v.items, head, depth, nodes);
    SerializedItemsStand(c, head, depth + 1, levels - 1, nodes + 1, cut);
    ArrayStands(c, v.items, head, SerializeItems(c, head, depth + 1, nodes + 1).value, levels - 1, cut);
  }

  lemma {:induction false} SerializedObjectStands(c: Context, v: Json, depth: nat, levels: nat, nodes: nat, cut: bool)
    requires depth + levels == 8 && nodes < 256 && (cut || Serialize(c, v, depth, nodes).nodes < 256)
    requires 0 < levels && v.Object?
    ensures Stands(c, v, levels, cut, Serialize(c, v, depth, nodes).value)
    decreases v, 0
  {
    assert v.fields[0..] == v.fields;
    SerializedFieldsStand(c, v.fields, 0, [], depth + 1, levels - 1, nodes + 1, cut);
    if !cut { NoFieldsAreMissing(c, v.fields, depth + 1, nodes + 1); }
    ObjectStands(c, v.fields, SerializeFields(c, v.fields, [], depth + 1, nodes + 1).value, levels - 1, cut);
  }

  lemma {:induction false} SerializedItemsStand(
    c: Context, items: seq<Json>, depth: nat, levels: nat, nodes: nat, cut: bool)
    requires depth + levels == 8 && nodes <= 256 && (cut || SerializeItems(c, items, depth, nodes).nodes < 256)
    ensures var out := SerializeItems(c, items, depth, nodes).value;
      && (|out| == |items| || (cut && |out| < |items|))
      && forall i :: 0 <= i < |out| ==> Stands(c, items[i], levels, cut, out[i])
    decreases items
  {
    MarkersSpell();
    if items != [] && nodes < NODE_LIMIT {
      var n := Serialize(c, items[0], depth, nodes).nodes;
      BudgetIsKept(c, items[0], depth, nodes);
      ItemsBudgetIsKept(c, items[1..], depth, n);
      SerializedStands(c, items[0], depth, levels, nodes, cut);
      SerializedItemsStand(c, items[1..], depth, levels, n, cut);
    }
  }

  ghost predicate AllStand(c: Context, fields: seq<Field>, levels: nat, cut: bool, out: seq<Field>) {
    forall i :: 0 <= i < |out| ==> PropertyStands(c, fields, levels, cut, out[i])
  }

  lemma PutStands(c: Context, fields: seq<Field>, levels: nat, cut: bool, out: seq<Field>, g: Field)
    requires AllStand(c, fields, levels, cut, out) && PropertyStands(c, fields, levels, cut, g)
    ensures AllStand(c, fields, levels, cut, Put(out, g.key, g.value))
  {
    var more := Put(out, g.key, g.value);
    forall i | 0 <= i < |more| ensures PropertyStands(c, fields, levels, cut, more[i]) {
      PutOnly(out, g.key, g.value, more[i]);
    }
  }

  lemma {:induction false} SerializedFieldsStand(
    c: Context, fields: seq<Field>, n: nat, out: seq<Field>, depth: nat, levels: nat, nodes: nat, cut: bool)
    requires depth + levels == 8 && nodes <= 256 && n <= |fields| && AllStand(c, fields, levels, cut, out)
    requires cut || SerializeFields(c, fields[n..], out, depth, nodes).nodes < 256
    ensures AllStand(c, fields, levels, cut, SerializeFields(c, fields[n..], out, depth, nodes).value)
    decreases fields, |fields| - n
  {
    MarkersSpell();
    if n < |fields| {
      assert fields[n..][0] == fields[n] && fields[n..][1..] == fields[n + 1..];
      if nodes >= NODE_LIMIT {
        PutStands(c, fields, levels, cut, out, Field(TRUNCATED, Text(MAX_NODES)));
      } else if |fields[n].key| > STRING_LIMIT {
        SerializedFieldsStand(c, fields, n + 1, out, depth, levels, nodes + 1, cut);
      } else {
        var value := Serialize(c, fields[n].value, depth, nodes + 1);
        var next := Put(out, fields[n].key, value.value);
        BudgetIsKept(c, fields[n].value, depth, nodes + 1);
        FieldsBudgetIsKept(c, fields[n + 1..], next, depth, value.nodes);
        SerializedStands(c, fields[n].value, depth, levels, nodes + 1, cut);
        PutStands(c, fields, levels, cut, out, Field(fields[n].key, value.value));
        SerializedFieldsStand(c, fields, n + 1, next, depth, levels, value.nodes, cut);
      }
    }
  }

  // ----- And nothing is missing -----

  lemma {:induction false} NoFieldIsMissing(
    c: Context, fields: seq<Field>, out: seq<Field>, depth: nat, nodes: nat, name: Str)
    requires nodes <= 256 && SerializeFields(c, fields, out, depth, nodes).nodes < 256
    requires HasName(out, name)
             || (|name| <= 256 && exists j :: 0 <= j < |fields| && fields[j].key == name)
    ensures HasName(SerializeFields(c, fields, out, depth, nodes).value, name)
    decreases fields
  {
    if fields != [] && nodes < NODE_LIMIT {
      if j :| 0 < j < |fields| && fields[j].key == name { assert fields[1..][j - 1] == fields[j]; }
      if |fields[0].key| > STRING_LIMIT {
        NoFieldIsMissing(c, fields[1..], out, depth, nodes + 1, name);
      } else {
        var value := Serialize(c, fields[0].value, depth, nodes + 1);
        var next := Put(out, fields[0].key, value.value);
        BudgetIsKept(c, fields[0].value, depth, nodes + 1);
        if HasName(out, name) || fields[0].key == name { PutHasName(out, fields[0].key, value.value, name); }
        NoFieldIsMissing(c, fields[1..], next, depth, value.nodes, name);
      }
    }
  }

  lemma NoFieldsAreMissing(c: Context, fields: seq<Field>, depth: nat, nodes: nat)
    requires nodes <= 256 && SerializeFields(c, fields, [], depth, nodes).nodes < 256
    ensures NoneMissing(fields, SerializeFields(c, fields, [], depth, nodes).value)
  {
    forall j | 0 <= j < |fields| && |fields[j].key| <= 256
      ensures HasName(SerializeFields(c, fields, [], depth, nodes).value, fields[j].key)
    {
      NoFieldIsMissing(c, fields, [], depth, nodes, fields[j].key);
    }
  }

  // ----- Depth -----

  /** No container lies `levels` or more levels below the top. */
  ghost predicate Shallow(w: Json, levels: nat)
    decreases w
  {
    match w
    case Array(items) => 0 < levels && ItemsShallow(items, levels - 1)
    case Object(fields) => 0 < levels && AllShallow(fields, levels - 1)
    case _ => true
  }

  ghost predicate ItemsShallow(items: seq<Json>, levels: nat)
    decreases items
  {
    forall i :: 0 <= i < |items| ==> Shallow(items[i], levels)
  }

  ghost predicate AllShallow(fields: seq<Field>, levels: nat)
    decreases fields
  {
    forall i :: 0 <= i < |fields| ==> Shallow(fields[i].value, levels)
  }

  lemma ItemsJoin(some: seq<Json>, more: seq<Json>, levels: nat)
    requires ItemsShallow(some, levels) && ItemsShallow(more, levels)
    ensures ItemsShallow(some + more, levels)
  {
  }

  /** Containers are nested at most eight levels deep. */
  lemma SerializedIsShallow(c: Context, v: Json)
    ensures Shallow(Serialize(c, v, 0, 0).value, 8)
  {
    SerializedBelow(c, v, 0, 8, 0);
  }

  lemma {:induction false} SerializedBelow(c: Context, v: Json, depth: nat, levels: nat, nodes: nat)
    requires depth + levels == 8
    ensures Shallow(Serialize(c, v, depth, nodes).value, levels)
    decreases v, 0
  {
    if 0 < levels && nodes < NODE_LIMIT {
      match v
      case Array(items) =>
        var head := if |items| > ARRAY_LIMIT then items[..ARRAY_LIMIT] else items;
        SerializedItemsBelow(c, head, depth + 1, levels - 1, nodes + 1);
        ItemsJoin(SerializeItems(c, head, depth + 1, nodes + 1).value, CutMarker(items), levels - 1);
      case Object(fields) => SerializedFieldsBelow(c, fields, [], depth + 1, levels - 1, nodes + 1);
      case _ =>
    }
  }

  lemma {:induction false} SerializedItemsBelow(c: Context, items: seq<Json>, depth: nat, levels: nat, nodes: nat)
    requires depth + levels == 8
    ensures ItemsShallow(SerializeItems(c, items, depth, nodes).value, levels)
    decreases items
  {
    if items != [] && nodes < NODE_LIMIT {
      SerializedBelow(c, items[0], depth, levels, nodes);
      var first := Serialize(c, items[0], depth, nodes);
      SerializedItemsBelow(c, items[1..], depth, levels, first.nodes);
      ItemsJoin([first.value], SerializeItems(c, items[1..], depth, first.nodes).value, levels);
    }
  }

  lemma {:induction false} SerializedFieldsBelow(
    c: Context, fields: seq<Field>, out: seq<Field>, depth: nat, levels: nat, nodes: nat)
    requires depth + levels == 8 && AllShallow(out, levels)
    ensures AllShallow(SerializeFields(c, fields, out, depth, nodes).value, levels)
    decreases fields
  {
    if fields != [] {
      if nodes >= NODE_LIMIT {
        PutBelow(out, Field(TRUNCATED, Text(MAX_NODES)), levels);
      } else if |fields[0].key| > STRING_LIMIT {
        SerializedFieldsBelow(c, fields[1..], out, depth, levels, nodes + 1);
      } else {
        var value := Serialize(c, fields[0].value, depth, nodes + 1);
        SerializedBelow(c, fields[0].value, depth, levels, nodes + 1);
        PutBelow(out, Field(fields[0].key, value.value), levels);
        SerializedFieldsBelow(
          c, fields[1..], Put(out, fields[0].key, value.value), depth, levels, value.nodes);
      }
    }
  }

  lemma PutBelow(out: seq<Field>, g: Field, levels: nat)
    requires Shallow(g.value, levels) && AllShallow(out, levels)
    ensures AllShallow(Put(out, g.key, g.value), levels)
  {
    var all := Put(out, g.key, g.value);
    forall i | 0 <= i < |all| ensures Shallow(all[i].value, levels) { PutOnly(out, g.key, g.value, all[i]); }
  }
}
