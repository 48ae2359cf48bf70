/** A tree that sanitizing twice changes again, under all limits that allow one: an over-long key collapses to the name
    of a later key, whose value is cut in two places, and those two markers then use up the budget of a sibling. */
module SanitizerCapture {
  import opened Utf16
  import opened PersistedSanitizer
  import opened SanitizerFixpoint
  import opened SanitizerIdempotence

  const X: Str := [0x78]
  const CUT := Text(MAX_NODES)

  ghost predicate Roomy(o: Options) { Lawful(o) && 3 <= o.maxDepth && 5 <= o.maxNodes }

  function Nulls(n: nat): seq<Json> { seq(n, _ => Null) }

  function LongKey(o: Options): Str { seq(o.maxString + 1, _ => 0x61) }

  /** So many nulls that five nodes of the budget are left to the rest of the tree. */
  function Deep(o: Options): Json
    requires 5 <= o.maxNodes
  {
    Array(Nulls(o.maxNodes - 5) + [Array([Null]), Null])
  }

  /** Cut twice, since the walk comes to the inner array with one node left. */
  function CutDeep(o: Options): Json
    requires 5 <= o.maxNodes
  {
    Array(Nulls(o.maxNodes - 5) + [Array([CUT]), CUT])
  }

  function Tree(o: Options): Json
    requires 5 <= o.maxNodes
  {
    Object([Field(LongKey(o), Null), Field(X, Null), Field(TRUNCATED, Deep(o))])
  }

  function Sibling(o: Options): Field { Field(X, if o.redactSecrets && o.isSecret(X) then Text(REDACTED) else Null) }

  function Once(o: Options): Json
    requires 5 <= o.maxNodes
  {
    Object([Field(TRUNCATED, CutDeep(o)), Sibling(o)])
  }

  const TWICE := Object([Field(TRUNCATED, CUT)])

  // ----- Values -----

  lemma Items(o: Options, items: seq<Json>, first: Json, depth: nat, count: nat, n: nat, rest: seq<Json>, m: nat)
    requires items != [] && count < o.maxNodes
    requires Sanitize(o, items[0], false, depth, count) == Done(first, n)
    requires SanitizeItems(o, items[1..], false, depth, n) == Done(rest, m)
    ensures SanitizeItems(o, items, false, depth, count) == Done([first] + rest, m)
  {
  }

  lemma FirstNull(n: nat, items: seq<Json>)
    requires n > 0
    ensures Nulls(n) + items == [Null] + (Nulls(n - 1) + items)
    ensures (Nulls(n) + items)[0] == Null && (Nulls(n) + items)[1..] == Nulls(n - 1) + items
  {
  }

  lemma {:induction false} NullsThen(
    o: Options, n: nat, items: seq<Json>, depth: nat, count: nat, rest: seq<Json>, m: nat)
    requires count + n <= o.maxNodes && SanitizeItems(o, items, false, depth, count + n) == Done(rest, m)
    ensures SanitizeItems(o, Nulls(n) + items, false, depth, count) == Done(Nulls(n) + rest, m)
  {
    if n == 0 {
      assert Nulls(0) + items == items && Nulls(0) + rest == rest;
    } else {
      NullsThen(o, n - 1, items, depth, count + 1, rest, m);
      FirstNull(n, items);
      FirstNull(n, rest);
      Items(o, Nulls(n) + items, Null, depth, count, count + 1, Nulls(n - 1) + rest, m);
    }
  }

  lemma DeepIsCut(o: Options)
    requires Roomy(o)
    ensures Sanitize(o, Deep(o), false, 1, 3) == Done(CutDeep(o), o.maxNodes)
  {
    var n, inner := o.maxNodes, Array([Null]);
    assert Sanitize(o, inner, false, 2, n - 1) == Done(Array([CUT]), n);
    assert [inner, Null][1..] == [Null] && [Array([CUT])] + [CUT] == [Array([CUT]), CUT];
    assert SanitizeItems(o, [Null], false, 2, n) == Done([CUT], n);
    Items(o, [inner, Null], Array([CUT]), 2, n - 1, n, [CUT], n);
    NullsThen(o, n - 5, [inner, Null], 2, 4, [Array([CUT]), CUT], n);
  }

  lemma OneCutIsKept(o: Options, depth: nat, count: nat)
    requires Lawful(o) && count < o.maxNodes
    ensures SanitizeItems(o, [CUT], false, depth, count) == Done([CUT], count + 1)
  {
    assert [CUT][1..] == [] && [CUT] + [] == [CUT];
    Items(o, [CUT], CUT, depth, count, count + 1, [], count + 1);
  }

  lemma CutDeepIsKept(o: Options)
    requires Roomy(o)
    ensures Sanitize(o, CutDeep(o), false, 1, 1) == Done(CutDeep(o), o.maxNodes)
  {
    var n, inner := o.maxNodes, Array([CUT]);
    OneCutIsKept(o, 3, n - 2);
    assert Sanitize(o, inner, false, 2, n - 3) == Done(inner, n - 1);
    assert [inner, CUT][1..] == [CUT] && [inner] + [CUT] == [inner, CUT];
    OneCutIsKept(o, 2, n - 1);
    Items(o, [inner, CUT], inner, 2, n - 3, n - 1, [CUT], n);
    NullsThen(o, n - 5, [inner, CUT], 2, 2, [inner, CUT], n);
  }

  // ----- Keys -----

  lemma PlainIsSafe(o: Options, key: Str)
    requires |key| <= o.maxString && forall i :: 0 <= i < |key| ==> key[i] < 0xD800
    ensures SafeKey(o, key) == key
  {
    NoSurrogates(key);
    BoundedString(key, o.maxString);
  }

  lemma Keys(o: Options)
    requires Lawful(o)
    ensures SafeKey(o, LongKey(o)) == TRUNCATED && SafeKey(o, TRUNCATED) == TRUNCATED && SafeKey(o, X) == X
    ensures |LongKey(o)| > 13 && |TRUNCATED| == 11 && |X| == 1
  {
    forall i | 0 <= i < |TRUNCATED| ensures TRUNCATED[i] < 0xD800 { MarkerIsPlain(i); }
    MarkerIsWellFormed(11);
    PlainIsSafe(o, TRUNCATED);
    PlainIsSafe(o, X);
  }

  /** A usable key that is not secret takes the walked value. */
  lemma KeyTakes(o: Options, f: Field, out: seq<Field>, count: nat, value: Json, n: nat)
    requires SafeKey(o, f.key) == f.key && !o.isSecret(f.key) && value != Undefined
    requires Sanitize(o, f.value, false, 1, count) == Done(value, n)
    ensures NextOut(o, f, out, false, 1, count) == Done(Put(out, f.key, value), n)
  {
  }

  // ----- The two walks -----

  function Omitted(o: Options): Field { Field(TRUNCATED, Text(OmittedValue(o, LongKey(o)))) }

  lemma LongKeyIsReplaced(o: Options)
    requires Lawful(o)
    ensures NextOut(o, Field(LongKey(o), Null), [], false, 1, 1) == Done([Omitted(o)], 2)
  {
    Keys(o);
  }

  lemma SiblingFollows(o: Options)
    requires Roomy(o)
    ensures NextOut(o, Field(X, Null), [Omitted(o)], false, 1, 2) == Done([Omitted(o), Sibling(o)], 3)
  {
    Keys(o);
    assert !HasKey([Omitted(o)], X);
    PutAppends([Omitted(o)], X, Sibling(o).value);
    assert [Omitted(o)] + [Sibling(o)] == [Omitted(o), Sibling(o)];
  }

  /** The value takes the place of the collapsed key, in front of the sibling. */
  lemma DeepIsCaptured(o: Options)
    requires Roomy(o)
    ensures NextOut(o, Field(TRUNCATED, Deep(o)), [Omitted(o), Sibling(o)], false, 1, 3) ==
      Done(Once(o).fields, o.maxNodes)
  {
    Keys(o);
    DeepIsCut(o);
    KeyTakes(o, Field(TRUNCATED, Deep(o)), [Omitted(o), Sibling(o)], 3, CutDeep(o), o.maxNodes);
    assert [Omitted(o), Sibling(o)][1..] == [Sibling(o)];
    assert [Field(TRUNCATED, CutDeep(o))] + [Sibling(o)] == Once(o).fields;
  }

  lemma FirstWalk(o: Options)
    requires Roomy(o)
    ensures Sanitize(o, Tree(o), false, 0, 0) == Done(Once(o), o.maxNodes)
  {
    var all := Tree(o).fields;
    LongKeyIsReplaced(o);
    SiblingFollows(o);
    DeepIsCaptured(o);
    FieldsUnfold(o, all, 0, [], false, 1, 1);
    FieldsUnfold(o, all, 1, [Omitted(o)], false, 1, 2);
    FieldsUnfold(o, all, 2, [Omitted(o), Sibling(o)], false, 1, 3);
    assert all[0..] == all && all[3..] == [];
  }

  lemma SecondWalk(o: Options)
    requires Roomy(o)
    ensures Sanitize(o, Once(o), false, 0, 0) == Done(TWICE, o.maxNodes)
  {
    var all, kept := Once(o).fields, [Field(TRUNCATED, CutDeep(o))];
    Keys(o);
    CutDeepIsKept(o);
    KeyTakes(o, all[0], [], 1, CutDeep(o), o.maxNodes);
    FieldsUnfold(o, all, 0, [], false, 1, 1);
    assert all[0..] == all && all[1..] == [Sibling(o)] && kept[1..] == [];
    assert Put(kept, TRUNCATED, CUT) == TWICE.fields;
  }

  lemma TreeHasDistinctKeys(o: Options)
    requires Roomy(o)
    ensures DistinctKeys(Tree(o))
  {
    Keys(o);
    assert DistinctKeys(Array([Null]));
    assert DistinctKeys(Deep(o));
  }

  /** Whatever the string rules, this ordinary tree is not final after one walk. */
  lemma CaptureBreaksIdempotence(o: Options)
    requires Roomy(o)
    ensures Sanitize(o, Tree(o), false, 0, 0).Done? && !IsFinal(o, Tree(o))
  {
    FirstWalk(o);
    SecondWalk(o);
    assert |Once(o).fields| == 2 && |TWICE.fields| == 1;
  }

  /** Sanitizing is idempotent on all trees exactly under limits that leave no room for that tree. */
  lemma IdempotentIffSmallLimits(o: Options)
    requires Lawful(o)
    ensures (forall v :: DistinctKeys(v) && Sanitize(o, v, false, 0, 0).Done? ==> IsFinal(o, v)) <==>
            o.maxDepth <= 2 || o.maxNodes <= 4
  {
    if o.maxDepth <= 2 || o.maxNodes <= 4 {
      forall v | DistinctKeys(v) && Sanitize(o, v, false, 0, 0).Done?
        ensures IsFinal(o, v)
      {
        SmallLimitsAreFinal(o, v);
      }
    } else {
      TreeHasDistinctKeys(o);
      CaptureBreaksIdempotence(o);
    }
  }
}
