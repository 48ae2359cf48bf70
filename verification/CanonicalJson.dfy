/** The canonical printer of JSON values: members sorted by the code units of their keys (the order of section
    3.2.3 of RFC 8785), undefined members dropped, everything else as in RFC 8259. */
module CanonicalJson {
  import opened Wrappers
  import opened Utf16
  import opened JsonText

  /** `Opaque` is a value the printer throws on: a function, a symbol, a non-finite number, a class instance. */
  datatype Value =
    | Undefined
    | Null
    | Bool(b: bool)
    | Number(literal: Numeral)
    | Text(s: Str)
    | Array(items: seq<Value>)
    | Object(fields: seq<Member>)
    | Opaque

  datatype Member = Member(key: Str, value: Value)

  // ----- Order of keys -----

  /** Comparison by code units. */
  predicate Before(a: Str, b: Str) {
    b != [] && (a == [] || a[0] < b[0] || (a[0] == b[0] && Before(a[1..], b[1..])))
  }

  lemma {:induction false} BeforeIsTotal(a: Str, b: Str)
    ensures a == b || Before(a, b) || Before(b, a)
    ensures !(Before(a, b) && Before(b, a)) && !Before(a, a)
  {
    if a != [] && b != [] {
      BeforeIsTotal(a[1..], b[1..]);
      assert a == [a[0]] + a[1..] && b == [b[0]] + b[1..];
    }
    if a != [] { BeforeIsTotal(a[1..], a[1..]); }
  }

  lemma {:induction false} BeforeIsTransitive(a: Str, b: Str, c: Str)
    requires Before(a, b) && Before(b, c)
    ensures Before(a, c)
  {
    if a != [] && a[0] == b[0] == c[0] { BeforeIsTransitive(a[1..], b[1..], c[1..]); }
  }

  /** A proper prefix, or smaller at the first unit that differs. */
  ghost predicate Less(a: Str, b: Str) { exists n: nat :: LessAt(a, b, n) }

  predicate LessAt(a: Str, b: Str, n: nat) {
    n <= |a| && n < |b| && a[..n] == b[..n] && (n == |a| || a[n] < b[n])
  }

  lemma NotAtFirst(a: Str, b: Str, n: nat)
    requires LessAt(a, b, n) && a != [] && b != [] && a[0] == b[0]
    ensures 0 < n
  {
  }

  lemma SameStart(a: Str, b: Str, n: nat)
    requires LessAt(a, b, n) && 0 < n
    ensures a != [] && b != [] && a[0] == b[0]
  {
    assert a[..n][0] == b[..n][0];
  }

  lemma {:induction false} BeforeIsLess(a: Str, b: Str)
    ensures Before(a, b) <==> Less(a, b)
  {
    if a == [] || b == [] || a[0] != b[0] {
      assert Before(a, b) ==> LessAt(a, b, 0);
      forall n: nat | LessAt(a, b, n) ensures n == 0 { if n > 0 { SameStart(a, b, n); } }
    } else {
      BeforeIsLess(a[1..], b[1..]);
      if n: nat :| LessAt(a[1..], b[1..], n) {
        assert a[..n + 1] == [a[0]] + a[1..][..n] && b[..n + 1] == [b[0]] + b[1..][..n];
        assert LessAt(a, b, n + 1);
      }
      if n: nat :| LessAt(a, b, n) {
        NotAtFirst(a, b, n);
        assert a[1..][..n - 1] == a[..n][1..] && b[1..][..n - 1] == b[..n][1..];
        assert LessAt(a[1..], b[1..], n - 1);
      }
    }
  }

  /** A member already printed. */
  datatype Row = Row(key: Str, text: Str)

  function Insert(row: Row, rows: seq<Row>): seq<Row> {
    if rows == [] || Before(row.key, rows[0].key) then [row] + rows else [rows[0]] + Insert(row, rows[1..])
  }

  function SortByKey(rows: seq<Row>): seq<Row> {
    if rows == [] then [] else Insert(rows[0], SortByKey(rows[1..]))
  }

  ghost predicate Ascending(rows: seq<Row>) {
    forall i, j :: 0 <= i < j < |rows| ==> Before(rows[i].key, rows[j].key)
  }

  ghost predicate DistinctRows(rows: seq<Row>) {
    forall i, j :: 0 <= i < j < |rows| ==> rows[i].key != rows[j].key
  }

  lemma {:induction false} InsertSorts(row: Row, rows: seq<Row>)
    requires Ascending(rows) && forall i :: 0 <= i < |rows| ==> rows[i].key != row.key
    ensures Ascending(Insert(row, rows))
    ensures forall r :: r in Insert(row, rows) <==> r == row || r in rows
  {
    if rows != [] {
      BeforeIsTotal(row.key, rows[0].key);
      assert rows == [rows[0]] + rows[1..];
      if Before(row.key, rows[0].key) {
        forall j | 0 < j < |rows|
          ensures Before(row.key, rows[j].key)
        {
          BeforeIsTransitive(row.key, rows[0].key, rows[j].key);
        }
      } else {
        InsertSorts(row, rows[1..]);
        var rest := Insert(row, rows[1..]);
        forall j | 0 <= j < |rest| ensures Before(rows[0].key, rest[j].key) {
          assert rest[j] in rest;
          if rest[j] != row { var k :| 0 <= k < |rows[1..]| && rows[1..][k] == rest[j]; }
        }
      }
    }
  }

  lemma {:induction false} SortSorts(rows: seq<Row>)
    requires DistinctRows(rows)
    ensures Ascending(SortByKey(rows)) && forall r :: r in SortByKey(rows) <==> r in rows
    ensures forall i, j :: 0 <= i < j < |SortByKey(rows)| ==> Less(SortByKey(rows)[i].key, SortByKey(rows)[j].key)
  {
    SortAscends(rows);
    forall i, j | 0 <= i < j < |SortByKey(rows)| ensures Less(SortByKey(rows)[i].key, SortByKey(rows)[j].key) {
      BeforeIsLess(SortByKey(rows)[i].key, SortByKey(rows)[j].key);
    }
  }

  lemma {:induction false} SortAscends(rows: seq<Row>)
    requires DistinctRows(rows)
    ensures Ascending(SortByKey(rows)) && forall r :: r in SortByKey(rows) <==> r in rows
  {
    if rows != [] {
      SortAscends(rows[1..]);
      var rest := SortByKey(rows[1..]);
      assert rows == [rows[0]] + rows[1..];
      forall i | 0 <= i < |rest| ensures rest[i].key != rows[0].key {
        assert rest[i] in rest;
        var k :| 0 <= k < |rows[1..]| && rows[1..][k] == rest[i];
      }
      InsertSorts(rows[0], rest);
    }
  }

  /** Rows in ascending order are determined by which rows there are. */
  lemma {:induction false} AscendingIsUnique(a: seq<Row>, b: seq<Row>)
    requires Ascending(a) && Ascending(b) && forall r :: r in a <==> r in b
    ensures a == b
  {
    assert a != [] ==> a[0] in b;
    assert b != [] ==> b[0] in a;
    if a != [] && b != [] {
      FirstIsLeast(a, b[0]);
      FirstIsLeast(b, a[0]);
      BeforeIsTotal(a[0].key, b[0].key);
      assert a == [a[0]] + a[1..] && b == [b[0]] + b[1..];
      FirstIsNotRepeated(a);
      FirstIsNotRepeated(b);
      forall r ensures r in a[1..] <==> r in b[1..] { assert r in a[1..] <==> r in a && r != a[0]; }
      AscendingIsUnique(a[1..], b[1..]);
    }
  }

  lemma FirstIsLeast(a: seq<Row>, r: Row)
    requires Ascending(a) && r in a
    ensures a[0] == r || Before(a[0].key, r.key)
  {
  }

  lemma FirstIsNotRepeated(a: seq<Row>)
    requires Ascending(a) && a != []
    ensures a[0] !in a[1..]
  {
    BeforeIsTotal(a[0].key, a[0].key);
  }

  // ----- The printer -----

  /** `strict` refuses undefined values instead of dropping them or printing null. */
  function Print(v: Value, strict: bool): Option<Str>
    decreases v
  {
    match v
    case Undefined => if strict then None else Some(NULL)
    case Null => Some(NULL)
    case Bool(b) => Some(if b then TRUE else FALSE)
    case Number(literal) => Some(literal)
    case Text(s) => Some(Quote(s))
    case Opaque => None
    case Array(items) =>
      (match PrintItems(items, strict)
       case None => None
       case Some(texts) => Some([OPEN_BRACKET] + Join(texts) + [CLOSE_BRACKET]))
    case Object(fields) =>
      match PrintFields(fields, strict)
      case None => None
      case Some(rows) => Some([OPEN_BRACE] + Join(RowTexts(SortByKey(rows))) + [CLOSE_BRACE])
  }

  function PrintItems(items: seq<Value>, strict: bool): (r: Option<seq<Str>>)
    ensures r.Some? ==> |r.value| == |items|
    decreases items
  {
    if items == [] then Some([])
    else match (Print(items[0], strict), PrintItems(items[1..], strict))
      case (Some(first), Some(rest)) => Some([first] + rest)
      case _ => None
  }

  function PrintFields(fields: seq<Member>, strict: bool): Option<seq<Row>>
    decreases fields
  {
    if fields == [] then Some([])
    else if !strict && fields[0].value == Undefined then PrintFields(fields[1..], strict)
    else match (Print(fields[0].value, strict), PrintFields(fields[1..], strict))
      case (Some(text), Some(rest)) => Some([Row(fields[0].key, text)] + rest)
      case _ => None
  }

  function RowText(row: Row): Str { Quote(row.key) + [COLON] + row.text }

  function RowTexts(rows: seq<Row>): seq<Str> { seq(|rows|, i requires 0 <= i < |rows| => RowText(rows[i])) }

  /** An object prints its defined members, each once, with their keys in strictly ascending order of code units. */
  lemma ObjectPrints(fields: seq<Member>, strict: bool) returns (rows: seq<Row>)
    requires DistinctFields(fields) && Print(Object(fields), strict).Some?
    ensures Print(Object(fields), strict) == Some(Units("{") + Join(RowTexts(rows)) + Units("}"))
    ensures forall i, j :: 0 <= i < j < |rows| ==> Less(rows[i].key, rows[j].key)
    ensures forall f :: f in fields && f.value != Undefined ==>
      Print(f.value, strict).Some? && Row(f.key, Print(f.value, strict).value) in rows
    ensures forall r :: r in rows ==>
      exists f :: f in fields && f.value != Undefined && f.key == r.key && Print(f.value, strict) == Some(r.text)
  {
    rows := SortByKey(PrintFields(fields, strict).value);
    SymbolsSpell();
    PrintedRowsAreDistinct(fields, strict);
    SortSorts(PrintFields(fields, strict).value);
    PrintedFields(fields, strict);
  }

  // ----- What a value means -----

  ghost predicate DistinctKeys(v: Value)
    decreases v
  {
    match v
    case Array(items) => forall i :: 0 <= i < |items| ==> DistinctKeys(items[i])
    case Object(fields) => DistinctFields(fields)
    case _ => true
  }

  ghost predicate DistinctFields(fields: seq<Member>)
    decreases fields
  {
    && (forall i, j :: 0 <= i < j < |fields| ==> fields[i].key != fields[j].key)
    && (forall i :: 0 <= i < |fields| ==> DistinctKeys(fields[i].value))
  }

  /** The tree with its objects as maps: an undefined member is absent, any other undefined value is null. */
  function Meaning(v: Value): Tree
    decreases v
  {
    match v
    case Bool(b) => TBool(b)
    case Number(literal) => TNumber(literal)
    case Text(s) => TText(s)
    case Array(items) => TArray(MeaningOfItems(items))
    case Object(fields) => TObject(MeaningOfFields(fields))
    case _ => TNull
  }

  function MeaningOfItems(items: seq<Value>): (r: seq<Tree>)
    ensures |r| == |items|
    decreases items
  {
    if items == [] then [] else [Meaning(items[0])] + MeaningOfItems(items[1..])
  }

  function MeaningOfFields(fields: seq<Member>): map<Str, Tree>
    decreases fields
  {
    if fields == [] then map[]
    else
      var rest := MeaningOfFields(fields[1..]);
      if fields[0].value == Undefined then rest else rest[fields[0].key := Meaning(fields[0].value)]
  }

  lemma {:induction false} MeaningOfItem(items: seq<Value>, i: nat)
    requires i < |items|
    ensures MeaningOfItems(items)[i] == Meaning(items[i])
  {
    if i > 0 { MeaningOfItem(items[1..], i - 1); }
  }

  /** Every defined field is a member of the map. */
  lemma {:induction false} MeaningOfField(fields: seq<Member>, f: Member)
    requires DistinctFields(fields) && f in fields && f.value != Undefined
    ensures f.key in MeaningOfFields(fields) && MeaningOfFields(fields)[f.key] == Meaning(f.value)
    decreases fields
  {
    if fields[0] != f {
      var i :| 0 <= i < |fields| && fields[i] == f;
      assert fields[1..][i - 1] == f;
      DistinctTail(fields);
      MeaningOfField(fields[1..], f);
    }
  }

  /** Conversely, a key of the map belongs to a defined field. */
  lemma {:induction false} FieldOfMeaning(fields: seq<Member>, k: Str) returns (f: Member)
    requires k in MeaningOfFields(fields)
    ensures f in fields && f.key == k && f.value != Undefined
    decreases fields
  {
    if k in MeaningOfFields(fields[1..]) {
      f := FieldOfMeaning(fields[1..], k);
    } else {
      f := fields[0];
    }
  }

  lemma DistinctTail(fields: seq<Member>)
    requires DistinctFields(fields) && fields != []
    ensures DistinctFields(fields[1..]) && DistinctKeys(fields[0].value)
  {
    var rest := fields[1..];
    forall i | 0 <= i < |rest| ensures DistinctKeys(rest[i].value) { assert rest[i] == fields[i + 1]; }
  }

  /** The rows are the defined fields with their printed values. */
  lemma {:induction false} PrintedFields(fields: seq<Member>, strict: bool)
    requires PrintFields(fields, strict).Some?
    ensures forall f :: f in fields && f.value != Undefined ==>
      Print(f.value, strict).Some? && Row(f.key, Print(f.value, strict).value) in PrintFields(fields, strict).value
    ensures forall r :: r in PrintFields(fields, strict).value ==>
      exists f :: f in fields && f.value != Undefined && f.key == r.key && Print(f.value, strict) == Some(r.text)
    decreases fields
  {
    if fields != [] {
      var rest := fields[1..];
      PrintedFields(rest, strict);
      assert fields == [fields[0]] + rest;
      forall r | r in PrintFields(fields, strict).value
        ensures exists f ::
          f in fields && f.value != Undefined && f.key == r.key && Print(f.value, strict) == Some(r.text)
      {
        if r in PrintFields(rest, strict).value {
          var f :| f in rest && f.value != Undefined && f.key == r.key && Print(f.value, strict) == Some(r.text);
          assert f in fields;
        } else {
          assert fields[0] in fields;
        }
      }
    }
  }

  lemma {:induction false} PrintedRowsAreDistinct(fields: seq<Member>, strict: bool)
    requires DistinctFields(fields) && PrintFields(fields, strict).Some?
    ensures DistinctRows(PrintFields(fields, strict).value)
    decreases fields
  {
    if fields != [] {
      DistinctTail(fields);
      var rest := fields[1..];
      PrintedRowsAreDistinct(rest, strict);
      PrintedFields(rest, strict);
      var rows := PrintFields(rest, strict).value;
      forall i | 0 <= i < |rows| ensures rows[i].key != fields[0].key {
        assert rows[i] in rows;
        var f :| f in rest && f.key == rows[i].key;
        var j :| 0 <= j < |rest| && rest[j] == f;
      }
    }
  }

  lemma {:induction false} PrintedItem(items: seq<Value>, strict: bool, i: nat)
    requires i < |items| && PrintItems(items, strict).Some?
    ensures Print(items[i], strict) == Some(PrintItems(items, strict).value[i])
  {
    if i > 0 { PrintedItem(items[1..], strict, i - 1); }
  }

  // ----- The printer refuses exactly what it should -----

  ghost predicate Accepted(v: Value, strict: bool)
    decreases v
  {
    match v
    case Undefined => !strict
    case Opaque => false
    case Array(items) => forall i :: 0 <= i < |items| ==> Accepted(items[i], strict)
    case Object(fields) => AcceptedFields(fields, strict)
    case _ => true
  }

  ghost predicate AcceptedFields(fields: seq<Member>, strict: bool)
    decreases fields
  {
    forall i :: 0 <= i < |fields| ==> Accepted(fields[i].value, strict)
  }

  lemma {:induction false} PrintsWhatIsAccepted(v: Value, strict: bool)
    ensures Print(v, strict).Some? <==> Accepted(v, strict)
    decreases v
  {
    match v
    case Array(items) => PrintsAcceptedItems(items, strict);
    case Object(fields) => PrintsAcceptedFields(fields, strict);
    case _ =>
  }

  lemma {:induction false} PrintsAcceptedItems(items: seq<Value>, strict: bool)
    ensures PrintItems(items, strict).Some? <==> forall i :: 0 <= i < |items| ==> Accepted(items[i], strict)
    decreases items
  {
    if items != [] {
      PrintsWhatIsAccepted(items[0], strict);
      PrintsAcceptedItems(items[1..], strict);
      assert items == [items[0]] + items[1..];
    }
  }

  lemma {:induction false} PrintsAcceptedFields(fields: seq<Member>, strict: bool)
    ensures PrintFields(fields, strict).Some? <==> AcceptedFields(fields, strict)
    decreases fields
  {
    if fields != [] {
      PrintsWhatIsAccepted(fields[0].value, strict);
      PrintsAcceptedFields(fields[1..], strict);
      assert fields == [fields[0]] + fields[1..];
    }
  }

  // ----- Equal meanings print alike -----

  lemma {:induction false} MeaningDecidesText(v: Value, w: Value, strict: bool)
    requires DistinctKeys(v) && DistinctKeys(w) && Print(v, strict).Some? && Print(w, strict).Some?
    requires Meaning(v) == Meaning(w)
    ensures Print(v, strict) == Print(w, strict)
    decreases v
  {
    match v
    case Array(items) =>
      var a, b := PrintItems(items, strict).value, PrintItems(w.items, strict).value;
      forall i | 0 <= i < |items| ensures a[i] == b[i] {
        PrintedItem(items, strict, i);
        PrintedItem(w.items, strict, i);
        MeaningOfItem(items, i);
        MeaningOfItem(w.items, i);
        MeaningDecidesText(items[i], w.items[i], strict);
      }
      assert |items| == |MeaningOfItems(items)| && a == b;
    case Object(fields) => MeaningDecidesRows(fields, w.fields, strict);
    case _ =>
  }

  lemma {:induction false} MeaningDecidesRows(fields: seq<Member>, others: seq<Member>, strict: bool)
    requires DistinctFields(fields) && DistinctFields(others) && PrintFields(fields, strict).Some?
    requires PrintFields(others, strict).Some?
    requires MeaningOfFields(fields) == MeaningOfFields(others)
    ensures SortByKey(PrintFields(fields, strict).value) == SortByKey(PrintFields(others, strict).value)
    decreases fields
  {
    var a, b := PrintFields(fields, strict).value, PrintFields(others, strict).value;
    PrintedFields(fields, strict);
    PrintedFields(others, strict);
    forall f, g | f in fields && g in others && f.key == g.key && f.value != Undefined && g.value != Undefined
      ensures Print(f.value, strict) == Print(g.value, strict)
    {
      var i :| 0 <= i < |fields| && fields[i] == f;
      var j :| 0 <= j < |others| && others[j] == g;
      assert DistinctKeys(fields[i].value) && DistinctKeys(others[j].value);
      MeaningOfField(fields, f);
      MeaningOfField(others, g);
      MeaningDecidesText(f.value, g.value, strict);
    }
    forall r | r in a ensures r in b {
      var f :| f in fields && f.value != Undefined && f.key == r.key && Print(f.value, strict) == Some(r.text);
      MeaningOfField(fields, f);
      var g := FieldOfMeaning(others, f.key);
      assert Row(g.key, Print(g.value, strict).value) in b;
    }
    forall r | r in b ensures r in a {
      var g :| g in others && g.value != Undefined && g.key == r.key && Print(g.value, strict) == Some(r.text);
      MeaningOfField(others, g);
      var f := FieldOfMeaning(fields, g.key);
      assert Row(f.key, Print(f.value, strict).value) in a;
    }
    PrintedRowsAreDistinct(fields, strict);
    PrintedRowsAreDistinct(others, strict);
    SortSorts(a);
    SortSorts(b);
    AscendingIsUnique(SortByKey(a), SortByKey(b));
  }

  // ----- Reading back what was printed -----

  lemma {:induction false} PrintedReads(v: Value, strict: bool)
    requires DistinctKeys(v) && Print(v, strict).Some?
    ensures Reads(Print(v, strict).value, Meaning(v))
    decreases v
  {
    match v
    case Undefined => WordsRead();
    case Null => WordsRead();
    case Bool(_) => WordsRead();
    case Number(literal) => NumeralReads(literal);
    case Text(s) => QuoteReads(s);
    case Array(items) =>
      var texts, trees := PrintItems(items, strict).value, MeaningOfItems(items);
      forall i | 0 <= i < |items| ensures Reads(texts[i], trees[i]) {
        PrintedItem(items, strict, i);
        MeaningOfItem(items, i);
        PrintedReads(items[i], strict);
      }
      ArrayReads(texts, trees);
    case Object(fields) => PrintedObjectReads(fields, strict);
  }

  lemma {:induction false} PrintedObjectReads(fields: seq<Member>, strict: bool)
    requires DistinctFields(fields) && PrintFields(fields, strict).Some?
    ensures Reads(
      [OPEN_BRACE] + Join(RowTexts(SortByKey(PrintFields(fields, strict).value))) + [CLOSE_BRACE],
      TObject(MeaningOfFields(fields)))
    decreases fields
  {
    var rows := PrintFields(fields, strict).value;
    var sorted, m := SortByKey(rows), MeaningOfFields(fields);
    PrintedFields(fields, strict);
    PrintedRowsAreDistinct(fields, strict);
    SortSorts(rows);
    forall r | r in sorted ensures r.key in m && Reads(r.text, m[r.key]) {
      var f :| f in fields && f.value != Undefined && f.key == r.key && Print(f.value, strict) == Some(r.text);
      var i :| 0 <= i < |fields| && fields[i] == f;
      assert DistinctKeys(fields[i].value);
      MeaningOfField(fields, f);
      PrintedReads(f.value, strict);
    }
    forall k | k in m ensures exists i :: 0 <= i < |sorted| && sorted[i].key == k {
      var f := FieldOfMeaning(fields, k);
      assert Row(f.key, Print(f.value, strict).value) in sorted;
    }
    RowsRead(sorted, m);
  }

  lemma RowsRead(rows: seq<Row>, m: map<Str, Tree>)
    requires forall r :: r in rows ==> r.key in m && Reads(r.text, m[r.key])
    requires forall k :: k in m ==> exists i :: 0 <= i < |rows| && rows[i].key == k
    ensures Reads([OPEN_BRACE] + Join(RowTexts(rows)) + [CLOSE_BRACE], TObject(m))
  {
    var members := seq(
      |rows|, i requires 0 <= i < |rows| => assert rows[i] in rows; Pair(rows[i].key, rows[i].text, m[rows[i].key]));
    forall i | 0 <= i < |rows| ensures Reads(members[i].text, members[i].tree) { assert rows[i] in rows; }
    assert PairTexts(members) == RowTexts(rows);
    forall k | k in m ensures k in AllOf(members, map[]) && AllOf(members, map[])[k] == m[k] {
      var i :| 0 <= i < |rows| && rows[i].key == k;
      AllOfHas(members, map[], m, i);
    }
    forall k | k in AllOf(members, map[]) ensures k in m { AllOfOnly(members, map[], m, k); }
    assert AllOf(members, map[]) == m;
    ObjectReads(members);
  }

  lemma {:induction false} AllOfHas(members: seq<Pair>, acc: map<Str, Tree>, m: map<Str, Tree>, i: nat)
    requires i < |members| && forall p :: p in members ==> p.key in m && p.tree == m[p.key]
    ensures members[i].key in AllOf(members, acc) && AllOf(members, acc)[members[i].key] == m[members[i].key]
    decreases members
  {
    var next := acc[members[0].key := members[0].tree];
    assert members[0] in members;
    if i > 0 { AllOfHas(members[1..], next, m, i - 1); } else { AllOfKeeps(members[1..], next, m, members[0].key); }
  }

  lemma {:induction false} AllOfKeeps(members: seq<Pair>, acc: map<Str, Tree>, m: map<Str, Tree>, k: Str)
    requires (forall p :: p in members ==> p.key in m && p.tree == m[p.key]) && k in acc && k in m && acc[k] == m[k]
    ensures k in AllOf(members, acc) && AllOf(members, acc)[k] == m[k]
    decreases members
  {
    if members != [] {
      assert members[0] in members;
      AllOfKeeps(members[1..], acc[members[0].key := members[0].tree], m, k);
    }
  }

  lemma {:induction false} AllOfOnly(members: seq<Pair>, acc: map<Str, Tree>, m: map<Str, Tree>, k: Str)
    requires (forall p :: p in members ==> p.key in m) && k in AllOf(members, acc) && (k in acc ==> k in m)
    ensures k in m
    decreases members
  {
    if members != [] {
      assert members[0] in members;
      AllOfOnly(members[1..], acc[members[0].key := members[0].tree], m, k);
    }
  }

  // ----- Main results -----

  /** Parsing inverts printing, up to the order of members and the treatment of undefined. */
  lemma ParseInvertsPrint(v: Value, strict: bool)
    requires DistinctKeys(v) && Print(v, strict).Some?
    ensures Parse(Print(v, strict).value) == Parsed(Meaning(v))
  {
    PrintedReads(v, strict);
    var text := Print(v, strict).value;
    assert text + [] == text;
    assert ReadValue(text + []) == Got(Meaning(v), []);
  }

  /** Two values print alike exactly when they are equal as trees of key-to-value maps. */
  lemma PrintsAlikeIffEqual(v: Value, w: Value, strict: bool)
    requires DistinctKeys(v) && DistinctKeys(w) && Accepted(v, strict) && Accepted(w, strict)
    ensures Print(v, strict) == Print(w, strict) <==> Meaning(v) == Meaning(w)
  {
    PrintsWhatIsAccepted(v, strict);
    PrintsWhatIsAccepted(w, strict);
    ParseInvertsPrint(v, strict);
    ParseInvertsPrint(w, strict);
    if Meaning(v) == Meaning(w) { MeaningDecidesText(v, w, strict); }
  }
}
