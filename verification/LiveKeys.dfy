/** The keys of an insertion-ordered map together with one live iterator over them.

    A removed key leaves a hole, a key added again goes to the end, and the iterator passes over holes and
    reaches keys that were added after it started. */
module LiveKeys {
  import opened Wrappers

  datatype KeyLog<K(==)> = KeyLog(cells: seq<Option<K>>, cursor: nat) {

    ghost predicate Valid() {
      && cursor <= |cells|
      && forall i, j :: 0 <= i < j < |cells| && cells[i].Some? ==> cells[i] != cells[j]
    }

    predicate Has(key: K) { Some(key) in cells }

    function Add(key: K): KeyLog<K> {
      if Has(key) then this else this.(cells := cells + [Some(key)])
    }

    function Remove(key: K): KeyLog<K> {
      this.(cells := seq(|cells|, i requires 0 <= i < |cells| => if cells[i] == Some(key) then None else cells[i]))
    }

    /** The keys in the order in which the iterator will reach them, starting over at the end. */
    function Order(): seq<K>
      requires cursor <= |cells|
    {
      Somes(cells[cursor..]) + Somes(cells[..cursor])
    }

    function Restart(): KeyLog<K> { this.(cursor := 0) }

    /** Where the iterator stops next: at a key, or at the end. */
    function Seek(from: nat): (j: nat)
      requires from <= |cells|
      ensures from <= j <= |cells| && (j < |cells| ==> cells[j].Some?)
      ensures forall i :: from <= i < j ==> cells[i].None?
      decreases |cells| - from
    {
      if from == |cells| || cells[from].Some? then from else Seek(from + 1)
    }
  }

  function Somes<K>(cells: seq<Option<K>>): seq<K> {
    if cells == [] then []
    else
      var last := cells[|cells| - 1];
      Somes(cells[..|cells| - 1]) + if last.Some? then [last.value] else []
  }

  lemma {:induction false} SomesConcat<K>(a: seq<Option<K>>, b: seq<Option<K>>)
    ensures Somes(a + b) == Somes(a) + Somes(b)
  {
    if b == [] {
      assert a + b == a;
    } else {
      assert (a + b)[..|a + b| - 1] == a + b[..|b| - 1];
      SomesConcat(a, b[..|b| - 1]);
    }
  }

  lemma {:induction false} NoSomes<K>(cells: seq<Option<K>>)
    requires forall i :: 0 <= i < |cells| ==> cells[i].None?
    ensures Somes(cells) == []
  {
    if cells != [] { NoSomes(cells[..|cells| - 1]); }
  }

  lemma {:induction false} SomesAre<K>(cells: seq<Option<K>>, key: K)
    ensures key in Somes(cells) <==> Some(key) in cells
  {
    if cells != [] {
      assert cells == cells[..|cells| - 1] + [cells[|cells| - 1]];
      SomesAre(cells[..|cells| - 1], key);
    }
  }

  lemma {:induction false} SomesCount<K>(cells: seq<Option<K>>, keys: set<K>)
    requires forall i, j :: 0 <= i < j < |cells| && cells[i].Some? ==> cells[i] != cells[j]
    requires forall key :: key in keys <==> Some(key) in cells
    ensures |Somes(cells)| == |keys|
  {
    if cells == [] {
      assert keys == {};
    } else {
      var rest, last := cells[..|cells| - 1], cells[|cells| - 1];
      assert cells == rest + [last];
      if last.Some? {
        SomesCount(rest, keys - {last.value});
      } else {
        SomesCount(rest, keys);
      }
    }
  }

  lemma OrderIsKeys<K>(log: KeyLog<K>, keys: set<K>)
    requires log.Valid() && forall key :: key in keys <==> log.Has(key)
    ensures |log.Order()| == |keys| && forall key :: key in log.Order() <==> key in keys
  {
    var ahead, behind := log.cells[log.cursor..], log.cells[..log.cursor];
    assert log.cells == behind + ahead;
    SomesConcat(behind, ahead);
    SomesCount(log.cells, keys);
    forall key ensures key in log.Order() <==> key in keys {
      SomesAre(ahead, key);
      SomesAre(behind, key);
    }
  }

  lemma SomesAhead<K>(cells: seq<Option<K>>, from: nat, j: nat)
    requires from <= j < |cells| && cells[j].Some? && forall i :: from <= i < j ==> cells[i].None?
    ensures Somes(cells[from..]) == [cells[j].value] + Somes(cells[j + 1..])
  {
    var holes, key, rest := cells[from..j], [cells[j]], cells[j + 1..];
    NoSomes(holes);
    assert cells[from..] == holes + (key + rest) && key[..0] == [];
    SomesConcat(holes, key + rest);
    SomesConcat(key, rest);
  }

  lemma SomesBehind<K>(cells: seq<Option<K>>, from: nat, j: nat)
    requires from <= j < |cells| && cells[j].Some? && forall i :: from <= i < j ==> cells[i].None?
    ensures Somes(cells[..j + 1]) == Somes(cells[..from]) + [cells[j].value]
  {
    var holes, key, behind := cells[from..j], [cells[j]], cells[..from];
    NoSomes(holes);
    assert cells[..j + 1] == (behind + holes) + key && key[..0] == [];
    SomesConcat(behind + holes, key);
    SomesConcat(behind, holes);
  }

  /** Passing over a key sends it to the end of the order. */
  lemma OrderMoves<K>(log: KeyLog<K>, j: nat)
    requires log.Valid() && j == log.Seek(log.cursor) < |log.cells|
    ensures log.Order() != [] && log.Order()[0] == log.cells[j].value
    ensures log.(cursor := j + 1).Order() == log.Order()[1..] + [log.cells[j].value]
  {
    SomesAhead(log.cells, log.cursor, j);
    SomesBehind(log.cells, log.cursor, j);
    Rotates(log.cells[j].value, Somes(log.cells[j + 1..]), Somes(log.cells[..log.cursor]));
  }

  lemma Rotates<K>(first: K, ahead: seq<K>, behind: seq<K>)
    ensures ([first] + ahead + behind)[0] == first
    ensures ahead + (behind + [first]) == ([first] + ahead + behind)[1..] + [first]
  {
  }

  lemma OrderStartsOver<K>(log: KeyLog<K>)
    requires log.Valid() && log.Seek(log.cursor) == |log.cells|
    ensures log.Restart().Order() == log.Order()
  {
    var ahead, behind := log.cells[log.cursor..], log.cells[..log.cursor];
    NoSomes(ahead);
    assert log.cells[0..] == behind + ahead && log.cells[..0] == [];
    SomesConcat(behind, ahead);
  }

  /** Removing the key that was just passed over takes it from the end of the order. */
  lemma OrderRemoves<K>(log: KeyLog<K>, key: K)
    requires log.Valid() && 0 < log.cursor && log.cells[log.cursor - 1] == Some(key)
    ensures log.Order() != [] && log.Remove(key).Order() == log.Order()[..|log.Order()| - 1]
  {
    var at, next := log.cursor - 1, log.Remove(key).cells;
    assert forall i :: 0 <= i < |next| && i != at ==> next[i] == log.cells[i];
    assert next[log.cursor..] == log.cells[log.cursor..];
    assert next[..log.cursor] == log.cells[..at] + [None] && log.cells[..log.cursor] == log.cells[..at] + [Some(key)];
    SomesConcat(log.cells[..at], [None]);
    SomesConcat(log.cells[..at], [Some(key)]);
    assert [Option<K>.None][..0] == [] && [Some(key)][..0] == [];
  }

  /** The keys after the iterator has passed over the one at `j`, which may then be removed. */
  function Passed<K>(log: KeyLog<K>, j: nat, gone: bool): KeyLog<K>
    requires j < |log.cells| && log.cells[j].Some?
  {
    if gone then log.(cursor := j + 1).Remove(log.cells[j].value) else log.(cursor := j + 1)
  }

  lemma DropLast<K>(keys: seq<K>, key: K)
    ensures (keys + [key])[..|keys + [key]| - 1] == keys && keys <= keys + [key]
  {
  }

  /** The keys that were next after it still are. */
  lemma PassedOrder<K>(log: KeyLog<K>, j: nat, gone: bool, order: seq<K>, next: seq<K>)
    requires log.Valid() && j == log.Seek(log.cursor) < |log.cells| && order == log.Order()
    requires next == Passed(log, j, gone).Order()
    ensures order != [] && order[0] == log.cells[j].value && order[1..] <= next
  {
    OrderMoves(log, j);
    DropLast(order[1..], log.cells[j].value);
    if gone {
      MovingKeeps(log, j + 1);
      OrderRemoves(log.(cursor := j + 1), log.cells[j].value);
    }
  }

  lemma MovingKeeps<K>(log: KeyLog<K>, cursor: nat)
    requires log.Valid() && cursor <= |log.cells|
    ensures log.(cursor := cursor).Valid() && forall k :: log.(cursor := cursor).Has(k) <==> log.Has(k)
  {
    forall k ensures log.(cursor := cursor).Has(k) <==> log.Has(k) {}
  }

  lemma PassedKeeps<K>(log: KeyLog<K>, j: nat, gone: bool)
    requires log.Valid() && j < |log.cells| && log.cells[j].Some?
    ensures Passed(log, j, gone).Valid()
    ensures forall k :: Passed(log, j, gone).Has(k) <==> log.Has(k) && !(gone && k == log.cells[j].value)
  {
    MovingKeeps(log, j + 1);
    if gone { RemoveKeeps(log.(cursor := j + 1), log.cells[j].value); }
  }

  lemma AddKeeps<K>(log: KeyLog<K>, key: K)
    requires log.Valid()
    ensures log.Add(key).Valid() && log.Add(key).cursor == log.cursor
    ensures forall k :: log.Add(key).Has(k) <==> log.Has(k) || k == key
  {
    var next := log.Add(key);
    forall k ensures next.Has(k) <==> log.Has(k) || k == key {
      if log.Has(k) && !log.Has(key) {
        var i :| 0 <= i < |log.cells| && log.cells[i] == Some(k);
        assert next.cells[i] == Some(k);
      }
      if k == key && !log.Has(key) { assert next.cells[|log.cells|] == Some(key); }
    }
  }

  lemma RemoveKeeps<K>(log: KeyLog<K>, key: K)
    requires log.Valid()
    ensures log.Remove(key).Valid() && log.Remove(key).cursor == log.cursor
    ensures forall k :: log.Remove(key).Has(k) <==> log.Has(k) && k != key
  {
    var next := log.Remove(key);
    forall k ensures next.Has(k) <==> log.Has(k) && k != key {
      if log.Has(k) && k != key {
        var i :| 0 <= i < |log.cells| && log.cells[i] == Some(k);
        assert next.cells[i] == Some(k);
      }
    }
  }

  /** A restarted iterator over a map that is not empty always finds a key. */
  lemma RestartFindsAKey<K>(log: KeyLog<K>, key: K)
    requires log.Valid() && log.Has(key)
    ensures log.Restart().Valid() && log.Seek(0) < |log.cells|
  {
    var i :| 0 <= i < |log.cells| && log.cells[i] == Some(key);
  }
}
