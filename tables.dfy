/**
 * A table keyed by an integer primary key, kept in ascending key order (the
 * order in which SQLite scans a rowid table). The row operations are those
 * Room generates: insert with REPLACE on conflict, update by key, delete by
 * key, and lookup by key.
 */
module Tables {
  import opened Wrappers

  /** Keys strictly ascending; in particular no key occurs twice. */
  ghost predicate KeysAscending<T>(rows: seq<T>, key: T -> int) {
    forall i, j :: 0 <= i < j < |rows| ==> key(rows[i]) < key(rows[j])
  }

  predicate HasKey<T>(rows: seq<T>, k: int, key: T -> int) {
    exists i :: 0 <= i < |rows| && key(rows[i]) == k
  }

  /** The row stored under key `k`, if any. */
  function FindByKey<T>(rows: seq<T>, k: int, key: T -> int): (r: Option<T>)
    ensures r.Some? ==> r.value in rows && key(r.value) == k
    ensures r.None? <==> !HasKey(rows, k, key)
  {
    if rows == [] then None
    else if key(rows[0]) == k then Some(rows[0])
    else
      var r := FindByKey(rows[1..], k, key);
      assert HasKey(rows, k, key) <==> HasKey(rows[1..], k, key) by {
        if HasKey(rows, k, key) {
          var i :| 0 <= i < |rows| && key(rows[i]) == k;
          assert rows[1..][i - 1] == rows[i];
        }
        if HasKey(rows[1..], k, key) {
          var i :| 0 <= i < |rows[1..]| && key(rows[1..][i]) == k;
          assert rows[i + 1] == rows[1..][i];
        }
      }
      r
  }

  /** INSERT OR REPLACE: the row with `x`'s key (if any) gives way to `x`. */
  function Upsert<T>(rows: seq<T>, x: T, key: T -> int): (r: seq<T>)
    ensures |r| <= |rows| + 1
  {
    if rows == [] then [x]
    else if key(x) < key(rows[0]) then [x] + rows
    else if key(x) == key(rows[0]) then [x] + rows[1..]
    else [rows[0]] + Upsert(rows[1..], x, key)
  }

  /** UPDATE ... WHERE key = key(x): overwrites the matching row, if there is one. */
  function Replace<T>(rows: seq<T>, x: T, key: T -> int): (r: seq<T>)
    ensures |r| == |rows|
    ensures forall i :: 0 <= i < |rows| ==> r[i] == if key(rows[i]) == key(x) then x else rows[i]
  {
    if rows == [] then [] else [if key(rows[0]) == key(x) then x else rows[0]] + Replace(rows[1..], x, key)
  }

  /** DELETE ... WHERE key = k. */
  function RemoveKey<T>(rows: seq<T>, k: int, key: T -> int): (r: seq<T>)
    ensures |r| <= |rows|
  {
    if rows == [] then []
    else (if key(rows[0]) == k then [] else [rows[0]]) + RemoveKey(rows[1..], k, key)
  }

  /** Above every key in `s`. */
  ghost predicate Below<T>(k: int, s: seq<T>, key: T -> int) {
    forall y :: y in s ==> k < key(y)
  }

  lemma AscendingTail<T>(rows: seq<T>, key: T -> int)
    requires rows != [] && KeysAscending(rows, key)
    ensures KeysAscending(rows[1..], key) && Below(key(rows[0]), rows[1..], key)
  {
    forall y | y in rows[1..] ensures key(rows[0]) < key(y) {
      var m :| 0 <= m < |rows[1..]| && rows[1..][m] == y;
      assert rows[m + 1] == y;
    }
  }

  lemma AscendingCons<T>(a: T, s: seq<T>, key: T -> int)
    requires KeysAscending(s, key) && Below(key(a), s, key)
    ensures KeysAscending([a] + s, key)
  {
    var r := [a] + s;
    forall i, j | 0 <= i < j < |r| ensures key(r[i]) < key(r[j]) {
      assert r[j] == s[j - 1];
      if i > 0 { assert r[i] == s[i - 1]; }
    }
  }

  lemma {:induction false} UpsertSpec<T>(rows: seq<T>, x: T, key: T -> int)
    requires KeysAscending(rows, key)
    ensures KeysAscending(Upsert(rows, x, key), key)
    ensures forall y :: y in Upsert(rows, x, key) ==> y == x || (y in rows && key(y) != key(x))
    ensures x in Upsert(rows, x, key)
    ensures forall y :: y in rows && key(y) != key(x) ==> y in Upsert(rows, x, key)
  {
    if rows != [] {
      AscendingTail(rows, key);
      assert forall y :: y in rows <==> y == rows[0] || y in rows[1..];
      if key(x) > key(rows[0]) {
        UpsertSpec(rows[1..], x, key);
        var tail := Upsert(rows[1..], x, key);
        assert Below(key(rows[0]), tail, key) by {
          forall y | y in tail ensures key(rows[0]) < key(y) {
            assert y == x || (y in rows[1..] && key(y) != key(x));
          }
        }
        AscendingCons(rows[0], tail, key);
      } else if key(x) == key(rows[0]) {
        AscendingCons(x, rows[1..], key);
      } else {
        AscendingCons(x, rows, key);
      }
    }
  }

  /** A key above every stored key lands at the end. */
  lemma {:induction false} UpsertFreshKey<T>(rows: seq<T>, x: T, key: T -> int)
    requires forall i :: 0 <= i < |rows| ==> key(rows[i]) < key(x)
    ensures Upsert(rows, x, key) == rows + [x]
  {
    if rows != [] {
      UpsertFreshKey(rows[1..], x, key);
    }
  }

  lemma ReplaceMembers<T>(rows: seq<T>, x: T, key: T -> int)
    ensures forall y :: y in Replace(rows, x, key) ==> y == x || (y in rows && key(y) != key(x))
    ensures forall y :: y in rows && key(y) != key(x) ==> y in Replace(rows, x, key)
  {
    var r := Replace(rows, x, key);
    forall y | y in r ensures y == x || (y in rows && key(y) != key(x)) {
      var i :| 0 <= i < |r| && r[i] == y;
    }
    forall y | y in rows && key(y) != key(x) ensures y in r {
      var i :| 0 <= i < |rows| && rows[i] == y;
      assert r[i] == y;
    }
  }

  /** UPDATE by key: ascending order kept, the row under that key overwritten, every other row kept. */
  lemma ReplaceSpec<T>(rows: seq<T>, x: T, key: T -> int)
    requires KeysAscending(rows, key)
    ensures KeysAscending(Replace(rows, x, key), key)
    ensures forall y :: y in Replace(rows, x, key) ==> y == x || (y in rows && key(y) != key(x))
    ensures HasKey(rows, key(x), key) ==> x in Replace(rows, x, key)
    ensures forall y :: y in rows && key(y) != key(x) ==> y in Replace(rows, x, key)
    ensures !HasKey(rows, key(x), key) ==> Replace(rows, x, key) == rows
  {
    var r := Replace(rows, x, key);
    assert forall i :: 0 <= i < |r| ==> key(r[i]) == key(rows[i]);
    ReplaceMembers(rows, x, key);
    if HasKey(rows, key(x), key) {
      var m :| 0 <= m < |rows| && key(rows[m]) == key(x);
      assert r[m] == x;
    } else {
      assert forall i :: 0 <= i < |r| ==> r[i] == rows[i];
    }
  }

  lemma {:induction false} RemoveKeyMembers<T>(rows: seq<T>, k: int, key: T -> int)
    ensures forall y :: y in RemoveKey(rows, k, key) ==> y in rows && key(y) != k
    ensures forall y :: y in rows && key(y) != k ==> y in RemoveKey(rows, k, key)
  {
    if rows != [] {
      RemoveKeyMembers(rows[1..], k, key);
      assert forall y :: y in rows <==> y == rows[0] || y in rows[1..];
    }
  }

  lemma {:induction false} RemoveKeyAbsent<T>(rows: seq<T>, k: int, key: T -> int)
    requires !HasKey(rows, k, key)
    ensures RemoveKey(rows, k, key) == rows
  {
    if rows != [] {
      assert forall i :: 0 <= i < |rows[1..]| ==> rows[1..][i] == rows[i + 1];
      RemoveKeyAbsent(rows[1..], k, key);
      assert rows == [rows[0]] + rows[1..];
    }
  }

  lemma {:induction false} RemoveKeyAscending<T>(rows: seq<T>, k: int, key: T -> int)
    requires KeysAscending(rows, key)
    ensures KeysAscending(RemoveKey(rows, k, key), key)
  {
    if rows != [] {
      AscendingTail(rows, key);
      RemoveKeyAscending(rows[1..], k, key);
      RemoveKeyMembers(rows[1..], k, key);
      var tail := RemoveKey(rows[1..], k, key);
      if key(rows[0]) != k {
        assert Below(key(rows[0]), tail, key);
        AscendingCons(rows[0], tail, key);
      } else {
        assert RemoveKey(rows, k, key) == tail;
      }
    }
  }

  /** DELETE by key: ascending order kept, exactly the rows with other keys remain. */
  lemma RemoveKeySpec<T>(rows: seq<T>, k: int, key: T -> int)
    requires KeysAscending(rows, key)
    ensures KeysAscending(RemoveKey(rows, k, key), key)
    ensures forall y :: y in RemoveKey(rows, k, key) ==> y in rows && key(y) != k
    ensures forall y :: y in rows && key(y) != k ==> y in RemoveKey(rows, k, key)
    ensures !HasKey(rows, k, key) ==> RemoveKey(rows, k, key) == rows
  {
    RemoveKeyAscending(rows, k, key);
    RemoveKeyMembers(rows, k, key);
    if !HasKey(rows, k, key) {
      RemoveKeyAbsent(rows, k, key);
    }
  }
}
