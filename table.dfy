/**
 * Row-filter semantics of the single-table SQL statements the models issue:
 * `SELECT ... WHERE key = ?` keeps the matching rows in storage order, and
 * `DELETE ... WHERE key = ?` leaves the others and reports how many matched.
 */
module Table {

  /** The rows whose key is `k`, in table order. */
  function Where<T>(rows: seq<T>, key: T -> int, k: int): (r: seq<T>)
    ensures |r| <= |rows|
    ensures forall x | x in r :: x in rows && key(x) == k
    ensures forall x | x in rows && key(x) == k :: x in r
  {
    if rows == [] then []
    else (if key(rows[0]) == k then [rows[0]] else []) + Where(rows[1..], key, k)
  }

  /** The rows whose key is not `k`, in table order: what a delete by `k` leaves behind. */
  function WhereNot<T>(rows: seq<T>, key: T -> int, k: int): (r: seq<T>)
    ensures |r| + |Where(rows, key, k)| == |rows|
    ensures forall x | x in r :: x in rows && key(x) != k
    ensures forall x | x in rows && key(x) != k :: x in r
  {
    if rows == [] then []
    else (if key(rows[0]) != k then [rows[0]] else []) + WhereNot(rows[1..], key, k)
  }

  /** No two rows share a key: what a primary key guarantees. */
  predicate UniqueKeys<T>(rows: seq<T>, key: T -> int) {
    forall i, j | 0 <= i < j < |rows| :: key(rows[i]) != key(rows[j])
  }

  /** When no row carries key `k`, nothing is selected. */
  lemma {:induction false} NoMatches<T>(rows: seq<T>, key: T -> int, k: int)
    requires forall x | x in rows :: key(x) != k
    ensures Where(rows, key, k) == []
  {
    if rows != [] {
      assert rows[0] in rows;
      NoMatches(rows[1..], key, k);
    }
  }

  /** When every row carries key `k`, all rows are selected, in order. */
  lemma {:induction false} AllMatch<T>(rows: seq<T>, key: T -> int, k: int)
    requires forall x | x in rows :: key(x) == k
    ensures Where(rows, key, k) == rows
  {
    if rows != [] {
      assert rows[0] in rows;
      AllMatch(rows[1..], key, k);
      assert rows == [rows[0]] + rows[1..];
    }
  }

  /** Selecting from a concatenation selects from each part. */
  lemma {:induction false} WhereConcat<T>(a: seq<T>, b: seq<T>, key: T -> int, k: int)
    ensures Where(a + b, key, k) == Where(a, key, k) + Where(b, key, k)
  {
    if a == [] {
      assert a + b == b;
    } else {
      assert (a + b)[1..] == a[1..] + b;
      WhereConcat(a[1..], b, key, k);
    }
  }

  /** Deleting from a concatenation deletes from each part. */
  lemma {:induction false} WhereNotConcat<T>(a: seq<T>, b: seq<T>, key: T -> int, k: int)
    ensures WhereNot(a + b, key, k) == WhereNot(a, key, k) + WhereNot(b, key, k)
  {
    if a == [] {
      assert a + b == b;
    } else {
      var head := if key(a[0]) != k then [a[0]] else [];
      WhereNotConcat(a[1..], b, key, k);
      WhereNotFirst(a, b, key, k);
      ConcatAssociates(head, WhereNot(a[1..], key, k), WhereNot(b, key, k));
    }
  }

  lemma ConcatAssociates<T>(x: seq<T>, y: seq<T>, z: seq<T>)
    ensures x + (y + z) == (x + y) + z
  {
  }

  /** One unfolding of WhereNot on a concatenation whose left part is not empty. */
  lemma WhereNotFirst<T>(a: seq<T>, b: seq<T>, key: T -> int, k: int)
    requires a != []
    ensures WhereNot(a + b, key, k) == (if key(a[0]) != k then [a[0]] else []) + WhereNot(a[1..] + b, key, k)
    ensures WhereNot(a, key, k) == (if key(a[0]) != k then [a[0]] else []) + WhereNot(a[1..], key, k)
  {
    assert (a + b)[0] == a[0];
    assert (a + b)[1..] == a[1..] + b;
  }

  /** A delete by `k` leaves no row with key `k` and every row with another key, in the same order. */
  lemma {:induction false} WhereAfterDelete<T>(rows: seq<T>, key: T -> int, k: int, k': int)
    ensures Where(WhereNot(rows, key, k), key, k') == if k == k' then [] else Where(rows, key, k')
  {
    if rows != [] {
      WhereAfterDelete(rows[1..], key, k, k');
      var head := if key(rows[0]) != k then [rows[0]] else [];
      WhereConcat(head, WhereNot(rows[1..], key, k), key, k');
    }
  }

  /** When nothing matches, a delete changes nothing. */
  lemma {:induction false} DeleteOfAbsentKey<T>(rows: seq<T>, key: T -> int, k: int)
    requires Where(rows, key, k) == []
    ensures WhereNot(rows, key, k) == rows
  {
    if rows != [] {
      assert rows[0] in rows;
      assert Where(rows[1..], key, k) == [] by {
        forall x | x in rows[1..] ensures key(x) != k {
          assert x in rows;
        }
      }
      DeleteOfAbsentKey(rows[1..], key, k);
    }
  }

  /** Deleting twice by the same key is deleting once. */
  lemma DeleteIdempotent<T>(rows: seq<T>, key: T -> int, k: int)
    ensures WhereNot(WhereNot(rows, key, k), key, k) == WhereNot(rows, key, k)
  {
    WhereAfterDelete(rows, key, k, k);
    DeleteOfAbsentKey(WhereNot(rows, key, k), key, k);
  }

  /** Under a unique key at most one row matches. */
  lemma {:induction false} UniqueMatchesAtMostOne<T>(rows: seq<T>, key: T -> int, k: int)
    requires UniqueKeys(rows, key)
    ensures |Where(rows, key, k)| <= 1
  {
    if rows != [] {
      var tail := rows[1..];
      assert UniqueKeys(tail, key) by {
        forall i, j | 0 <= i < j < |tail| ensures key(tail[i]) != key(tail[j]) {
          assert tail[i] == rows[i + 1] && tail[j] == rows[j + 1];
        }
      }
      UniqueMatchesAtMostOne(tail, key, k);
      if key(rows[0]) == k {
        forall x | x in tail ensures key(x) != k {
          var m :| 0 <= m < |tail| && tail[m] == x;
          assert rows[m + 1] == x;
        }
        NoMatches(tail, key, k);
      }
    }
  }

  /** Deleting rows keeps any key that was unique unique. */
  lemma {:induction false} DeleteKeepsUnique<T>(rows: seq<T>, key: T -> int, k: int, id: T -> int)
    requires UniqueKeys(rows, id)
    ensures UniqueKeys(WhereNot(rows, key, k), id)
  {
    if rows != [] {
      var tail := rows[1..];
      assert UniqueKeys(tail, id) by {
        forall i, j | 0 <= i < j < |tail| ensures id(tail[i]) != id(tail[j]) {
          assert tail[i] == rows[i + 1] && tail[j] == rows[j + 1];
        }
      }
      DeleteKeepsUnique(tail, key, k, id);
      var rest := WhereNot(tail, key, k);
      if key(rows[0]) != k {
        var r := [rows[0]] + rest;
        forall i, j | 0 <= i < j < |r| ensures id(r[i]) != id(r[j]) {
          if i == 0 {
            assert r[j] == rest[j - 1] && rest[j - 1] in tail;
            var m :| 0 <= m < |tail| && tail[m] == rest[j - 1];
            assert rows[m + 1] == r[j];
          } else {
            assert r[i] == rest[i - 1] && r[j] == rest[j - 1];
          }
        }
      }
    }
  }

  /**
   * Every key was issued by an AUTO_INCREMENT counter that now stands at `nextId`:
   * keys are positive, below the counter, and pairwise distinct.
   */
  predicate AutoIncremented<T>(rows: seq<T>, key: T -> int, nextId: int) {
    && 1 <= nextId
    && (forall i | 0 <= i < |rows| :: 1 <= key(rows[i]) < nextId)
    && UniqueKeys(rows, key)
  }

  /** Appending a row that takes the counter's value, then advancing the counter, keeps keys issued and distinct. */
  lemma InsertKeepsAutoIncrement<T>(rows: seq<T>, key: T -> int, nextId: int, x: T)
    requires AutoIncremented(rows, key, nextId) && key(x) == nextId
    ensures AutoIncremented(rows + [x], key, nextId + 1)
    ensures forall y | y in rows :: key(y) != key(x)
  {
    var r := rows + [x];
    forall i, j | 0 <= i < j < |r| ensures key(r[i]) != key(r[j]) {
      if j == |rows| {
        assert r[i] == rows[i] && rows[i] in rows;
      } else {
        assert r[i] == rows[i] && r[j] == rows[j];
      }
    }
  }

  /** A delete keeps keys issued and distinct. */
  lemma DeleteKeepsAutoIncrement<T>(rows: seq<T>, key: T -> int, nextId: int, col: T -> int, k: int)
    requires AutoIncremented(rows, key, nextId)
    ensures AutoIncremented(WhereNot(rows, col, k), key, nextId)
  {
    DeleteKeepsUnique(rows, col, k, key);
  }
}
