/**
 * Rows of a database table kept as a sequence, and the few bulk operations the
 * ORM performs on them: DELETE ... WHERE (Filter), UPDATE ... SET (MapSeq) and
 * ordered insertion (InsertByDate). Table-wide constraints are stated as a
 * relation that must hold between every two rows (Pairwise).
 */
module Tables {

  /** The rows of `s` that satisfy `p`, in their original order. */
  function Filter<T(==, !new)>(s: seq<T>, p: T -> bool): (r: seq<T>)
    ensures |r| <= |s|
    ensures forall x :: x in r <==> x in s && p(x)
    decreases |s|
  {
    if s == [] then []
    else if p(s[0]) then [s[0]] + Filter(s[1..], p)
    else Filter(s[1..], p)
  }

  /** Filtering keeps every selected row as often as it occurs, and no other row. */
  lemma {:induction false} FilterCounts<T(!new)>(s: seq<T>, p: T -> bool)
    ensures forall x :: multiset(Filter(s, p))[x] == if p(x) then multiset(s)[x] else 0
    decreases |s|
  {
    if s != [] {
      FilterCounts(s[1..], p);
      assert s == [s[0]] + s[1..];
    }
  }

  /** Every row of `s` rewritten by `f`, in place. */
  function MapSeq<T>(s: seq<T>, f: T -> T): (r: seq<T>)
    ensures |r| == |s|
    ensures forall i :: 0 <= i < |s| ==> r[i] == f(s[i])
    decreases |s|
  {
    if s == [] then [] else [f(s[0])] + MapSeq(s[1..], f)
  }

  /** `ok` holds of every two rows, the earlier one first. */
  predicate Pairwise<T>(s: seq<T>, ok: (T, T) -> bool)
  {
    forall i, j :: 0 <= i < j < |s| ==> ok(s[i], s[j])
  }

  /** The set of values that `key` takes on the rows of `s` (a column's values). */
  function Keys<T(==, !new), K>(s: seq<T>, key: T -> K): set<K>
  {
    set x | x in s :: key(x)
  }

  /** A table sorted by a timestamp column, newest row first. */
  predicate NewestFirst<T>(s: seq<T>, date: T -> int)
  {
    forall i, j :: 0 <= i < j < |s| ==> date(s[i]) >= date(s[j])
  }

  /** Places `x` before the first row that is not newer than it. */
  function InsertByDate<T>(s: seq<T>, x: T, date: T -> int): (r: seq<T>)
    ensures |r| == |s| + 1
    ensures multiset(r) == multiset(s) + multiset{x}
    decreases |s|
  {
    if s == [] || date(s[0]) <= date(x) then [x] + s
    else
      assert s == [s[0]] + s[1..];
      [s[0]] + InsertByDate(s[1..], x, date)
  }

  lemma InsertByDateMembers<T(!new)>(s: seq<T>, x: T, date: T -> int)
    ensures forall y :: y in InsertByDate(s, x, date) <==> y == x || y in s
  {
  }

  /** Deleting rows keeps every relation that held between every two rows. */
  lemma {:induction false} FilterPairwise<T(!new)>(s: seq<T>, p: T -> bool, ok: (T, T) -> bool)
    requires Pairwise(s, ok)
    ensures Pairwise(Filter(s, p), ok)
    decreases |s|
  {
    if s != [] {
      var tail := s[1..];
      assert Pairwise(tail, ok) by {
        forall i, j | 0 <= i < j < |tail| ensures ok(tail[i], tail[j]) {
          assert tail[i] == s[i + 1] && tail[j] == s[j + 1];
        }
      }
      FilterPairwise(tail, p, ok);
      if p(s[0]) {
        var rest := Filter(tail, p);
        var r := [s[0]] + rest;
        forall i, j | 0 <= i < j < |r| ensures ok(r[i], r[j]) {
          if i == 0 {
            assert r[j] in tail;
            var k :| 0 <= k < |tail| && tail[k] == r[j];
            assert s[k + 1] == r[j];
          } else {
            assert r[i] == rest[i - 1] && r[j] == rest[j - 1];
          }
        }
      }
    }
  }

  /** Deleting rows keeps a newest-first order. */
  lemma FilterNewestFirst<T(!new)>(s: seq<T>, p: T -> bool, date: T -> int)
    requires NewestFirst(s, date)
    ensures NewestFirst(Filter(s, p), date)
  {
    var ok := (a: T, b: T) => date(a) >= date(b);
    assert Pairwise(s, ok);
    FilterPairwise(s, p, ok);
  }

  /** Inserting by date keeps a newest-first order. */
  lemma {:induction false} InsertByDateNewestFirst<T(!new)>(s: seq<T>, x: T, date: T -> int)
    requires NewestFirst(s, date)
    ensures NewestFirst(InsertByDate(s, x, date), date)
    decreases |s|
  {
    var r := InsertByDate(s, x, date);
    if s == [] || date(s[0]) <= date(x) {
      forall i, j | 0 <= i < j < |r| ensures date(r[i]) >= date(r[j]) {
        if i > 0 { assert r[i] == s[i - 1]; }
        assert r[j] == s[j - 1];
      }
    } else {
      var tail := s[1..];
      InsertByDateNewestFirst(tail, x, date);
      InsertByDateMembers(tail, x, date);
      var rest := InsertByDate(tail, x, date);
      assert r == [s[0]] + rest;
      forall i, j | 0 <= i < j < |r| ensures date(r[i]) >= date(r[j]) {
        if i == 0 {
          assert r[j] in rest;
          if r[j] != x {
            var k :| 0 <= k < |tail| && tail[k] == r[j];
            assert s[k + 1] == r[j];
          }
        } else {
          assert r[i] == rest[i - 1] && r[j] == rest[j - 1];
        }
      }
    }
  }

  /**
   * Inserting a row that stands in a symmetric relation `ok` with every
   * existing row keeps `ok` between every two rows.
   */
  lemma {:induction false} InsertByDatePairwise<T(!new)>(s: seq<T>, x: T, date: T -> int, ok: (T, T) -> bool)
    requires Pairwise(s, ok)
    requires forall y :: y in s ==> ok(x, y) && ok(y, x)
    ensures Pairwise(InsertByDate(s, x, date), ok)
    decreases |s|
  {
    var r := InsertByDate(s, x, date);
    if s == [] || date(s[0]) <= date(x) {
      forall i, j | 0 <= i < j < |r| ensures ok(r[i], r[j]) {
        if i > 0 { assert r[i] == s[i - 1]; }
        assert r[j] == s[j - 1];
      }
    } else {
      var tail := s[1..];
      assert Pairwise(tail, ok) by {
        forall i, j | 0 <= i < j < |tail| ensures ok(tail[i], tail[j]) {
          assert tail[i] == s[i + 1] && tail[j] == s[j + 1];
        }
      }
      InsertByDatePairwise(tail, x, date, ok);
      InsertByDateMembers(tail, x, date);
      var rest := InsertByDate(tail, x, date);
      assert r == [s[0]] + rest;
      forall i, j | 0 <= i < j < |r| ensures ok(r[i], r[j]) {
        if i == 0 {
          assert r[j] in rest;
          if r[j] != x {
            var k :| 0 <= k < |tail| && tail[k] == r[j];
            assert s[k + 1] == r[j];
          }
        } else {
          assert r[i] == rest[i - 1] && r[j] == rest[j - 1];
        }
      }
    }
  }

  /** Appending a row related by `ok` to every existing row keeps `ok` between every two rows. */
  lemma AppendPairwise<T(!new)>(s: seq<T>, x: T, ok: (T, T) -> bool)
    requires Pairwise(s, ok)
    requires forall y :: y in s ==> ok(y, x)
    ensures Pairwise(s + [x], ok)
  {
  }

  /** An update every two rows' relation survives keeps the relation over the table. */
  lemma MapPairwise<T(!new)>(s: seq<T>, f: T -> T, ok: (T, T) -> bool)
    requires Pairwise(s, ok)
    requires forall x, y :: ok(x, y) ==> ok(f(x), f(y))
    ensures Pairwise(MapSeq(s, f), ok)
  {
  }

  /** A key survives a delete when every row that carries it survives. */
  lemma FilterKeeps<T(!new), K>(s: seq<T>, p: T -> bool, key: T -> K, k: K)
    requires k in Keys(s, key)
    requires forall x :: x in s && key(x) == k ==> p(x)
    ensures k in Keys(Filter(s, p), key)
  {
  }

  /** The values of a column that an update does not touch are unchanged. */
  lemma MapSeqKeys<T(!new), K>(s: seq<T>, f: T -> T, key: T -> K)
    requires forall x :: key(f(x)) == key(x)
    ensures Keys(MapSeq(s, f), key) == Keys(s, key)
  {
  }
}
