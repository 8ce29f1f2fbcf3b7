/**
 * Generic operations on a table held as a sequence of rows: the selection
 * (`WHERE`), the ordering (`ORDER BY ... ASC`) and the unique-index
 * predicate that the warehouse queries and constraints are built from.
 */
module RowSeqs {
  import opened Wrappers

  /** The rows of `s` that satisfy `p`, in table order (a `WHERE` clause). */
  function Filter<R(==,!new)>(s: seq<R>, p: R -> bool): (r: seq<R>)
    ensures |r| <= |s|
    ensures forall i :: 0 <= i < |r| ==> p(r[i])
    ensures forall x :: multiset(r)[x] == if p(x) then multiset(s)[x] else 0
  {
    if s == [] then []
    else
      assert s == [s[0]] + s[1..];
      (if p(s[0]) then [s[0]] else []) + Filter(s[1..], p)
  }

  /** No row of `s` satisfies `p`. */
  predicate NoneMatch<R>(s: seq<R>, p: R -> bool) {
    forall i :: 0 <= i < |s| ==> !p(s[i])
  }

  /** Two distinct rows of `s` satisfy `p`. */
  predicate TwoMatch<R>(s: seq<R>, p: R -> bool) {
    exists i, j :: 0 <= i < j < |s| && p(s[i]) && p(s[j])
  }

  /** The selection is empty exactly when no row matches. */
  lemma FilterEmpty<R(!new)>(s: seq<R>, p: R -> bool)
    ensures |Filter(s, p)| == 0 <==> NoneMatch(s, p)
  {
  }

  /** The selection holds at least two rows exactly when two distinct rows match. */
  lemma {:induction false} FilterTwo<R(!new)>(s: seq<R>, p: R -> bool)
    ensures |Filter(s, p)| >= 2 <==> TwoMatch(s, p)
  {
    if s != [] {
      var t := s[1..];
      FilterTwo(t, p);
      FilterEmpty(t, p);
      assert |Filter(s, p)| == (if p(s[0]) then 1 else 0) + |Filter(t, p)|;
      if TwoMatch(s, p) {
        var i, j :| 0 <= i < j < |s| && p(s[i]) && p(s[j]);
        assert s[j] == t[j - 1];
        if i > 0 {
          assert s[i] == t[i - 1];
          assert TwoMatch(t, p);
        } else {
          assert !NoneMatch(t, p);
        }
      }
      if TwoMatch(t, p) {
        var i, j :| 0 <= i < j < |t| && p(t[i]) && p(t[j]);
        assert s[i + 1] == t[i] && s[j + 1] == t[j];
      }
      if p(s[0]) && !NoneMatch(t, p) {
        var k :| 0 <= k < |t| && p(t[k]);
        assert s[k + 1] == t[k];
      }
    }
  }

  /** `s` is in non-decreasing order of `key`. */
  predicate SortedBy<R>(s: seq<R>, key: R -> int) {
    forall i, j :: 0 <= i < j < |s| ==> key(s[i]) <= key(s[j])
  }

  /** Inserts `x` into the sorted `s` before the first row whose key is not smaller. */
  function InsertBy<R(==,!new)>(x: R, s: seq<R>, key: R -> int): (r: seq<R>)
    requires SortedBy(s, key)
    ensures SortedBy(r, key)
    ensures multiset(r) == multiset(s) + multiset{x}
  {
    if s == [] then [x]
    else if key(x) <= key(s[0]) then [x] + s
    else
      var t := s[1..];
      assert s == [s[0]] + t;
      var rest := InsertBy(x, t, key);
      assert forall y :: y in rest ==> key(s[0]) <= key(y) by {
        forall y | y in rest ensures key(s[0]) <= key(y) {
          assert y in multiset(rest);
          if y != x {
            assert y in multiset(t);
            var k :| 0 <= k < |t| && t[k] == y;
            assert s[k + 1] == y;
          }
        }
      }
      [s[0]] + rest
  }

  /** The rows of `s` ordered by ascending `key` (an `ORDER BY key ASC`). */
  function SortBy<R(==,!new)>(s: seq<R>, key: R -> int): (r: seq<R>)
    ensures SortedBy(r, key)
    ensures multiset(r) == multiset(s)
  {
    if s == [] then []
    else
      assert s == [s[0]] + s[1..];
      InsertBy(s[0], SortBy(s[1..], key), key)
  }

  /**
   * The SQL meaning of a UNIQUE index over the columns `key` selects: no two
   * rows share a key. A key containing NULL is `None`, and SQL never counts
   * two such keys as equal.
   */
  predicate UniqueIndex<R, K(==)>(s: seq<R>, key: R -> Option<K>) {
    forall i, j :: 0 <= i < j < |s| && key(s[i]).Some? ==> key(s[i]) != key(s[j])
  }

  /** The new row `x` would duplicate the key of a row already in `s`. */
  predicate Collides<R, K(==)>(s: seq<R>, x: R, key: R -> Option<K>) {
    key(x).Some? && exists i :: 0 <= i < |s| && key(s[i]) == key(x)
  }

  /** Appending a row keeps a unique index exactly when its key does not collide. */
  lemma UniqueIndexAppend<R, K>(s: seq<R>, x: R, key: R -> Option<K>)
    requires UniqueIndex(s, key)
    ensures UniqueIndex(s + [x], key) <==> !Collides(s, x, key)
  {
    var t := s + [x];
    if Collides(s, x, key) {
      var i :| 0 <= i < |s| && key(s[i]) == key(x);
      assert t[i] == s[i] && t[|s|] == x;
    } else {
      forall i, j | 0 <= i < j < |t| && key(t[i]).Some?
        ensures key(t[i]) != key(t[j])
      {
        if j == |s| {
          assert t[i] == s[i];
        } else {
          assert t[i] == s[i] && t[j] == s[j];
        }
      }
    }
  }

  /** In a table whose index `key` is never NULL and unique, every row occurs once. */
  lemma {:induction false} UniqueRowOccursOnce<R(!new), K>(s: seq<R>, key: R -> Option<K>, x: R)
    requires forall i :: 0 <= i < |s| ==> key(s[i]).Some?
    requires UniqueIndex(s, key)
    requires x in s
    ensures multiset(s)[x] == 1
  {
    assert s == [s[0]] + s[1..];
    var t := s[1..];
    assert UniqueIndex(t, key) by {
      forall i, j | 0 <= i < j < |t| && key(t[i]).Some? ensures key(t[i]) != key(t[j]) {
        assert t[i] == s[i + 1] && t[j] == s[j + 1];
      }
    }
    if x == s[0] {
      forall k | 0 <= k < |t| ensures t[k] != x {
        assert t[k] == s[k + 1];
      }
      assert x !in t;
    } else {
      UniqueRowOccursOnce(t, key, x);
    }
  }
}
