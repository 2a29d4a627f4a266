/** Stable sorting by a comparison, as `Array.prototype.sort` does with a
    comparator (stable since ECMAScript 2019). A comparator `cmp` is modelled
    by the relation `le(a, b) == (cmp(a, b) <= 0)`, which must be a total
    preorder. */
module Sorting {

  ghost predicate TotalPreorder<T(!new)>(le: (T, T) -> bool) {
    && (forall a, b :: le(a, b) || le(b, a))
    && (forall a, b, c :: le(a, b) && le(b, c) ==> le(a, c))
  }

  ghost predicate Sorted<T>(s: seq<T>, le: (T, T) -> bool) {
    forall i, j :: 0 <= i < j < |s| ==> le(s[i], s[j])
  }

  /** Inserts `x` into `sorted` after every element that is not strictly
      greater, so that an element inserted later follows its equals. */
  function Insert<T>(sorted: seq<T>, x: T, le: (T, T) -> bool): (r: seq<T>)
    ensures multiset(r) == multiset(sorted) + multiset{x}
    ensures |r| == |sorted| + 1
  {
    if |sorted| == 0 then [x]
    else if !le(sorted[0], x) then [x] + sorted
    else
      assert sorted == [sorted[0]] + sorted[1..];
      [sorted[0]] + Insert(sorted[1..], x, le)
  }

  lemma {:induction false} InsertKeepsSorted<T(!new)>(sorted: seq<T>, x: T, le: (T, T) -> bool)
    requires TotalPreorder(le) && Sorted(sorted, le)
    ensures Sorted(Insert(sorted, x, le), le)
  {
    var r := Insert(sorted, x, le);
    if |sorted| == 0 {
    } else if !le(sorted[0], x) {
      assert le(x, sorted[0]);
      forall i, j | 0 <= i < j < |r| ensures le(r[i], r[j]) {
        if i == 0 {
          if j > 1 {
            assert le(sorted[0], sorted[j - 1]);
          }
        } else {
          assert r[i] == sorted[i - 1] && r[j] == sorted[j - 1];
        }
      }
    } else {
      var tail := sorted[1..];
      assert Sorted(tail, le) by {
        forall i, j | 0 <= i < j < |tail| ensures le(tail[i], tail[j]) {
          assert tail[i] == sorted[i + 1] && tail[j] == sorted[j + 1];
        }
      }
      InsertKeepsSorted(tail, x, le);
      var rest := Insert(tail, x, le);
      assert r == [sorted[0]] + rest;
      forall i, j | 0 <= i < j < |r| ensures le(r[i], r[j]) {
        if i == 0 {
          var y := rest[j - 1];
          assert y in multiset(rest);
          assert y in multiset(tail) || y == x;
          if y != x {
            assert y in tail;
            var k :| 0 <= k < |tail| && tail[k] == y;
            assert le(sorted[0], sorted[k + 1]);
          }
        } else {
          assert r[i] == rest[i - 1] && r[j] == rest[j - 1];
        }
      }
    }
  }

  /** Sorts `s` by inserting its elements one at a time in input order. */
  function SortBy<T(!new)>(s: seq<T>, le: (T, T) -> bool): (r: seq<T>)
    requires TotalPreorder(le)
    ensures Sorted(r, le)
    ensures multiset(r) == multiset(s)
    ensures |r| == |s|
  {
    if |s| == 0 then []
    else
      assert s == s[..|s| - 1] + [s[|s| - 1]];
      var prefix := SortBy(s[..|s| - 1], le);
      InsertKeepsSorted(prefix, s[|s| - 1], le);
      Insert(prefix, s[|s| - 1], le)
  }
}
