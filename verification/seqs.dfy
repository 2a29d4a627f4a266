/** Small sequence vocabulary shared by the frontend and backend models:
    occurrence counts, duplicate freedom, first-occurrence de-duplication
    (the order in which a JavaScript object enumerates its string keys) and
    removal of every occurrence of a value (`Array.prototype.filter(x => x !== v)`). */
module Seqs {

  /** Number of occurrences of `x` in `s`. */
  function Count<T(==)>(s: seq<T>, x: T): (n: nat)
    ensures n <= |s|
    ensures n > 0 <==> x in s
  {
    if |s| == 0 then 0
    else (if s[0] == x then 1 else 0) + Count(s[1..], x)
  }

  predicate NoDups<T(==)>(s: seq<T>) {
    forall i, j :: 0 <= i < j < |s| ==> s[i] != s[j]
  }

  lemma {:induction false} CountOfDistinctMember<T>(s: seq<T>, x: T)
    requires NoDups(s) && x in s
    ensures Count(s, x) == 1
  {
    if s[0] == x {
      assert x !in s[1..] by {
        forall k | 0 <= k < |s[1..]| ensures s[1..][k] != x {
          assert s[1..][k] == s[k + 1];
        }
      }
    } else {
      assert NoDups(s[1..]) by {
        forall i, j | 0 <= i < j < |s[1..]| ensures s[1..][i] != s[1..][j] {
          assert s[1..][i] == s[i + 1] && s[1..][j] == s[j + 1];
        }
      }
      CountOfDistinctMember(s[1..], x);
    }
  }

  /** The values of `s` in order of first occurrence, each once. */
  function Distinct<T(==,!new)>(s: seq<T>): (r: seq<T>)
    ensures NoDups(r)
    ensures forall x :: x in r <==> x in s
    ensures |r| <= |s|
  {
    if |s| == 0 then []
    else
      var prefix := Distinct(s[..|s| - 1]);
      if s[|s| - 1] in prefix then prefix else prefix + [s[|s| - 1]]
  }

  /** The position of the first occurrence of `x` in `s`. */
  function FirstIndex<T(==)>(s: seq<T>, x: T): (r: nat)
    requires x in s
    ensures r < |s| && s[r] == x
    ensures forall k :: 0 <= k < r ==> s[k] != x
  {
    if s[0] == x then 0 else 1 + FirstIndex(s[1..], x)
  }

  /** Appending to `s` does not move the first occurrence of anything already in it. */
  lemma FirstIndexExtended<T>(p: seq<T>, y: T, z: T)
    requires z in p
    ensures FirstIndex(p + [y], z) == FirstIndex(p, z)
  {
    var a, b := FirstIndex(p + [y], z), FirstIndex(p, z);
    assert (p + [y])[b] == z;
    assert a <= b;
    assert p[a] == z;
  }

  /** `Distinct` lists the values in the order in which each first occurs in `s`. */
  lemma {:induction false} DistinctKeepsFirstOccurrenceOrder<T(!new)>(s: seq<T>)
    ensures forall i, j :: 0 <= i < j < |Distinct(s)| ==>
      FirstIndex(s, Distinct(s)[i]) < FirstIndex(s, Distinct(s)[j])
  {
    if |s| > 0 {
      var p, y := s[..|s| - 1], s[|s| - 1];
      assert s == p + [y];
      var prefix := Distinct(p);
      DistinctKeepsFirstOccurrenceOrder(p);
      forall z | z in prefix ensures FirstIndex(s, z) == FirstIndex(p, z) {
        FirstIndexExtended(p, y, z);
      }
      if y !in prefix {
        assert y !in p;
        assert FirstIndex(s, y) == |p|;
      }
    }
  }

  /** `s` with every occurrence of `x` removed, order otherwise kept. */
  function RemoveAll<T(==,!new)>(s: seq<T>, x: T): (r: seq<T>)
    ensures x !in r
    ensures forall y :: y != x ==> (y in r <==> y in s)
    ensures forall y :: y != x ==> Count(r, y) == Count(s, y)
    ensures |r| == |s| - Count(s, x)
    ensures x !in s ==> r == s
    ensures r == Filter(s, Except(x))
  {
    if |s| == 0 then []
    else if s[0] == x then RemoveAll(s[1..], x)
    else [s[0]] + RemoveAll(s[1..], x)
  }

  /** The test `y => y !== x`. */
  function Except<T(==)>(x: T): T -> bool {
    y => y != x
  }

  /** Removal works piecewise, so what survives keeps its relative order. */
  lemma {:induction false} RemoveAllAppend<T(!new)>(a: seq<T>, b: seq<T>, x: T)
    ensures RemoveAll(a + b, x) == RemoveAll(a, x) + RemoveAll(b, x)
  {
    if |a| > 0 {
      assert (a + b)[0] == a[0] && (a + b)[1..] == a[1..] + b;
      RemoveAllAppend(a[1..], b, x);
    } else {
      assert a + b == b;
    }
  }

  lemma {:induction false} RemoveAllKeepsNoDups<T(!new)>(s: seq<T>, x: T)
    requires NoDups(s)
    ensures NoDups(RemoveAll(s, x))
  {
    if |s| > 0 {
      assert NoDups(s[1..]) by {
        forall i, j | 0 <= i < j < |s[1..]| ensures s[1..][i] != s[1..][j] {
          assert s[1..][i] == s[i + 1] && s[1..][j] == s[j + 1];
        }
      }
      RemoveAllKeepsNoDups(s[1..], x);
      if s[0] != x {
        assert s[0] !in s[1..] by {
          forall k | 0 <= k < |s[1..]| ensures s[1..][k] != s[0] {
            assert s[1..][k] == s[k + 1];
          }
        }
        var r := [s[0]] + RemoveAll(s[1..], x);
        forall i, j | 0 <= i < j < |r| ensures r[i] != r[j] {
          if i == 0 {
            assert r[j] in RemoveAll(s[1..], x);
          }
        }
      }
    }
  }

  lemma TailNoDups<T>(s: seq<T>)
    requires |s| > 0 && NoDups(s)
    ensures NoDups(s[1..]) && s[0] !in s[1..]
  {
    forall k | 0 <= k < |s[1..]| ensures s[1..][k] != s[0] {
      assert s[1..][k] == s[k + 1];
    }
    forall i, j | 0 <= i < j < |s[1..]| ensures s[1..][i] != s[1..][j] {
      assert s[1..][i] == s[i + 1] && s[1..][j] == s[j + 1];
    }
  }

  lemma ConsNoDups<T>(x: T, s: seq<T>)
    requires NoDups(s) && x !in s
    ensures NoDups([x] + s)
  {
    var t := [x] + s;
    forall i, j | 0 <= i < j < |t| ensures t[i] != t[j] {
      if i == 0 {
        assert t[j] == s[j - 1];
      } else {
        assert t[i] == s[i - 1] && t[j] == s[j - 1];
      }
    }
  }

  /** `s.filter(keep)`: the elements satisfying `keep`, in their original order. */
  function Filter<T(!new)>(s: seq<T>, keep: T -> bool): (r: seq<T>)
    ensures forall x :: x in r <==> x in s && keep(x)
    ensures |r| <= |s|
  {
    if |s| == 0 then []
    else if keep(s[0]) then [s[0]] + Filter(s[1..], keep)
    else Filter(s[1..], keep)
  }

  /** Filtering keeps every kept element with its full multiplicity. */
  lemma {:induction false} FilterMultiset<T(!new)>(s: seq<T>, keep: T -> bool, x: T)
    ensures multiset(Filter(s, keep))[x] == if keep(x) then multiset(s)[x] else 0
  {
    if |s| > 0 {
      FilterMultiset(s[1..], keep, x);
      assert s == [s[0]] + s[1..];
    }
  }

  /** Two filters in a row are one filter by the conjunction. */
  lemma {:induction false} FilterFilter<T(!new)>(s: seq<T>, p: T -> bool, q: T -> bool)
    ensures Filter(Filter(s, p), q) == Filter(s, x => p(x) && q(x))
  {
    if |s| > 0 {
      FilterFilter(s[1..], p, q);
      if p(s[0]) {
        assert Filter(s, p) == [s[0]] + Filter(s[1..], p);
        assert Filter(s, p)[1..] == Filter(s[1..], p);
      }
    }
  }

  /** A filter that keeps everything changes nothing. */
  lemma {:induction false} FilterAll<T(!new)>(s: seq<T>, keep: T -> bool)
    requires forall x :: x in s ==> keep(x)
    ensures Filter(s, keep) == s
  {
    if |s| > 0 {
      assert forall x :: x in s[1..] ==> x in s;
      FilterAll(s[1..], keep);
    }
  }

  /** Filters by predicates that agree on every element are the same filter. */
  lemma {:induction false} FilterSame<T(!new)>(s: seq<T>, p: T -> bool, q: T -> bool)
    requires forall x :: x in s ==> p(x) == q(x)
    ensures Filter(s, p) == Filter(s, q)
  {
    if |s| > 0 {
      assert forall x :: x in s[1..] ==> x in s;
      FilterSame(s[1..], p, q);
    }
  }

  /** Four filters in a row are one filter by the conjunction. */
  lemma FilterFour<T(!new)>(s: seq<T>, a: T -> bool, b: T -> bool, c: T -> bool, d: T -> bool, all: T -> bool)
    requires forall x :: all(x) == (a(x) && b(x) && c(x) && d(x))
    ensures Filter(Filter(Filter(Filter(s, a), b), c), d) == Filter(s, all)
  {
    var ab := x => a(x) && b(x);
    var abc := x => ab(x) && c(x);
    var abcd := x => abc(x) && d(x);
    FilterFilter(s, a, b);
    FilterFilter(s, ab, c);
    FilterFilter(s, abc, d);
    FilterSame(s, abcd, all);
  }

  lemma SubMultisetMembers<T>(a: seq<T>, b: seq<T>)
    requires multiset(a) <= multiset(b)
    ensures forall x :: x in a ==> x in b
  {
    forall x | x in a ensures x in b {
      assert x in multiset(a);
    }
  }
}
