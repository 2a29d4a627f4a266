/** Accumulating amounts per key in a plain JavaScript object,
    `totals[key] = (totals[key] || 0) + amount`, then reading it back with
    `Object.entries`: one bucket per distinct key, in order of first insertion
    (keys that look like array indices are not modelled; see the README). */
module Tallies {
  import opened Seqs

  datatype Item = Item(key: string, amount: real)

  datatype Bucket = Bucket(key: string, total: real)

  function ItemKeys(items: seq<Item>): (ks: seq<string>)
    ensures |ks| == |items|
    ensures forall i :: 0 <= i < |items| ==> ks[i] == items[i].key
  {
    if |items| == 0 then [] else ItemKeys(items[..|items| - 1]) + [items[|items| - 1].key]
  }

  function Keys(bs: seq<Bucket>): (ks: seq<string>)
    ensures |ks| == |bs|
    ensures forall i :: 0 <= i < |bs| ==> ks[i] == bs[i].key
  {
    if |bs| == 0 then [] else [bs[0].key] + Keys(bs[1..])
  }

  /** The amounts of `items` filed under `key`, added up. */
  function SumFor(items: seq<Item>, key: string): real {
    if |items| == 0 then 0.0
    else SumFor(items[..|items| - 1], key) + (if items[|items| - 1].key == key then items[|items| - 1].amount else 0.0)
  }

  function SumItems(items: seq<Item>): real {
    if |items| == 0 then 0.0 else SumItems(items[..|items| - 1]) + items[|items| - 1].amount
  }

  function SumTotals(bs: seq<Bucket>): real {
    if |bs| == 0 then 0.0 else bs[0].total + SumTotals(bs[1..])
  }

  /** One step of the accumulation, `totals[key] = (totals[key] || 0) + amount`:
      the bucket of an existing key grows, a new key gets a bucket at the end. */
  function AddTo(bs: seq<Bucket>, key: string, amount: real): (r: seq<Bucket>)
    ensures Keys(r) == if key in Keys(bs) then Keys(bs) else Keys(bs) + [key]
    ensures forall i :: 0 <= i < |bs| ==> r[i].total == bs[i].total + (if bs[i].key == key then amount else 0.0)
    ensures key !in Keys(bs) ==> r[|bs|].total == amount
  {
    if key in Keys(bs) then
      var r := seq(|bs|, i requires 0 <= i < |bs| =>
                 if bs[i].key == key then bs[i].(total := bs[i].total + amount) else bs[i]);
      assert Keys(r) == Keys(bs);
      r
    else
      assert Keys(bs + [Bucket(key, amount)]) == Keys(bs) + [key];
      bs + [Bucket(key, amount)]
  }

  lemma AddToKeepsSum(bs: seq<Bucket>, key: string, amount: real)
    requires NoDups(Keys(bs))
    ensures SumTotals(AddTo(bs, key, amount)) == SumTotals(bs) + amount
  {
    var r := AddTo(bs, key, amount);
    if key in Keys(bs) {
      var k :| 0 <= k < |bs| && Keys(bs)[k] == key;
      forall i | 0 <= i < |bs| ensures r[i].total == bs[i].total + (if i == k then amount else 0.0) {
        assert Keys(bs)[i] == bs[i].key;
      }
      SumTotalsPointwise(bs, r, k, amount);
    } else {
      SumTotalsAppend(bs, [Bucket(key, amount)]);
    }
  }

  /** Two bucket lists that differ only in the total at `k` differ in sum by
      that difference. */
  lemma {:induction false} SumTotalsPointwise(a: seq<Bucket>, b: seq<Bucket>, k: nat, d: real)
    requires |a| == |b| && k < |a|
    requires forall i :: 0 <= i < |a| ==> b[i].total == a[i].total + (if i == k then d else 0.0)
    ensures SumTotals(b) == SumTotals(a) + d
  {
    if k == 0 {
      SumTotalsSame(a[1..], b[1..]);
    } else {
      SumTotalsPointwise(a[1..], b[1..], k - 1, d);
    }
  }

  lemma {:induction false} SumTotalsSame(a: seq<Bucket>, b: seq<Bucket>)
    requires |a| == |b|
    requires forall i :: 0 <= i < |a| ==> b[i].total == a[i].total
    ensures SumTotals(b) == SumTotals(a)
  {
    if |a| > 0 {
      SumTotalsSame(a[1..], b[1..]);
    }
  }

  /** The buckets built by adding `items` in order to an empty object: one per
      distinct key, in order of first appearance. */
  function Tally(items: seq<Item>): (r: seq<Bucket>)
    ensures Keys(r) == Distinct(ItemKeys(items))
  {
    if |items| == 0 then []
    else
      assert ItemKeys(items)[..|items| - 1] == ItemKeys(items[..|items| - 1]);
      AddTo(Tally(items[..|items| - 1]), items[|items| - 1].key, items[|items| - 1].amount)
  }

  /** Each bucket holds exactly the amounts filed under its key. */
  lemma {:induction false} TallyTotals(items: seq<Item>)
    ensures forall i :: 0 <= i < |Tally(items)| ==> Tally(items)[i].total == SumFor(items, Tally(items)[i].key)
  {
    if |items| > 0 {
      var prefix, last := items[..|items| - 1], items[|items| - 1];
      TallyTotals(prefix);
      assert ItemKeys(items)[..|items| - 1] == ItemKeys(prefix);
      assert items == prefix + [last];
      AddToKeepsTotals(Tally(prefix), prefix, last);
    }
  }

  /** Adding the next item keeps every bucket equal to its key's sum. */
  lemma AddToKeepsTotals(before: seq<Bucket>, prefix: seq<Item>, last: Item)
    requires last.key !in Keys(before) ==> last.key !in ItemKeys(prefix)
    requires forall i :: 0 <= i < |before| ==> before[i].total == SumFor(prefix, before[i].key)
    ensures forall i :: 0 <= i < |AddTo(before, last.key, last.amount)| ==>
      AddTo(before, last.key, last.amount)[i].total == SumFor(prefix + [last], AddTo(before, last.key, last.amount)[i].key)
  {
    var r := AddTo(before, last.key, last.amount);
    forall i | 0 <= i < |r| ensures r[i].total == SumFor(prefix + [last], r[i].key) {
      SumForSnoc(prefix, last, r[i].key);
      if i < |before| {
        assert Keys(r)[i] == Keys(before)[i];
      } else {
        assert Keys(r)[i] == last.key;
        SumForAbsent(prefix, last.key);
      }
    }
  }

  lemma SumForSnoc(prefix: seq<Item>, last: Item, key: string)
    ensures SumFor(prefix + [last], key) == SumFor(prefix, key) + (if last.key == key then last.amount else 0.0)
  {
    assert (prefix + [last])[..|prefix|] == prefix;
  }

  /** Nothing is lost or counted twice: the buckets add up to the items. */
  lemma {:induction false} TallyKeepsSum(items: seq<Item>)
    ensures SumTotals(Tally(items)) == SumItems(items)
  {
    if |items| > 0 {
      var prefix := items[..|items| - 1];
      TallyKeepsSum(prefix);
      AddToKeepsSum(Tally(prefix), items[|items| - 1].key, items[|items| - 1].amount);
    }
  }

  lemma {:induction false} SumForAbsent(items: seq<Item>, key: string)
    requires key !in ItemKeys(items)
    ensures SumFor(items, key) == 0.0
  {
    if |items| > 0 {
      assert ItemKeys(items)[..|items| - 1] == ItemKeys(items[..|items| - 1]);
      SumForAbsent(items[..|items| - 1], key);
    }
  }
  lemma {:induction false} SumTotalsAppend(a: seq<Bucket>, b: seq<Bucket>)
    ensures SumTotals(a + b) == SumTotals(a) + SumTotals(b)
  {
    if |a| == 0 {
      assert a + b == b;
    } else {
      assert (a + b)[1..] == a[1..] + b;
      SumTotalsAppend(a[1..], b);
    }
  }

  /** Taking the same element out of two equal multisets leaves them equal. */
  lemma CancelHead(a: seq<Bucket>, b: seq<Bucket>, k: nat)
    requires |a| > 0 && k < |b| && b[k] == a[0] && multiset(a) == multiset(b)
    ensures multiset(a[1..]) == multiset(b[..k] + b[k + 1..])
  {
    var front, back := b[..k], b[k + 1..];
    assert b == front + [b[k]] + back;
    assert a == [a[0]] + a[1..];
    forall y ensures multiset(a[1..])[y] == multiset(front + back)[y] {
      assert multiset(a)[y] == multiset{a[0]}[y] + multiset(a[1..])[y];
      assert multiset(b)[y] == multiset(front)[y] + multiset{a[0]}[y] + multiset(back)[y];
    }
  }

  lemma {:induction false} RemoveAtSum(b: seq<Bucket>, k: nat)
    requires k < |b|
    ensures SumTotals(b) == b[k].total + SumTotals(b[..k] + b[k + 1..])
  {
    if k == 0 {
      assert b[..0] + b[1..] == b[1..];
    } else {
      RemoveAtSum(b[1..], k - 1);
      assert b[..k] + b[k + 1..] == [b[0]] + (b[1..][..k - 1] + b[1..][k..]);
    }
  }

  /** Reordering the buckets (sorting them, say) does not change their sum. */
  lemma {:induction false} SumTotalsPermutation(a: seq<Bucket>, b: seq<Bucket>)
    requires multiset(a) == multiset(b)
    ensures SumTotals(a) == SumTotals(b)
  {
    if |a| == 0 {
      assert |multiset(b)| == 0;
    } else {
      assert a[0] in multiset(b);
      var k :| 0 <= k < |b| && b[k] == a[0];
      CancelHead(a, b, k);
      RemoveAtSum(b, k);
      SumTotalsPermutation(a[1..], b[..k] + b[k + 1..]);
    }
  }

  lemma {:induction false} AtMostOnce(s: seq<Bucket>, x: Bucket)
    requires NoDups(Keys(s))
    ensures multiset(s)[x] <= 1
  {
    if |s| > 0 {
      TailNoDups(Keys(s));
      assert Keys(s)[1..] == Keys(s[1..]);
      AtMostOnce(s[1..], x);
      assert s == [s[0]] + s[1..];
      if s[0] == x {
        assert x !in s[1..] by {
          forall k | 0 <= k < |s[1..]| ensures s[1..][k] != x {
            assert Keys(s[1..])[k] == s[1..][k].key;
          }
        }
      }
    }
  }

  lemma Twice(b: seq<Bucket>, i: nat, j: nat)
    requires i < j < |b| && b[i] == b[j]
    ensures multiset(b)[b[i]] >= 2
  {
    assert b == b[..j] + b[j..];
    assert b[i] in b[..j] && b[j] in b[j..];
    assert multiset(b)[b[i]] == multiset(b[..j])[b[i]] + multiset(b[j..])[b[i]];
  }

  /** A reordering of buckets with distinct keys still has distinct keys. */
  lemma PermutationKeepsKeysDistinct(a: seq<Bucket>, b: seq<Bucket>)
    requires NoDups(Keys(a)) && multiset(a) == multiset(b)
    ensures NoDups(Keys(b))
  {
    forall i, j | 0 <= i < j < |b| ensures Keys(b)[i] != Keys(b)[j] {
      if b[i].key == b[j].key {
        assert b[i] in multiset(a) && b[j] in multiset(a);
        var p :| 0 <= p < |a| && a[p] == b[i];
        var q :| 0 <= q < |a| && a[q] == b[j];
        assert Keys(a)[p] == Keys(a)[q];
        assert b[i] == b[j];
        Twice(b, i, j);
        AtMostOnce(a, b[i]);
      }
    }
  }
}
