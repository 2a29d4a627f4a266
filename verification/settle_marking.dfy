/** Marking a suggested settlement as done on the group-details page
    (frontend/src/pages/GroupDetails.jsx, `handleSettle`): the suggestion is
    flagged settled and the list is reordered so that every open suggestion
    comes before every settled one, each part keeping its previous order. */
module SettleMarking {
  import opened Settlement

  /** `prev.map(item => item.id === id ? { ...item, settled: true } : item)`. */
  function MarkSettled(ss: seq<Suggestion>, id: nat): (r: seq<Suggestion>)
    ensures |r| == |ss|
    ensures forall i :: 0 <= i < |r| ==> r[i] == ss[i].(settled := r[i].settled)
    ensures forall i :: 0 <= i < |r| ==> r[i].settled == (ss[i].settled || ss[i].id == id)
  {
    if |ss| == 0 then []
    else [if ss[0].id == id then ss[0].(settled := true) else ss[0]] + MarkSettled(ss[1..], id)
  }

  /** `updated.filter(item => !item.settled)`. */
  function Unsettled(ss: seq<Suggestion>): (r: seq<Suggestion>)
    ensures forall x :: x in r <==> x in ss && !x.settled
  {
    if |ss| == 0 then []
    else if !ss[0].settled then [ss[0]] + Unsettled(ss[1..])
    else Unsettled(ss[1..])
  }

  /** `updated.filter(item => item.settled)`. */
  function SettledOnes(ss: seq<Suggestion>): (r: seq<Suggestion>)
    ensures forall x :: x in r <==> x in ss && x.settled
  {
    if |ss| == 0 then []
    else if ss[0].settled then [ss[0]] + SettledOnes(ss[1..])
    else SettledOnes(ss[1..])
  }

  /** No settled suggestion comes before an open one. */
  predicate OpenFirst(ss: seq<Suggestion>) {
    forall i, j :: 0 <= i < j < |ss| && ss[i].settled ==> ss[j].settled
  }

  lemma {:induction false} FiltersSplit(ss: seq<Suggestion>)
    ensures multiset(Unsettled(ss)) + multiset(SettledOnes(ss)) == multiset(ss)
  {
    if |ss| > 0 {
      FiltersSplit(ss[1..]);
      assert ss == [ss[0]] + ss[1..];
    }
  }

  /** The state update `handleSettle(id)` performs on the list of suggestions. */
  function HandleSettle(ss: seq<Suggestion>, id: nat): (r: seq<Suggestion>)
    ensures multiset(r) == multiset(MarkSettled(ss, id))
    ensures |r| == |ss|
    ensures OpenFirst(r)
    ensures forall x :: x in r && x.id == id ==> x.settled
  {
    var marked := MarkSettled(ss, id);
    FiltersSplit(marked);
    assert |multiset(Unsettled(marked) + SettledOnes(marked))| == |multiset(marked)|;
    var r := Unsettled(marked) + SettledOnes(marked);
    assert forall i :: 0 <= i < |r| ==> (r[i].settled <==> i >= |Unsettled(marked)|) by {
      forall i | 0 <= i < |r| ensures r[i].settled <==> i >= |Unsettled(marked)| {
        if i < |Unsettled(marked)| {
          assert r[i] in Unsettled(marked);
        } else {
          assert r[i] == SettledOnes(marked)[i - |Unsettled(marked)|];
          assert r[i] in SettledOnes(marked);
        }
      }
    }
    forall x | x in r && x.id == id ensures x.settled {
      assert x in multiset(marked);
      var k :| 0 <= k < |marked| && marked[k] == x;
    }
    r
  }

  /** Every suggestion is kept: the one(s) named `id` come out settled and
      every other suggestion comes out unchanged. */
  lemma HandleSettleKeepsOthers(ss: seq<Suggestion>, id: nat, x: Suggestion)
    requires x in ss
    ensures x.id != id ==> x in HandleSettle(ss, id)
    ensures x.id == id ==> x.(settled := true) in HandleSettle(ss, id)
  {
    var marked := MarkSettled(ss, id);
    var k :| 0 <= k < |ss| && ss[k] == x;
    assert marked[k] in multiset(HandleSettle(ss, id));
    if x.id == id {
      assert marked[k] == x.(settled := true);
    } else {
      assert marked[k] == x;
    }
  }

  /** The reordering is stable: the open and the settled suggestions each keep
      the order they had after marking. */
  lemma HandleSettleIsStable(ss: seq<Suggestion>, id: nat)
    ensures Unsettled(HandleSettle(ss, id)) == Unsettled(MarkSettled(ss, id))
    ensures SettledOnes(HandleSettle(ss, id)) == SettledOnes(MarkSettled(ss, id))
  {
    var marked := MarkSettled(ss, id);
    UnsettledOfConcat(Unsettled(marked), SettledOnes(marked));
    SettledOfConcat(Unsettled(marked), SettledOnes(marked));
    FilterTwice(marked);
  }

  lemma {:induction false} UnsettledOfConcat(a: seq<Suggestion>, b: seq<Suggestion>)
    ensures Unsettled(a + b) == Unsettled(a) + Unsettled(b)
  {
    if |a| > 0 {
      assert (a + b)[1..] == a[1..] + b;
      UnsettledOfConcat(a[1..], b);
    } else {
      assert a + b == b;
    }
  }

  lemma {:induction false} SettledOfConcat(a: seq<Suggestion>, b: seq<Suggestion>)
    ensures SettledOnes(a + b) == SettledOnes(a) + SettledOnes(b)
  {
    if |a| > 0 {
      assert (a + b)[1..] == a[1..] + b;
      SettledOfConcat(a[1..], b);
    } else {
      assert a + b == b;
    }
  }

  lemma {:induction false} FilterTwice(ss: seq<Suggestion>)
    ensures Unsettled(Unsettled(ss)) == Unsettled(ss) && SettledOnes(Unsettled(ss)) == []
    ensures SettledOnes(SettledOnes(ss)) == SettledOnes(ss) && Unsettled(SettledOnes(ss)) == []
  {
    if |ss| > 0 {
      FilterTwice(ss[1..]);
      if ss[0].settled {
        assert ([ss[0]] + SettledOnes(ss[1..]))[1..] == SettledOnes(ss[1..]);
      } else {
        assert ([ss[0]] + Unsettled(ss[1..]))[1..] == Unsettled(ss[1..]);
      }
    }
  }

  lemma {:induction false} MarkSettledFixed(ss: seq<Suggestion>, id: nat)
    requires forall x :: x in ss && x.id == id ==> x.settled
    ensures MarkSettled(ss, id) == ss
  {
    if |ss| > 0 {
      assert forall x :: x in ss[1..] ==> x in ss;
      MarkSettledFixed(ss[1..], id);
    }
  }

  lemma {:induction false} OpenFirstSplits(ss: seq<Suggestion>)
    requires OpenFirst(ss)
    ensures Unsettled(ss) + SettledOnes(ss) == ss
  {
    if |ss| > 0 {
      var t := ss[1..];
      assert OpenFirst(t) by {
        forall i, j | 0 <= i < j < |t| && t[i].settled ensures t[j].settled {
          assert t[i] == ss[i + 1] && t[j] == ss[j + 1];
        }
      }
      OpenFirstSplits(t);
      if ss[0].settled {
        assert forall k :: 0 <= k < |t| ==> t[k] == ss[k + 1] && t[k].settled;
      } else {
        assert ss == [ss[0]] + t;
      }
    }
  }

  /** Settling the same suggestion twice is the same as settling it once. */
  lemma HandleSettleIdempotent(ss: seq<Suggestion>, id: nat)
    ensures HandleSettle(HandleSettle(ss, id), id) == HandleSettle(ss, id)
  {
    var r := HandleSettle(ss, id);
    MarkSettledFixed(r, id);
    OpenFirstSplits(r);
  }
}
