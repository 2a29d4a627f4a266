/** Settlement suggestions (frontend/src/pages/GroupDetails.jsx,
    `calculateSettlements`): round each member's balance to cents, split the
    members into debtors and creditors beyond the 0.01 tolerance, then pair the
    current debtor with the current creditor until either list runs out. */
module Settlement {
  import opened Seqs
  import opened Money
  import opened Balances

  /** A debtor (amount owed) or creditor (amount due), always stored positive. */
  datatype Entry = Entry(id: MemberId, amount: real)

  /** One greedy step's transfer, between member ids. */
  datatype Payment = Payment(from: MemberId, to: MemberId, amount: real)

  /** A suggestion as displayed: sequential id, member names, not yet settled. */
  datatype Suggestion = Suggestion(id: nat, from: string, to: string, amount: real, settled: bool)

  /** The balances object: each member id's unrounded balance. */
  type BalanceMap = MemberId -> real

  function BalancesOf(expenses: seq<Expense>): BalanceMap {
    id => Balance(expenses, id)
  }

  function IdsOf(entries: seq<Entry>): (ids: seq<MemberId>)
    ensures |ids| == |entries|
    ensures forall i :: 0 <= i < |entries| ==> ids[i] == entries[i].id
  {
    if |entries| == 0 then [] else [entries[0].id] + IdsOf(entries[1..])
  }

  predicate AllAbove(entries: seq<Entry>) {
    forall i :: 0 <= i < |entries| ==> entries[i].amount > Epsilon
  }

  /** Sum of the amounts recorded for `id` in `entries`. */
  function AmountFor(entries: seq<Entry>, id: MemberId): real {
    if |entries| == 0 then 0.0
    else (if entries[0].id == id then entries[0].amount else 0.0) + AmountFor(entries[1..], id)
  }

  function Total(entries: seq<Entry>): real {
    if |entries| == 0 then 0.0 else entries[0].amount + Total(entries[1..])
  }

  /** Walks the members' ids in order; a rounded balance below -0.01 makes a
      debtor, one above 0.01 a creditor, anything else is already settled. */
  function Partition(ids: seq<MemberId>, bal: BalanceMap): (r: (seq<Entry>, seq<Entry>))
    ensures |r.0| + |r.1| <= |ids|
    ensures AllAbove(r.0) && AllAbove(r.1)
    ensures forall i :: 0 <= i < |r.0| ==> r.0[i].id in ids && r.0[i].amount == -Round2(bal(r.0[i].id))
    ensures forall i :: 0 <= i < |r.1| ==> r.1[i].id in ids && r.1[i].amount == Round2(bal(r.1[i].id))
  {
    if |ids| == 0 then ([], [])
    else
      var rest := Partition(ids[1..], bal);
      var rounded := Round2(bal(ids[0]));
      assert forall x :: x in ids[1..] ==> x in ids;
      if rounded < -Epsilon then ([Entry(ids[0], -rounded)] + rest.0, rest.1)
      else if rounded > Epsilon then (rest.0, [Entry(ids[0], rounded)] + rest.1)
      else rest
  }

  predicate Owes(bal: BalanceMap, id: MemberId) {
    Round2(bal(id)) < -Epsilon
  }

  predicate IsOwed(bal: BalanceMap, id: MemberId) {
    Round2(bal(id)) > Epsilon
  }

  /** The debtors, and the creditors, come in the members' own order: each
      list is exactly the members filtered by their side of the tolerance. */
  lemma {:induction false} PartitionKeepsOrder(ids: seq<MemberId>, bal: BalanceMap)
    ensures IdsOf(Partition(ids, bal).0) == Filter(ids, (id: MemberId) => Owes(bal, id))
    ensures IdsOf(Partition(ids, bal).1) == Filter(ids, (id: MemberId) => IsOwed(bal, id))
  {
    if |ids| > 0 {
      var rest := Partition(ids[1..], bal);
      var rounded := Round2(bal(ids[0]));
      PartitionKeepsOrder(ids[1..], bal);
      IdsOfCons(Entry(ids[0], -rounded), rest.0);
      IdsOfCons(Entry(ids[0], rounded), rest.1);
    }
  }

  lemma IdsOfCons(e: Entry, entries: seq<Entry>)
    ensures IdsOf([e] + entries) == [e.id] + IdsOf(entries)
  {
    assert ([e] + entries)[1..] == entries;
  }

  /** A member is a debtor exactly when its rounded balance is below -0.01 and
      a creditor exactly when it is above 0.01; so no member is both. */
  lemma {:induction false} PartitionClassifies(ids: seq<MemberId>, bal: BalanceMap, id: MemberId)
    requires id in ids
    ensures id in IdsOf(Partition(ids, bal).0) <==> Round2(bal(id)) < -Epsilon
    ensures id in IdsOf(Partition(ids, bal).1) <==> Round2(bal(id)) > Epsilon
  {
    var r := Partition(ids, bal);
    var rest := Partition(ids[1..], bal);
    var rounded := Round2(bal(ids[0]));
    if id != ids[0] {
      assert id in ids[1..];
      PartitionClassifies(ids[1..], bal, id);
    }
    if rounded < -Epsilon {
      assert IdsOf(r.0) == [ids[0]] + IdsOf(rest.0);
    } else if rounded > Epsilon {
      assert IdsOf(r.1) == [ids[0]] + IdsOf(rest.1);
    }
    if id == ids[0] {
      assert id in IdsOf(r.0) ==> Round2(bal(id)) < -Epsilon by {
        if id in IdsOf(r.0) {
          var k :| 0 <= k < |IdsOf(r.0)| && IdsOf(r.0)[k] == id;
          assert r.0[k].amount == -Round2(bal(id));
        }
      }
      assert id in IdsOf(r.1) ==> Round2(bal(id)) > Epsilon by {
        if id in IdsOf(r.1) {
          var k :| 0 <= k < |IdsOf(r.1)| && IdsOf(r.1)[k] == id;
          assert r.1[k].amount == Round2(bal(id));
        }
      }
    }
  }

  /** Each member appears at most once among the debtors and at most once among the creditors. */
  lemma {:induction false} PartitionNoDups(ids: seq<MemberId>, bal: BalanceMap)
    requires NoDups(ids)
    ensures NoDups(IdsOf(Partition(ids, bal).0)) && NoDups(IdsOf(Partition(ids, bal).1))
  {
    if |ids| > 0 {
      var r := Partition(ids, bal);
      var rest := Partition(ids[1..], bal);
      var rounded := Round2(bal(ids[0]));
      TailNoDups(ids);
      PartitionNoDups(ids[1..], bal);
      if rounded < -Epsilon {
        assert IdsOf(r.0) == [ids[0]] + IdsOf(rest.0);
        assert ids[0] !in IdsOf(rest.0);
        ConsNoDups(ids[0], IdsOf(rest.0));
      } else if rounded > Epsilon {
        assert IdsOf(r.1) == [ids[0]] + IdsOf(rest.1);
        assert ids[0] !in IdsOf(rest.1);
        ConsNoDups(ids[0], IdsOf(rest.1));
      }
    }
  }

  /** The two-index loop as a recursion on the remaining lists: the heads are
      the current debtor and creditor with what they still hold. Whichever
      side drops to 0.01 or less is passed over. */
  function Settle(ds: seq<Entry>, cs: seq<Entry>): (ps: seq<Payment>)
    ensures |ds| == 0 || |cs| == 0 ==> |ps| == 0
    ensures |ds| > 0 && |cs| > 0 ==> 0 < |ps| <= |ds| + |cs| - 1
    decreases |ds| + |cs|
  {
    if |ds| == 0 || |cs| == 0 then []
    else
      var step := Min(ds[0].amount, cs[0].amount);
      var ds' := Advance(ds, step);
      var cs' := Advance(cs, step);
      var rest := Settle(ds', cs');
      [Payment(ds[0].id, cs[0].id, step)] + rest
  }

  /** Takes `step` off the head entry, then passes over the head if at most
      0.01 remains. */
  function Advance(es: seq<Entry>, step: real): (r: seq<Entry>)
    requires |es| > 0
    ensures r == es[1..] || (|r| == |es| && r[1..] == es[1..])
    ensures step >= es[0].amount ==> r == es[1..]
    ensures forall x :: x in IdsOf(r) ==> x in IdsOf(es)
  {
    var left := es[0].amount - step;
    if left <= Epsilon then es[1..]
    else
      var r := [es[0].(amount := left)] + es[1..];
      assert IdsOf(r) == IdsOf(es);
      r
  }

  /** Every transfer is from a listed debtor to a listed creditor. */
  lemma {:induction false} SettlePairsDebtorsWithCreditors(ds: seq<Entry>, cs: seq<Entry>)
    ensures forall p :: p in Settle(ds, cs) ==> p.from in IdsOf(ds) && p.to in IdsOf(cs)
    decreases |ds| + |cs|
  {
    if |ds| > 0 && |cs| > 0 {
      var step := Min(ds[0].amount, cs[0].amount);
      SettlePairsDebtorsWithCreditors(Advance(ds, step), Advance(cs, step));
    }
  }

  /** Every suggested transfer is for more than the 0.01 tolerance. */
  lemma {:induction false} SettleAmountsExceedEpsilon(ds: seq<Entry>, cs: seq<Entry>)
    requires AllAbove(ds) && AllAbove(cs)
    ensures forall p :: p in Settle(ds, cs) ==> p.amount > Epsilon
    decreases |ds| + |cs|
  {
    if |ds| > 0 && |cs| > 0 {
      var step := Min(ds[0].amount, cs[0].amount);
      SettleAmountsExceedEpsilon(Advance(ds, step), Advance(cs, step));
    }
  }

  function PaidOut(ps: seq<Payment>, id: MemberId): real {
    if |ps| == 0 then 0.0 else (if ps[0].from == id then ps[0].amount else 0.0) + PaidOut(ps[1..], id)
  }

  function PaidIn(ps: seq<Payment>, id: MemberId): real {
    if |ps| == 0 then 0.0 else (if ps[0].to == id then ps[0].amount else 0.0) + PaidIn(ps[1..], id)
  }

  function Transferred(ps: seq<Payment>): real {
    if |ps| == 0 then 0.0 else ps[0].amount + Transferred(ps[1..])
  }

  lemma {:induction false} AdvanceAmountFor(es: seq<Entry>, step: real, id: MemberId)
    requires |es| > 0 && step <= es[0].amount
    ensures AmountFor(Advance(es, step), id) + (if es[0].id == id then step else 0.0) <= AmountFor(es, id)
  {
  }

  lemma {:induction false} AdvanceTotal(es: seq<Entry>, step: real)
    requires |es| > 0 && step <= es[0].amount
    ensures Total(Advance(es, step)) <= Total(es) - step
    ensures |Advance(es, step)| == |es| ==> Total(Advance(es, step)) == Total(es) - step
    ensures Total(Advance(es, step)) >= Total(es) - step - Epsilon
  {
  }

  /** No member pays out more than it owes, and none receives more than it is due. */
  lemma {:induction false} SettleRespectsAmounts(ds: seq<Entry>, cs: seq<Entry>, id: MemberId)
    requires AllAbove(ds) && AllAbove(cs)
    ensures PaidOut(Settle(ds, cs), id) <= AmountFor(ds, id)
    ensures PaidIn(Settle(ds, cs), id) <= AmountFor(cs, id)
    decreases |ds| + |cs|
  {
    if |ds| > 0 && |cs| > 0 {
      var step := Min(ds[0].amount, cs[0].amount);
      assert AllAbove(Advance(ds, step)) && AllAbove(Advance(cs, step));
      SettleRespectsAmounts(Advance(ds, step), Advance(cs, step), id);
      AdvanceAmountFor(ds, step, id);
      AdvanceAmountFor(cs, step, id);
    } else {
      AmountForNonNegative(ds, id);
      AmountForNonNegative(cs, id);
    }
  }

  lemma {:induction false} AmountForNonNegative(es: seq<Entry>, id: MemberId)
    requires AllAbove(es)
    ensures AmountFor(es, id) >= 0.0
  {
    if |es| > 0 {
      assert AllAbove(es[1..]);
      AmountForNonNegative(es[1..], id);
    }
  }

  /** The greedy pairing moves at most the smaller of total debt and total
      credit, and loses at most 0.01 per debtor or creditor it passes over. */
  lemma {:induction false} SettleTransfersNearlyAll(ds: seq<Entry>, cs: seq<Entry>)
    requires AllAbove(ds) && AllAbove(cs)
    ensures Transferred(Settle(ds, cs)) <= Min(Total(ds), Total(cs))
    ensures Transferred(Settle(ds, cs)) >= Min(Total(ds), Total(cs)) - Epsilon * ((|ds| + |cs|) as real)
    decreases |ds| + |cs|
  {
    if |ds| > 0 && |cs| > 0 {
      var step := Min(ds[0].amount, cs[0].amount);
      var ds', cs' := Advance(ds, step), Advance(cs, step);
      AdvanceTotal(ds, step);
      AdvanceTotal(cs, step);
      assert AllAbove(ds') && AllAbove(cs');
      SettleTransfersNearlyAll(ds', cs');
    } else if |ds| == 0 {
      TotalPositive(cs);
    } else {
      TotalPositive(ds);
    }
  }

  lemma {:induction false} TotalPositive(es: seq<Entry>)
    requires AllAbove(es)
    ensures Total(es) >= 0.0
  {
    if |es| > 0 {
      assert AllAbove(es[1..]);
      TotalPositive(es[1..]);
    }
  }

  /** What `id` still owes after rounding; zero unless it is a debtor. */
  function Debt(bal: BalanceMap, id: MemberId): real {
    var r := Round2(bal(id));
    if r < -Epsilon then -r else 0.0
  }

  /** What `id` is still owed after rounding; zero unless it is a creditor. */
  function Credit(bal: BalanceMap, id: MemberId): real {
    var r := Round2(bal(id));
    if r > Epsilon then r else 0.0
  }

  lemma {:induction false} PartitionAmounts(ids: seq<MemberId>, bal: BalanceMap, id: MemberId)
    requires NoDups(ids)
    ensures AmountFor(Partition(ids, bal).0, id) == if id in ids then Debt(bal, id) else 0.0
    ensures AmountFor(Partition(ids, bal).1, id) == if id in ids then Credit(bal, id) else 0.0
  {
    if |ids| > 0 {
      TailNoDups(ids);
      PartitionAmounts(ids[1..], bal, id);
      var rest := Partition(ids[1..], bal);
      var rounded := Round2(bal(ids[0]));
      if rounded < -Epsilon {
        assert ([Entry(ids[0], -rounded)] + rest.0)[1..] == rest.0;
      } else if rounded > Epsilon {
        assert ([Entry(ids[0], rounded)] + rest.1)[1..] == rest.1;
      }
    }
  }

  /** Every greedy transfer goes from a member whose rounded balance is below
      -0.01 to one whose rounded balance is above 0.01, for more than 0.01. */
  lemma PartitionedSettleFacts(ids: seq<MemberId>, bal: BalanceMap)
    ensures forall p :: p in Settle(Partition(ids, bal).0, Partition(ids, bal).1) ==>
      && p.from in ids && p.to in ids
      && Round2(bal(p.from)) < -Epsilon && Round2(bal(p.to)) > Epsilon
      && p.amount > Epsilon
  {
    var split := Partition(ids, bal);
    var ps := Settle(split.0, split.1);
    SettleAmountsExceedEpsilon(split.0, split.1);
    SettlePairsDebtorsWithCreditors(split.0, split.1);
    forall i | 0 <= i < |ps|
      ensures ps[i].from in ids && ps[i].to in ids
      ensures Round2(bal(ps[i].from)) < -Epsilon && Round2(bal(ps[i].to)) > Epsilon
      ensures ps[i].amount > Epsilon
    {
      assert ps[i] in ps;
      var kd :| 0 <= kd < |split.0| && IdsOf(split.0)[kd] == ps[i].from;
      var kc :| 0 <= kc < |split.1| && IdsOf(split.1)[kc] == ps[i].to;
    }
  }

  /** The transfers the page's loop computes for a group: over the members'
      distinct ids in first-occurrence order (the enumeration order of the
      balances object), partitioned and then paired greedily. */
  function Payments(members: seq<Member>, expenses: seq<Expense>): seq<Payment> {
    var split := Partition(Distinct(MemberIds(members)), BalancesOf(expenses));
    Settle(split.0, split.1)
  }

  /** Every suggested transfer goes from a debtor to a different member who is
      a creditor, for more than 0.01; there are fewer transfers than members. */
  lemma PaymentsAreSound(members: seq<Member>, expenses: seq<Expense>)
    ensures forall p :: p in Payments(members, expenses) ==> p.from != p.to && p.amount > Epsilon
    ensures forall p :: p in Payments(members, expenses) ==> p.from in MemberIds(members) && p.to in MemberIds(members)
    ensures forall p :: p in Payments(members, expenses) ==>
      Round2(Balance(expenses, p.from)) < -Epsilon && Round2(Balance(expenses, p.to)) > Epsilon
    ensures |Payments(members, expenses)| == 0 || |Payments(members, expenses)| < |members|
  {
    var ids := Distinct(MemberIds(members));
    var bal := BalancesOf(expenses);
    var split := Partition(ids, bal);
    var ps := Settle(split.0, split.1);
    assert ps == Payments(members, expenses);
    PartitionedSettleFacts(ids, bal);
    forall p | p in ps
      ensures p.from in MemberIds(members) && p.to in MemberIds(members)
      ensures Round2(Balance(expenses, p.from)) < -Epsilon && Round2(Balance(expenses, p.to)) > Epsilon
    {
      assert bal(p.from) == Balance(expenses, p.from) && bal(p.to) == Balance(expenses, p.to);
    }
  }

  /** No member is asked to pay more than its rounded debt, nor to receive more than its rounded credit. */
  lemma PaymentsRespectBalances(members: seq<Member>, expenses: seq<Expense>, id: MemberId)
    ensures PaidOut(Payments(members, expenses), id) <= Debt(BalancesOf(expenses), id)
    ensures PaidIn(Payments(members, expenses), id) <= Credit(BalancesOf(expenses), id)
  {
    var ids := Distinct(MemberIds(members));
    var bal := BalancesOf(expenses);
    var split := Partition(ids, bal);
    var ps := Settle(split.0, split.1);
    assert PaidOut(ps, id) <= Debt(bal, id) && PaidIn(ps, id) <= Credit(bal, id) by {
      SettleRespectsAmounts(split.0, split.1, id);
      PartitionAmounts(ids, bal, id);
    }
  }

  /** Nothing to settle: when every member's unrounded balance is within 0.01,
      no debtor or creditor arises and no transfer is suggested. */
  lemma {:induction false} AllSettledNoPayments(members: seq<Member>, expenses: seq<Expense>)
    requires forall i :: 0 <= i < |members| ==> -Epsilon <= Balance(expenses, members[i].id) <= Epsilon
    ensures Payments(members, expenses) == []
  {
    var ids := Distinct(MemberIds(members));
    var bal := BalancesOf(expenses);
    var split := Partition(ids, bal);
    if |split.0| > 0 {
      var id := split.0[0].id;
      var k :| 0 <= k < |members| && MemberIds(members)[k] == id;
      RoundingKeepsSettled(Balance(expenses, id));
    }
    if |split.1| > 0 {
      var id := split.1[0].id;
      var k :| 0 <= k < |members| && MemberIds(members)[k] == id;
      RoundingKeepsSettled(Balance(expenses, id));
    }
  }

  /** A group without expenses gets no suggestions. */
  lemma NoExpensesNoPayments(members: seq<Member>)
    ensures Payments(members, []) == []
  {
    AllSettledNoPayments(members, []);
  }

  /** The name shown for `id`: `memberMap[id]?.name || "Member"`, where a later
      member with the same id overwrites an earlier one in the map. */
  function DisplayName(members: seq<Member>, id: MemberId): (name: string)
    ensures name != ""
    ensures name == "Member" || exists i :: 0 <= i < |members| && members[i].id == id && members[i].name == name
    ensures (forall i :: 0 <= i < |members| ==> members[i].id != id) ==> name == "Member"
    ensures forall i :: 0 <= i < |members| && members[i].id == id
                        && (forall j :: i < j < |members| ==> members[j].id != id) ==>
      name == (if members[i].name == "" then "Member" else members[i].name)
  {
    if |members| == 0 then "Member"
    else
      var init, last := members[..|members| - 1], members[|members| - 1];
      if last.id == id then (if last.name == "" then "Member" else last.name)
      else
        var name := DisplayName(init, id);
        assert forall i :: 0 <= i < |members| && members[i].id == id ==> i < |init| && init[i] == members[i];
        name
  }

  function Label(members: seq<Member>, ps: seq<Payment>, next: nat): (r: seq<Suggestion>)
    ensures |r| == |ps|
    ensures forall i :: 0 <= i < |r| ==>
      r[i] == Suggestion(next + i, DisplayName(members, ps[i].from), DisplayName(members, ps[i].to), ps[i].amount, false)
  {
    if |ps| == 0 then []
    else
      var head := Suggestion(next, DisplayName(members, ps[0].from), DisplayName(members, ps[0].to), ps[0].amount, false);
      [head] + Label(members, ps[1..], next + 1)
  }

  /** `calculateSettlements`: the greedy transfers, numbered from 1, shown by
      member name, none settled yet. */
  function CalculateSettlements(members: seq<Member>, expenses: seq<Expense>): (r: seq<Suggestion>)
    ensures |r| == |Payments(members, expenses)|
    ensures |r| == 0 || |r| < |members|
    ensures forall i :: 0 <= i < |r| ==> r[i].id == i + 1 && !r[i].settled && r[i].amount > Epsilon
    ensures forall i :: 0 <= i < |r| ==> r[i].amount == Payments(members, expenses)[i].amount
    ensures forall i :: 0 <= i < |r| ==>
      && r[i].from == DisplayName(members, Payments(members, expenses)[i].from)
      && r[i].to == DisplayName(members, Payments(members, expenses)[i].to)
  {
    PaymentsAreSound(members, expenses);
    Label(members, Payments(members, expenses), 1)
  }

  /** One iteration of the loop below: decrementing the current debtor and
      creditor in place and moving each index past an entry with at most 0.01
      left is one unfolding of `Settle` on the remaining suffixes. */
  lemma LoopStep(ds: seq<Entry>, cs: seq<Entry>, d: nat, c: nat, amount: real,
                 ds': seq<Entry>, cs': seq<Entry>, d': nat, c': nat)
    requires d < |ds| && c < |cs| && amount == Min(ds[d].amount, cs[c].amount)
    requires ds' == ds[d := ds[d].(amount := ds[d].amount - amount)]
    requires cs' == cs[c := cs[c].(amount := cs[c].amount - amount)]
    requires d' == if ds'[d].amount <= Epsilon then d + 1 else d
    requires c' == if cs'[c].amount <= Epsilon then c + 1 else c
    ensures d' <= |ds'| == |ds| && c' <= |cs'| == |cs| && d + c < d' + c'
    ensures Settle(ds[d..], cs[c..]) == [Payment(ds[d].id, cs[c].id, amount)] + Settle(ds'[d'..], cs'[c'..])
  {
    UnfoldSettle(ds[d..], cs[c..]);
    assert ds[d..][0] == ds[d] && cs[c..][0] == cs[c];
    StepInPlace(ds, d, amount);
    StepInPlace(cs, c, amount);
    assert ds'[d'..] == Advance(ds[d..], amount);
    assert cs'[c'..] == Advance(cs[c..], amount);
  }

  lemma UnfoldSettle(ds: seq<Entry>, cs: seq<Entry>)
    requires |ds| > 0 && |cs| > 0
    ensures var amount := Min(ds[0].amount, cs[0].amount);
      Settle(ds, cs) == [Payment(ds[0].id, cs[0].id, amount)] + Settle(Advance(ds, amount), Advance(cs, amount))
  {
  }

  lemma StepInPlace(es: seq<Entry>, k: nat, step: real)
    requires k < |es|
    ensures var es' := es[k := es[k].(amount := es[k].amount - step)];
      && (es'[k].amount <= Epsilon ==> es'[k + 1..] == Advance(es[k..], step))
      && (es'[k].amount > Epsilon ==> es'[k..] == Advance(es[k..], step))
  {
    var es' := es[k := es[k].(amount := es[k].amount - step)];
    assert es[k..][0] == es[k] && es[k..][1..] == es[k + 1..];
    if es'[k].amount > Epsilon {
      assert es'[k..] == [es[k].(amount := es[k].amount - step)] + es[k + 1..];
    }
  }

  /** The loop of `calculateSettlements` as written: two indices over the
      debtor and creditor arrays, whose amounts are decremented in place. It
      computes exactly the recursive `Settle`. */
  method SettleLoop(debtors: seq<Entry>, creditors: seq<Entry>) returns (result: seq<Payment>)
    ensures result == Settle(debtors, creditors)
  {
    var ds, cs := debtors, creditors;
    var d, c := 0, 0;
    result := [];
    assert ds[d..] == debtors && cs[c..] == creditors;
    while d < |ds| && c < |cs|
      invariant 0 <= d <= |ds| && 0 <= c <= |cs|
      invariant result + Settle(ds[d..], cs[c..]) == Settle(debtors, creditors)
      decreases |ds| + |cs| - d - c
    {
      var amount := Min(ds[d].amount, cs[c].amount);
      var payment := Payment(ds[d].id, cs[c].id, amount);
      var ds', cs' := ds[d := ds[d].(amount := ds[d].amount - amount)], cs[c := cs[c].(amount := cs[c].amount - amount)];
      var d' := if ds'[d].amount <= Epsilon then d + 1 else d;
      var c' := if cs'[c].amount <= Epsilon then c + 1 else c;
      LoopStep(ds, cs, d, c, amount, ds', cs', d', c');
      assert (result + [payment]) + Settle(ds'[d'..], cs'[c'..]) == result + ([payment] + Settle(ds'[d'..], cs'[c'..]));
      result := result + [payment];
      ds, cs, d, c := ds', cs', d', c';
    }
    assert Settle(ds[d..], cs[c..]) == [];
    assert result + [] == result;
  }
}
