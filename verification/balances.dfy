/** Net balances of a group's members as the group-details page computes them
    before suggesting settlements (frontend/src/pages/GroupDetails.jsx,
    `calculateSettlements`, first half), and the page's total-expenses figure. */
module Balances {
  import opened Seqs
  import opened Options

  type MemberId = string

  datatype Member = Member(id: MemberId, name: string)

  /** An expense as the group-details endpoint delivers it: the payer relation
      may be null, and an absent participant list reads the same as an empty one. */
  datatype Expense = Expense(amount: real, paidBy: Option<MemberId>, splitBetween: seq<MemberId>)

  function MemberIds(members: seq<Member>): (ids: seq<MemberId>)
    ensures |ids| == |members|
    ensures forall i :: 0 <= i < |members| ==> ids[i] == members[i].id
  {
    if |members| == 0 then [] else [members[0].id] + MemberIds(members[1..])
  }

  /** An expense without a payer or without participants is skipped, not rejected. */
  predicate Counted(e: Expense) {
    e.paidBy.Some? && |e.splitBetween| > 0
  }

  /** What `e` credits to `id`: the whole amount if `id` paid it. */
  function PaidPart(e: Expense, id: MemberId): real {
    if Counted(e) && e.paidBy.value == id then e.amount else 0.0
  }

  /** One participant's equal share of `e`: `amount / splitBetween.length`. */
  function Portion(e: Expense): real {
    if Counted(e) then e.amount / (|e.splitBetween| as real) else 0.0
  }

  /** The loop over the participants restricted to `id`: `q` is debited once
      per occurrence of `id` in `split`. */
  function Debit(split: seq<MemberId>, id: MemberId, q: real): real {
    if |split| == 0 then 0.0 else (if split[0] == id then q else 0.0) + Debit(split[1..], id, q)
  }

  /** What `e` debits from `id`: one equal share per occurrence of `id` in the split. */
  function SharePart(e: Expense, id: MemberId): real {
    if Counted(e) then Debit(e.splitBetween, id, Portion(e)) else 0.0
  }

  function Paid(expenses: seq<Expense>, id: MemberId): real {
    if |expenses| == 0 then 0.0 else PaidPart(expenses[0], id) + Paid(expenses[1..], id)
  }

  function Share(expenses: seq<Expense>, id: MemberId): real {
    if |expenses| == 0 then 0.0 else SharePart(expenses[0], id) + Share(expenses[1..], id)
  }

  /** The unrounded balance the page accumulates for `id`: positive when the
      member is owed money, negative when the member owes. */
  function Balance(expenses: seq<Expense>, id: MemberId): real {
    Paid(expenses, id) - Share(expenses, id)
  }

  /** `group.expenses.reduce((sum, exp) => sum + exp.amount, 0)`. */
  function TotalExpenses(expenses: seq<Expense>): real {
    if |expenses| == 0 then 0.0 else expenses[0].amount + TotalExpenses(expenses[1..])
  }

  /** The expenses that `calculateSettlements` does not skip. */
  function CountedOnly(expenses: seq<Expense>): (r: seq<Expense>)
    ensures forall e :: e in r <==> e in expenses && Counted(e)
  {
    if |expenses| == 0 then []
    else if Counted(expenses[0]) then [expenses[0]] + CountedOnly(expenses[1..])
    else CountedOnly(expenses[1..])
  }

  /** Skipping is the only thing that happens to an expense without a payer or
      participants: removing every such expense changes nobody's balance. */
  lemma {:induction false} SkippedExpensesChangeNothing(expenses: seq<Expense>, id: MemberId)
    ensures Balance(CountedOnly(expenses), id) == Balance(expenses, id)
  {
    if |expenses| > 0 {
      SkippedExpensesChangeNothing(expenses[1..], id);
    }
  }

  /** Every payer and participant of a counted expense is a listed member. */
  ghost predicate ReferencesResolve(ids: seq<MemberId>, expenses: seq<Expense>) {
    forall e :: e in expenses && Counted(e) ==>
      e.paidBy.value in ids && forall m :: m in e.splitBetween ==> m in ids
  }

  // Sums over a list of member ids.

  function SumPaidPart(ids: seq<MemberId>, e: Expense): real {
    if |ids| == 0 then 0.0 else PaidPart(e, ids[0]) + SumPaidPart(ids[1..], e)
  }

  function SumSharePart(ids: seq<MemberId>, e: Expense): real {
    if |ids| == 0 then 0.0 else SharePart(e, ids[0]) + SumSharePart(ids[1..], e)
  }

  function SumPaid(ids: seq<MemberId>, expenses: seq<Expense>): real {
    if |ids| == 0 then 0.0 else Paid(expenses, ids[0]) + SumPaid(ids[1..], expenses)
  }

  function SumShare(ids: seq<MemberId>, expenses: seq<Expense>): real {
    if |ids| == 0 then 0.0 else Share(expenses, ids[0]) + SumShare(ids[1..], expenses)
  }

  function SumBalances(ids: seq<MemberId>, expenses: seq<Expense>): real {
    if |ids| == 0 then 0.0 else Balance(expenses, ids[0]) + SumBalances(ids[1..], expenses)
  }

  /** What the participant loop debits in total from the members in `ids`. */
  function SumDebits(ids: seq<MemberId>, split: seq<MemberId>, q: real): real {
    if |ids| == 0 then 0.0 else Debit(split, ids[0], q) + SumDebits(ids[1..], split, q)
  }

  /** `q` for the one entry of `ids` equal to `x`, 0 for every other. */
  function SumHits(ids: seq<MemberId>, x: MemberId, q: real): real {
    if |ids| == 0 then 0.0 else (if ids[0] == x then q else 0.0) + SumHits(ids[1..], x, q)
  }

  /** `n` equal shares of `q`, added one at a time. */
  function Times(n: nat, q: real): real {
    if n == 0 then 0.0 else q + Times(n - 1, q)
  }

  lemma {:induction false} SumHitsOnce(ids: seq<MemberId>, x: MemberId, q: real)
    requires NoDups(ids)
    ensures SumHits(ids, x, q) == if x in ids then q else 0.0
  {
    if |ids| > 0 {
      TailNoDups(ids);
      SumHitsOnce(ids[1..], x, q);
    }
  }

  lemma {:induction false} SumDebitsCons(ids: seq<MemberId>, x: MemberId, rest: seq<MemberId>, q: real)
    ensures SumDebits(ids, [x] + rest, q) == SumHits(ids, x, q) + SumDebits(ids, rest, q)
  {
    assert ([x] + rest)[1..] == rest;
    if |ids| > 0 {
      SumDebitsCons(ids[1..], x, rest, q);
    }
  }

  /** Each occurrence in `split` is debited exactly once from a duplicate-free `ids` covering it. */
  lemma {:induction false} SumDebitsCovers(ids: seq<MemberId>, split: seq<MemberId>, q: real)
    requires NoDups(ids)
    requires forall m :: m in split ==> m in ids
    ensures SumDebits(ids, split, q) == Times(|split|, q)
  {
    if |split| == 0 {
      if |ids| > 0 {
        TailNoDups(ids);
        SumDebitsCovers(ids[1..], split, q);
      }
    } else {
      assert split == [split[0]] + split[1..];
      SumDebitsCons(ids, split[0], split[1..], q);
      SumHitsOnce(ids, split[0], q);
      SumDebitsCovers(ids, split[1..], q);
    }
  }

  lemma {:induction false} TimesIsProduct(n: nat, q: real)
    ensures Times(n, q) == (n as real) * q
  {
    if n > 0 {
      TimesIsProduct(n - 1, q);
      assert (n as real) * q == ((n - 1) as real) * q + q;
    }
  }

  lemma {:induction false} SumPaidPartIsAmount(ids: seq<MemberId>, e: Expense)
    requires NoDups(ids)
    ensures SumPaidPart(ids, e) == if Counted(e) && e.paidBy.value in ids then e.amount else 0.0
  {
    if |ids| > 0 {
      TailNoDups(ids);
      SumPaidPartIsAmount(ids[1..], e);
    }
  }

  lemma {:induction false} SumSharePartIsDebits(ids: seq<MemberId>, e: Expense)
    ensures SumSharePart(ids, e) == if Counted(e) then SumDebits(ids, e.splitBetween, Portion(e)) else 0.0
  {
    if |ids| > 0 {
      SumSharePartIsDebits(ids[1..], e);
    }
  }

  /** The shares of a counted expense over a duplicate-free list covering its
      participants add up to the whole amount. */
  lemma SumShareOfCounted(ids: seq<MemberId>, e: Expense)
    requires NoDups(ids) && Counted(e)
    requires forall m :: m in e.splitBetween ==> m in ids
    ensures SumSharePart(ids, e) == e.amount
  {
    SumSharePartIsDebits(ids, e);
    SumDebitsCovers(ids, e.splitBetween, Portion(e));
    TimesIsProduct(|e.splitBetween|, Portion(e));
    var n := |e.splitBetween| as real;
    assert n * (e.amount / n) == e.amount;
  }

  lemma {:induction false} SumPaidCons(ids: seq<MemberId>, expenses: seq<Expense>)
    requires |expenses| > 0
    ensures SumPaid(ids, expenses) == SumPaidPart(ids, expenses[0]) + SumPaid(ids, expenses[1..])
  {
    if |ids| > 0 {
      SumPaidCons(ids[1..], expenses);
    }
  }

  lemma {:induction false} SumShareCons(ids: seq<MemberId>, expenses: seq<Expense>)
    requires |expenses| > 0
    ensures SumShare(ids, expenses) == SumSharePart(ids, expenses[0]) + SumShare(ids, expenses[1..])
  {
    if |ids| > 0 {
      SumShareCons(ids[1..], expenses);
    }
  }

  lemma {:induction false} SumPaidEmpty(ids: seq<MemberId>, expenses: seq<Expense>)
    requires |expenses| == 0
    ensures SumPaid(ids, expenses) == 0.0 && SumShare(ids, expenses) == 0.0
  {
    if |ids| > 0 {
      SumPaidEmpty(ids[1..], expenses);
    }
  }

  /** Summed over all members, the credits equal the total of the counted expenses. */
  lemma {:induction false} PaidSumsToCountedTotal(ids: seq<MemberId>, expenses: seq<Expense>)
    requires NoDups(ids) && ReferencesResolve(ids, expenses)
    ensures SumPaid(ids, expenses) == TotalExpenses(CountedOnly(expenses))
  {
    if |expenses| == 0 {
      SumPaidEmpty(ids, expenses);
    } else {
      var e := expenses[0];
      SumPaidCons(ids, expenses);
      SumPaidPartIsAmount(ids, e);
      ResolveTail(ids, expenses);
      PaidSumsToCountedTotal(ids, expenses[1..]);
      CountedTotalCons(expenses);
    }
  }

  /** Summed over all members, the debits also equal the total of the counted expenses. */
  lemma {:induction false} ShareSumsToCountedTotal(ids: seq<MemberId>, expenses: seq<Expense>)
    requires NoDups(ids) && ReferencesResolve(ids, expenses)
    ensures SumShare(ids, expenses) == TotalExpenses(CountedOnly(expenses))
  {
    if |expenses| == 0 {
      SumPaidEmpty(ids, expenses);
    } else {
      var e := expenses[0];
      ResolveTail(ids, expenses);
      CountedTotalCons(expenses);
      SumShareCons(ids, expenses);
      if Counted(e) {
        SumShareOfCounted(ids, e);
      } else {
        SumSharePartIsDebits(ids, e);
      }
      ShareSumsToCountedTotal(ids, expenses[1..]);
    }
  }

  lemma ResolveTail(ids: seq<MemberId>, expenses: seq<Expense>)
    requires |expenses| > 0 && ReferencesResolve(ids, expenses)
    ensures ReferencesResolve(ids, expenses[1..])
  {
    assert forall x :: x in expenses[1..] ==> x in expenses;
  }

  lemma CountedTotalCons(expenses: seq<Expense>)
    requires |expenses| > 0
    ensures TotalExpenses(CountedOnly(expenses)) ==
      (if Counted(expenses[0]) then expenses[0].amount else 0.0) + TotalExpenses(CountedOnly(expenses[1..]))
  {
    if Counted(expenses[0]) {
      assert ([expenses[0]] + CountedOnly(expenses[1..]))[1..] == CountedOnly(expenses[1..]);
    }
  }

  lemma {:induction false} SumBalancesSplits(ids: seq<MemberId>, expenses: seq<Expense>)
    ensures SumBalances(ids, expenses) == SumPaid(ids, expenses) - SumShare(ids, expenses)
  {
    if |ids| > 0 {
      SumBalancesSplits(ids[1..], expenses);
    }
  }

  /** Zero-sum: when every payer and participant is a member, the members'
      unrounded balances add up to exactly zero. */
  lemma BalancesSumToZero(members: seq<Member>, expenses: seq<Expense>)
    requires NoDups(MemberIds(members))
    requires ReferencesResolve(MemberIds(members), expenses)
    ensures SumBalances(MemberIds(members), expenses) == 0.0
  {
    var ids := MemberIds(members);
    SumBalancesSplits(ids, expenses);
    PaidSumsToCountedTotal(ids, expenses);
    ShareSumsToCountedTotal(ids, expenses);
  }

  /** The page's total equals what the members paid, when no expense is skipped. */
  lemma TotalIsWhatMembersPaid(members: seq<Member>, expenses: seq<Expense>)
    requires NoDups(MemberIds(members))
    requires ReferencesResolve(MemberIds(members), expenses)
    requires forall e :: e in expenses ==> Counted(e)
    ensures TotalExpenses(expenses) == SumPaid(MemberIds(members), expenses)
  {
    PaidSumsToCountedTotal(MemberIds(members), expenses);
    CountedOnlyKeepsAllCounted(expenses);
  }

  lemma {:induction false} CountedOnlyKeepsAllCounted(expenses: seq<Expense>)
    requires forall e :: e in expenses ==> Counted(e)
    ensures CountedOnly(expenses) == expenses
  {
    if |expenses| > 0 {
      assert forall x :: x in expenses[1..] ==> x in expenses;
      CountedOnlyKeepsAllCounted(expenses[1..]);
    }
  }
}
