/** The per-group report of the group controller
    (backend/src/controllers/groupController.js, `getGroupAnalytics`): total
    and count of the group's expenses, average spend per calendar day, the
    first day with the highest spend, spend per category largest first, and
    for every member what they paid, their equal shares and the difference. */
module GroupAnalytics {
  import opened Options
  import opened Seqs
  import opened Sorting
  import opened Store
  import opened Tallies
  import Balances

  /** `highestSpendingDay`: a calendar-day key and what was spent on it. */
  datatype DayTotal = DayTotal(date: string, amount: real)

  /** The starting value `{ date: "N/A", amount: 0 }`, kept when no day has a
      positive total. */
  const NoDay := DayTotal("N/A", 0.0)

  datatype MemberStat = MemberStat(name: string, paid: real, share: real, balance: real)

  /** The JSON body of a successful response. `categoryBreakdown` holds
      `{ name, value }` pairs, modelled as buckets (name = key, value = total). */
  datatype Report = Report(groupName: string, budget: Option<real>, totalSpent: real,
                           expenseCount: nat, avgDailySpend: real, highestSpendingDay: DayTotal,
                           categoryBreakdown: seq<Bucket>, memberStats: seq<MemberStat>,
                           totalMembers: nat)

  datatype Response = GroupNotFound | Found(report: Report)

  /** `include: { members: true }`: the members of group `gid`, in store order. */
  function GroupMembers(st: Store, gid: Id): (r: seq<Member>)
    ensures forall m :: m in r <==> m in st.members && m.groupId == gid
  {
    Filter(st.members, (m: Member) => m.groupId == gid)
  }

  /** One item per expense, filed under the key `key` gives it; keying the
      expenses does not change what they add up to. */
  function KeyedBy(expenses: seq<Expense>, key: Expense -> string): (r: seq<Item>)
    ensures |r| == |expenses|
    ensures forall i :: 0 <= i < |r| ==> r[i].key == key(expenses[i]) && r[i].amount == expenses[i].amount
    ensures SumItems(r) == SumAmounts(expenses)
  {
    var r := seq(|expenses|, i requires 0 <= i < |expenses| => Item(key(expenses[i]), expenses[i].amount));
    SameAmountsSameSum(r, expenses);
    r
  }

  /** `exp.category || "Misc"`. */
  function CategoryName(e: Expense): (c: string)
    ensures c != ""
    ensures e.category != "" ==> c == e.category
  {
    if e.category == "" then "Misc" else e.category
  }

  function DayItems(expenses: seq<Expense>): seq<Item> {
    KeyedBy(expenses, (e: Expense) => e.day)
  }

  function CategoryItems(expenses: seq<Expense>): seq<Item> {
    KeyedBy(expenses, CategoryName)
  }

  /** Items carrying the expenses' amounts, one for one, add up to the same. */
  lemma {:induction false} SameAmountsSameSum(items: seq<Item>, expenses: seq<Expense>)
    requires |items| == |expenses|
    requires forall i :: 0 <= i < |items| ==> items[i].amount == expenses[i].amount
    ensures SumItems(items) == SumAmounts(expenses)
  {
    var n := |expenses|;
    if n > 0 {
      SameAmountsSameSum(items[..n - 1], expenses[..n - 1]);
      assert expenses == expenses[..n - 1] + [expenses[n - 1]];
      SumAmountsAppend(expenses[..n - 1], [expenses[n - 1]]);
    }
  }

  /** The number of distinct calendar days the expenses fall on,
      `new Set(dates).size`. */
  function DayCount(expenses: seq<Expense>): (n: nat)
    ensures |expenses| > 0 ==> n > 0
  {
    var days := ItemKeys(DayItems(expenses));
    if |expenses| > 0 then assert days[0] in Distinct(days); |Distinct(days)| else |Distinct(days)|
  }

  /** `avgDailySpend`: the total over the number of distinct calendar days, 0
      without expenses. */
  function AvgDailySpend(expenses: seq<Expense>): (r: real)
    ensures |expenses| == 0 ==> r == 0.0
    ensures |expenses| > 0 ==> r * (DayCount(expenses) as real) == SumAmounts(expenses)
  {
    if |expenses| > 0 then
      var uniqueDates := DayCount(expenses);
      if uniqueDates > 0 then SumAmounts(expenses) / (uniqueDates as real) else SumAmounts(expenses)
    else 0.0
  }

  /** The scan over the daily totals in key order, replacing the running best
      only on a strictly larger amount. */
  function HighestDay(days: seq<Bucket>): (r: DayTotal)
    ensures r.amount >= 0.0
    ensures forall i :: 0 <= i < |days| ==> days[i].total <= r.amount
  {
    if |days| == 0 then NoDay
    else
      var best := HighestDay(days[..|days| - 1]);
      var last := days[|days| - 1];
      if last.total > best.amount then DayTotal(last.key, last.total) else best
  }

  /** The reported day is "N/A" exactly when no day has a positive total, and
      otherwise the first day whose total is the largest. */
  lemma {:induction false} HighestDayIsFirstMaximum(days: seq<Bucket>)
    ensures HighestDay(days) == NoDay <==> forall i :: 0 <= i < |days| ==> days[i].total <= 0.0
    ensures HighestDay(days) != NoDay ==>
      exists i :: 0 <= i < |days| && HighestDay(days) == DayTotal(days[i].key, days[i].total)
                  && forall j :: 0 <= j < i ==> days[j].total < days[i].total
  {
    if |days| > 0 {
      var prefix := days[..|days| - 1];
      HighestDayIsFirstMaximum(prefix);
      var best := HighestDay(prefix);
      var last := days[|days| - 1];
      if last.total > best.amount {
        assert HighestDay(days) == DayTotal(last.key, last.total);
        forall j | 0 <= j < |days| - 1 ensures days[j].total < last.total {
          assert prefix[j] == days[j];
        }
      } else if best != NoDay {
        var i :| 0 <= i < |prefix| && best == DayTotal(prefix[i].key, prefix[i].total)
                 && forall j :: 0 <= j < i ==> prefix[j].total < prefix[i].total;
        assert days[i] == prefix[i];
        forall j | 0 <= j < i ensures days[j].total < days[i].total {
          assert days[j] == prefix[j];
        }
      } else {
        forall i | 0 <= i < |days| ensures days[i].total <= 0.0 {
          if i < |prefix| {
            assert days[i] == prefix[i];
          }
        }
      }
    }
  }

  predicate LargerFirst(a: Bucket, b: Bucket) {
    b.total - a.total <= 0.0
  }

  lemma LargerFirstIsTotalPreorder()
    ensures TotalPreorder(LargerFirst)
  {
  }

  /** `categoryBreakdown`: the category totals sorted by `b.value - a.value`. */
  function CategoryBreakdown(expenses: seq<Expense>): (r: seq<Bucket>)
    ensures multiset(r) == multiset(Tally(CategoryItems(expenses)))
    ensures forall i, j :: 0 <= i < j < |r| ==> r[i].total >= r[j].total
  {
    LargerFirstIsTotalPreorder();
    var sorted := SortBy(Tally(CategoryItems(expenses)), LargerFirst);
    assert forall i, j :: 0 <= i < j < |sorted| ==> LargerFirst(sorted[i], sorted[j]);
    sorted
  }

  lemma SameBuckets(t: seq<Bucket>, r: seq<Bucket>, b: Bucket)
    requires multiset(r) == multiset(t)
    ensures b in r <==> b in t
  {
    assert b in r <==> b in multiset(r);
  }

  lemma SameKeys(t: seq<Bucket>, r: seq<Bucket>, c: string)
    requires multiset(r) == multiset(t)
    ensures c in Keys(r) <==> c in Keys(t)
  {
    if c in Keys(r) {
      var k :| 0 <= k < |r| && Keys(r)[k] == c;
      SameBuckets(t, r, r[k]);
      var p :| 0 <= p < |t| && t[p] == r[k];
      assert Keys(t)[p] == c;
    }
    if c in Keys(t) {
      var k :| 0 <= k < |t| && Keys(t)[k] == c;
      SameBuckets(t, r, t[k]);
      var p :| 0 <= p < |r| && r[p] == t[k];
      assert Keys(r)[p] == c;
    }
  }

  /** One entry per category, named after exactly the categories in use. */
  lemma CategoryBreakdownNames(expenses: seq<Expense>)
    ensures NoDups(Keys(CategoryBreakdown(expenses)))
    ensures forall c :: c in Keys(CategoryBreakdown(expenses)) <==> c in ItemKeys(CategoryItems(expenses))
  {
    var t := Tally(CategoryItems(expenses));
    var r := CategoryBreakdown(expenses);
    PermutationKeepsKeysDistinct(t, r);
    forall c ensures c in Keys(r) <==> c in Keys(t) {
      SameKeys(t, r, c);
    }
  }

  /** Every entry has a non-empty name and holds that category's whole spend. */
  lemma CategoryBreakdownTotals(expenses: seq<Expense>)
    ensures forall b :: b in CategoryBreakdown(expenses) ==>
      b.key != "" && b.total == SumFor(CategoryItems(expenses), b.key)
  {
    var items := CategoryItems(expenses);
    var t := Tally(items);
    var r := CategoryBreakdown(expenses);
    TallyTotals(items);
    forall b | b in r ensures b.key != "" && b.total == SumFor(items, b.key) {
      SameBuckets(t, r, b);
      var k :| 0 <= k < |t| && t[k] == b;
      assert Keys(t)[k] in ItemKeys(items);
      var p :| 0 <= p < |items| && ItemKeys(items)[p] == b.key;
    }
  }

  /** The breakdown accounts for the whole spend of the group. */
  lemma CategoryBreakdownSums(expenses: seq<Expense>)
    ensures SumTotals(CategoryBreakdown(expenses)) == SumAmounts(expenses)
  {
    var items := CategoryItems(expenses);
    SumTotalsPermutation(Tally(items), CategoryBreakdown(expenses));
    TallyKeepsSum(items);
  }

  /** What `id` paid: every expense whose payer is `id`, in full. */
  function PaidBy(expenses: seq<Expense>, id: Id): real {
    if |expenses| == 0 then 0.0
    else (if expenses[0].paidById == id then expenses[0].amount else 0.0) + PaidBy(expenses[1..], id)
  }

  /** What `id` owes: one equal share of every expense whose participant list
      includes `id`, however often it is listed. */
  function ShareOf(expenses: seq<Expense>, id: Id): real {
    if |expenses| == 0 then 0.0
    else
      var e := expenses[0];
      (if id in e.splitBetweenIds then e.amount / (|e.splitBetweenIds| as real) else 0.0)
        + ShareOf(expenses[1..], id)
  }

  function StatOf(m: Member, expenses: seq<Expense>): (s: MemberStat)
    ensures s.balance == s.paid - s.share
  {
    MemberStat(m.name, PaidBy(expenses, m.id), ShareOf(expenses, m.id),
               PaidBy(expenses, m.id) - ShareOf(expenses, m.id))
  }

  /** `memberStats`: one entry per member, in member order. */
  function MemberStats(members: seq<Member>, expenses: seq<Expense>): (r: seq<MemberStat>)
    ensures |r| == |members|
    ensures forall i :: 0 <= i < |r| ==> r[i].name == members[i].name && r[i].balance == r[i].paid - r[i].share
    ensures forall i :: 0 <= i < |r| ==>
      r[i].paid == PaidBy(expenses, members[i].id) && r[i].share == ShareOf(expenses, members[i].id)
  {
    seq(|members|, i requires 0 <= i < |members| => StatOf(members[i], expenses))
  }

  function GetGroupAnalytics(st: Store, gid: Id): (r: Response)
    ensures r.GroupNotFound? <==> gid !in GroupIds(st.groups)
    ensures r.Found? ==>
      var a := r.report;
      var expenses := ExpensesOf(st.expenses, gid);
      && (exists g :: g in st.groups && g.id == gid && a.groupName == g.name && a.budget == g.budget)
      && a.expenseCount == |expenses|
      && a.totalSpent == SumAmounts(expenses)
      && a.avgDailySpend == AvgDailySpend(expenses)
      && a.memberStats == MemberStats(GroupMembers(st, gid), expenses)
      && a.totalMembers == |a.memberStats| == |GroupMembers(st, gid)|
      && a.categoryBreakdown == CategoryBreakdown(expenses)
      && a.highestSpendingDay == HighestDay(Tally(DayItems(expenses)))
  {
    match FindGroup(st.groups, gid)
    case None => GroupNotFound
    case Some(g) =>
      var expenses := ExpensesOf(st.expenses, gid);
      var members := GroupMembers(st, gid);
      Found(Report(g.name, g.budget, SumAmounts(expenses), |expenses|, AvgDailySpend(expenses),
                   HighestDay(Tally(DayItems(expenses))), CategoryBreakdown(expenses),
                   MemberStats(members, expenses), |members|))
  }

  // The member statistics and the balances the group-details page computes.

  function PageExpense(e: Expense): Balances.Expense {
    Balances.Expense(e.amount, Some(e.paidById), e.splitBetweenIds)
  }

  function PageExpenses(expenses: seq<Expense>): (r: seq<Balances.Expense>)
    ensures |r| == |expenses|
    ensures forall i :: 0 <= i < |r| ==> r[i] == PageExpense(expenses[i])
  {
    if |expenses| == 0 then [] else [PageExpense(expenses[0])] + PageExpenses(expenses[1..])
  }

  function PageMembers(members: seq<Member>): (r: seq<Balances.Member>)
    ensures Balances.MemberIds(r) == MemberIds(members)
  {
    if |members| == 0 then []
    else
      var r := [Balances.Member(members[0].id, members[0].name)] + PageMembers(members[1..]);
      assert Balances.MemberIds(r) == [members[0].id] + Balances.MemberIds(r[1..]);
      r
  }

  lemma {:induction false} DebitOnce(split: seq<Id>, id: Id, q: real)
    requires NoDups(split)
    ensures Balances.Debit(split, id, q) == if id in split then q else 0.0
  {
    if |split| > 0 {
      TailNoDups(split);
      DebitOnce(split[1..], id, q);
    }
  }

  /** With non-empty participant lists, the paid column is what the page
      credits the member. */
  lemma {:induction false} PaidAgrees(expenses: seq<Expense>, id: Id)
    requires forall i :: 0 <= i < |expenses| ==> |expenses[i].splitBetweenIds| > 0
    ensures PaidBy(expenses, id) == Balances.Paid(PageExpenses(expenses), id)
  {
    if |expenses| > 0 {
      assert PageExpenses(expenses)[1..] == PageExpenses(expenses[1..]);
      PaidAgrees(expenses[1..], id);
    }
  }

  /** With duplicate-free participant lists, the share column is what the
      page debits the member. */
  lemma {:induction false} ShareAgrees(expenses: seq<Expense>, id: Id)
    requires forall i :: 0 <= i < |expenses| ==> NoDups(expenses[i].splitBetweenIds)
    ensures ShareOf(expenses, id) == Balances.Share(PageExpenses(expenses), id)
  {
    if |expenses| > 0 {
      assert PageExpenses(expenses)[1..] == PageExpenses(expenses[1..]);
      ShareAgrees(expenses[1..], id);
      DebitOnce(expenses[0].splitBetweenIds, id, Balances.Portion(PageExpense(expenses[0])));
    }
  }

  /** On well-formed data the report's balance column is the balance the
      group-details page computes for the member. */
  lemma StatAgreesWithPage(m: Member, expenses: seq<Expense>)
    requires forall i :: 0 <= i < |expenses| ==> |expenses[i].splitBetweenIds| > 0
    requires forall i :: 0 <= i < |expenses| ==> NoDups(expenses[i].splitBetweenIds)
    ensures StatOf(m, expenses).balance == Balances.Balance(PageExpenses(expenses), m.id)
  {
    PaidAgrees(expenses, m.id);
    ShareAgrees(expenses, m.id);
  }

  function SumStatBalances(stats: seq<MemberStat>): real {
    if |stats| == 0 then 0.0 else stats[0].balance + SumStatBalances(stats[1..])
  }

  lemma {:induction false} StatsSumAsOnPage(members: seq<Member>, expenses: seq<Expense>)
    requires forall i :: 0 <= i < |expenses| ==> |expenses[i].splitBetweenIds| > 0
    requires forall i :: 0 <= i < |expenses| ==> NoDups(expenses[i].splitBetweenIds)
    ensures SumStatBalances(MemberStats(members, expenses)) ==
            Balances.SumBalances(MemberIds(members), PageExpenses(expenses))
  {
    if |members| > 0 {
      StatsSumAsOnPage(members[1..], expenses);
      assert MemberStats(members, expenses)[1..] == MemberStats(members[1..], expenses);
      StatAgreesWithPage(members[0], expenses);
    }
  }

  lemma {:induction false} GroupMemberIdsDistinct(ms: seq<Member>, gid: Id)
    requires NoDups(MemberIds(ms))
    ensures NoDups(MemberIds(Filter(ms, (m: Member) => m.groupId == gid)))
  {
    if |ms| > 0 {
      TailNoDups(MemberIds(ms));
      GroupMemberIdsDistinct(ms[1..], gid);
      var kept := Filter(ms[1..], (m: Member) => m.groupId == gid);
      if ms[0].groupId == gid {
        assert ms[0].id !in MemberIds(kept);
        ConsNoDups(ms[0].id, MemberIds(kept));
      }
    }
  }

  /** Member ids are unique, payers and participants belong to the group, and
      participant lists are non-empty and duplicate-free: then the balances
      the report lists cancel out. */
  lemma MemberBalancesCancel(st: Store, gid: Id)
    requires NoDups(MemberIds(st.members))
    requires Scoped(st)
    requires SplitsNonEmpty(st.expenses)
    requires forall e :: e in st.expenses ==> NoDups(e.splitBetweenIds)
    requires gid in GroupIds(st.groups)
    ensures SumStatBalances(GetGroupAnalytics(st, gid).report.memberStats) == 0.0
  {
    var expenses := ExpensesOf(st.expenses, gid);
    var members := GroupMembers(st, gid);
    var page := PageExpenses(expenses);
    GroupMemberIdsDistinct(st.members, gid);
    forall i | 0 <= i < |expenses|
      ensures |expenses[i].splitBetweenIds| > 0 && NoDups(expenses[i].splitBetweenIds)
    {
      assert expenses[i] in st.expenses;
    }
    StatsSumAsOnPage(members, expenses);
    GroupReferencesResolve(st, gid);
    Balances.BalancesSumToZero(PageMembers(members), page);
  }

  /** Group-scoped references resolve among the group's own members. */
  lemma GroupReferencesResolve(st: Store, gid: Id)
    requires Scoped(st)
    ensures Balances.ReferencesResolve(MemberIds(GroupMembers(st, gid)), PageExpenses(ExpensesOf(st.expenses, gid)))
  {
    var expenses := ExpensesOf(st.expenses, gid);
    var members := GroupMembers(st, gid);
    var page := PageExpenses(expenses);
    forall e | e in page && Balances.Counted(e)
      ensures e.paidBy.value in MemberIds(members) && forall p :: p in e.splitBetween ==> p in MemberIds(members)
    {
      var k :| 0 <= k < |page| && page[k] == e;
      var x := expenses[k];
      assert x in st.expenses && x.groupId == gid;
      var payer :| payer in st.members && payer.id == x.paidById && payer.groupId == gid;
      assert payer in members;
      forall p | p in e.splitBetween ensures p in MemberIds(members) {
        var who :| who in st.members && who.id == p && who.groupId == gid;
        assert who in members;
      }
    }
  }

  /** Without the duplicate-free condition the balances need not cancel: one
      expense of 10 listing its payer twice reports a balance of 5. */
  lemma DuplicateParticipantUnbalances()
    ensures var a := Member("a", "A", "g");
            var e := Expense("x", "lunch", 10.0, "", "g", "a", ["a", "a"], "day");
            SumStatBalances(MemberStats([a], [e])) == 5.0
  {
    var a := Member("a", "A", "g");
    var e := Expense("x", "lunch", 10.0, "", "g", "a", ["a", "a"], "day");
    assert "a" in e.splitBetweenIds;
    assert PaidBy([e], "a") == 10.0;
    assert ShareOf([e], "a") == 5.0;
    assert MemberStats([a], [e]) == [StatOf(a, [e])];
  }
}
