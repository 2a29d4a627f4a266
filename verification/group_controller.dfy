/** The request handlers of backend/src/controllers/groupController.js as
    functions from a store and the request's fields to an outcome: the group
    listing with totals, the four create handlers' validation, the member and
    group deletion cascades, and the top-five spending list of the dashboard
    analytics. Ids and timestamps the database would generate are parameters. */
module GroupController {
  import opened Options
  import opened Seqs
  import opened Sorting
  import opened Store

  // ---------------------------------------------------------------------------
  // Request validation

  /** JavaScript truthiness of an optional text field: present and non-empty. */
  predicate Given(s: Option<string>) {
    s.Some? && s.value != ""
  }

  /** A numeric field of the JSON body: missing (or null), a JSON number, or
      text, as the form inputs send it, with the number `parseFloat` reads
      from that text. */
  datatype NumberField = Missing | Number(n: real) | Text(text: string, parsed: real)

  /** JavaScript truthiness of a numeric field: a non-zero number or any
      non-empty text, so the text "0" counts as given. */
  predicate GivenNumber(a: NumberField) {
    (a.Number? && a.n != 0.0) || (a.Text? && a.text != "")
  }

  /** `parseFloat(a)`: a number reads as itself. */
  function ParseFloat(a: NumberField): real
    requires !a.Missing?
  {
    if a.Number? then a.n else a.parsed
  }

  /** `budget ? parseFloat(budget) : null`. */
  function StoredBudget(budget: NumberField): (r: Option<real>)
    ensures r.None? <==> !GivenNumber(budget)
    ensures budget.Text? && budget.text != "" ==> r == Some(budget.parsed)
    ensures budget.Number? && budget.n != 0.0 ==> r == Some(budget.n)
  {
    if GivenNumber(budget) then Some(ParseFloat(budget)) else None
  }

  /** A zero budget typed into the form arrives as the text "0", which is
      truthy, and is stored as 0; only a JSON number 0 is dropped. */
  lemma ZeroBudgetTextIsStored()
    ensures StoredBudget(Text("0", 0.0)) == Some(0.0)
    ensures StoredBudget(Number(0.0)) == None
    ensures StoredBudget(Text("", 0.0)) == None
  {
  }

  /** `createGroup`: a name is required; the new group belongs to the caller. */
  function CreateGroup(st: Store, userId: Id, name: Option<string>, budget: NumberField,
                       newId: Id, now: int): (r: Outcome)
    ensures r.status == BadRequest <==> !Given(name)
    ensures r.status == BadRequest ==> r.store == st
    ensures r.status != BadRequest ==>
      && r.status == Created
      && r.store.members == st.members && r.store.expenses == st.expenses
      && r.store.settlements == st.settlements
      && |r.store.groups| == |st.groups| + 1 && r.store.groups[..|st.groups|] == st.groups
      && r.store.groups[|st.groups|].name == name.value
      && r.store.groups[|st.groups|].userId == userId
      && r.store.groups[|st.groups|].budget == StoredBudget(budget)
  {
    if !Given(name) then Outcome(st, BadRequest)
    else
      var g := Group(newId, name.value, StoredBudget(budget), userId, now);
      Outcome(st.(groups := st.groups + [g]), Created)
  }

  /** `addMember`: a name is required; the group id is taken from the route as is. */
  function AddMember(st: Store, gid: Id, name: Option<string>, newId: Id): (r: Outcome)
    ensures r.status == BadRequest <==> !Given(name)
    ensures r.status == BadRequest ==> r.store == st
    ensures r.status != BadRequest ==>
      && r.status == Ok
      && r.store.groups == st.groups && r.store.expenses == st.expenses
      && r.store.settlements == st.settlements
      && r.store.members == st.members + [Member(newId, name.value, gid)]
  {
    if !Given(name) then Outcome(st, BadRequest)
    else Outcome(st.(members := st.members + [Member(newId, name.value, gid)]), Ok)
  }

  /** `category || "Misc"`. */
  function CategoryOrMisc(category: Option<string>): (c: string)
    ensures c != ""
    ensures Given(category) ==> c == category.value
  {
    if Given(category) then category.value else "Misc"
  }

  /** The fields `createExpense` demands: a description, a truthy amount, a
      payer and a non-empty participant list. */
  predicate ExpenseFieldsGiven(description: Option<string>, amount: NumberField,
                               paidById: Option<Id>, splitBetweenIds: Option<seq<Id>>) {
    Given(description) && GivenNumber(amount) && Given(paidById)
    && splitBetweenIds.Some? && |splitBetweenIds.value| > 0
  }

  /** `createExpense`; `day` is the day of the creation time the database stamps. */
  function CreateExpense(st: Store, gid: Id, description: Option<string>, amount: NumberField,
                         paidById: Option<Id>, splitBetweenIds: Option<seq<Id>>,
                         category: Option<string>, newId: Id, day: string): (r: Outcome)
    ensures r.status == BadRequest <==> !ExpenseFieldsGiven(description, amount, paidById, splitBetweenIds)
    ensures r.status == BadRequest ==> r.store == st
    ensures r.status != BadRequest ==>
      && r.status == Created
      && r.store.groups == st.groups && r.store.members == st.members
      && r.store.settlements == st.settlements
      && |r.store.expenses| == |st.expenses| + 1 && r.store.expenses[..|st.expenses|] == st.expenses
      && var e := r.store.expenses[|st.expenses|];
         && e.groupId == gid && e.amount == ParseFloat(amount) && e.paidById == paidById.value
         && e.splitBetweenIds == splitBetweenIds.value && |e.splitBetweenIds| > 0
         && e.category == (if Given(category) then category.value else "Misc")
  {
    if !ExpenseFieldsGiven(description, amount, paidById, splitBetweenIds) then Outcome(st, BadRequest)
    else
      var e := Expense(newId, description.value, ParseFloat(amount), CategoryOrMisc(category),
                       gid, paidById.value, splitBetweenIds.value, day);
      Outcome(st.(expenses := st.expenses + [e]), Created)
  }

  /** `createSettlement`: both parties and a truthy amount are required;
      nothing else about them is checked. */
  function CreateSettlement(st: Store, gid: Id, fromId: Option<Id>, toId: Option<Id>,
                            amount: NumberField, newId: Id): (r: Outcome)
    ensures r.status == BadRequest <==> !(Given(fromId) && Given(toId) && GivenNumber(amount))
    ensures r.status == BadRequest ==> r.store == st
    ensures r.status != BadRequest ==>
      && r.status == Created
      && r.store.groups == st.groups && r.store.members == st.members
      && r.store.expenses == st.expenses
      && r.store.settlements == st.settlements + [Settlement(newId, fromId.value, toId.value, ParseFloat(amount), gid)]
  {
    if !(Given(fromId) && Given(toId) && GivenNumber(amount)) then Outcome(st, BadRequest)
    else Outcome(st.(settlements := st.settlements + [Settlement(newId, fromId.value, toId.value, ParseFloat(amount), gid)]), Created)
  }

  /** The amount the form sends is text, so "0" passes the check and a zero
      expense is recorded; only a JSON number 0 is refused. */
  lemma ZeroAmountTextIsAccepted(st: Store, gid: Id, newId: Id, day: string)
    ensures var r := CreateExpense(st, gid, Some("lunch"), Text("0", 0.0), Some("m"), Some(["m"]), None, newId, day);
      r.status == Created && r.store.expenses[|st.expenses|].amount == 0.0
    ensures CreateExpense(st, gid, Some("lunch"), Number(0.0), Some("m"), Some(["m"]), None, newId, day).status == BadRequest
  {
  }

  /** An accepted expense raises its own group's total by its amount and leaves
      every other group's total as it was. */
  lemma CreateExpenseRaisesTotal(st: Store, gid: Id, description: Option<string>, amount: NumberField,
                                 paidById: Option<Id>, splitBetweenIds: Option<seq<Id>>,
                                 category: Option<string>, newId: Id, day: string, g: Id)
    requires ExpenseFieldsGiven(description, amount, paidById, splitBetweenIds)
    ensures var r := CreateExpense(st, gid, description, amount, paidById, splitBetweenIds, category, newId, day);
      SumAmounts(ExpensesOf(r.store.expenses, g)) ==
        SumAmounts(ExpensesOf(st.expenses, g)) + (if g == gid then ParseFloat(amount) else 0.0)
  {
    var r := CreateExpense(st, gid, description, amount, paidById, splitBetweenIds, category, newId, day);
    var e := r.store.expenses[|st.expenses|];
    assert r.store.expenses == st.expenses + [e];
    FilterAppend(st.expenses, e, (x: Expense) => x.groupId == g);
    SumAmountsAppend(ExpensesOf(st.expenses, g), if e.groupId == g then [e] else []);
  }

  lemma {:induction false} FilterAppend<T(!new)>(s: seq<T>, x: T, keep: T -> bool)
    ensures Filter(s + [x], keep) == Filter(s, keep) + (if keep(x) then [x] else [])
  {
    if |s| == 0 {
      assert s + [x] == [x];
    } else {
      assert (s + [x])[1..] == s[1..] + [x];
      FilterAppend(s[1..], x, keep);
    }
  }

  /** Creating a group keeps the store's integrity. */
  lemma CreateGroupKeepsIntegrity(st: Store, userId: Id, name: Option<string>, budget: NumberField,
                                  newId: Id, now: int)
    requires WellFormed(st)
    ensures WellFormed(CreateGroup(st, userId, name, budget, newId, now).store)
  {
    var r := CreateGroup(st, userId, name, budget, newId, now).store;
    if Given(name) {
      GroupIdsGrow(st.groups, r.groups);
    }
  }

  lemma GroupIdsGrow(a: seq<Group>, b: seq<Group>)
    requires forall g :: g in a ==> g in b
    ensures forall id :: id in GroupIds(a) ==> id in GroupIds(b)
  {
  }

  lemma MemberIdsGrow(a: seq<Member>, b: seq<Member>)
    requires forall m :: m in a ==> m in b
    ensures forall id :: id in MemberIds(a) ==> id in MemberIds(b)
  {
  }

  /** Adding a member to an existing group keeps the store's integrity. */
  lemma AddMemberKeepsIntegrity(st: Store, gid: Id, name: Option<string>, newId: Id)
    requires WellFormed(st) && gid in GroupIds(st.groups)
    ensures WellFormed(AddMember(st, gid, name, newId).store)
  {
    var r := AddMember(st, gid, name, newId).store;
    if Given(name) {
      MemberIdsGrow(st.members, r.members);
    }
  }

  /** An accepted expense whose group, payer and participants exist keeps the
      store's integrity and leaves no expense without participants. */
  lemma CreateExpenseKeepsIntegrity(st: Store, gid: Id, description: Option<string>, amount: NumberField,
                                    paidById: Option<Id>, splitBetweenIds: Option<seq<Id>>,
                                    category: Option<string>, newId: Id, day: string)
    requires WellFormed(st) && SplitsNonEmpty(st.expenses) && gid in GroupIds(st.groups)
    requires paidById.Some? ==> paidById.value in MemberIds(st.members)
    requires splitBetweenIds.Some? ==> forall p :: p in splitBetweenIds.value ==> p in MemberIds(st.members)
    ensures WellFormed(CreateExpense(st, gid, description, amount, paidById, splitBetweenIds, category, newId, day).store)
    ensures SplitsNonEmpty(CreateExpense(st, gid, description, amount, paidById, splitBetweenIds, category, newId, day).store.expenses)
  {
    var r := CreateExpense(st, gid, description, amount, paidById, splitBetweenIds, category, newId, day);
    if r.status == Created {
      assert r.store.expenses == st.expenses + [r.store.expenses[|st.expenses|]];
    }
  }

  /** An accepted settlement between existing members of an existing group
      keeps the store's integrity. */
  lemma CreateSettlementKeepsIntegrity(st: Store, gid: Id, fromId: Option<Id>, toId: Option<Id>,
                                       amount: NumberField, newId: Id)
    requires WellFormed(st) && gid in GroupIds(st.groups)
    requires fromId.Some? ==> fromId.value in MemberIds(st.members)
    requires toId.Some? ==> toId.value in MemberIds(st.members)
    ensures WellFormed(CreateSettlement(st, gid, fromId, toId, amount, newId).store)
  {
  }

  // ---------------------------------------------------------------------------
  // deleteMember

  /** `e` with every occurrence of `m` filtered out of its participants. */
  function Stripped(e: Expense, m: Id): (r: Expense)
    ensures m !in r.splitBetweenIds
    ensures r.splitBetweenIds == Filter(e.splitBetweenIds, Except(m))
    ensures forall y :: y != m ==> Count(r.splitBetweenIds, y) == Count(e.splitBetweenIds, y)
    ensures |r.splitBetweenIds| == |e.splitBetweenIds| - Count(e.splitBetweenIds, m)
    ensures && r.id == e.id && r.description == e.description && r.amount == e.amount
            && r.category == e.category && r.groupId == e.groupId && r.paidById == e.paidById
            && r.day == e.day
  {
    e.(splitBetweenIds := RemoveAll(e.splitBetweenIds, m))
  }

  /** Step 3 of `deleteMember`: every expense naming `m` as a participant loses
      every occurrence of `m`, and is deleted if no participant is left. */
  function StripMember(es: seq<Expense>, m: Id): (r: seq<Expense>)
    ensures forall e :: e in r ==> m !in e.splitBetweenIds
    ensures (forall e :: e in es ==> e.paidById != m) ==> forall e :: e in r ==> e.paidById != m
    ensures forall e :: e in es && m !in e.splitBetweenIds ==> e in r
    ensures forall e :: e in es && |Stripped(e, m).splitBetweenIds| > 0 ==>
      Stripped(e, m) in r
    ensures forall e :: e in r ==> |e.splitBetweenIds| > 0 || e in es
  {
    if |es| == 0 then []
    else
      var e := es[0];
      var rest := StripMember(es[1..], m);
      if m !in e.splitBetweenIds then
        assert e == Stripped(e, m);
        [e] + rest
      else if |Stripped(e, m).splitBetweenIds| == 0 then rest
      else [Stripped(e, m)] + rest
  }

  /** Steps 1 to 3 of `deleteMember`, on the expenses. */
  function CascadeExpenses(es: seq<Expense>, m: Id): (r: seq<Expense>)
    ensures forall e :: e in r ==> e.paidById != m && m !in e.splitBetweenIds
    ensures forall e :: e in es && e.paidById != m && m !in e.splitBetweenIds ==> e in r
    ensures forall e :: e in es && e.paidById != m && |Stripped(e, m).splitBetweenIds| > 0 ==>
      Stripped(e, m) in r
    ensures forall e :: e in r ==> |e.splitBetweenIds| > 0 || e in es
  {
    StripMember(Filter(es, (e: Expense) => e.paidById != m), m)
  }

  /** Every expense step 3 leaves is an original one with `m` filtered out. */
  lemma {:induction false} StripMemberOrigin(es: seq<Expense>, m: Id, e: Expense)
    requires e in StripMember(es, m)
    ensures exists e0 :: e0 in es && e == Stripped(e0, m)
  {
    var x := es[0];
    if m !in x.splitBetweenIds {
      assert x == Stripped(x, m);
    }
    if e != Stripped(x, m) {
      StripMemberOrigin(es[1..], m, e);
      var e0 :| e0 in es[1..] && e == Stripped(e0, m);
      assert e0 in es;
    }
  }

  /** `deleteMember`: removes every settlement involving the member, every
      expense it paid, the member from every participant list (deleting the
      expenses left with none), then the member. The deletes are not limited to
      the group in the route. When no member has the id, the final delete fails
      and the request answers 500 with the first three steps already done. */
  function DeleteMember(st: Store, m: Id): (r: Outcome)
    ensures r.status == Ok <==> m in MemberIds(st.members)
    ensures r.status != Ok ==> r.status == ServerError && r.store.members == st.members
    ensures m !in MemberIds(r.store.members)
    ensures r.store.groups == st.groups
    ensures forall x :: x in r.store.members <==> x in st.members && x.id != m
    ensures forall s :: s in r.store.settlements <==> s in st.settlements && s.fromId != m && s.toId != m
    ensures forall e :: e in r.store.expenses ==> e.paidById != m && m !in e.splitBetweenIds
    ensures forall e :: e in st.expenses && e.paidById != m && m !in e.splitBetweenIds ==> e in r.store.expenses
    ensures forall e :: e in r.store.expenses ==> |e.splitBetweenIds| > 0 || e in st.expenses
  {
    var settlements := Filter(st.settlements, (s: Settlement) => s.fromId != m && s.toId != m);
    var after := st.(settlements := settlements, expenses := CascadeExpenses(st.expenses, m));
    if m in MemberIds(st.members) then
      Outcome(after.(members := Filter(st.members, (x: Member) => x.id != m)), Ok)
    else
      Outcome(after, ServerError)
  }

  /** Each remaining expense is an original one, not paid by the member, with
      only the member filtered out of its participants; each original expense
      that keeps a participant survives in that form. */
  lemma DeleteMemberRewritesSplits(st: Store, m: Id, e: Expense)
    ensures e in DeleteMember(st, m).store.expenses ==>
      exists e0 :: e0 in st.expenses && e0.paidById != m && e == Stripped(e0, m)
    ensures e in st.expenses && e.paidById != m && |Stripped(e, m).splitBetweenIds| > 0 ==>
      Stripped(e, m) in DeleteMember(st, m).store.expenses
  {
    var paid := Filter(st.expenses, (x: Expense) => x.paidById != m);
    if e in DeleteMember(st, m).store.expenses {
      StripMemberOrigin(paid, m, e);
    }
  }

  /** The cascade keeps referential integrity and non-empty participant lists. */
  lemma DeleteMemberKeepsIntegrity(st: Store, m: Id)
    requires WellFormed(st)
    ensures WellFormed(DeleteMember(st, m).store)
    ensures SplitsNonEmpty(st.expenses) ==> SplitsNonEmpty(DeleteMember(st, m).store.expenses)
  {
    var r := DeleteMember(st, m).store;
    forall e | e in r.expenses
      ensures e.groupId in GroupIds(r.groups)
      ensures e.paidById in MemberIds(r.members)
      ensures forall p :: p in e.splitBetweenIds ==> p in MemberIds(r.members)
    {
      DeleteMemberRewritesSplits(st, m, e);
      var e0 :| e0 in st.expenses && e0.paidById != m && e == Stripped(e0, m);
      StillMember(st, r, m, e0.paidById);
      forall p | p in e.splitBetweenIds ensures p in MemberIds(r.members) {
        StillMember(st, r, m, p);
      }
    }
    forall s | s in r.settlements
      ensures s.fromId in MemberIds(r.members) && s.toId in MemberIds(r.members)
    {
      StillMember(st, r, m, s.fromId);
      StillMember(st, r, m, s.toId);
    }
  }

  /** The cascade keeps every reference inside its group. */
  lemma DeleteMemberKeepsScoping(st: Store, m: Id)
    requires Scoped(st)
    ensures Scoped(DeleteMember(st, m).store)
  {
    var r := DeleteMember(st, m).store;
    forall e | e in r.expenses
      ensures MemberOf(r, e.paidById, e.groupId)
      ensures forall p :: p in e.splitBetweenIds ==> MemberOf(r, p, e.groupId)
    {
      DeleteMemberRewritesSplits(st, m, e);
      var e0 :| e0 in st.expenses && e0.paidById != m && e == Stripped(e0, m);
      StillMemberOf(st, r, m, e0.paidById, e0.groupId);
      forall p | p in e.splitBetweenIds ensures MemberOf(r, p, e.groupId) {
        StillMemberOf(st, r, m, p, e0.groupId);
      }
    }
    forall s | s in r.settlements
      ensures MemberOf(r, s.fromId, s.groupId) && MemberOf(r, s.toId, s.groupId)
    {
      StillMemberOf(st, r, m, s.fromId, s.groupId);
      StillMemberOf(st, r, m, s.toId, s.groupId);
    }
  }

  lemma StillMember(st: Store, r: Store, m: Id, id: Id)
    requires id != m && id in MemberIds(st.members)
    requires forall x :: x in r.members <==> x in st.members && x.id != m
    ensures id in MemberIds(r.members)
  {
    var x :| x in st.members && x.id == id;
    assert x in r.members;
  }

  lemma StillMemberOf(st: Store, r: Store, m: Id, id: Id, gid: Id)
    requires id != m && MemberOf(st, id, gid)
    requires forall x :: x in r.members <==> x in st.members && x.id != m
    ensures MemberOf(r, id, gid)
  {
    var x :| x in st.members && x.id == id && x.groupId == gid;
    assert x in r.members;
  }

  /** Deleting a member a second time changes nothing and answers 500. */
  lemma DeleteMemberTwice(st: Store, m: Id)
    ensures var once := DeleteMember(st, m).store;
      DeleteMember(once, m) == Outcome(once, ServerError)
  {
    var once := DeleteMember(st, m).store;
    FilterAll(once.settlements, (s: Settlement) => s.fromId != m && s.toId != m);
    FilterAll(once.expenses, (e: Expense) => e.paidById != m);
    StripAbsent(once.expenses, m);
  }

  lemma {:induction false} StripAbsent(es: seq<Expense>, m: Id)
    requires forall i :: 0 <= i < |es| ==> m !in es[i].splitBetweenIds
    ensures StripMember(es, m) == es
  {
    if |es| > 0 {
      StripAbsent(es[1..], m);
      assert es == [es[0]] + es[1..];
    }
  }

  // ---------------------------------------------------------------------------
  // deleteGroup

  /** `deleteGroup`: 404 for an unknown group, 403 for a group of another user,
      otherwise the group's settlements, expenses and members, then the group. */
  function DeleteGroup(st: Store, gid: Id, userId: Id): (r: Outcome)
    ensures r.status == NotFound <==> gid !in GroupIds(st.groups)
    ensures r.status == Forbidden <==>
      exists g :: g in st.groups && g.id == gid && g == FindGroup(st.groups, gid).value && g.userId != userId
    ensures r.status == NotFound || r.status == Forbidden || r.status == Ok
    ensures r.status != Ok ==> r.store == st
    ensures r.status == Ok ==>
      && FindGroup(st.groups, gid).Some? && FindGroup(st.groups, gid).value.userId == userId
      && (forall g :: g in r.store.groups <==> g in st.groups && g.id != gid)
      && (forall x :: x in r.store.members <==> x in st.members && x.groupId != gid)
      && (forall e :: e in r.store.expenses <==> e in st.expenses && e.groupId != gid)
      && (forall s :: s in r.store.settlements <==> s in st.settlements && s.groupId != gid)
  {
    match FindGroup(st.groups, gid)
    case None => Outcome(st, NotFound)
    case Some(g) =>
      if g.userId != userId then Outcome(st, Forbidden)
      else
        Outcome(Store(
          Filter(st.groups, (x: Group) => x.id != gid),
          Filter(st.members, (x: Member) => x.groupId != gid),
          Filter(st.expenses, (e: Expense) => e.groupId != gid),
          Filter(st.settlements, (s: Settlement) => s.groupId != gid)), Ok)
  }

  /** On a store whose references stay inside their groups, deleting a group
      leaves no dangling reference. */
  lemma DeleteGroupKeepsIntegrity(st: Store, gid: Id, userId: Id)
    requires WellFormed(st) && Scoped(st)
    ensures WellFormed(DeleteGroup(st, gid, userId).store)
    ensures Scoped(DeleteGroup(st, gid, userId).store)
  {
    var out := DeleteGroup(st, gid, userId);
    var r := out.store;
    if out.status == Ok {
      forall x | x in r.members ensures x.groupId in GroupIds(r.groups) {
        KeptGroup(st, r, gid, x.groupId);
      }
      forall e | e in r.expenses
        ensures e.groupId in GroupIds(r.groups)
        ensures e.paidById in MemberIds(r.members) && MemberOf(r, e.paidById, e.groupId)
        ensures forall p :: p in e.splitBetweenIds ==> p in MemberIds(r.members) && MemberOf(r, p, e.groupId)
      {
        KeptGroup(st, r, gid, e.groupId);
        KeptMember(st, r, gid, e.paidById, e.groupId);
        forall p | p in e.splitBetweenIds ensures p in MemberIds(r.members) && MemberOf(r, p, e.groupId) {
          KeptMember(st, r, gid, p, e.groupId);
        }
      }
      forall s | s in r.settlements
        ensures s.groupId in GroupIds(r.groups)
        ensures s.fromId in MemberIds(r.members) && MemberOf(r, s.fromId, s.groupId)
        ensures s.toId in MemberIds(r.members) && MemberOf(r, s.toId, s.groupId)
      {
        KeptGroup(st, r, gid, s.groupId);
        KeptMember(st, r, gid, s.fromId, s.groupId);
        KeptMember(st, r, gid, s.toId, s.groupId);
      }
    }
  }

  lemma KeptGroup(st: Store, r: Store, gid: Id, id: Id)
    requires id != gid && id in GroupIds(st.groups)
    requires forall g :: g in r.groups <==> g in st.groups && g.id != gid
    ensures id in GroupIds(r.groups)
  {
    var g :| g in st.groups && g.id == id;
    assert g in r.groups;
  }

  lemma KeptMember(st: Store, r: Store, gid: Id, id: Id, owner: Id)
    requires owner != gid && MemberOf(st, id, owner)
    requires forall x :: x in r.members <==> x in st.members && x.groupId != gid
    ensures id in MemberIds(r.members) && MemberOf(r, id, owner)
  {
    var x :| x in st.members && x.id == id && x.groupId == owner;
    assert x in r.members;
  }

  /** Once deleted, the group is gone: a second request answers 404. */
  lemma DeleteGroupTwice(st: Store, gid: Id, userId: Id)
    requires DeleteGroup(st, gid, userId).status == Ok
    ensures DeleteGroup(DeleteGroup(st, gid, userId).store, gid, userId).status == NotFound
  {
  }

  // ---------------------------------------------------------------------------
  // getGroups

  /** A group as `getGroups` returns it: the record with its expense total. */
  datatype GroupWithTotal = GroupWithTotal(group: Group, totalExpenses: real)

  /** `orderBy: { createdAt: 'desc' }`. */
  predicate NewestFirst(a: Group, b: Group) {
    a.createdAt >= b.createdAt
  }

  lemma NewestFirstIsTotalPreorder()
    ensures TotalPreorder(NewestFirst)
  {
  }

  function WithTotals(gs: seq<Group>, expenses: seq<Expense>): (r: seq<GroupWithTotal>)
    ensures |r| == |gs|
    ensures forall i :: 0 <= i < |gs| ==> r[i].group == gs[i]
    ensures forall i :: 0 <= i < |gs| ==> r[i].totalExpenses == SumAmounts(ExpensesOf(expenses, gs[i].id))
  {
    if |gs| == 0 then []
    else [GroupWithTotal(gs[0], SumAmounts(ExpensesOf(expenses, gs[0].id)))] + WithTotals(gs[1..], expenses)
  }

  /** `prisma.group.findMany({ where: { userId } })`, in store order. */
  function Owned(st: Store, userId: Id): seq<Group> {
    Filter(st.groups, (g: Group) => g.userId == userId)
  }

  /** `getGroups`: the caller's groups, newest first, each with the sum of its
      expense amounts. */
  function GetGroups(st: Store, userId: Id): (r: seq<GroupWithTotal>)
    ensures forall i :: 0 <= i < |r| ==> r[i].group in st.groups && r[i].group.userId == userId
    ensures |r| == |Owned(st, userId)|
    ensures forall i, j :: 0 <= i < j < |r| ==> r[i].group.createdAt >= r[j].group.createdAt
    ensures forall i :: 0 <= i < |r| ==> r[i].totalExpenses == SumAmounts(ExpensesOf(st.expenses, r[i].group.id))
  {
    var owned := Owned(st, userId);
    var sorted := ByNewest(owned);
    SubMultisetMembers(sorted, owned);
    var r := WithTotals(sorted, st.expenses);
    forall i | 0 <= i < |r| ensures r[i].group in st.groups && r[i].group.userId == userId {
      assert r[i].group == sorted[i] && sorted[i] in owned;
    }
    r
  }

  /** `orderBy: { createdAt: 'desc' }`, keeping store order among equal stamps. */
  function ByNewest(gs: seq<Group>): (r: seq<Group>)
    ensures multiset(r) == multiset(gs)
    ensures |r| == |gs|
    ensures forall i, j :: 0 <= i < j < |r| ==> r[i].createdAt >= r[j].createdAt
  {
    NewestFirstIsTotalPreorder();
    var sorted := SortBy(gs, NewestFirst);
    assert forall i, j :: 0 <= i < j < |sorted| ==> NewestFirst(sorted[i], sorted[j]);
    sorted
  }

  /** Every group of the caller is listed. */
  lemma GetGroupsListsEveryOwnedGroup(st: Store, userId: Id, g: Group)
    requires g in st.groups && g.userId == userId
    ensures exists i :: 0 <= i < |GetGroups(st, userId)| && GetGroups(st, userId)[i].group == g
  {
    var owned := Owned(st, userId);
    var sorted := ByNewest(owned);
    assert g in multiset(owned);
    var i :| 0 <= i < |sorted| && sorted[i] == g;
    assert GetGroups(st, userId) == WithTotals(sorted, st.expenses);
    assert GetGroups(st, userId)[i].group == g;
  }

  // ---------------------------------------------------------------------------
  // getAnalytics: spending per group, top five

  datatype GroupSpending = GroupSpending(id: Id, name: string, value: real)

  /** The comparator `(a, b) => b.value - a.value`, as an order relation. */
  predicate HigherFirst(a: GroupSpending, b: GroupSpending) {
    b.value - a.value <= 0.0
  }

  lemma HigherFirstIsTotalPreorder()
    ensures TotalPreorder(HigherFirst)
  {
  }

  /** `groupSpending.sort((a, b) => b.value - a.value)`. */
  function ByValueDescending(spending: seq<GroupSpending>): (r: seq<GroupSpending>)
    ensures multiset(r) == multiset(spending)
    ensures forall i, j :: 0 <= i < j < |r| ==> r[i].value >= r[j].value
  {
    HigherFirstIsTotalPreorder();
    var sorted := SortBy(spending, HigherFirst);
    assert forall i, j :: 0 <= i < j < |sorted| ==> HigherFirst(sorted[i], sorted[j]);
    sorted
  }

  /** A prefix of a list sorted by value is sorted, comes from the list, and
      whatever it leaves out is worth no more than anything in it. */
  lemma PrefixDominates(s: seq<GroupSpending>, k: nat)
    requires k <= |s|
    requires forall i, j :: 0 <= i < j < |s| ==> s[i].value >= s[j].value
    ensures multiset(s[..k]) <= multiset(s)
    ensures forall x, y :: x in multiset(s) - multiset(s[..k]) && y in s[..k] ==> x.value <= y.value
  {
    var front, back := s[..k], s[k..];
    assert s == front + back;
    assert multiset(s) == multiset(front) + multiset(back);
    assert multiset(s) - multiset(front) == multiset(back);
    forall x, y | x in multiset(s) - multiset(front) && y in front ensures x.value <= y.value {
      assert x in back;
      var j :| 0 <= j < |back| && back[j] == x;
      var i :| 0 <= i < |front| && front[i] == y;
      assert s[i] == y && s[k + j] == x;
    }
  }

  /** `.slice(0, 5)` of the sorted list. */
  function TopGroups(spending: seq<GroupSpending>): (r: seq<GroupSpending>)
    ensures |r| == if |spending| < 5 then |spending| else 5
    ensures forall i, j :: 0 <= i < j < |r| ==> r[i].value >= r[j].value
    ensures multiset(r) <= multiset(spending)
    ensures forall x :: x in r ==> x in spending
    ensures forall x, y :: x in multiset(spending) - multiset(r) && y in r ==> x.value <= y.value
  {
    var sorted := ByValueDescending(spending);
    var k := if |sorted| < 5 then |sorted| else 5;
    PrefixDominates(sorted, k);
    SubMultisetMembers(sorted[..k], spending);
    sorted[..k]
  }

  /** The spending entry of one group. */
  function SpendingOf(expenses: seq<Expense>, g: Group): GroupSpending {
    GroupSpending(g.id, g.name, SumAmounts(ExpensesOf(expenses, g.id)))
  }

  /** The caller's groups, in store order, with their expense totals. */
  function Spending(st: Store, userId: Id): (r: seq<GroupSpending>)
    ensures |r| == |Owned(st, userId)|
    ensures forall i :: 0 <= i < |r| ==> r[i] == SpendingOf(st.expenses, Owned(st, userId)[i])
    ensures forall i :: 0 <= i < |r| ==>
      exists g :: g in st.groups && g.userId == userId && r[i] == SpendingOf(st.expenses, g)
  {
    var owned := Owned(st, userId);
    var r := SpendingOfAll(st.expenses, owned);
    forall i | 0 <= i < |r|
      ensures exists g :: g in st.groups && g.userId == userId && r[i] == SpendingOf(st.expenses, g)
    {
      assert owned[i] in owned;
      assert r[i] == SpendingOf(st.expenses, owned[i]);
    }
    r
  }

  /** `userGroups.map(...)`: one spending entry per group, in order. */
  function SpendingOfAll(expenses: seq<Expense>, gs: seq<Group>): (r: seq<GroupSpending>)
    ensures |r| == |gs|
    ensures forall i :: 0 <= i < |gs| ==> r[i] == SpendingOf(expenses, gs[i])
  {
    if |gs| == 0 then [] else [SpendingOf(expenses, gs[0])] + SpendingOfAll(expenses, gs[1..])
  }

  /** The dashboard's top-five list: the caller's five largest group totals. */
  function TopSpending(st: Store, userId: Id): (r: seq<GroupSpending>)
    ensures |r| == if |Owned(st, userId)| < 5 then |Owned(st, userId)| else 5
    ensures forall i, j :: 0 <= i < j < |r| ==> r[i].value >= r[j].value
    ensures multiset(r) <= multiset(Spending(st, userId))
    ensures forall x, y :: x in multiset(Spending(st, userId)) - multiset(r) && y in r ==> x.value <= y.value
  {
    TopGroups(Spending(st, userId))
  }

  /** Every entry of the top-five list is the spending of one of the caller's groups. */
  lemma TopSpendingFromOwnedGroups(st: Store, userId: Id, x: GroupSpending)
    requires x in TopSpending(st, userId)
    ensures exists g :: g in st.groups && g.userId == userId && x == SpendingOf(st.expenses, g)
  {
    var all := Spending(st, userId);
    assert x in multiset(TopSpending(st, userId));
    assert x in all;
    var i :| 0 <= i < |all| && all[i] == x;
    var g := Owned(st, userId)[i];
    assert g in Owned(st, userId) && x == SpendingOf(st.expenses, g);
  }
}
