/** The records the group controller reads and writes
    (backend/src/controllers/groupController.js), held as an in-memory store
    of record sequences in place of the database, and the HTTP statuses the
    controller answers with. */
module Store {
  import opened Options
  import opened Seqs

  type Id = string

  datatype Group = Group(id: Id, name: string, budget: Option<real>, userId: Id, createdAt: int)

  datatype Member = Member(id: Id, name: string, groupId: Id)

  /** `category` is "" when the record has none; `day` is the calendar-day key
      that `new Date(date).toDateString()` yields for the expense's date. */
  datatype Expense = Expense(id: Id, description: string, amount: real, category: string,
                             groupId: Id, paidById: Id, splitBetweenIds: seq<Id>, day: string)

  datatype Settlement = Settlement(id: Id, fromId: Id, toId: Id, amount: real, groupId: Id)

  datatype Store = Store(groups: seq<Group>, members: seq<Member>,
                         expenses: seq<Expense>, settlements: seq<Settlement>)

  datatype Status = Ok | Created | BadRequest | Forbidden | NotFound | ServerError
  {
    function Code(): int {
      match this
      case Ok => 200
      case Created => 201
      case BadRequest => 400
      case Forbidden => 403
      case NotFound => 404
      case ServerError => 500
    }
  }

  /** The store after a request, and the status the request is answered with. */
  datatype Outcome = Outcome(store: Store, status: Status)

  function GroupIds(gs: seq<Group>): (ids: seq<Id>)
    ensures forall g :: g in gs ==> g.id in ids
    ensures forall id :: id in ids ==> exists g :: g in gs && g.id == id
  {
    if |gs| == 0 then [] else [gs[0].id] + GroupIds(gs[1..])
  }

  function MemberIds(ms: seq<Member>): (ids: seq<Id>)
    ensures forall m :: m in ms ==> m.id in ids
    ensures forall id :: id in ids ==> exists m :: m in ms && m.id == id
  {
    if |ms| == 0 then [] else [ms[0].id] + MemberIds(ms[1..])
  }

  /** A member record with this id belongs to group `gid`. */
  ghost predicate MemberOf(st: Store, id: Id, gid: Id) {
    exists m :: m in st.members && m.id == id && m.groupId == gid
  }

  /** Referential integrity: every member, payer, participant, settlement party
      and owning group an id refers to exists. */
  ghost predicate WellFormed(st: Store) {
    && (forall m :: m in st.members ==> m.groupId in GroupIds(st.groups))
    && (forall e :: e in st.expenses ==>
          && e.groupId in GroupIds(st.groups)
          && e.paidById in MemberIds(st.members)
          && (forall p :: p in e.splitBetweenIds ==> p in MemberIds(st.members)))
    && (forall s :: s in st.settlements ==>
          && s.groupId in GroupIds(st.groups)
          && s.fromId in MemberIds(st.members)
          && s.toId in MemberIds(st.members))
  }

  /** Group-scoped references: every payer, participant and settlement party is
      a member of the group that owns the expense or settlement. */
  ghost predicate Scoped(st: Store) {
    && (forall e :: e in st.expenses ==>
          && MemberOf(st, e.paidById, e.groupId)
          && (forall p :: p in e.splitBetweenIds ==> MemberOf(st, p, e.groupId)))
    && (forall s :: s in st.settlements ==>
          && MemberOf(st, s.fromId, s.groupId)
          && MemberOf(st, s.toId, s.groupId))
  }

  /** Every expense has at least one participant. */
  ghost predicate SplitsNonEmpty(expenses: seq<Expense>) {
    forall e :: e in expenses ==> |e.splitBetweenIds| > 0
  }

  /** `findUnique({ where: { id } })` on the groups. */
  function FindGroup(gs: seq<Group>, id: Id): (r: Option<Group>)
    ensures r.None? <==> id !in GroupIds(gs)
    ensures r.Some? ==> r.value in gs && r.value.id == id
  {
    if |gs| == 0 then None
    else if gs[0].id == id then Some(gs[0])
    else FindGroup(gs[1..], id)
  }

  /** The amounts of `expenses` added up in order. */
  function SumAmounts(expenses: seq<Expense>): real {
    if |expenses| == 0 then 0.0 else expenses[0].amount + SumAmounts(expenses[1..])
  }

  /** The expenses of group `gid`, as `include: { expenses: true }` loads them. */
  function ExpensesOf(expenses: seq<Expense>, gid: Id): (r: seq<Expense>)
    ensures forall e :: e in r <==> e in expenses && e.groupId == gid
  {
    Filter(expenses, (e: Expense) => e.groupId == gid)
  }

  lemma {:induction false} SumAmountsAppend(a: seq<Expense>, b: seq<Expense>)
    ensures SumAmounts(a + b) == SumAmounts(a) + SumAmounts(b)
  {
    if |a| == 0 {
      assert a + b == b;
    } else {
      assert (a + b)[1..] == a[1..] + b;
      SumAmountsAppend(a[1..], b);
    }
  }
}
