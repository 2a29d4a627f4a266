/** The group list page (frontend/src/pages/GroupsList.jsx,
    `filterAndSortGroups` and the sort-order button): the groups the backend
    returned, narrowed by a name search, a minimum total and a creation-date
    range, then sorted by name or by total in the chosen direction. */
module GroupsList {
  import opened Options
  import opened Seqs
  import opened Sorting

  /** A group as the list endpoint returns it; `createdAt` is in milliseconds
      since the epoch and `totalExpenses` may be absent. */
  datatype GroupCard = GroupCard(id: string, name: string, totalExpenses: Option<real>, createdAt: int)

  /** The minimum-total input: empty, a number, or text `parseFloat` reads as NaN. */
  datatype MinExpense = NoMinimum | AtLeast(minimum: real) | NotANumber

  /** The filter inputs. `query` is the search text ("" when empty); a date is
      the instant `new Date("YYYY-MM-DD")` gives, midnight UTC of that day. */
  datatype Filters = Filters(query: string, minExpense: MinExpense, dateFrom: Option<int>, dateTo: Option<int>)

  const NoFilters := Filters("", NoMinimum, None, None)

  datatype SortKey = ByName | ByExpense

  datatype SortOrder = Asc | Desc

  /** Milliseconds from midnight to 23:59:59.999 of the same day. */
  const EndOfDay: int := 86_399_999

  // Case-insensitive search.

  function LowerChar(c: char): char {
    if 'A' <= c <= 'Z' then (c as int + 32) as char else c
  }

  /** `toLowerCase()` on the ASCII letters. */
  function Lower(s: string): (r: string)
    ensures |r| == |s|
    ensures forall i :: 0 <= i < |r| ==> !('A' <= r[i] <= 'Z')
    ensures forall i :: 0 <= i < |s| && !('A' <= s[i] <= 'Z') ==> r[i] == s[i]
    ensures forall i :: 0 <= i < |s| && 'A' <= s[i] <= 'Z' ==> r[i] as int == s[i] as int + 32
  {
    seq(|s|, i requires 0 <= i < |s| => LowerChar(s[i]))
  }

  function UpperChar(c: char): char {
    if 'a' <= c <= 'z' then (c as int - 32) as char else c
  }

  /** `toUpperCase()` on the ASCII letters. */
  function Upper(s: string): (r: string)
    ensures |r| == |s|
    ensures forall i :: 0 <= i < |r| ==> !('a' <= r[i] <= 'z')
    ensures forall i :: 0 <= i < |s| && !('a' <= s[i] <= 'z') ==> r[i] == s[i]
    ensures forall i :: 0 <= i < |s| && 'a' <= s[i] <= 'z' ==> r[i] as int == s[i] as int - 32
  {
    seq(|s|, i requires 0 <= i < |s| => UpperChar(s[i]))
  }

  /** Lower-casing forgets the case the text had. */
  lemma LowerForgetsCase(s: string)
    ensures Lower(Upper(s)) == Lower(s)
    ensures Lower(Lower(s)) == Lower(s)
  {
    assert forall i :: 0 <= i < |s| ==> LowerChar(UpperChar(s[i])) == LowerChar(s[i]);
  }

  /** `hay.includes(needle)`, scanning start positions left to right. */
  function Contains(hay: string, needle: string): bool
    decreases |hay|
  {
    needle <= hay || (|hay| > 0 && Contains(hay[1..], needle))
  }

  /** `needle` occurs in `hay` starting at position `i`. */
  predicate OccursAt(hay: string, needle: string, i: int) {
    0 <= i && i + |needle| <= |hay| && hay[i..i + |needle|] == needle
  }

  /** `Contains` finds exactly the substrings. */
  lemma {:induction false} ContainsIsSubstring(hay: string, needle: string)
    ensures Contains(hay, needle) <==> exists i :: OccursAt(hay, needle, i)
  {
    if needle <= hay {
      assert OccursAt(hay, needle, 0);
    } else if |hay| > 0 {
      ContainsIsSubstring(hay[1..], needle);
      if Contains(hay[1..], needle) {
        var i :| OccursAt(hay[1..], needle, i);
        assert hay[i + 1..i + 1 + |needle|] == hay[1..][i..i + |needle|];
        assert OccursAt(hay, needle, i + 1);
      }
      if exists i :: OccursAt(hay, needle, i) {
        var i :| OccursAt(hay, needle, i);
        assert hay[1..][i - 1..i - 1 + |needle|] == hay[i..i + |needle|];
        assert OccursAt(hay[1..], needle, i - 1);
      }
    }
  }

  predicate MatchesQuery(query: string, g: GroupCard) {
    Contains(Lower(g.name), Lower(query))
  }

  /** The search ignores the case of the query. */
  lemma SearchIgnoresCase(query: string, g: GroupCard)
    ensures MatchesQuery(Upper(query), g) == MatchesQuery(query, g)
    ensures MatchesQuery(Lower(query), g) == MatchesQuery(query, g)
  {
    LowerForgetsCase(query);
  }

  /** An empty query matches every name, so skipping the search when the
      query is empty changes nothing. */
  lemma EmptyQueryMatchesAll(g: GroupCard)
    ensures MatchesQuery("", g)
  {
    assert Lower("") <= Lower(g.name);
  }

  // The four filters, each applied only when its input is given.

  /** `group.totalExpenses || 0`. */
  function TotalOrZero(g: GroupCard): real {
    g.totalExpenses.GetOr(0.0)
  }

  predicate KeepForQuery(query: string, g: GroupCard) {
    query == "" || MatchesQuery(query, g)
  }

  predicate KeepForMinimum(m: MinExpense, g: GroupCard) {
    match m
    case NoMinimum => true
    case AtLeast(v) => TotalOrZero(g) >= v
    case NotANumber => false
  }

  predicate KeepForFrom(from: Option<int>, g: GroupCard) {
    from.None? || g.createdAt >= from.value
  }

  predicate KeepForTo(to: Option<int>, g: GroupCard) {
    to.None? || g.createdAt <= to.value + EndOfDay
  }

  /** A group passes when it passes every active filter. */
  predicate Passes(f: Filters, g: GroupCard) {
    KeepForQuery(f.query, g) && KeepForMinimum(f.minExpense, g)
    && KeepForFrom(f.dateFrom, g) && KeepForTo(f.dateTo, g)
  }

  function Passing(f: Filters): GroupCard -> bool {
    g => Passes(f, g)
  }

  function SearchStep(gs: seq<GroupCard>, query: string): (r: seq<GroupCard>)
    ensures r == Filter(gs, g => KeepForQuery(query, g))
  {
    if query == "" then FilterAll(gs, g => KeepForQuery(query, g)); gs
    else
      var r := Filter(gs, g => MatchesQuery(query, g));
      FilterSame(gs, g => MatchesQuery(query, g), g => KeepForQuery(query, g));
      r
  }

  function MinimumStep(gs: seq<GroupCard>, m: MinExpense): (r: seq<GroupCard>)
    ensures r == Filter(gs, g => KeepForMinimum(m, g))
  {
    match m
    case NoMinimum => FilterAll(gs, g => KeepForMinimum(m, g)); gs
    case AtLeast(v) =>
      var r := Filter(gs, g => TotalOrZero(g) >= v);
      FilterSame(gs, g => TotalOrZero(g) >= v, g => KeepForMinimum(m, g));
      r
    case NotANumber =>
      var r := Filter(gs, g => false);
      FilterSame(gs, g => false, g => KeepForMinimum(m, g));
      r
  }

  function FromStep(gs: seq<GroupCard>, from: Option<int>): (r: seq<GroupCard>)
    ensures r == Filter(gs, g => KeepForFrom(from, g))
  {
    if from.None? then FilterAll(gs, g => KeepForFrom(from, g)); gs
    else
      var r := Filter(gs, (g: GroupCard) => g.createdAt >= from.value);
      FilterSame(gs, (g: GroupCard) => g.createdAt >= from.value, g => KeepForFrom(from, g));
      r
  }

  function ToStep(gs: seq<GroupCard>, to: Option<int>): (r: seq<GroupCard>)
    ensures r == Filter(gs, g => KeepForTo(to, g))
  {
    if to.None? then FilterAll(gs, g => KeepForTo(to, g)); gs
    else
      var toDate := to.value + EndOfDay;
      var r := Filter(gs, (g: GroupCard) => g.createdAt <= toDate);
      FilterSame(gs, (g: GroupCard) => g.createdAt <= toDate, g => KeepForTo(to, g));
      r
  }

  /** The filters in the order the page applies them. */
  function Filtered(gs: seq<GroupCard>, f: Filters): seq<GroupCard> {
    ToStep(FromStep(MinimumStep(SearchStep(gs, f.query), f.minExpense), f.dateFrom), f.dateTo)
  }

  /** The chain of filters is one filter by the conjunction of the four
      conditions: it keeps exactly the passing groups, in input order. */
  lemma FilterChainIsOneFilter(gs: seq<GroupCard>, f: Filters)
    ensures Filtered(gs, f) == Filter(gs, Passing(f))
  {
    FilterFour(gs, g => KeepForQuery(f.query, g), g => KeepForMinimum(f.minExpense, g),
               g => KeepForFrom(f.dateFrom, g), g => KeepForTo(f.dateTo, g), Passing(f));
  }

  // Sorting.

  /** `a.localeCompare(b) <= 0`, modelled as lexicographic order on characters. */
  predicate NameLe(a: string, b: string) {
    |a| == 0 || (|b| > 0 && (a[0] < b[0] || (a[0] == b[0] && NameLe(a[1..], b[1..]))))
  }

  lemma {:induction false} NameLeTotal(a: string, b: string)
    ensures NameLe(a, b) || NameLe(b, a)
  {
    if |a| > 0 && |b| > 0 && a[0] == b[0] {
      NameLeTotal(a[1..], b[1..]);
    }
  }

  lemma {:induction false} NameLeTransitive(a: string, b: string, c: string)
    requires NameLe(a, b) && NameLe(b, c)
    ensures NameLe(a, c)
  {
    if |a| > 0 && |b| > 0 && |c| > 0 && a[0] == b[0] && b[0] == c[0] {
      NameLeTransitive(a[1..], b[1..], c[1..]);
    }
  }

  /** Two names that are each no greater than the other are the same name. */
  lemma {:induction false} NameLeAntisymmetric(a: string, b: string)
    requires NameLe(a, b) && NameLe(b, a)
    ensures a == b
  {
    if |a| > 0 && |b| > 0 {
      NameLeAntisymmetric(a[1..], b[1..]);
      assert a == [a[0]] + a[1..] && b == [b[0]] + b[1..];
    }
  }

  /** `a` may stay before `b`: the comparator of the sort returns at most 0. */
  predicate InOrder(key: SortKey, order: SortOrder, a: GroupCard, b: GroupCard) {
    match (key, order)
    case (ByName, Asc) => NameLe(a.name, b.name)
    case (ByName, Desc) => NameLe(b.name, a.name)
    case (ByExpense, Asc) => TotalOrZero(a) - TotalOrZero(b) <= 0.0
    case (ByExpense, Desc) => TotalOrZero(b) - TotalOrZero(a) <= 0.0
  }

  function Comparator(key: SortKey, order: SortOrder): (GroupCard, GroupCard) -> bool {
    (a, b) => InOrder(key, order, a, b)
  }

  lemma ComparatorIsTotalPreorder(key: SortKey, order: SortOrder)
    ensures TotalPreorder(Comparator(key, order))
  {
    var le := Comparator(key, order);
    forall a, b ensures le(a, b) || le(b, a) {
      NameLeTotal(a.name, b.name);
    }
    forall a, b, c | le(a, b) && le(b, c) ensures le(a, c) {
      if key == ByName {
        if order == Asc {
          NameLeTransitive(a.name, b.name, c.name);
        } else {
          NameLeTransitive(c.name, b.name, a.name);
        }
      }
    }
  }

  /** The button: "asc" becomes "desc" and back. */
  function ToggleOrder(order: SortOrder): (r: SortOrder)
    ensures r != order
  {
    if order == Asc then Desc else Asc
  }

  /** Flipping the direction reverses the order of any two groups, and two
      flips restore the direction. */
  lemma ToggleReverses(key: SortKey, order: SortOrder, a: GroupCard, b: GroupCard)
    ensures InOrder(key, ToggleOrder(order), a, b) == InOrder(key, order, b, a)
    ensures ToggleOrder(ToggleOrder(order)) == order
  {
  }

  lemma SameMembers(a: seq<GroupCard>, b: seq<GroupCard>)
    requires multiset(a) == multiset(b)
    ensures forall g :: g in a <==> g in b
  {
    forall g ensures g in a <==> g in b {
      assert g in a <==> g in multiset(a);
      assert g in b <==> g in multiset(b);
    }
  }

  /** `filterAndSortGroups`: the passing groups, sorted. */
  function FilterAndSortGroups(groups: seq<GroupCard>, f: Filters, key: SortKey, order: SortOrder): (r: seq<GroupCard>)
    ensures multiset(r) == multiset(Filter(groups, Passing(f)))
    ensures forall g :: g in r <==> g in groups && Passes(f, g)
    ensures forall i, j :: 0 <= i < j < |r| ==> InOrder(key, order, r[i], r[j])
  {
    FilterChainIsOneFilter(groups, f);
    ComparatorIsTotalPreorder(key, order);
    var r := SortBy(Filtered(groups, f), Comparator(key, order));
    assert forall i, j :: 0 <= i < j < |r| ==> Comparator(key, order)(r[i], r[j]);
    SameMembers(r, Filtered(groups, f));
    r
  }

  /** No group is duplicated: each passing group appears as often as in the
      input, and a failing group not at all. */
  lemma FilterAndSortKeepsMultiplicity(groups: seq<GroupCard>, f: Filters, key: SortKey, order: SortOrder, g: GroupCard)
    ensures multiset(FilterAndSortGroups(groups, f, key, order))[g] == if Passes(f, g) then multiset(groups)[g] else 0
  {
    FilterMultiset(groups, Passing(f), g);
  }

  /** Every shown group meets every active filter: its lower-cased name holds
      the lower-cased query, its total (absent read as 0) reaches the minimum,
      and it was created within the date range; a minimum that is not a
      number shows nothing. */
  lemma ShownGroupsMeetFilters(groups: seq<GroupCard>, f: Filters, key: SortKey, order: SortOrder, g: GroupCard)
    requires g in FilterAndSortGroups(groups, f, key, order)
    ensures f.query != "" ==> exists i :: OccursAt(Lower(g.name), Lower(f.query), i)
    ensures f.minExpense.AtLeast? ==> TotalOrZero(g) >= f.minExpense.minimum
    ensures !f.minExpense.NotANumber?
    ensures f.dateFrom.Some? ==> g.createdAt >= f.dateFrom.value
    ensures f.dateTo.Some? ==> g.createdAt <= f.dateTo.value + EndOfDay
  {
    ContainsIsSubstring(Lower(g.name), Lower(f.query));
  }

  /** Both ends of the date range are inclusive: choosing the same day as
      "from" and "to" shows exactly the groups created from midnight to
      23:59:59.999 of that day. */
  lemma OneDayRangeShowsThatDay(groups: seq<GroupCard>, key: SortKey, order: SortOrder, day: int, g: GroupCard)
    requires g in groups
    ensures g in FilterAndSortGroups(groups, Filters("", NoMinimum, Some(day), Some(day)), key, order)
            <==> day <= g.createdAt <= day + EndOfDay
  {
  }

  /** Sorting in the toggled direction puts any two shown groups the other
      way round, and toggling twice gives back the same list. */
  lemma ToggledOrderReverses(groups: seq<GroupCard>, f: Filters, key: SortKey, order: SortOrder)
    ensures var r := FilterAndSortGroups(groups, f, key, ToggleOrder(order));
            forall i, j :: 0 <= i < j < |r| ==> InOrder(key, order, r[j], r[i])
    ensures FilterAndSortGroups(groups, f, key, ToggleOrder(ToggleOrder(order))) ==
            FilterAndSortGroups(groups, f, key, order)
  {
    var r := FilterAndSortGroups(groups, f, key, ToggleOrder(order));
    forall i, j | 0 <= i < j < |r| ensures InOrder(key, order, r[j], r[i]) {
      ToggleReverses(key, order, r[i], r[j]);
    }
  }

  /** With every filter empty the page shows all the groups, reordered. */
  lemma NoFiltersShowsAll(groups: seq<GroupCard>, key: SortKey, order: SortOrder)
    ensures multiset(FilterAndSortGroups(groups, NoFilters, key, order)) == multiset(groups)
  {
    FilterAll(groups, Passing(NoFilters));
  }
}
