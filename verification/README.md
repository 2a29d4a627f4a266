# Group expenses: settlements, deletion cascades, analytics and the group list

This project is a Dafny model of the core of a shared-expenses web application.
In the application, users own groups, add members, record expenses (each paid by
one member and split equally among several), and settle debts. The model covers
five areas:

- **Group-details page** (`frontend/src/pages/GroupDetails.jsx`):
  - `calculateSettlements`: each member's net balance, rounded to cents. Members are sorted into debtors and creditors beyond a 0.01 tolerance. A greedy two-index loop then pairs the current debtor with the current creditor.
  - `handleSettle`: marks a suggestion done and moves settled suggestions after open ones.
  - `toggleSplitMember`: the participant picker.
  - The page's total-expenses figure.
- **Group controller** (`backend/src/controllers/groupController.js`):
  - The group listing with per-group totals.
  - Request validation of the four create handlers.
  - The member-deletion cascade and the group-deletion cascade.
  - `getGroupAnalytics`: totals, average per active day, the highest day, the category breakdown sorted largest first, and the per-member paid/share/balance.
  - The top-five spending list of `getAnalytics`.
- **Group-list page** (`frontend/src/pages/GroupsList.jsx`):
  - `filterAndSortGroups`: name search, minimum total, inclusive date range, and a sort by name or total.
  - The button that flips the sort direction.

Modules follow the program's structure:

| module | what it models |
|---|---|
| `Balances` | the balance computation on the group-details page |
| `Money` | the page's cent rounding |
| `Settlement` | the settlement suggestions |
| `SettleMarking` | `handleSettle` |
| `SplitSelection` | `toggleSplitMember` |
| `Store` | the database records as sequences |
| `GroupController` | the request handlers |
| `Tallies` | the JavaScript idiom of accumulating totals in a plain object |
| `GroupAnalytics` | `getGroupAnalytics` |
| `GroupsList` | the group-list page |

`Seqs` and `Sorting` hold generic sequence helpers and a stable insertion sort.

How the model represents the program:

- Money is exact (`real`).
- JavaScript's `Math.round(x * 100) / 100` is written out as `Floor(100x + 0.5) / 100`.
- A plain object used as a map is a list of (key, total) buckets in order of first insertion.
- Database-generated ids and timestamps are parameters of the handlers.

Three behaviours of the code that the model keeps as written:

- **Malformed expenses are skipped.** `calculateSettlements` passes over an expense without payer or participants (`GroupDetails.jsx:166`); no error is raised. `Balances.SkippedExpensesChangeNothing` states what the skip means.
- **Average spend with no expenses is 0.** `avgDailySpend` starts at 0 and is computed only when there are expenses (`groupController.js:402-407`). Then at least one day is present, so the `: totalSpent` fallback at line 406 is never taken.
- **Member deletion is not scoped and has no not-found answer.** `deleteMember` ignores the group id. A missing member makes the final delete throw, so the answer is 500 after the earlier steps are applied (`groupController.js:197-248`).

The analytics endpoint does not reuse the page's balance routine either:
- it counts a member's share once per expense via `includes` (`groupController.js:442`);
- the page debits it once per listing (`GroupDetails.jsx:175-177`).

They agree when no participant is listed twice (`GroupAnalytics.StatAgreesWithPage`). `GroupAnalytics.DuplicateParticipantUnbalances` gives a concrete expense for which the analytics balances do not add to zero.

## Model

| member | source | states |
|---|---|---|
| SplitSelection.ToggleSplitMember | frontend/src/pages/GroupDetails.jsx:144-150 | the toggled member is selected exactly when it was not before; every other member keeps its state; a new member is appended at the end; removing a member keeps the others in their order |
| SplitSelection.ToggleKeepsNoDups | frontend/src/pages/GroupDetails.jsx:144-150 | a selection built by toggling never lists a member twice |
| SplitSelection.ToggleTwiceSameMembers | frontend/src/pages/GroupDetails.jsx:144-150 | toggling the same member twice selects the same members as before |
| SplitSelection.ToggleOnThenOff | frontend/src/pages/GroupDetails.jsx:144-150 | toggling an unselected member in and out restores the selection exactly |
| Balances.MemberIds | frontend/src/pages/GroupDetails.jsx:160-163 | one balance key per member, in member order |
| Balances.CountedOnly | frontend/src/pages/GroupDetails.jsx:165-166 | keeps exactly the expenses with a payer and at least one participant |
| Balances.SkippedExpensesChangeNothing | frontend/src/pages/GroupDetails.jsx:165-178 | every balance is the same whether or not the skipped expenses are present |
| Balances.SumShareOfCounted | frontend/src/pages/GroupDetails.jsx:168-177 | the equal shares of one expense, over a duplicate-free member list covering its participants, add up to its amount |
| Balances.PaidSumsToCountedTotal | frontend/src/pages/GroupDetails.jsx:165-172 | summed over all members, the credits are the total of the counted expenses |
| Balances.ShareSumsToCountedTotal | frontend/src/pages/GroupDetails.jsx:165-177 | summed over all members, the debits are also the total of the counted expenses |
| Balances.BalancesSumToZero | frontend/src/pages/GroupDetails.jsx:155-178 | when every payer and participant is a member, the members' balances add up to zero |
| Balances.TotalIsWhatMembersPaid | frontend/src/pages/GroupDetails.jsx:237 | the page's total equals what the members paid when no expense is skipped |
| Balances.CountedOnlyKeepsAllCounted | frontend/src/pages/GroupDetails.jsx:166 | when no expense is malformed, nothing is skipped |
| Money.Round2 | frontend/src/pages/GroupDetails.jsx:184 | the rounded value is a whole number of cents within half a cent of the input |
| Money.CentsNearZeroAreSettled | frontend/src/pages/GroupDetails.jsx:185-189 | a whole number of cents strictly between -0.02 and 0.02 is within the tolerance |
| Money.RoundingKeepsSettled | frontend/src/pages/GroupDetails.jsx:184-189 | a balance within the tolerance still is after rounding |
| Money.Min | frontend/src/pages/GroupDetails.jsx:202 | the result is one of the two arguments and no larger than either |
| Settlement.Partition | frontend/src/pages/GroupDetails.jsx:183-190 | debtors and creditors come from the member list, carry the rounded magnitude of the balance, and all exceed 0.01 |
| Settlement.PartitionKeepsOrder | frontend/src/pages/GroupDetails.jsx:183-190 | the debtors are exactly the members whose rounded balance is below -0.01, and the creditors those above 0.01, each list in member order |
| Settlement.PartitionClassifies | frontend/src/pages/GroupDetails.jsx:183-190 | a member is a debtor exactly when its rounded balance is below -0.01 and a creditor exactly when it is above 0.01 |
| Settlement.PartitionNoDups | frontend/src/pages/GroupDetails.jsx:183-190 | no member appears twice among the debtors or twice among the creditors |
| Settlement.PartitionAmounts | frontend/src/pages/GroupDetails.jsx:183-190 | the amount recorded for a member is its rounded debt (resp. credit), zero when it is not a debtor (creditor) |
| Settlement.Settle | frontend/src/pages/GroupDetails.jsx:198-217 | no transfer when either list is empty; otherwise at least one and fewer than debtors plus creditors |
| Settlement.Advance | frontend/src/pages/GroupDetails.jsx:212-216 | one step either drops the head entry or changes only the head; a head the step uses up is always dropped; no new ids appear |
| Settlement.SettlePairsDebtorsWithCreditors | frontend/src/pages/GroupDetails.jsx:198-210 | every transfer goes from a debtor to a creditor |
| Settlement.SettleAmountsExceedEpsilon | frontend/src/pages/GroupDetails.jsx:198-216 | every transfer is for more than 0.01 |
| Settlement.SettleRespectsAmounts | frontend/src/pages/GroupDetails.jsx:198-217 | no member pays out more than it owes or receives more than it is due |
| Settlement.SettleTransfersNearlyAll | frontend/src/pages/GroupDetails.jsx:198-217 | the transfers total at most the smaller of total debt and total credit, and fall short of it by at most 0.01 per entry |
| Settlement.AdvanceAmountFor | frontend/src/pages/GroupDetails.jsx:212-216 | a step takes at least its amount off the head member's remaining amount |
| Settlement.AdvanceTotal | frontend/src/pages/GroupDetails.jsx:212-216 | a step lowers the remaining total by its amount, plus at most the dropped remainder of 0.01 |
| Settlement.PartitionedSettleFacts | frontend/src/pages/GroupDetails.jsx:183-217 | every transfer runs between members whose rounded balances are below -0.01 and above 0.01, for more than 0.01 |
| Settlement.PaymentsAreSound | frontend/src/pages/GroupDetails.jsx:152-217 | each transfer is between two different members, from a debtor to a creditor, for more than 0.01; there are fewer transfers than members |
| Settlement.PaymentsRespectBalances | frontend/src/pages/GroupDetails.jsx:152-217 | nobody is asked to pay more than its rounded debt or to receive more than its rounded credit |
| Settlement.AllSettledNoPayments | frontend/src/pages/GroupDetails.jsx:183-198 | when every balance is within 0.01 there is nothing to settle |
| Settlement.NoExpensesNoPayments | frontend/src/pages/GroupDetails.jsx:153-178 | a group without expenses gets no suggestions |
| Settlement.DisplayName | frontend/src/pages/GroupDetails.jsx:155-206 | "Member" when no member has the id; otherwise the name of the last member with that id, since later entries overwrite earlier ones in the map, or "Member" when that name is empty; never empty |
| Settlement.Label | frontend/src/pages/GroupDetails.jsx:204-210 | each transfer becomes an open suggestion with the next sequential id and the two display names |
| Settlement.CalculateSettlements | frontend/src/pages/GroupDetails.jsx:152-220 | one open suggestion per greedy transfer, numbered from 1, each above 0.01, fewer than the members; suggestion i carries transfer i's amount and shows the display names of its payer and payee |
| Settlement.LoopStep | frontend/src/pages/GroupDetails.jsx:198-217 | one iteration of the index loop emits the next transfer of the greedy pairing and makes progress |
| Settlement.SettleLoop | frontend/src/pages/GroupDetails.jsx:192-219 | the two-index loop, as written, computes exactly the greedy pairing |
| SettleMarking.MarkSettled | frontend/src/pages/GroupDetails.jsx:224-226 | only the `settled` flag changes, and it becomes true exactly for the named suggestion |
| SettleMarking.Unsettled | frontend/src/pages/GroupDetails.jsx:228 | keeps exactly the open suggestions |
| SettleMarking.SettledOnes | frontend/src/pages/GroupDetails.jsx:229 | keeps exactly the settled suggestions |
| SettleMarking.FiltersSplit | frontend/src/pages/GroupDetails.jsx:228-230 | the open and the settled suggestions together are all of them |
| SettleMarking.HandleSettle | frontend/src/pages/GroupDetails.jsx:222-232 | a reordering of the marked list with every open suggestion before every settled one, and the named one settled |
| SettleMarking.HandleSettleKeepsOthers | frontend/src/pages/GroupDetails.jsx:222-232 | every other suggestion is kept unchanged, the named one is kept marked settled |
| SettleMarking.HandleSettleIsStable | frontend/src/pages/GroupDetails.jsx:228-230 | the open and the settled suggestions each keep their relative order |
| SettleMarking.OpenFirstSplits | frontend/src/pages/GroupDetails.jsx:228-230 | a list with open suggestions first is its open part followed by its settled part |
| SettleMarking.MarkSettledFixed | frontend/src/pages/GroupDetails.jsx:224-226 | marking a suggestion that is already settled changes nothing |
| SettleMarking.HandleSettleIdempotent | frontend/src/pages/GroupDetails.jsx:222-232 | settling the same suggestion twice gives the same list as settling it once |
| Store.FindGroup | backend/src/controllers/groupController.js:256-262 | finds a group with that id exactly when one exists |
| Store.ExpensesOf | backend/src/controllers/groupController.js:383-391 | the expenses loaded with a group are exactly those with its id |
| GroupController.StoredBudget | backend/src/controllers/groupController.js:41 | a budget is stored exactly when the field is truthy, that is a non-zero number or non-empty text; the stored value is the number, or the text's parsed value |
| GroupController.ZeroBudgetTextIsStored | backend/src/controllers/groupController.js:41 | the text "0" stores a budget of 0; the number 0 and the empty text store none |
| GroupController.CreateGroup | backend/src/controllers/groupController.js:29-46 | 400 and no change exactly when the name is missing or empty; otherwise exactly one group is appended, with that name and owner and the budget `StoredBudget` gives |
| GroupController.CreateGroupKeepsIntegrity | backend/src/controllers/groupController.js:38-44 | creating a group keeps every reference resolvable |
| GroupController.AddMember | backend/src/controllers/groupController.js:112-126 | 400 and no change exactly when the name is missing; otherwise exactly the new member is appended |
| GroupController.AddMemberKeepsIntegrity | backend/src/controllers/groupController.js:121-126 | adding a member to an existing group keeps every reference resolvable |
| GroupController.CategoryOrMisc | backend/src/controllers/groupController.js:152 | the stored category is the given one, or "Misc" when none is given; never empty |
| GroupController.CreateExpense | backend/src/controllers/groupController.js:139-163 | 400 and no change exactly when the description, amount or payer is falsy (an amount is falsy when it is the number 0 or empty text) or the split is missing or empty; otherwise exactly one expense is appended, with the parsed amount, the given payer and split, and the category or "Misc" |
| GroupController.ZeroAmountTextIsAccepted | backend/src/controllers/groupController.js:144-152 | the amount text "0" passes the check and records an expense of 0, while the number 0 is refused |
| GroupController.CreateExpenseRaisesTotal | backend/src/controllers/groupController.js:148-156 | a new expense raises its group's total by its amount and leaves other groups' totals alone |
| GroupController.CreateExpenseKeepsIntegrity | backend/src/controllers/groupController.js:148-156 | with resolvable payer and participants, every reference stays resolvable and every split stays non-empty |
| GroupController.CreateSettlement | backend/src/controllers/groupController.js:169-191 | 400 and no change exactly when a party is missing or the amount is falsy (the number 0 or empty text); otherwise exactly the settlement with the parsed amount is appended |
| GroupController.CreateSettlementKeepsIntegrity | backend/src/controllers/groupController.js:178-189 | with resolvable parties, every reference stays resolvable |
| GroupController.Stripped | backend/src/controllers/groupController.js:228 | the member no longer occurs in the split; the remaining participants are the order-keeping filter of the old split, so each keeps its number of occurrences and the split shrinks by exactly the member's occurrences; every other field of the expense is unchanged |
| GroupController.StripMember | backend/src/controllers/groupController.js:218-237 | afterwards no split names the member; untouched expenses stay; stripped expenses with participants left stay; only old expenses can have an empty split |
| GroupController.StripMemberOrigin | backend/src/controllers/groupController.js:227-237 | every remaining expense is an original one with the member stripped |
| GroupController.StripAbsent | backend/src/controllers/groupController.js:219-225 | when no split names the member, the expenses are unchanged |
| GroupController.CascadeExpenses | backend/src/controllers/groupController.js:211-237 | no remaining expense is paid by or split with the member; unrelated expenses stay |
| GroupController.DeleteMember | backend/src/controllers/groupController.js:197-248 | 200 exactly when the member exists, else 500; the member, its settlements and its paid expenses go; no split names it; nothing unrelated is removed |
| GroupController.DeleteMemberRewritesSplits | backend/src/controllers/groupController.js:227-237 | each remaining expense is an original not paid by the member with the member stripped, and each such expense with participants left remains |
| GroupController.DeleteMemberKeepsIntegrity | backend/src/controllers/groupController.js:197-248 | the cascade leaves no dangling member reference and no empty split |
| GroupController.DeleteMemberKeepsScoping | backend/src/controllers/groupController.js:197-248 | references scoped to their group stay scoped |
| GroupController.DeleteMemberTwice | backend/src/controllers/groupController.js:240-247 | deleting the same member again changes nothing and answers 500 |
| GroupController.DeleteGroup | backend/src/controllers/groupController.js:250-292 | 404 exactly when the group is missing, 403 exactly when another user owns it, both without change; otherwise exactly the group and its settlements, expenses and members go |
| GroupController.DeleteGroupKeepsIntegrity | backend/src/controllers/groupController.js:250-292 | deleting a group leaves no dangling reference |
| GroupController.DeleteGroupTwice | backend/src/controllers/groupController.js:256-262 | deleting the same group again answers 404 |
| GroupController.NewestFirstIsTotalPreorder | backend/src/controllers/groupController.js:12 | newest-first is a consistent order for sorting |
| GroupController.ByNewest | backend/src/controllers/groupController.js:12 | a reordering of the groups, newest first |
| GroupController.WithTotals | backend/src/controllers/groupController.js:15-21 | each group is paired with the sum of its expenses |
| GroupController.GetGroups | backend/src/controllers/groupController.js:3-21 | only the caller's groups, all of them, newest first, each with the sum of its expenses |
| GroupController.GetGroupsListsEveryOwnedGroup | backend/src/controllers/groupController.js:6-13 | every group the caller owns is listed |
| GroupController.HigherFirstIsTotalPreorder | backend/src/controllers/groupController.js:351 | the comparator `b.value - a.value` is a consistent order for sorting |
| GroupController.ByValueDescending | backend/src/controllers/groupController.js:351 | a reordering of the entries, largest value first |
| GroupController.PrefixDominates | backend/src/controllers/groupController.js:351-352 | a prefix of a value-sorted list is worth at least everything it leaves out |
| GroupController.TopGroups | backend/src/controllers/groupController.js:350-352 | at most five entries taken from the input, largest first, and none left out is larger than one kept |
| GroupController.SpendingOfAll | backend/src/controllers/groupController.js:344-348 | one entry per group with the sum of its expenses |
| GroupController.Spending | backend/src/controllers/groupController.js:306-309 | one entry per group the caller owns, in store order: entry i is the i-th owned group's id, name and expense total |
| GroupController.TopSpending | backend/src/controllers/groupController.js:343-352 | five entries, or all when the caller owns fewer groups; largest first; drawn from the caller's spending entries with multiplicity; every entry left out is worth no more than any entry kept |
| GroupController.TopSpendingFromOwnedGroups | backend/src/controllers/groupController.js:343-352 | every entry of the top-five list is the spending entry of a group the caller owns |
| Tallies.ItemKeys | backend/src/controllers/groupController.js:411-413 | the key of each accumulated item, in order |
| Tallies.Keys | backend/src/controllers/groupController.js:416 | the keys of the object's entries, in order |
| Tallies.AddTo | backend/src/controllers/groupController.js:413 | an existing key's total grows by the amount; a new key gets a bucket at the end holding the amount |
| Tallies.AddToKeepsSum | backend/src/controllers/groupController.js:413 | each step adds exactly its amount to the sum of all totals |
| Tallies.Tally | backend/src/controllers/groupController.js:410-414 | one bucket per distinct key, in order of first appearance |
| Tallies.TallyTotals | backend/src/controllers/groupController.js:410-414 | each bucket holds exactly the sum of the amounts filed under its key |
| Tallies.TallyKeepsSum | backend/src/controllers/groupController.js:410-414 | the buckets add up to the sum of all amounts |
| Tallies.SumTotalsPermutation | backend/src/controllers/groupController.js:428-431 | reordering the buckets does not change their sum |
| Tallies.PermutationKeepsKeysDistinct | backend/src/controllers/groupController.js:428-431 | reordering buckets with distinct keys keeps them distinct |
| GroupAnalytics.GroupMembers | backend/src/controllers/groupController.js:389 | exactly the members of the group |
| GroupAnalytics.KeyedBy | backend/src/controllers/groupController.js:411-426 | one item per expense, in expense order, with its key and amount, so the items add up to the group's total spend |
| GroupAnalytics.SameAmountsSameSum | backend/src/controllers/groupController.js:398-426 | items carrying the expenses' amounts one for one add up to the expenses' total |
| GroupAnalytics.CategoryName | backend/src/controllers/groupController.js:425 | the given category, or "Misc" when it is empty; never empty |
| GroupAnalytics.DayCount | backend/src/controllers/groupController.js:404-405 | there is at least one distinct day when there is at least one expense |
| GroupAnalytics.AvgDailySpend | backend/src/controllers/groupController.js:401-407 | 0 without expenses; otherwise the average times the number of distinct days is the total spend |
| GroupAnalytics.HighestDay | backend/src/controllers/groupController.js:415-420 | the reported amount is non-negative and no day's total exceeds it |
| GroupAnalytics.HighestDayIsFirstMaximum | backend/src/controllers/groupController.js:415-420 | "N/A" with 0 exactly when no day has a positive total; otherwise a day's own total, larger than every earlier day's |
| GroupAnalytics.LargerFirstIsTotalPreorder | backend/src/controllers/groupController.js:431 | the comparator `b.value - a.value` is a consistent order for sorting |
| GroupAnalytics.CategoryBreakdown | backend/src/controllers/groupController.js:422-431 | a reordering of the category totals, largest first |
| GroupAnalytics.CategoryBreakdownNames | backend/src/controllers/groupController.js:423-431 | each category appears exactly once, and exactly the expenses' categories appear |
| GroupAnalytics.CategoryBreakdownTotals | backend/src/controllers/groupController.js:423-431 | each category's value is the sum of its expenses' amounts, and no name is empty |
| GroupAnalytics.CategoryBreakdownSums | backend/src/controllers/groupController.js:398-431 | the breakdown adds up to the total spend |
| GroupAnalytics.StatOf | backend/src/controllers/groupController.js:434-452 | balance is paid minus share |
| GroupAnalytics.MemberStats | backend/src/controllers/groupController.js:434-453 | one entry per member, in member order, with its name, what it paid, its share of the expenses it is listed in, and balance = paid - share |
| GroupAnalytics.GetGroupAnalytics | backend/src/controllers/groupController.js:380-465 | 404 exactly when the group is missing; otherwise the group's name and budget, its expense count and total, the average per active day, the member statistics and their count, the category breakdown and the highest day |
| GroupAnalytics.PageExpenses | backend/src/controllers/groupController.js:386-388 | each stored expense becomes the expense the group-details page receives |
| GroupAnalytics.PageMembers | backend/src/controllers/groupController.js:389 | the members the page receives have the same ids in the same order |
| GroupAnalytics.DebitOnce | backend/src/controllers/groupController.js:442-443 | over a duplicate-free split, the page's per-listing debit is one share for a participant and none otherwise |
| GroupAnalytics.PaidAgrees | backend/src/controllers/groupController.js:438-441 | what a member paid is what the group-details page credits it |
| GroupAnalytics.ShareAgrees | backend/src/controllers/groupController.js:442-444 | with duplicate-free splits, a member's share is what the group-details page debits it |
| GroupAnalytics.StatAgreesWithPage | backend/src/controllers/groupController.js:434-452 | with duplicate-free splits, the reported balance is the page's balance for that member |
| GroupAnalytics.StatsSumAsOnPage | backend/src/controllers/groupController.js:434-453 | the reported balances add up to the page's balances summed over the same members |
| GroupAnalytics.GroupMemberIdsDistinct | backend/src/controllers/groupController.js:389 | the group's members have distinct ids when all members do |
| GroupAnalytics.GroupReferencesResolve | backend/src/controllers/groupController.js:383-391 | every payer and participant of the group's expenses is one of its members |
| GroupAnalytics.MemberBalancesCancel | backend/src/controllers/groupController.js:434-453 | with scoped references and duplicate-free splits, the members' balances add up to zero |
| GroupAnalytics.DuplicateParticipantUnbalances | backend/src/controllers/groupController.js:442-443 | an expense of 10 split between the same member listed twice leaves balances adding up to 5, not 0 |
| GroupsList.Lower | frontend/src/pages/GroupsList.jsx:63 | same length; no upper-case letter is left; each upper-case letter becomes its lower-case partner and every other character is kept |
| GroupsList.Upper | frontend/src/pages/GroupsList.jsx:63 | same length; no lower-case letter is left; each lower-case letter becomes its upper-case partner and every other character is kept |
| GroupsList.LowerForgetsCase | frontend/src/pages/GroupsList.jsx:63 | lower-casing forgets case: a string and its upper-cased form lower-case alike, and lower-casing twice changes nothing more |
| GroupsList.ContainsIsSubstring | frontend/src/pages/GroupsList.jsx:63 | `includes` holds exactly when the query occurs at some position of the name |
| GroupsList.SearchIgnoresCase | frontend/src/pages/GroupsList.jsx:61-65 | upper- or lower-casing the query does not change which groups match |
| GroupsList.EmptyQueryMatchesAll | frontend/src/pages/GroupsList.jsx:61 | an empty query would match every name, so skipping it changes nothing |
| GroupsList.SearchStep | frontend/src/pages/GroupsList.jsx:61-65 | the search is skipped for an empty query and otherwise keeps the matching groups in order |
| GroupsList.MinimumStep | frontend/src/pages/GroupsList.jsx:68-72 | a numeric minimum keeps the groups whose total, absent read as 0, reaches it; a non-number keeps none |
| GroupsList.FromStep | frontend/src/pages/GroupsList.jsx:75-79 | keeps the groups created at or after the start |
| GroupsList.ToStep | frontend/src/pages/GroupsList.jsx:80-87 | keeps the groups created at or before 23:59:59.999 of the end day |
| GroupsList.FilterChainIsOneFilter | frontend/src/pages/GroupsList.jsx:58-87 | the four filters in a row keep exactly the groups that pass all four, in input order |
| GroupsList.NameLeTotal | frontend/src/pages/GroupsList.jsx:93-94 | any two names are comparable |
| GroupsList.NameLeTransitive | frontend/src/pages/GroupsList.jsx:93-94 | the name order is transitive |
| GroupsList.NameLeAntisymmetric | frontend/src/pages/GroupsList.jsx:93-94 | two names each no greater than the other are equal |
| GroupsList.ComparatorIsTotalPreorder | frontend/src/pages/GroupsList.jsx:90-101 | every key and direction gives a consistent order for sorting |
| GroupsList.ToggleOrder | frontend/src/pages/GroupsList.jsx:186 | the button always changes the direction |
| GroupsList.ToggleReverses | frontend/src/pages/GroupsList.jsx:90-101 | the other direction orders any two groups the other way round; two flips restore the direction |
| GroupsList.FilterAndSortGroups | frontend/src/pages/GroupsList.jsx:57-104 | a reordering of exactly the passing groups, with every pair in the chosen order |
| GroupsList.FilterAndSortKeepsMultiplicity | frontend/src/pages/GroupsList.jsx:58-103 | each passing group is shown as often as it is in the input, a failing one never |
| GroupsList.ShownGroupsMeetFilters | frontend/src/pages/GroupsList.jsx:61-87 | every shown group's lower-cased name holds the lower-cased query, its total reaches the minimum, and its creation lies in the date range |
| GroupsList.OneDayRangeShowsThatDay | frontend/src/pages/GroupsList.jsx:75-87 | with the same start and end day, exactly the groups created from midnight to 23:59:59.999 of that day are shown |
| GroupsList.ToggledOrderReverses | frontend/src/pages/GroupsList.jsx:186 | the toggled direction lists the groups in the opposite order; toggling twice gives back the same list |
| GroupsList.NoFiltersShowsAll | frontend/src/pages/GroupsList.jsx:58 | with no filter given every group is shown |
| Sorting.SortBy | frontend/src/pages/GroupsList.jsx:90 | the result is a sorted reordering of the input |
| Seqs.Distinct | backend/src/controllers/groupController.js:405 | each value of the input once, no others |
| Seqs.DistinctKeepsFirstOccurrenceOrder | frontend/src/pages/GroupDetails.jsx:160-163 | the values come in the order of their first occurrence in the input, as the keys of an object filled in that order |
| Seqs.RemoveAll | backend/src/controllers/groupController.js:228 | the value is gone; the result is the order-keeping filter `y => y !== x` of the input, so every other value keeps its number of occurrences |
| Seqs.RemoveAllAppend | backend/src/controllers/groupController.js:228 | removing from a concatenation removes from each part, so the survivors keep their relative order |

## Left out

- Floating point: amounts are exact reals. The rounding drift of JavaScript numbers is not modelled.
- Amount conversion: `Number(expense.amount) || 0` on the page is taken as the amount itself.
- GroupController.StoredBudget: a budget text that `parseFloat` cannot read (NaN) is not modelled; a text field carries the real that `parseFloat` gives for it.
- GroupController.CreateExpense and GroupController.CreateSettlement: an amount text that `parseFloat` cannot read (NaN) is not modelled; a text field carries the real that `parseFloat` gives for it.
- Dates: an expense's calendar day (`toDateString`, local time) is an abstract key on the expense. Invalid dates are not modelled.
- GroupsList.ToStep: the end of the "to" day is taken as the date's instant plus 23:59:59.999, as if the browser ran in UTC. The code sets local hours, so the bound moves with the time zone.
- GroupsList.NameLe: `localeCompare` is modelled as code-point order. Locale collation is not.
- GroupsList.Lower: `toLowerCase` is modelled on ASCII letters only.
- Tallies.Tally: JavaScript enumerates integer-like keys of an object first, in numeric order. The model keeps plain insertion order.
- GroupsList.FilterAndSortGroups: the order of equal elements is not stated, although the sort used is stable. The sort's "other key" branch returning 0 is not modelled; only the name and expense keys exist.
- Store access through the database client: failures, transactions and the 500 answers of the catch blocks are left out. The exception is the member deletion's final step, which is modelled.
- `getMonthlyTotal`, the monthly data and recent expenses of `getAnalytics`, and `getGroupDetails` are left out. They are date arithmetic and queries around the modelled core.
- GroupController.AddMember: answers 200 and appends the member, but the response body (the reloaded group) is left out. An unknown group id is not rejected, because the code does not check it either.
- GroupController.CreateExpense and GroupController.CreateSettlement: like the code, they do not check that the referenced members or group exist. The integrity lemmas therefore take that as a requirement.
- Settlement.CalculateSettlements: suggestion ids are numbers. The page uses their decimal strings, which compare the same way.
- Settlement.CalculateSettlements: members listed twice keep their first position among the balances, as object keys do. Expenses naming an unknown member make that balance NaN on the page. NaN never passes the ±0.01 tests, so the model leaves such members out of the debtors and creditors.
- GroupAnalytics.MemberBalancesCancel: requires duplicate-free participant lists. With a duplicate the balances do not cancel; see `GroupAnalytics.DuplicateParticipantUnbalances`.
- GroupAnalytics.PageExpenses: the page receives each expense's participants through the `splitBetween` relation. The model assumes that relation lists exactly `splitBetweenIds`, in order, with repeats and unknown ids kept; no schema is part of this model to confirm it. The difference between the page and the analytics on a repeated participant, which `GroupAnalytics.StatAgreesWithPage` excludes, rests on this assumption.
- GroupAnalytics.GetGroupAnalytics: the member statistics are taken in store order of the members. The database does not promise an order.
- GroupAnalytics.HighestDayIsFirstMaximum: the group's expenses are loaded without an `orderBy` (`groupController.js:386-388`). The model takes them in store order, so which of two equally large days is reported rests on an order the database does not promise.
- GroupAnalytics.CategoryBreakdown: categories of equal total keep the order in which their first expense is loaded, through the object's insertion order and the stable sort. That load order is store order in the model and unpromised in the code.
- GroupController.Spending and GroupController.TopSpending: the caller's groups are loaded without an `orderBy` (`groupController.js:306-309`). The model takes store order, so which of several equal totals survives the five-entry cut rests on an order the database does not promise.
- Settlement.CalculateSettlements: the `balances` object (`GroupDetails.jsx:160-163`, enumerated at :183) lists integer-like member ids first, in numeric order. The model keeps member order, as for `Tallies.Tally`; with such ids the debtors and creditors, and so the pairing, can come in a different order.
