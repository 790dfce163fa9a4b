# Wedding planner: store, API and page views

A Dafny model of the wedding planner's core:

- the in-memory store `MemStorage`, with six id-keyed collections, a seeded wedding-details singleton and one shared id counter;
- the Express REST handlers over that store;
- the zod insert schemas and the partial-update merge;
- the figures the client pages derive from the lists they fetch: dashboard progress and countdown, budget totals and warnings, vendor bookings, the guest search, the seating assignments and selector, the seating chart's drag-and-drop and "Add Table" payload, and the timeline order and colours.

Modules, one per file:

| module | file | models |
|---|---|---|
| `Wrappers` | wrappers.dfy | `Option` |
| `Seqs` | seqs.dfy | `filter`, counting and summing over lists |
| `JsNumbers` | js_numbers.dfy | `parseInt`, `Number.prototype.toString` of integers below 1e21, JavaScript `%`, `Math.round` of a percentage |
| `Text` | text.dfy | ASCII case mapping, `includes`, `split(' ')`, avatar initials |
| `Sorting` | sorting.dfy | stable `Array.prototype.sort` by a numeric key |
| `Grouping` | grouping.dfy | the `reduce` that groups rows by category, including the TypeError it throws for a category named after an `Object.prototype` member |
| `OrderedMaps` | ordered_maps.dfy | a JavaScript `Map<number, V>` with insertion order |
| `Schema` | schema.dfy | the seven tables, insert and patch types, the merge, the seating-table zod parse |
| `Storage` | storage.dfy | `MemStorage` as a class whose methods reassign its map fields |
| `Routes` | routes.dfy | the REST handlers: status and JSON body for each outcome |
| `Scenarios` | scenarios.dfy | short request sequences showing how the store contracts combine |
| `Dashboard`, `Guests`, `Budget`, `Vendors`, `Seating`, `SeatingChartComponent`, `Timeline` | dashboard.dfy, guests.dfy, budget.dfy, vendors.dfy, seating.dfy, seating_chart.dfy, timeline.dfy | the derived views of each page |

Representation choices:

- Money is an integer number of cents. The source keeps decimal strings and adds them as floats.
- A nullable or defaulted column is an `Option`.
- A patch field is `Option<Option<T>>` for a nullable column: absent, set to null, or set to a value. For a non-null column it is `Option<T>`.
- The store applies no column defaults. A row is stored exactly as the parsed body gives it, so a budget item created without `actualAmount` has none. This follows the code. The table definitions' `.default(...)` values would only be applied by a database, which `MemStorage` is not.
- The store's invariant (`Storage.Store.Inv`):
  - every row sits under its own id;
  - ids lie below the counter and increase in insertion order;
  - no id is used by two collections.
- Each handler receives the outcome of `schema.parse` (`Parsed`: a value, a `ZodError` with its issues, or another exception). It returns a `Response` holding the status and body.
- The seating table's full zod parse is modelled field by field (`Schema.ParseNewSeatingTable`). The seating chart's "Add Table" payload is checked against it.

## Model

| member | source | states |
|---|---|---|
| Storage.MemStorage.constructor | server/storage.ts:74-94 | All six collections start empty and the counter starts at 1. The wedding details are seeded with id 1 (Sarah, Michael, 2024-06-15, Rosewood Manor, 40000.00 as 4000000 cents). The store invariant holds from the start. |
| Storage.MemStorage.GetNextId | server/storage.ts:96-98 | Returns the counter and increments it. Nothing else in the store changes. The id handed out is used by no collection. |
| Storage.KeyedAdd | server/storage.ts:109-113 | Storing a row under the counter value keeps a collection keyed one id further on: each row sits under its own id, ids increase in insertion order, and the new id was unused. |
| Storage.KeyedReplace | server/storage.ts:116-121 | Replacing the row under a present id keeps the collection keyed and keeps its set of ids. |
| Storage.KeyedDelete | server/storage.ts:124-126 | Deleting keeps the collection keyed and removes exactly that id. |
| Storage.KeyedValues | server/storage.ts:101-103 | A keyed collection lists its rows in increasing id order, and each listed row is found again under its id. |
| Storage.MemStorage.GetGuests | server/storage.ts:101-103 | Returns the values of `guests` in insertion order. Ids increase along the list, and each row is found again under its id. |
| Storage.MemStorage.GetGuest | server/storage.ts:105-107 | Returns the row stored under the id, or None. A returned row carries that id. |
| Storage.MemStorage.CreateGuest | server/storage.ts:109-114 | The new row is the input as given, with no defaults applied, plus the old counter value as its id. That id was free and now reads back the row. Only `guests` and the counter change. |
| Storage.MemStorage.UpdateGuest | server/storage.ts:116-122 | An absent id returns None and leaves the whole store unchanged. A present id gets the patch merged over the row, keeping its id and its place in the order. Nothing else changes. |
| Storage.MemStorage.DeleteGuest | server/storage.ts:124-126 | Returns true exactly when the id was present. Afterwards the id is gone and only `guests` has changed. On false, nothing changed. |
| Storage.MemStorage.GetBudgetItems | server/storage.ts:129-131 | Returns the values of `budgetItems` in insertion order. Ids increase along the list, and each row is found again under its id. |
| Storage.MemStorage.GetBudgetItem | server/storage.ts:133-135 | Returns the row stored under the id, or None. A returned row carries that id. |
| Storage.MemStorage.CreateBudgetItem | server/storage.ts:137-142 | The new row is the input as given, with no defaults applied, plus the old counter value as its id. That id was free and now reads back the row. Only `budgetItems` and the counter change. |
| Storage.MemStorage.UpdateBudgetItem | server/storage.ts:144-150 | An absent id returns None and leaves the whole store unchanged. A present id gets the patch merged over the row, keeping its id and its place in the order. Nothing else changes. |
| Storage.MemStorage.DeleteBudgetItem | server/storage.ts:152-154 | Returns true exactly when the id was present. Afterwards the id is gone and only `budgetItems` has changed. On false, nothing changed. |
| Storage.MemStorage.GetTimelineEvents | server/storage.ts:157-159 | Returns the values of `timelineEvents` in insertion order. Ids increase along the list, and each row is found again under its id. |
| Storage.MemStorage.GetTimelineEvent | server/storage.ts:161-163 | Returns the row stored under the id, or None. A returned row carries that id. |
| Storage.MemStorage.CreateTimelineEvent | server/storage.ts:165-170 | The new row is the input as given, with no defaults applied, plus the old counter value as its id. That id was free and now reads back the row. Only `timelineEvents` and the counter change. |
| Storage.MemStorage.UpdateTimelineEvent | server/storage.ts:172-178 | An absent id returns None and leaves the whole store unchanged. A present id gets the patch merged over the row, keeping its id and its place in the order. Nothing else changes. |
| Storage.MemStorage.DeleteTimelineEvent | server/storage.ts:180-182 | Returns true exactly when the id was present. Afterwards the id is gone and only `timelineEvents` has changed. On false, nothing changed. |
| Storage.MemStorage.GetTasks | server/storage.ts:185-187 | Returns the values of `tasks` in insertion order. Ids increase along the list, and each row is found again under its id. |
| Storage.MemStorage.GetTask | server/storage.ts:189-191 | Returns the row stored under the id, or None. A returned row carries that id. |
| Storage.MemStorage.CreateTask | server/storage.ts:193-198 | The new row is the input as given, with no defaults applied, plus the old counter value as its id. That id was free and now reads back the row. Only `tasks` and the counter change. |
| Storage.MemStorage.UpdateTask | server/storage.ts:200-206 | An absent id returns None and leaves the whole store unchanged. A present id gets the patch merged over the row, keeping its id and its place in the order. Nothing else changes. |
| Storage.MemStorage.DeleteTask | server/storage.ts:208-210 | Returns true exactly when the id was present. Afterwards the id is gone and only `tasks` has changed. On false, nothing changed. |
| Storage.MemStorage.GetVendors | server/storage.ts:213-215 | Returns the values of `vendors` in insertion order. Ids increase along the list, and each row is found again under its id. |
| Storage.MemStorage.GetVendor | server/storage.ts:217-219 | Returns the row stored under the id, or None. A returned row carries that id. |
| Storage.MemStorage.CreateVendor | server/storage.ts:221-226 | The new row is the input as given, with no defaults applied, plus the old counter value as its id. That id was free and now reads back the row. Only `vendors` and the counter change. |
| Storage.MemStorage.UpdateVendor | server/storage.ts:228-234 | An absent id returns None and leaves the whole store unchanged. A present id gets the patch merged over the row, keeping its id and its place in the order. Nothing else changes. |
| Storage.MemStorage.DeleteVendor | server/storage.ts:236-238 | Returns true exactly when the id was present. Afterwards the id is gone and only `vendors` has changed. On false, nothing changed. |
| Storage.MemStorage.GetSeatingTables | server/storage.ts:241-243 | Returns the values of `seatingTables` in insertion order. Ids increase along the list, and each row is found again under its id. |
| Storage.MemStorage.GetSeatingTable | server/storage.ts:245-247 | Returns the row stored under the id, or None. A returned row carries that id. |
| Storage.MemStorage.CreateSeatingTable | server/storage.ts:249-254 | The new row is the input as given, with no defaults applied, plus the old counter value as its id. That id was free and now reads back the row. Only `seatingTables` and the counter change. |
| Storage.MemStorage.UpdateSeatingTable | server/storage.ts:256-262 | An absent id returns None and leaves the whole store unchanged. A present id gets the patch merged over the row, keeping its id and its place in the order. Nothing else changes. |
| Storage.MemStorage.DeleteSeatingTable | server/storage.ts:264-266 | Returns true exactly when the id was present. Afterwards the id is gone and only `seatingTables` has changed. On false, nothing changed. |
| Storage.MemStorage.GetWeddingDetails | server/storage.ts:269-271 | Returns the singleton as stored, possibly None. |
| Storage.MemStorage.CreateWeddingDetails | server/storage.ts:273-277 | Replaces the singleton with the input under the next id. Only the singleton and the counter change. |
| Storage.MemStorage.UpdateWeddingDetails | server/storage.ts:279-283 | With no singleton, returns None and changes nothing. Otherwise merges the patch over the singleton and keeps its id. |
| OrderedMaps.SetGet | server/storage.ts:112 | `Map.set` keeps the map well formed. The key it sets reads back its value, and every other key reads as before. |
| OrderedMaps.SetExistingValues | server/storage.ts:120 | `set` on a present key keeps the key order, so an updated row does not move in the listing. |
| OrderedMaps.SetNewValues | server/storage.ts:112 | `set` on a new key appends its value to the end of the listing. |
| OrderedMaps.DeleteGet | server/storage.ts:125 | `delete` returns true iff the key was present. It removes exactly that key, and a second `delete` of the same key returns false. |
| OrderedMaps.DeleteAbsent | server/storage.ts:125 | `delete` of an absent key leaves the map as it was. |
| OrderedMaps.DeleteValues | server/storage.ts:125 | Deleting the key at position i removes the i-th value from the listing. The others keep their order. |
| Scenarios.FirstRowSharesSeedId | server/storage.ts:82-94 | On a fresh store, the first created row gets id 1, which is also the id of the seeded wedding details. |
| Scenarios.CreatesShareCounter | server/storage.ts:96-98 | A guest created and then a table created get consecutive ids. Neither id is present in the other collection. |
| Scenarios.DeleteGuestTwice | server/routes.ts:69-80 | The first DELETE gets 200 iff the id named a guest. A second DELETE of the same path always gets 404. |
| Scenarios.DeleteTableKeepsGuests | server/storage.ts:264-266 | Deleting a table leaves the guests collection identical, so guests seated at the deleted table keep their `tableAssignment`. The table is gone afterwards. |
| Routes.PathId | server/routes.ts:28 | A path id is a number iff `parseInt` yields a number. A NaN id finds no row. |
| Routes.PathIdOfId | server/routes.ts:28 | The decimal text of an id parses back to that id. |
| Routes.PathIdSkipsUnicodeSpace | server/routes.ts:28 | An id segment led by an ideographic space (U+3000) still names that id. |
| Routes.Lookup | server/routes.ts:26-32 | The row named by a path: found only when the segment parses and the id is present. |
| Routes.Refused | server/routes.ts:44-48 | A ZodError gives 400 with "errors" set to the issues. Any other exception gives 500 with the fixed failure message. |
| Routes.HandleListGuests | server/routes.ts:17-24 | 200 with every row of `guests` in creation order. The store is not changed. |
| Routes.HandleGetGuest | server/routes.ts:26-37 | 404 "Guest not found" exactly when the id does not parse or names no guest. Otherwise 200 with the row. Only guests have this route. |
| Routes.HandlePostGuest | server/routes.ts:39-50 | A parsed body gives 201 with the new row, whose id is the old counter value, and adds it to `guests`. A ZodError gives 400 and any other failure 500. In both the store is untouched. |
| Routes.HandlePutGuest | server/routes.ts:52-67 | Validation comes before the lookup: an invalid body gives 400 or 500 whatever the id. A valid body for an unparseable or absent id gives 404. Otherwise 200 with the merged row. Only the 200 case changes the store. |
| Routes.HandleDeleteGuest | server/routes.ts:69-80 | 200 with "Guest deleted successfully" (a message, not the row) exactly when the id parses and was present. That row alone is removed. Otherwise 404 and nothing changes. |
| Routes.HandleListBudget | server/routes.ts:83-90 | 200 with every row of `budgetItems` in creation order. The store is not changed. |
| Routes.HandlePostBudgetItem | server/routes.ts:92-103 | A parsed body gives 201 with the new row, whose id is the old counter value, and adds it to `budgetItems`. A ZodError gives 400 and any other failure 500. In both the store is untouched. |
| Routes.HandlePutBudgetItem | server/routes.ts:105-120 | Validation comes before the lookup: an invalid body gives 400 or 500 whatever the id. A valid body for an unparseable or absent id gives 404. Otherwise 200 with the merged row. Only the 200 case changes the store. |
| Routes.HandleDeleteBudgetItem | server/routes.ts:122-133 | 200 with "Budget item deleted successfully" (a message, not the row) exactly when the id parses and was present. That row alone is removed. Otherwise 404 and nothing changes. |
| Routes.HandleListTimeline | server/routes.ts:136-143 | 200 with every row of `timelineEvents` in creation order. The store is not changed. |
| Routes.HandlePostTimelineEvent | server/routes.ts:145-156 | A parsed body gives 201 with the new row, whose id is the old counter value, and adds it to `timelineEvents`. A ZodError gives 400 and any other failure 500. In both the store is untouched. |
| Routes.HandlePutTimelineEvent | server/routes.ts:158-173 | Validation comes before the lookup: an invalid body gives 400 or 500 whatever the id. A valid body for an unparseable or absent id gives 404. Otherwise 200 with the merged row. Only the 200 case changes the store. |
| Routes.HandleDeleteTimelineEvent | server/routes.ts:175-186 | 200 with "Timeline event deleted successfully" (a message, not the row) exactly when the id parses and was present. That row alone is removed. Otherwise 404 and nothing changes. |
| Routes.HandleListTasks | server/routes.ts:189-196 | 200 with every row of `tasks` in creation order. The store is not changed. |
| Routes.HandlePostTask | server/routes.ts:198-209 | A parsed body gives 201 with the new row, whose id is the old counter value, and adds it to `tasks`. A ZodError gives 400 and any other failure 500. In both the store is untouched. |
| Routes.HandlePutTask | server/routes.ts:211-226 | Validation comes before the lookup: an invalid body gives 400 or 500 whatever the id. A valid body for an unparseable or absent id gives 404. Otherwise 200 with the merged row. Only the 200 case changes the store. |
| Routes.HandleDeleteTask | server/routes.ts:228-239 | 200 with "Task deleted successfully" (a message, not the row) exactly when the id parses and was present. That row alone is removed. Otherwise 404 and nothing changes. |
| Routes.HandleListVendors | server/routes.ts:242-249 | 200 with every row of `vendors` in creation order. The store is not changed. |
| Routes.HandlePostVendor | server/routes.ts:251-262 | A parsed body gives 201 with the new row, whose id is the old counter value, and adds it to `vendors`. A ZodError gives 400 and any other failure 500. In both the store is untouched. |
| Routes.HandlePutVendor | server/routes.ts:264-279 | Validation comes before the lookup: an invalid body gives 400 or 500 whatever the id. A valid body for an unparseable or absent id gives 404. Otherwise 200 with the merged row. Only the 200 case changes the store. |
| Routes.HandleDeleteVendor | server/routes.ts:281-292 | 200 with "Vendor deleted successfully" (a message, not the row) exactly when the id parses and was present. That row alone is removed. Otherwise 404 and nothing changes. |
| Routes.HandleListSeating | server/routes.ts:295-302 | 200 with every row of `seatingTables` in creation order. The store is not changed. |
| Routes.HandlePostSeatingTable | server/routes.ts:304-315 | A parsed body gives 201 with the new row, whose id is the old counter value, and adds it to `seatingTables`. A ZodError gives 400 and any other failure 500. In both the store is untouched. |
| Routes.HandlePutSeatingTable | server/routes.ts:317-332 | Validation comes before the lookup: an invalid body gives 400 or 500 whatever the id. A valid body for an unparseable or absent id gives 404. Otherwise 200 with the merged row. Only the 200 case changes the store. |
| Routes.HandleDeleteSeatingTable | server/routes.ts:334-345 | 200 with "Seating table deleted successfully" (a message, not the row) exactly when the id parses and was present. That row alone is removed. Otherwise 404 and nothing changes. |
| Routes.HandleGetWeddingDetails | server/routes.ts:348-358 | 404 exactly when there is no singleton. Otherwise 200 with it. |
| Routes.HandlePutWeddingDetails | server/routes.ts:360-374 | An invalid body gives 400 or 500. A valid body gives 404 only when there is no singleton. Otherwise 200 with the merged details and the same id. Only 200 changes the store. |
| Schema.MergeGuestLaws | server/storage.ts:116-122 | The `{...existing, ...patch}` merge: an empty patch changes nothing, a full patch replaces every field (a non-null `rsvpStatus` cannot be cleared), and merging the same patch twice equals merging it once. |
| Schema.MergeBudgetItemLaws | server/storage.ts:144-150 | The same merge laws for budget items. |
| Schema.MergeTimelineEventLaws | server/storage.ts:172-178 | The same merge laws for timeline events. |
| Schema.MergeTaskLaws | server/storage.ts:200-206 | The same merge laws for tasks. |
| Schema.MergeVendorLaws | server/storage.ts:228-234 | The same merge laws for vendors. |
| Schema.MergeSeatingTableLaws | server/storage.ts:256-262 | The same merge laws for seating tables. `shape` is not nullable, so a patch can only omit it or set it. |
| Schema.MergeWeddingDetailsLaws | server/storage.ts:279-283 | The same merge laws for the wedding details, all five of whose fields are non-null. |
| Schema.RequiredNumber | shared/schema.ts:63-64 | A required integer column accepts a field iff it is present and a number. |
| Schema.NullableNumber | shared/schema.ts:65-66 | A nullable integer column accepts a field that is absent, null or a number, and nothing else. |
| Schema.DefaultedString | shared/schema.ts:67 | A non-null text column with a default accepts a field that is absent or a string. It rejects null. |
| Schema.ParseNewSeatingTable | shared/schema.ts:85 | `insertSeatingTableSchema.parse` accepts exactly when every field passes its column check, and carries the two numbers. Otherwise it is a ZodError with at least one issue. |
| Dashboard.GuestProgress | client/src/pages/dashboard.tsx:33-35 | The rounded confirmed share lies in 0..100, and is 0 with no guests. |
| Dashboard.TaskProgress | client/src/pages/dashboard.tsx:41-43 | The rounded completed share lies in 0..100, and is 0 with no tasks. |
| Dashboard.TaskProgressExtremes | client/src/pages/dashboard.tsx:41-43 | Gives 100 when every task is completed and 0 when none is. |
| Dashboard.VendorProgress | client/src/pages/dashboard.tsx:45-47 | The rounded booked share lies in 0..100, and is 0 with no vendors. |
| Dashboard.BudgetProgress | client/src/pages/dashboard.tsx:37-39 | Gives 0 when the total budget is not positive, and lies in 0..100 while spending is within budget. Built on the corrected spent total. |
| Dashboard.BudgetProgressUncapped | client/src/pages/dashboard.tsx:39 | Not capped: spending at least 100.5% of the budget gives more than 100. |
| Dashboard.BudgetProgressAsWritten | client/src/pages/dashboard.tsx:37-39 | The figure as written is NaN (None) iff the budget is positive and some item has no actual amount. Whenever it is a number it equals the corrected `BudgetProgress`. |
| Dashboard.BudgetProgressAsWrittenNaN | client/src/pages/dashboard.tsx:38 | A budget of 5000.00 with one unpaid item shows NaN on the dashboard. The corrected figure is 0. |
| Dashboard.GetCountdown | client/src/pages/dashboard.tsx:49-60 | All zero when the date is unset or empty, or when the wedding is not in the future. The countdown is all NaN exactly when a non-empty date cannot be read as a time. |
| Dashboard.CountdownDecomposes | client/src/pages/dashboard.tsx:58-60 | Hours lie in 0..23 and minutes in 0..59. days·86400000 + hours·3600000 + minutes·60000 is at most the time left and less than a minute below it. |
| Dashboard.Preview | client/src/pages/dashboard.tsx:187 | `slice(0, n)` gives the first min(n, length) rows in store order; the dashboard uses it for 5 guests, 5 tasks and 3 vendors. |
| Text.InitialsOfTwoParts | client/src/pages/dashboard.tsx:192 | Initials of "a b" are the initials of a followed by those of b. |
| Text.InitialsOfWord | client/src/pages/guests.tsx:175 | One word without spaces gives its upper-cased first letter (a code point; see Left out). |
| Text.SplitPieces | client/src/pages/dashboard.tsx:192 | No piece of `split(' ')` contains a space. |
| Text.SplitJoin | client/src/pages/dashboard.tsx:192 | `split(' ')` loses nothing: joining the pieces with spaces gives the name back. |
| Text.Initials | client/src/pages/dashboard.tsx:192 | At most one letter per space-separated piece of the name, none of them a lower-case ASCII letter (letters are code points; see Left out). |
| Guests.FilteredGuests | client/src/pages/guests.tsx:35-38 | The result is an order-preserving subsequence holding exactly the guests that match the search. |
| Guests.SearchMeaning | client/src/pages/guests.tsx:35-38 | A guest matches iff the lower-cased term occurs in the lower-cased name, or the guest has an email and it occurs there. A null email never matches. |
| Guests.EmptySearchKeepsAll | client/src/pages/guests.tsx:35-38 | An empty search term keeps every guest. |
| Guests.MatchesSearch | client/src/pages/guests.tsx:35-38 | An empty term matches every guest. A term longer than both the name and the email (if any) matches nobody. |
| Guests.RsvpCounts | client/src/pages/guests.tsx:40-42 | Each of the confirmed, pending and declined counts is at most the number of guests. |
| Guests.RsvpCountsCover | client/src/pages/guests.tsx:40-42 | confirmed + pending + declined is at most the number of guests, with equality iff every status is one of those three. |
| Budget.TotalBudget | client/src/pages/budget.tsx:19 | The planned total is at least 0 when every planned amount is. |
| Budget.TotalSpent | client/src/pages/budget.tsx:20 | The corrected spent total, with a missing amount counting as 0: at least 0 when every amount is, and 0 when no item has an actual amount. |
| Budget.SpentAsWritten | client/src/pages/budget.tsx:20 | The spent total as written: NaN (None) iff some item has no actual amount. |
| Budget.SpentAsWrittenAgrees | client/src/pages/budget.tsx:20 | The spent total as written (NaN as None) is a number iff every item has an actual amount, and then it equals the corrected `TotalSpent`. |
| Budget.SpentAsWrittenNaN | client/src/pages/budget.tsx:20 | One item stored without an actual amount makes the as-written total NaN, while the corrected total is 0. |
| Budget.Remaining | client/src/pages/budget.tsx:21 | remaining = budget − spent, negative exactly when spending exceeds the budget. |
| Budget.SpentPercentage | client/src/pages/budget.tsx:22 | The percentage is an exact fraction with a positive denominator. It is 0 when the budget is not positive. |
| Budget.BarValue | client/src/pages/budget.tsx:112 | The bar shows min(percentage, 100). It never exceeds 100 and equals the percentage when that is at most 100. |
| Budget.WarningMeansOverspent | client/src/pages/budget.tsx:113-117 | The warning shows iff the percentage exceeds 100, that is, for a positive budget, iff spent > budget. It never shows for a budget of 0 or less. |
| Budget.OverBudgetLabel | client/src/pages/budget.tsx:190-195 | "Over" needs an actual amount above the planned one. An amount equal to the planned one, or a missing amount (NaN compares false), is "Within". |
| Budget.CategorizeItems | client/src/pages/budget.tsx:24-30 | Throws (ok false) iff some category is a name inherited from `Object.prototype`. Otherwise one group per category in first-appearance order, each holding exactly that category's items in list order. |
| Budget.ConstructorCategoryThrows | client/src/pages/budget.tsx:24-30 | A budget item whose category is "constructor" makes the grouping throw. |
| Budget.CategoryTotalsAddUp | client/src/pages/budget.tsx:158-161 | The per-category budget and spent totals add up to the overall totals. |
| Grouping.GroupBy | client/src/pages/budget.tsx:24-30 | The in-place grouping loop throws (ok false) iff some key is an inherited name such as "constructor", whose `acc[k].push` is undefined. Otherwise it produces `Categories` as its key order and `Members` as each group. |
| Grouping.GroupableIffCategories | client/src/pages/budget.tsx:24-30 | The loop throws iff one of the categories it would list is an inherited name. |
| Grouping.MembersAreWithKey | client/src/pages/budget.tsx:24-30 | The members of a group are exactly the elements the sort module selects by key, in the same order. |
| Grouping.GroupTotals | client/src/pages/budget.tsx:158-161 | Each item lies in exactly one group, so per-group sums add up to the sum over all items. |
| Vendors.BookedPartition | client/src/pages/vendors.tsx:19-20 | Booked and unbooked vendors split the list: as multisets they add up to it, the counts add up (booked + pending = total), and both keep list order. |
| Vendors.TotalContractAmount | client/src/pages/vendors.tsx:40-42 | The contract total is at least 0 when every amount is (a missing or empty one counting as 0), and 0 when no vendor is booked. |
| Vendors.BookedSum | client/src/pages/vendors.tsx:40-42 | Summing the contract values of the booked vendors equals summing, over all vendors, the amount each contributes when booked. |
| Vendors.TotalContractAmountCountsBooked | client/src/pages/vendors.tsx:40-42 | The contract total sums over booked vendors only, with a missing amount counting as 0. |
| Vendors.CategorizeVendors | client/src/pages/vendors.tsx:22-28 | Throws (ok false) iff some category is an inherited name. Otherwise one group per category in first-appearance order, each holding exactly that category's vendors in list order. |
| Vendors.CategoryGroupsCoverVendors | client/src/pages/vendors.tsx:22-28 | The group sizes add up to the number of vendors. |
| Seating.SortedTables | client/src/pages/seating.tsx:54 | A permutation of the tables in non-decreasing table-number order. Tables with equal numbers keep their relative order. |
| Seating.UnassignedGuests | client/src/pages/seating.tsx:55 | Exactly the guests with no table or with table 0, in list order. |
| Seating.AssignedGuests | client/src/pages/seating.tsx:60 | Exactly the guests whose assignment equals the table number, in list order. |
| Seating.TableZeroIsBoth | client/src/pages/seating.tsx:55 | A guest at table 0 is listed as unassigned and also under table 0. |
| Seating.TableAssignments | client/src/pages/seating.tsx:58-66 | One row per table in sorted order, holding exactly the guests seated there. available = capacity − occupancy, unclamped. |
| Seating.SharedNumberSharesGuests | client/src/pages/seating.tsx:60 | Two tables with the same number report the same guests. |
| Seating.TableOptionOf | client/src/pages/seating.tsx:140-146 | An option shows capacity − occupancy seats left and is disabled iff occupancy ≥ capacity. |
| Seating.TableOptions | client/src/pages/seating.tsx:139-151 | One option per table in sorted order. |
| Seating.OptionsMatchAssignments | client/src/pages/seating.tsx:140-146 | An option and its row in the assignment list agree on the seats left. The option is enabled iff a seat is free. |
| Seating.AssignRequest | client/src/pages/seating.tsx:133 | The request names the chosen guest and sets only `tableAssignment`. It is a number iff `parseInt` of the option value is one, and null otherwise. |
| Seating.RemoveRequest | client/src/pages/seating.tsx:196 | The request names the guest and sets only `tableAssignment`, to null. |
| Seating.ChosenOptionSeatsGuest | client/src/pages/seating.tsx:133 | Choosing a table's option sends `parseInt` of its text. This seats the guest at exactly that table and changes no other field (integers written without exponent; see Left out). |
| Seating.RemoveUnassigns | client/src/pages/seating.tsx:196 | "Remove" updates only this guest, setting `tableAssignment` to null. Every other field is kept. |
| Seating.MoveGuestOccupancy | client/src/pages/seating.tsx:58-66 | Moving one guest from table a to table b lowers the occupancy of a by one and raises that of b by one. Other tables are unchanged. |
| Seating.TotalCapacity | client/src/pages/seating.tsx:228 | The total capacity is at least 0 when every table's capacity is. |
| Seating.SeatingStats | client/src/pages/seating.tsx:221-237 | The table count is the number of tables. The confirmed and unassigned counts are at most the number of guests. The capacity is at least 0 when every capacity is. |
| Seating.CapacityOfSortedTables | client/src/pages/seating.tsx:228 | The total capacity is the same over the sorted and the stored list. |
| SeatingChartComponent.Clamp | client/src/components/seating-chart.tsx:82-83 | The clamped position is never negative. It is at most extent − 100 when extent ≥ 100, and exactly p − 50 when that fits. |
| SeatingChartComponent.DropPatch | client/src/components/seating-chart.tsx:76-85 | The drop update sets positionX and positionY and no other field. Both are at least 0, and at most width − 100 (height − 100) when the chart is at least 100 wide (high). |
| SeatingChartComponent.DropMovesOnly | client/src/components/seating-chart.tsx:79-85 | The drop update changes only positionX and positionY. tableNumber, capacity and shape survive the merge. |
| SeatingChartComponent.SeatingChart.DragStart | client/src/components/seating-chart.tsx:61-64 | Remembers the dragged table. |
| SeatingChartComponent.SeatingChart.Drop | client/src/components/seating-chart.tsx:71-88 | Without a dragged table or a chart element, no request is made and the drag state stays. Otherwise the update for the dragged id is sent and the drag is cleared. |
| SeatingChartComponent.TableColor | client/src/components/seating-chart.tsx:94-102 | A non-negative number n gets colour n % 4. A negative number that is not a multiple of 4 indexes outside the list (JavaScript `%`) and gets none. |
| SeatingChartComponent.TableColorCycles | client/src/components/seating-chart.tsx:101 | Table numbers four apart share a colour. |
| SeatingChartComponent.TableShape | client/src/components/seating-chart.tsx:90-92 | "rounded-lg" iff the shape is "rectangular", otherwise "rounded-full". |
| SeatingChartComponent.ChartAssignedGuests | client/src/components/seating-chart.tsx:104-106 | A table's guests are exactly those with `tableAssignment === tableNumber`. |
| SeatingChartComponent.ParsedNumber | client/src/components/seating-chart.tsx:111 | `parseInt` of a form field: a number iff it parses, and otherwise null, as NaN is serialised. |
| SeatingChartComponent.AddTablePayloadAsWritten | client/src/components/seating-chart.tsx:108-115 | The posted body has exactly the five fields, positions 100 and the chosen shape. tableNumber is the form's text, a string. |
| SeatingChartComponent.AddTablePayload | client/src/components/seating-chart.tsx:108-115 | The same five fields, but tableNumber is never a string: it is the parsed number, or null. |
| SeatingChartComponent.PayloadFields | client/src/components/seating-chart.tsx:109-115 | The posted body has exactly the five fields, each holding the value put there. |
| SeatingChartComponent.AddTableAsWrittenAlwaysRefused | client/src/components/seating-chart.tsx:108-115 | Passing tableNumber as the raw form text makes every create fail validation with "Expected number, received string". |
| SeatingChartComponent.TextNumberRefused | client/src/components/seating-chart.tsx:110 | Any payload whose tableNumber is text is refused with that issue. |
| SeatingChartComponent.AddTableAccepted | client/src/components/seating-chart.tsx:108-115 | With tableNumber parsed like capacity, the payload is accepted iff both fields parse. It then creates that table at (100, 100) with the chosen shape. |
| SeatingChartComponent.PayloadAccepted | client/src/components/seating-chart.tsx:109-115 | A payload at (100, 100) is accepted iff both numbers are numbers, and then carries them. |
| SeatingChartComponent.AddTableFromNumbers | client/src/components/seating-chart.tsx:108-115 | A form holding the decimal texts of two integers creates exactly that table (integers read back exactly; see Left out). |
| Timeline.SortedEvents | client/src/pages/timeline.tsx:18-22 | A permutation of the events in non-decreasing start-time order. Events with equal times keep stored order. |
| Timeline.SortedEventsOfSorted | client/src/pages/timeline.tsx:18-22 | Events already in time order come back unchanged. |
| Timeline.EventTypeColor | client/src/pages/timeline.tsx:34-47 | Gray iff the lower-cased type is none of ceremony, reception, photo or cocktail. |
| Timeline.EventTypeColorIgnoresCase | client/src/pages/timeline.tsx:35 | A type and its lower-cased form get the same colour. |
| Timeline.EventTypeColorExamples | client/src/pages/timeline.tsx:34-47 | "getting-ready", "rehearsal" and "other" are gray. "Ceremony" is rose gold. |
| Timeline.Connectors | client/src/pages/timeline.tsx:98 | One flag per event. Every event before the last has a connector, and the last has none. |
| Timeline.ConnectorsBetweenEvents | client/src/pages/timeline.tsx:98 | A connector follows every event but the last. |
| JsNumbers.ParseInt | server/routes.ts:28 | A string without any decimal digit parses to NaN. |
| JsNumbers.ParseIntSkipsWhitespace | server/routes.ts:28 | `parseInt` skips any leading ECMAScript white space or line terminator, whatever follows it. |
| JsNumbers.ParseIntSkipsUnicodeSpace | server/routes.ts:28 | The ideographic space, the line separator and the byte order mark are skipped like a space. |
| JsNumbers.ParseIntRoundTrip | client/src/pages/seating.tsx:133 | `parseInt` of an integer's decimal text gives the integer back (integers below 2^53 in JavaScript; see Left out). |
| JsNumbers.JsRem | client/src/components/seating-chart.tsx:101 | JavaScript `%` by a positive number keeps the dividend's sign, and its magnitude is the Euclidean remainder of the magnitudes. |
| JsNumbers.RoundedPercent | client/src/pages/dashboard.tsx:35 | Round-half-up of the exact ratio 100·part/whole: the integer r with 2·whole·r ≤ 200·part + whole < 2·whole·(r+1). The page rounds a double instead (see Left out). |
| JsNumbers.ProgressPercent | client/src/pages/dashboard.tsx:35 | A share of a count lies in 0..100. It is 0 for an empty total or a zero part, and 100 for the full part. |

## Left out

- Floating point: `parseFloat`, `toFixed` and `toLocaleString` of amounts are not modelled. Amounts are exact integer cents, so rounding in float sums is not captured.
- Dates and the clock: `new Date(...)` parsing is a parameter. `Dashboard.GetCountdown` takes the reading of the wedding date in milliseconds (None where `getTime()` is NaN) and the current time, and `Timeline.SortedEvents` takes the start-time reading as a function.
- `Timeline.SortedEvents`: a start time that `Date` cannot read gives NaN, which makes the comparator inconsistent. The model assumes every start time reads as a number.
- Case mapping is ASCII only (`Text.Lower`, `Text.Upper`). Unicode case folding is not modelled.
- Numbers: JavaScript numbers are IEEE doubles, and the model treats them as unbounded integers. `toString` switches to exponent form from 1e21 on ("1e+21"), `parseInt` of a digit run above 2^53 returns a rounded double, and fractional JSON numbers cannot be written as a `Json` value.
- `JsNumbers.ParseIntRoundTrip`: holds for every integer here. In JavaScript it holds only below 2^53 in magnitude: from 1e21 on `toString` gives "1e+21", which `parseInt` reads as 1, and between 2^53 and 1e21 the digits are read back rounded.
- `JsNumbers.IntToDecimal`: writes every digit, as `toString` does only below 1e21 in magnitude.
- `Seating.ChosenOptionSeatsGuest`: stated for every table number. In the source a table number of 1e21 or more is written "1e+21" in the option and read back as 1, so the guest would be seated at table 1; above 2^53 the number read back is rounded.
- `SeatingChartComponent.AddTableFromNumbers`: stated for every integer. In the source a digit run above 2^53 is read back as a rounded double, so the table created can differ from the one typed.
- `Text.Initials`: strings are sequences of Unicode code points, while `n[0]` in the source takes the first UTF-16 code unit. For a word starting outside the Basic Multilingual Plane (such as "𠮷野") the page shows a lone surrogate, and the model the whole character.
- `Text.InitialsOfWord`: the same code point versus UTF-16 code unit difference as `Text.Initials`.
- `Text.FirstLetters`: the same code point versus UTF-16 code unit difference as `Text.Initials`.
- `undefined` and `null` are not distinguished in stored rows. Both are `None`.
- The 500 branches of the list, get and delete handlers are not modelled. `MemStorage` never throws there, so they are unreachable. The 500 branches of POST and PUT are modelled as `Threw`.
- The zod schemas other than the seating table's are a parameter of the handlers (`Parsed`). Their field-level rules are not modelled, only their outcome.
- `Object.entries` lists integer-like keys first in numeric order. `Grouping.GroupBy` lists categories in first-appearance order, which differs only for categories that are decimal integers.
- Money columns hold integer cents, so a stored amount is always a number or absent. `Vendors.TotalContractAmount` counts an absent amount as 0, as client/src/pages/vendors.tsx:41 does for any falsy amount, the empty string included. Non-numeric text, for which `parseFloat` gives NaN there, cannot be stored in the model.
- `JsNumbers.RoundedPercent`: rounds the exact ratio 100·part/whole half up. The pages compute `Math.round((part / total) * 100)` in IEEE doubles, where the division and the multiplication can each round a half-way value down: 23/40 gives 57.49999999999999 and so 57 on the page, 58 here; 29/200 gives 14 there and 15 here.
- `Dashboard.GuestProgress`: built on `JsNumbers.RoundedPercent`, so it can be 1 above the page's figure at the half-way cases above.
- `Dashboard.TaskProgress`: the same half-way divergence as `Dashboard.GuestProgress`.
- `Dashboard.VendorProgress`: the same half-way divergence as `Dashboard.GuestProgress`.
- `Dashboard.BudgetProgress`: the same half-way divergence, and it is built on the corrected spent total (see Findings).
- `SeatingChartComponent.Clamp`: pointer coordinates are whole pixels. Fractional coordinates are not modelled.
- React rendering, hooks, `fetch` and React Query, toasts, dialogs and forms other than "Add Table", navigation and the app shell are not modelled. Neither are the asynchronous `Promise` plumbing of the store and the Express server setup.
- `Dashboard.Previews`: states no property of its own; `Dashboard.Preview` carries the contract.

## Findings

| source | as written | input that shows it | evidently intended | confidence | as-written member | corrected member |
|---|---|---|---|---|---|---|
| client/src/components/seating-chart.tsx:108-115 | `handleAddTable` sends `tableNumber` as the form's text while `capacity` goes through `parseInt`; `insertSeatingTableSchema` requires a number, so the POST is refused with 400 | any form, e.g. tableNumber "1", capacity "8", shape "round" | parse `tableNumber` like `capacity`, so that a form of two integers creates that table | not executed | SeatingChartComponent.AddTableAsWrittenAlwaysRefused | SeatingChartComponent.AddTableAccepted |
| client/src/pages/budget.tsx:20 | `totalSpent` sums `parseFloat(item.actualAmount)`; the store applies no column default, so an item created without `actualAmount` contributes NaN and the total, remaining amount and percentage become NaN | one item `{category: "venue", description: "Deposit", budgetAmount: "5000.00"}` | count a missing actual amount as 0, as the vendor page's contract total does | not executed | Budget.SpentAsWrittenNaN | Budget.SpentAsWrittenAgrees |
| client/src/pages/dashboard.tsx:38 | `spentBudget` sums `parseFloat(item.actualAmount)` like the budget page, so one item without an actual amount makes `budgetProgress` NaN and the dashboard shows "NaN%" whenever the budget is positive | one item `{category: "venue", description: "Deposit", budgetAmount: "5000.00"}` | count a missing actual amount as 0, giving 0% here | not executed | Dashboard.BudgetProgressAsWrittenNaN | Dashboard.BudgetProgress |
