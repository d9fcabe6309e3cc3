# Retail planning core, modelled in Dafny

This project models the computational core of a retail planning single-page
application. The application keeps four flat collections: stores, SKUs
(stock-keeping units with a unit price and a unit cost), calendar weeks, and
planning facts. A planning fact holds the planned sales units of one SKU in one
store and one week. Users import the collections from an Excel workbook. They
edit sales units in a grid that derives sales dollars, gross-margin (GM) dollars
and GM % per week. They also look at a per-store chart of the weekly margin, and
maintain the store and SKU lists through dialogs and reducers.

The model covers these parts:

| module | models |
|---|---|
| `Records`, `Lists` | the record types, and the `find` / `findIndex` / `filter` / replace-first primitives everything is built from |
| `Margin` | `calculateGMData`, the gross-margin formula |
| `GridFields`, `GridColumns`, `GridRows`, `GridEdit` | the planning grid: field names, month-grouped columns, the capped store × SKU row build, and the sales-units edit handler with its upsert of the persisted copy |
| `PlanningSlice`, `StoreSlice`, `SkuSlice`, `AuthSlice` | the four reducers |
| `StoreList`, `StoreForm`, `SkuForm` | the store-list move/remove handlers, and the two add dialogs with their own validation |
| `Validators` | the shared validators |
| `Formatters` | the GM % colour bands |
| `StoreChart` | the per-store weekly chart: a stable sort by sequence number, then pooled sums |
| `ExcelImport` | the workbook-to-records mapping, on an abstract workbook |
| `JsText` | the JavaScript built-ins the core depends on: `trim`, `replace(/[$,]/g, '')`, `split('_')[0]`, `parseFloat`, `parseInt(·, 10)` and `Number` on strings |

Conventions used throughout:

- JavaScript numbers are Dafny `real`s.
- NaN exists only as the `NotANumber` result of the text parsers.
- `isNaN(x) ? 0 : x` and `x || 0` are written `OrZero`.
- Error objects (`Record<string, string>`) are maps from a `Field` datatype to the message. `Validators.PropertyName` gives each field's JavaScript property name.
- Handlers that dispatch and also save to storage return the reducer state and the saved list together, so each can be stated about the other.

## Model

| member | source | states |
|---|---|---|
| `Margin.Percentage` | src/components/Planning/PlanningGrid.tsx:36 | with positive sales the percentage times sales is 100 × margin; otherwise it is exactly 0; a margin between 0 and sales gives a percentage in 0..100 |
| `Margin.GmData` | src/components/Planning/PlanningGrid.tsx:33-43 | sales dollars are units × price, GM dollars are units × (price − cost), and the GM % follows the guarded percentage rule |
| `Margin.ZeroUnitsGiveZeros` | src/components/Planning/PlanningGrid.tsx:33-36 | zero units give three exact zeros, never a NaN percentage |
| `Margin.PercentageIndependentOfUnits` | src/components/Planning/PlanningGrid.tsx:33-36 | with positive units and price, GM % is 100 × (price − cost) / price, whatever the unit count |
| `Margin.PercentageWithinBounds` | src/components/Planning/PlanningGrid.tsx:36 | a cost between 0 and the price keeps GM % within 0..100 |
| `Margin.WorkedExample` | src/components/Planning/PlanningGrid.tsx:33-43 | 10 units at 25 with cost 15 give 250 sales dollars, 100 GM dollars and 40 % |
| `GridFields.MetricOfFieldName` | src/components/Planning/PlanningGrid.tsx:92-120 | the field of a week and metric ends with that metric's suffix and with no other metric's suffix |
| `GridFields.FieldNameInjective` | src/components/Planning/PlanningGrid.tsx:87-131 | two (week id, metric) pairs with the same field name are the same pair |
| `GridFields.FieldNamesDiffer` | src/components/Planning/PlanningGrid.tsx:87-131 | different (week id, metric) pairs give different field names, so no cell write lands on another week's or metric's cell |
| `GridFields.CellValue` | src/components/Planning/PlanningGrid.tsx:174-184 | a sales-units cell holds the units; the other three cells hold units × price, units × (price − cost), and `calculateGMData`'s percentage |
| `GridFields.WeekIdOf` | src/components/Planning/PlanningGrid.tsx:210 | the week id is the prefix of the field before its first `_` (the whole field when it has none) |
| `GridFields.WeekIdRoundTrip` | src/components/Planning/PlanningGrid.tsx:209-210 | for a week id without `_`, the sales-units field passes the `endsWith` test and `split('_')[0]` gives the week id back |
| `GridFields.WeekIdWithUnderscoreIsTruncated` | src/components/Planning/PlanningGrid.tsx:209-210 | the sales-units field of week `W_1` is attributed to week `W` |
| `GridColumns.AddToGroup` | src/components/Planning/PlanningGrid.tsx:77-80 | pushing a week onto its existing month group keeps the grouping invariant: distinct months, each group exactly its month's weeks in calendar order, every week's month present, groups in first-appearance order; one more week in total |
| `GridColumns.AddNewGroup` | src/components/Planning/PlanningGrid.tsx:77-80 | a week of a new month opens a group at the end and keeps the same invariant |
| `GridColumns.AddWeekKeepsGrouped` | src/components/Planning/PlanningGrid.tsx:75-81 | one `forEach` step keeps the grouping invariant and adds exactly one week |
| `GridColumns.GroupWeeks` | src/components/Planning/PlanningGrid.tsx:74-81 | after the whole `forEach`, the groups are the month partition of the calendar (distinct months, each group exactly its month's weeks in calendar order, every week's month present, first-appearance order), holding as many weeks as the calendar |
| `GridColumns.MonthColumnsShape` | src/components/Planning/PlanningGrid.tsx:84-138 | the store and SKU columns come first, then one month column per group, in group order, each headed by the month key |
| `GridColumns.MonthHeaders` | src/components/Planning/PlanningGrid.tsx:84-86 | the month headers are distinct, every calendar week's month has one, and they appear in order of the month's first week |
| `GridColumns.ColumnDefs` | src/components/Planning/PlanningGrid.tsx:46-139 | the column tree: store and SKU columns first, then distinct month headers covering every calendar week's month, and under each header exactly that month's weeks, in calendar order |
| `GridColumns.WeekLeafFields` | src/components/Planning/PlanningGrid.tsx:87-131 | each week has four leaves, named `<id>_salesUnits`, `_salesDollars`, `_gmDollars`, `_gmPercentage` in that order; only the first is editable |
| `GridRows.WriteWeekValues` | src/components/Planning/PlanningGrid.tsx:174-184 | after a week's four assignments, each of its cells holds its metric for the looked-up units and the row SKU's price and cost |
| `GridRows.WeekCellsKeys` | src/components/Planning/PlanningGrid.tsx:166-185 | a row has a cell exactly for each metric of each calendar week |
| `GridRows.WeekCellsValues` | src/components/Planning/PlanningGrid.tsx:166-185 | every week cell holds its metric for the units of the first fact matching (store, sku, week), or 0 units when none matches |
| `GridRows.MakeRowMeaning` | src/components/Planning/PlanningGrid.tsx:158-185 | a row carries its store's and SKU's ids and labels, and the week cells described above |
| `GridRows.CrossLength` | src/components/Planning/PlanningGrid.tsx:151-152 | the uncapped store × SKU list has `|stores| × |skus|` rows |
| `GridRows.CrossAt` | src/components/Planning/PlanningGrid.tsx:151-152 | row `a × |skus| + b` of the uncapped list is the row of store `a` and SKU `b` (stores outermost) |
| `GridRows.BuildRows` | src/components/Planning/PlanningGrid.tsx:146-190 | the nested loops emit `min(100, |stores| × |skus|)` rows, which are a prefix of the store-major list |
| `GridRows.StoreRows` | src/components/Planning/PlanningGrid.tsx:152-189 | the inner loop appends the store's rows in SKU order until the cap of 100 is reached |
| `GridRows.RefreshRows` | src/components/Planning/PlanningGrid.tsx:142-195 | rows are rebuilt only when there are stores and SKUs; otherwise the previous rows stay |
| `GridEdit.ParsedUnits` | src/components/Planning/PlanningGrid.tsx:96-98 | the edited text is read with `Number`; a text that is not a number becomes 0 |
| `GridEdit.CellOrZero` | src/components/Planning/PlanningGrid.tsx:213 | the units are the cell's value, or 0 when the cell is missing |
| `GridEdit.WriteDerivedKeys` | src/components/Planning/PlanningGrid.tsx:227-229 | the handler's writes add exactly the week's three derived cells |
| `GridEdit.WriteDerivedValues` | src/components/Planning/PlanningGrid.tsx:220-229 | each derived cell holds `calculateGMData`'s value for the new units and the SKU's price and cost |
| `GridEdit.WriteDerivedKeepsOthers` | src/components/Planning/PlanningGrid.tsx:227-229 | every cell outside the three derived cells is unchanged |
| `GridEdit.OnCellValueChanged` | src/components/Planning/PlanningGrid.tsx:203-269 | a non-sales-units field, or a row whose SKU is unknown, changes nothing and saves nothing; otherwise the week's derived cells are recomputed, the reducer upserts the fact, and the same list is saved |
| `GridEdit.CommitEdit` | src/components/Planning/PlanningGrid.tsx:203-265 | an edit stores the parsed units in the cell and then runs the handler; with an unknown SKU the facts are untouched and nothing is saved |
| `GridEdit.SavedPlanningData` | src/components/Planning/PlanningGrid.tsx:253-262 | the copy saved to storage (find index, replace or push) is the reducer's upsert of the same fact |
| `GridEdit.EditSameWeek` | src/components/Planning/PlanningGrid.tsx:220-229 | after an edit, each of the week's four cells holds its metric for the new units |
| `GridEdit.EditOtherWeek` | src/components/Planning/PlanningGrid.tsx:227-229 | cells of other weeks keep their values |
| `GridEdit.EditMatchesRebuild` | src/components/Planning/PlanningGrid.tsx:209-264 | for a week id without `_` and a known SKU, the edited row equals the row rebuilt from the upserted facts, and those facts are what is stored and saved |
| `PlanningSlice.SetWeeks` | src/redux/slices/planningSlice.ts:18-20 | the weeks are replaced wholesale; the facts are untouched |
| `PlanningSlice.SetPlanningData` | src/redux/slices/planningSlice.ts:21-23 | the facts are replaced wholesale; the weeks are untouched |
| `PlanningSlice.Upsert` | src/redux/slices/planningSlice.ts:24-35 | the length is unchanged, or the payload is appended; it grows exactly when no fact has the key; facts with another key keep their positions; the payload is present |
| `PlanningSlice.UpdatePlanningData` | src/redux/slices/planningSlice.ts:24-35 | the action upserts the facts and leaves the weeks alone |
| `PlanningSlice.UpsertReplacesFirstMatch` | src/redux/slices/planningSlice.ts:26-31 | when a fact has the key, the first such fact is replaced in place |
| `PlanningSlice.UpsertAppendsNewKey` | src/redux/slices/planningSlice.ts:32-34 | when no fact has the key, the payload is appended at the end |
| `PlanningSlice.UpsertThenLookup` | src/redux/slices/planningSlice.ts:24-35 | after the upsert, the first fact with the key is the payload, so the grid reads the new units |
| `PlanningSlice.UpsertKeepsOtherLookups` | src/redux/slices/planningSlice.ts:24-35 | the lookup of any other key gives the same fact and units as before |
| `PlanningSlice.UpsertKeepsKeysUnique` | src/redux/slices/planningSlice.ts:26-34 | unique keys stay unique, and the payload is the only fact carrying its key |
| `PlanningSlice.UpsertIdempotent` | src/redux/slices/planningSlice.ts:26-34 | upserting the same fact twice gives the list of upserting it once |
| `PlanningSlice.UpdatePlanningDataIdempotent` | src/redux/slices/planningSlice.ts:24-35 | dispatching the same update twice gives the state of dispatching it once |
| `StoreSlice.MaxSeqNo` | src/redux/slices/storeSlice.ts:23-25 | `Math.max` of the sequence numbers bounds every store's number and is one of them |
| `StoreSlice.NextSeqNo` | src/redux/slices/storeSlice.ts:23-26 | the handed-out number is 1 for an empty list, else one more than the largest existing number (`Math.max`), so it exceeds every existing one |
| `StoreSlice.SetStores` | src/redux/slices/storeSlice.ts:18-20 | the list is replaced; the selection is untouched |
| `StoreSlice.AddStore` | src/redux/slices/storeSlice.ts:21-28 | the payload is appended with sequence number one more than the largest earlier one (1 on an empty list), so above all earlier ones; earlier stores and the selection are unchanged |
| `StoreSlice.AddStoreAcceptsDuplicateId` | src/redux/slices/storeSlice.ts:21-28 | a store whose id is taken is still appended, with no uniqueness check |
| `StoreSlice.UpdateStore` | src/redux/slices/storeSlice.ts:29-34 | the length is unchanged and stores with other ids are untouched; without a match it is a no-op; with one the payload is in the list |
| `StoreSlice.UpdateStoreReplacesFirst` | src/redux/slices/storeSlice.ts:30-32 | the first store with the id is the one replaced |
| `StoreSlice.WithoutStore` | src/redux/slices/storeSlice.ts:36 | the survivors are exactly the stores without the id |
| `StoreSlice.RemoveStore` | src/redux/slices/storeSlice.ts:35-37 | every store with the id is removed; the selection is untouched |
| `StoreSlice.RemoveStoreIdempotent` | src/redux/slices/storeSlice.ts:35-37 | removing twice is removing once |
| `StoreSlice.RemoveStoreKeepsOrder` | src/redux/slices/storeSlice.ts:36 | removal distributes over concatenation, so the survivors keep their order |
| `StoreSlice.ReorderStores` | src/redux/slices/storeSlice.ts:38-40 | the list is replaced by the new order |
| `StoreSlice.SelectStore` | src/redux/slices/storeSlice.ts:41-43 | only the selection changes |
| `SkuSlice.SetSkus` | src/redux/slices/skuSlice.ts:16-18 | the list is replaced wholesale |
| `SkuSlice.AddSku` | src/redux/slices/skuSlice.ts:19-21 | the payload is appended unchanged after the existing SKUs |
| `SkuSlice.UpdateSku` | src/redux/slices/skuSlice.ts:22-27 | the length is unchanged and other ids are untouched; without a match it is a no-op; with one the payload is in the list |
| `SkuSlice.UpdateSkuReplacesFirst` | src/redux/slices/skuSlice.ts:23-25 | the first SKU with the id is the one replaced |
| `SkuSlice.RemoveSku` | src/redux/slices/skuSlice.ts:28-30 | no survivor has the id, every SKU without it survives, and nothing is removed when none has it |
| `SkuSlice.RemoveSkuIdempotent` | src/redux/slices/skuSlice.ts:28-30 | removing twice is removing once |
| `SkuSlice.RemoveSkuKeepsOrder` | src/redux/slices/skuSlice.ts:29 | removal distributes over concatenation, so the survivors keep their order |
| `AuthSlice.Login` | src/redux/slices/authSlice.ts:13-16 | after a login the user is authenticated under the given name |
| `AuthSlice.Logout` | src/redux/slices/authSlice.ts:17-20 | a logout returns to the initial state: empty name, not authenticated |
| `AuthSlice.LoginForgetsPriorState` | src/redux/slices/authSlice.ts:13-16 | the state after a login does not depend on the state before it |
| `AuthSlice.LogoutIdempotent` | src/redux/slices/authSlice.ts:13-20 | logging out twice is logging out once, and a login followed by a logout leaves the initial state |
| `Formatters.GmPercentageColor` | src/utils/formatters.ts:17-22 | green exactly from 40, yellow exactly on [10, 40), orange exactly on (5, 10), red exactly at or below 5 |
| `Formatters.ColorMonotone` | src/utils/formatters.ts:17-22 | a higher percentage never gets a worse band |
| `StoreList.SwapAdjacent` | src/components/Stores/StoreList.tsx:56-62 | neighbours change places while each position keeps its sequence number; every other position is untouched |
| `StoreList.MoveUp` | src/components/Stores/StoreList.tsx:54-67 | at index 0 nothing happens; otherwise the store swaps with its upper neighbour, and the reordered list is dispatched and saved |
| `StoreList.MoveDown` | src/components/Stores/StoreList.tsx:69-82 | at the last index nothing happens; otherwise the store swaps with its lower neighbour, and the reordered list is dispatched and saved |
| `StoreList.RemoveStoreHandler` | src/components/Stores/StoreList.tsx:48-52 | the saved list is exactly the reducer's result after `removeStore` |
| `StoreList.MovesKeepSortedness` | src/components/Stores/StoreList.tsx:54-82 | a list sorted by sequence number stays sorted after any move |
| `StoreList.SwapAdjacentPermutesIds` | src/components/Stores/StoreList.tsx:56-62 | the exchange permutes the ids |
| `StoreList.MovesPermuteIds` | src/components/Stores/StoreList.tsx:54-82 | every move keeps the multiset of ids |
| `StoreList.MoveDownThenUpRestores` | src/components/Stores/StoreList.tsx:54-82 | moving a store down and then back up restores the list |
| `StoreChart.Insert` | src/components/Charts/StoreChart.tsx:59 | insertion adds exactly the one week |
| `StoreChart.InsertSorted` | src/components/Charts/StoreChart.tsx:59 | inserting into a list sorted by sequence number keeps it sorted |
| `StoreChart.SortWeeks` | src/components/Charts/StoreChart.tsx:59 | the sorted weeks are a permutation of the weeks, ordered by sequence number |
| `StoreChart.InsertStable` | src/components/Charts/StoreChart.tsx:59 | inserting into a sorted list puts the week ahead of those with an equal sequence number and keeps their relative order, which makes the sort stable |
| `StoreChart.SortWeeksStable` | src/components/Charts/StoreChart.tsx:59 | weeks sharing a sequence number keep their input order |
| `StoreChart.Contribution` | src/components/Charts/StoreChart.tsx:71-79 | a fact adds units × price to sales and units × (price − cost) to margin, using the first SKU with its id; with no such SKU it adds nothing |
| `StoreChart.SumAppend` | src/components/Charts/StoreChart.tsx:71-80 | the totals of two runs of facts add up |
| `StoreChart.SumSnoc` | src/components/Charts/StoreChart.tsx:71-80 | one more fact adds its contribution to the running totals |
| `StoreChart.PointFrom` | src/components/Charts/StoreChart.tsx:82-91 | a point carries the week label and the summed margin; its percentage is 100 × margin / sales when sales are positive, else 0 |
| `StoreChart.CalculateChartData` | src/components/Charts/StoreChart.tsx:55-95 | one point per week; the weeks are taken in an order that is a permutation of the calendar sorted by sequence number, and point `i` carries the label of sorted week `i`, the margin dollars summed over exactly that week's facts for the store, and the percentage of those sums |
| `StoreChart.WeekFacts` | src/components/Charts/StoreChart.tsx:63-65 | the facts kept are exactly the listed facts of the store and week |
| `StoreChart.PointOf` | src/components/Charts/StoreChart.tsx:61-91 | a week's point carries its label, the margin summed over its facts, and the percentage of the summed margin over the summed sales |
| `StoreChart.ContributionBounded` | src/components/Charts/StoreChart.tsx:71-79 | with non-negative units and a cost between 0 and the price, a fact's margin lies between 0 and its sales dollars |
| `StoreChart.SumBounded` | src/components/Charts/StoreChart.tsx:67-80 | under the same conditions for every fact and SKU, the summed margin lies between 0 and the summed sales |
| `StoreChart.ChartPercentageWithinBounds` | src/components/Charts/StoreChart.tsx:82-85 | under those conditions every chart percentage lies between 0 and 100 |
| `StoreChart.ChartOrder` | src/components/Charts/StoreChart.tsx:58-92 | the points are labelled with the weeks in sequence-number order; ties keep their input order |
| `StoreChart.EmptyWeekIsZero` | src/components/Charts/StoreChart.tsx:61-91 | a week without facts for the store shows margin 0 and 0 % |
| `StoreChart.SingleFactMatchesGrid` | src/components/Charts/StoreChart.tsx:71-91 | with a single fact in the week, the point's margin and percentage equal the grid's `calculateGMData` for that fact |
| `StoreChart.AddedFactSummed` | src/components/Charts/StoreChart.tsx:63-80 | an extra fact of the store and week adds its dollars to the week's totals, duplicates included; any other fact leaves them alone |
| `StoreChart.PooledPercentage` | src/components/Charts/StoreChart.tsx:67-91 | the week's margin and percentage come from sums pooled over its facts: two facts of 100 sales dollars each, with margins of 10 and 100 dollars, give 110 margin dollars and 55 % |
| `StoreChart.RefreshChart` | src/components/Charts/StoreChart.tsx:49-53 | the data is recomputed only with a selected store, SKUs and weeks; otherwise the previous data stays |
| `StoreChart.DefaultSelection` | src/components/Charts/StoreChart.tsx:42-47 | with nothing selected and stores present, the first store is selected; a selection is kept |
| `Validators.ReportOf` | src/utils/validators.ts:27-30 | `isValid` holds exactly when the error object is empty |
| `Validators.ValidateStoreData` | src/utils/validators.ts:6-31 | only id, label, city and state can carry errors, and the store is valid exactly when none does |
| `Validators.StoreIdChecked` | src/utils/validators.ts:9-13 | an id that is missing or blank after trimming is required; otherwise it is "not unique" exactly when another store has it under a different sequence number |
| `Validators.StoreTextChecked` | src/utils/validators.ts:15-25 | label, city and state each carry an error exactly when missing or blank after trimming |
| `Validators.ValidateSkuData` | src/utils/validators.ts:34-71 | only the six checked fields can carry errors, and the SKU is valid exactly when none does |
| `Validators.SkuIdChecked` | src/utils/validators.ts:37-41 | a blank id is required; otherwise any listed SKU with the id makes it "not unique" |
| `Validators.SkuTextChecked` | src/utils/validators.ts:43-53 | label, class and department each carry an error exactly when missing or blank after trimming |
| `Validators.SkuAmountsChecked` | src/utils/validators.ts:55-65 | a missing price or cost is required; a NaN or negative one is rejected; any other value passes |
| `Validators.ZeroAmountAccepted` | src/utils/validators.ts:55-65 | a price and a cost of exactly 0 are accepted |
| `Validators.ValidateLoginCredentials` | src/utils/validators.ts:74-89 | username and password carry errors exactly when blank after trimming, and the credentials are valid exactly when neither is blank |
| `Validators.ValidateFileType` | src/utils/validators.ts:92-95 | a file is accepted exactly when its MIME type is one of the two Excel types |
| `StoreForm.FormErrors` | src/components/Stores/StoreForm.tsx:32-44 | an empty id is required, a listed id is "not unique", and empty label, city and state are errors; there is no trimming |
| `StoreForm.ValidateForm` | src/components/Stores/StoreForm.tsx:32-44 | the form is valid exactly when there are no errors; then every field is non-empty and the id is unused |
| `StoreForm.HandleSubmit` | src/components/Stores/StoreForm.tsx:46-60 | an invalid form changes nothing and saves nothing; a valid one dispatches `addStore` with sequence number 0 and saves the list with the new store appended |
| `StoreForm.SavedSeqNoDiffersFromState` | src/components/Stores/StoreForm.tsx:48-57 | the saved copy keeps sequence number 0 for the new store, while the reducer gives it a positive number |
| `StoreForm.BlankLabelPassesDialogOnly` | src/components/Stores/StoreForm.tsx:38 | a label of one space passes the dialog but fails the shared validator |
| `SkuForm.FormErrors` | src/components/SKUs/SKUForm.tsx:35-53 | only the six inputs can carry an error |
| `SkuForm.FormIdChecked` | src/components/SKUs/SKUForm.tsx:38-39 | an empty id is required; a listed id is "not unique" |
| `SkuForm.FormTextChecked` | src/components/SKUs/SKUForm.tsx:41-43 | empty label, class and department are errors; white space passes |
| `SkuForm.FormPriceChecked` | src/components/SKUs/SKUForm.tsx:45-46 | an empty price is required; otherwise it is rejected exactly when `parseFloat` gives NaN or a negative number |
| `SkuForm.FormCostChecked` | src/components/SKUs/SKUForm.tsx:48-49 | the same rule for the cost |
| `SkuForm.ValidateForm` | src/components/SKUs/SKUForm.tsx:35-53 | the form is valid exactly when there are no errors; then the parsed price and cost are non-negative numbers and the id is unused |
| `SkuForm.HandleSubmit` | src/components/SKUs/SKUForm.tsx:55-70 | an invalid form changes nothing; a valid one adds the SKU built from the parsed amounts through `addSKU` and saves the same list |
| `SkuForm.TrailingTextAccepted` | src/components/SKUs/SKUForm.tsx:46 | a price of `12abc` is accepted and read as 12 |
| `ExcelImport.Text` | src/services/excel.service.ts:56-59 | a text column gives the cell's text, or `''` when the cell is absent |
| `ExcelImport.SeqNo` | src/services/excel.service.ts:55 | a sequence number is the cell's number, or 0 when absent |
| `ExcelImport.Money` | src/services/excel.service.ts:75-95 | a number cell is taken as is; a text is stripped of `$` and `,`, trimmed and read with `parseFloat`, with NaN giving 0; an absent cell gives 0 |
| `ExcelImport.Units` | src/services/excel.service.ts:129-140 | a number cell is taken as is; a text is read with `parseInt(·, 10)` without stripping, with NaN giving 0; an absent cell gives 0 |
| `ExcelImport.MapRows` | src/services/excel.service.ts:51 | one record per row, in row order |
| `ExcelImport.ParseWorkbook` | src/services/excel.service.ts:31-177 | the import succeeds exactly when all four sheets exist and Stores, SKUs and Calendar are non-empty; each collection then maps its sheet row by row; the three emptiness errors come in order |
| `ExcelImport.FirstMissingSheetReported` | src/services/excel.service.ts:32-43 | the error names the first missing sheet in the order Stores, SKUs, Calendar, Planning |
| `ExcelImport.StoreOf` | src/services/excel.service.ts:51-61 | an empty Stores row gives sequence number 0 and empty texts |
| `ExcelImport.SkuOf` | src/services/excel.service.ts:70-97 | an empty SKUs row gives empty texts and a price and cost of 0 |
| `ExcelImport.WeekOf` | src/services/excel.service.ts:106-116 | an empty Calendar row gives sequence number 0 and empty texts |
| `ExcelImport.FactOf` | src/services/excel.service.ts:125-142 | an empty Planning row gives empty ids and 0 units |
| `ExcelImport.OtherColumnsIgnored` | src/services/excel.service.ts:51-142 | a cell under a header a sheet's mapping does not read changes nothing in the record read from the row |
| `ExcelImport.StoreRowRoundTrip` | src/services/excel.service.ts:51-61 | a store written as a row is read back unchanged |
| `ExcelImport.SkuRowRoundTrip` | src/services/excel.service.ts:70-97 | a SKU written as a row is read back unchanged |
| `ExcelImport.WeekRowRoundTrip` | src/services/excel.service.ts:106-116 | a week written as a row is read back unchanged |
| `ExcelImport.FactRowRoundTrip` | src/services/excel.service.ts:125-142 | a fact written as a row is read back unchanged |
| `ExcelImport.WorkbookRoundTrip` | src/services/excel.service.ts:31-177 | a workbook written from non-empty stores, SKUs and weeks imports as exactly those records |
| `ExcelImport.DollarTextPrice` | src/services/excel.service.ts:76-77 | a price text `$` followed by a whole number is read as that number |
| `ExcelImport.FormattedPrice` | src/services/excel.service.ts:75-95 | `$1,234.50` is read as 1234.5 |
| `ExcelImport.NotANumberPriceIsZero` | src/services/excel.service.ts:75-95 | `N/A` is read as 0 |
| `ExcelImport.GroupedUnitsCutShort` | src/services/excel.service.ts:129-140 | `1,200` sales units are read as 1 |
| `ExcelImport.UnitsText` | src/services/excel.service.ts:129-140 | a sales-units text holding a whole number is read as that number |
| `JsText.Trim` | src/utils/validators.ts:9 | trimming leaves text that neither starts nor ends with white space; it is empty exactly when the input is white space only; it is a slice of the input with nothing but white space before and after it |
| `JsText.StripCurrency` | src/services/excel.service.ts:77 | the result has no `$` or `,`, and text without them is unchanged; a single `$` or `,` becomes empty and any other single character is kept |
| `JsText.StripCurrencyCons` | src/services/excel.service.ts:77 | a leading `$` or `,` is dropped and any other leading character is kept in front of the stripped rest, so with the single-character case every character other than `$` and `,` survives in order |
| `JsText.StripCurrencyIdempotent` | src/services/excel.service.ts:77 | stripping twice strips nothing more |
| `JsText.BeforeFirst` | src/components/Planning/PlanningGrid.tsx:210 | `split('_')[0]` is the prefix up to, not including, the first `_` |
| `JsText.ParseIntShowNat` | src/services/excel.service.ts:131 | `parseInt` reads a whole number back, whatever non-digit follows it |
| `JsText.ParseFloatShowNat` | src/services/excel.service.ts:77 | `parseFloat` reads a whole number back when neither a digit nor a point follows it |
| `JsText.NumberOfShowNat` | src/components/Planning/PlanningGrid.tsx:97 | `Number` accepts a rendered whole number |
| `JsText.ParseFloatNeedsDigit` | src/services/excel.service.ts:77 | blank text gives NaN, and a number comes only from text holding a digit |
| `JsText.ParseIntNeedsDigit` | src/services/excel.service.ts:131 | blank text gives NaN, a number comes only from text holding a digit, and every number is whole |
| `JsText.NumberOfNeedsDigit` | src/components/Planning/PlanningGrid.tsx:97 | blank text gives 0, and other text gives a number only when it holds a digit |
| `JsText.ScanDecimalOfLiteral` | src/services/excel.service.ts:77 | `sign digits . digits` followed by a non-digit is read as exactly that literal, with the signed value of its integer and fraction digits |
| `JsText.ParseFloatOfLiteral` | src/components/SKUs/SKUForm.tsx:62-63 | `parseFloat` gives the signed value of such a literal, whatever non-digit follows it |
| `JsText.NumberOfLiteralAlone` | src/components/Planning/PlanningGrid.tsx:97 | `Number` gives the signed value of such a literal standing alone |
| `JsText.NumberOfLiteralTrailing` | src/components/Planning/PlanningGrid.tsx:97 | `Number` gives NaN when other text, not continuing the digits and not ending in white space, follows such a literal |
| `JsText.ParseIntOfLiteral` | src/services/excel.service.ts:131 | `parseInt` gives the signed value of `sign digits`, whatever non-digit follows, so it stops at a decimal point |
| `Records.FindSku` | src/components/Planning/PlanningGrid.tsx:216 | the SKU found has the id and is listed; none is found exactly when no SKU has the id |
| `Records.FindFact` | src/components/Planning/PlanningGrid.tsx:168-172 | the fact found carries the key and is listed; none is found exactly when no fact has the key |
| `Records.UnitsForMeaning` | src/components/Planning/PlanningGrid.tsx:168-174 | the units looked up (`Records.UnitsFor`) are those of the first fact with the key, and 0 when no fact has it |
| `Records.UnitsForFirst` | src/components/Planning/PlanningGrid.tsx:168-174 | a fact with the key and none before it decides the units |
| `Lists.FindIndex` | src/redux/slices/planningSlice.ts:26-28 | the index found is the first one that passes the test; none is found exactly when no element passes |

## Left out

- Reading files is not modelled: `FileReader`, `XLSX.read` and `sheet_to_json`. The workbook is an abstract map from sheet name to rows, and each row maps header text to a number or text cell.
- JavaScript's dynamic typing of cells is not modelled. A text column is read only from text cells, and `Seq No.` only from number cells, so a numeric `ID` cell gives `''` here where the source keeps the number.
- The empty-id warnings of the import are not modelled, since they only log (src/services/excel.service.ts:156-170). Rows with empty ids are kept, which the model shows.
- Console logging, `localStorage` and JSON are left out. The lists a handler saves are returned beside the reducer state instead.
- Rendering is left out: React, MUI, AG Grid and recharts, `refreshCells`, cell styles and snackbars.
- `formatCurrency` and `formatPercentage` are left out, because they delegate to `Intl.NumberFormat`.
- Concurrency and the timing of effects are left out. The dispatch-then-save pair is modelled as one synchronous step.
- In-place mutation and aliasing are left out. The move handlers in src/components/Stores/StoreList.tsx mutate the reducer's store objects; they are modelled as a pure value swap.
- StoreList.MoveUp: the handler assigns `seqNo` on the store objects it copied out of the Redux state (src/components/Stores/StoreList.tsx:58-60). Redux Toolkit's `configureStore` (src/redux/store.ts:7) freezes that state, so in strict-mode code the assignment most likely throws a TypeError before `reorderStores` is dispatched and before `saveStores` runs, and the list stays as it was. The model describes the swap the handler evidently intends, not that likely failure.
- StoreList.MoveDown: the same likely failure as `MoveUp`, for the assignments at src/components/Stores/StoreList.tsx:73-75; the model describes the intended swap.
- JavaScript numbers are exact `real`s: IEEE-754 rounding, `Infinity` and `-0` are left out.
- `parseFloat`, `parseInt` and `Number` do not model exponents, `Infinity` or hexadecimal forms. `JsText.ScanDecimal` accepts only an optional sign, digits and an optional fraction.
- GridEdit.OnCellValueChanged: AG Grid fires the handler only when the value actually changed; the model applies it to every edit.
- GridEdit.ParsedUnits: the source keeps a NaN in the edited cell and uses `|| 0` only for the derived cells and the fact; the model stores the 0 in the cell as well.
- GridRows.BuildRows: rows are characterised as a prefix of the store-major list; indexing by store and SKU comes from `GridRows.CrossAt` for that list.
- The code and the documented behaviour of the application differ in two places, and the model follows the code:
  - a grid edit that is not a number becomes 0 and is not rejected;
  - the store dialog saves the new store with sequence number 0, while the reducer numbers it.
- Failures are modelled as plain messages, because the source has no typed error kinds.
- `src/types/store.types.ts` and `src/types/sku.types.ts` are not part of this model. The record fields are taken from their use sites.
- Routing, the login screen, the upload orchestration (`FileUploader`, `App.tsx`) and the storage service are outside the modelled core.
