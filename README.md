# Dyeing requisition and production dashboard — a Dafny model

This project models the computational core of a textile-dyeing web app:

- **Chemical requisition arithmetic.** Total liquor is fabric weight times liquor ratio, both clamped at zero. A chemical's quantity comes from its dosing (g/l of liquor) or from its shade (% of fabric weight). That quantity is split into kilograms, grams and milligrams, and a row's costing is that quantity times the unit price.
- **The chemical-items table.** Adding and removing rows, the per-field edit reducer with its "Dyeing step" special case, the whole-list recompute that runs whenever items, water or weight change, and the footer total.
- **The requisition header form.** Clamping, and deriving the total water.
- **The requisition page.** Initial state, the total-water effect, saving a recipe into the stored list (replacing one with the same id), clearing, and drag-reordering rows.
- **The recipe history search.** A case-insensitive substring filter, and the empty-result message.
- **The proforma invoice.** Line totals, the invoice total, and adding, editing, removing and reordering lines.
- **The fallback date parser** for "DD-Mon-YY" style dates, with the Gregorian calendar behind `new Date(y, m, d)`.
- **The production dashboard's statistics.** Records sorted latest first, one pass that fills the week, month, year and all-time buckets of the latest record's date, the water and CO2 totals, day-on-day growth, and the daily-target gauge.

How the model represents the program:

- Numbers are exact `real`s. A JavaScript `null` is `None` of `Option`, and where the program guards against `NaN`, a `NaN` value is also `None`.
- Dates are day numbers, with day 0 = 1 January 1970.
- The native date parser, the clock, `Math.random` and `localStorage` are parameters.

Files (one module each):

| file | module | models |
|---|---|---|
| types.dfy | Types | src/types/index.ts: records, water, dosing, shade, the kg/g/mg split |
| lists.dfy | Lists | the list operations the pages share: `filter`, `splice` reorders, `reduce` sums |
| text.dfy | Text | `toLowerCase` (ASCII), `includes` |
| chemical_items_table.dfy | ChemicalItemsTable | src/components/ChemicalItemsTable.tsx |
| dyeing_form.dfy | DyeingForm | src/components/DyeingForm.tsx |
| dyeing_calculator.dfy | DyeingCalculator | src/pages/DyeingCalculator.tsx |
| history.dfy | History | src/pages/History.tsx |
| proforma_invoice.dfy | ProformaInvoice | src/pages/ProformaInvoice.tsx |
| calendar.dfy | Calendar | the proleptic Gregorian calendar of JavaScript's `Date`, over day numbers |
| date_utils.dfy | DateUtils | src/utils/dateUtils.ts |
| production_dashboard.dfy | ProductionDashboard | src/pages/ProductionDashboard.tsx, src/types/productionAnalyzer.ts |

Where the program changes state step by step, the model does too:

- The recompute effect and the dashboard's `forEach` pass are `while` loops with invariants.
- Both reorder handlers splice an `array` in place.
- An invoice line is a `class` whose field `handleItemChange` assigns in place.

## Model

| member | source | states |
|---|---|---|
| Types.TotalWater | src/types/index.ts:67-73 | null exactly when either input is null; never negative; equals weight × ratio when both are non-negative, and 0 when either is ≤ 0 |
| Types.QtyFromDosing | src/types/index.ts:75-82 | null exactly when dosing or water is null; otherwise the kilograms times 1000 equal dosing × litres |
| Types.QtyFromShade | src/types/index.ts:84-91 | null exactly when shade or weight is null; otherwise the kilograms times 100 equal shade × fabric weight |
| Types.DosingMatchesShade | src/types/index.ts:67-91 | dosing d g/l over the liquor of weight fw at ratio lr gives the same kilograms as a shade of d·lr/10 % of fw |
| Types.PartsInRange | src/types/index.ts:99-102 | the floored grams lie in 0..999 and the rounded milligrams in 0..1000 |
| Types.ConvertToSubUnits | src/types/index.ts:94-119 | as written: all-null exactly for null or negative input; otherwise kg = floor(total), gm in 0..1000, mg in 0..999, all parts present |
| Types.ThousandGramsExactly | src/types/index.ts:99-111 | as written, gm is 1000 exactly when the floored grams are 999 and the milligrams round to 1000 |
| Types.ThousandGramsWitness | src/types/index.ts:105-107 | as written, 0.9999996 kg splits into 0 kg 1000 g 0 mg |
| Types.SubUnitsReconstruct | src/types/index.ts:99-118 | kg + gm/1000 + mg/1e6 is within 5e-7 of the non-negative total |
| Types.ConvertToSubUnitsCarried | src/types/index.ts:104-111 | the carry cascades: all-null exactly for null or negative input; otherwise every part present, gm and mg in 0..999, kg is floor(total) or one more |
| Types.CarriedSameValue | src/types/index.ts:104-111 | the cascading split denotes the same kilogram value as the split as written, so costings agree |
| Types.CarriedReconstruct | src/types/index.ts:99-118 | the cascading split is within 5e-7 of the non-negative total |
| Types.CarriedWitness | src/types/index.ts:104-111 | the cascading split reads 0.9999996 kg as 1 kg 0 g 0 mg |
| Text.ToLower | src/pages/History.tsx:13-18 | same length; each character is lower-cased (ASCII letters only) |
| Text.ToLowerIdempotent | src/pages/History.tsx:13-18 | lower-casing twice equals lower-casing once |
| Text.IncludesIff | src/pages/History.tsx:15-18 | `includes` holds exactly when the term occurs at some position |
| Text.IncludesEmpty | src/pages/History.tsx:12-20 | every string includes the empty term |
| Lists.RemoveAt | src/components/ChemicalItemsTable.tsx:38-40 | for an index in range, one shorter and every other element kept in order; an index out of range changes nothing |
| Lists.MovedAt | src/pages/DyeingCalculator.tsx:133-139 | where each element of a splice-out/splice-in reorder comes from: the dragged one lands at the target and those between shift by one |
| Lists.MovedPermutes | src/pages/DyeingCalculator.tsx:133-139 | a reorder keeps the length and the multiset of elements, and puts the dragged element at the target |
| Lists.MovedSame | src/pages/DyeingCalculator.tsx:152-156 | dropping an element where it was picked up leaves the list unchanged |
| Lists.MovedBack | src/pages/DyeingCalculator.tsx:133-139 | dragging back from the target to the source undoes a reorder |
| Lists.MoveInPlace | src/pages/DyeingCalculator.tsx:134-136 | the two splices done in place on an array leave it holding the reordered sequence |
| Lists.FilterMembers | src/pages/DyeingCalculator.tsx:107 | an element is kept by `filter` exactly when it is in the list and passes |
| Lists.FilterCount | src/pages/DyeingCalculator.tsx:107 | `filter` keeps every copy of an element that passes and no copy of one that fails |
| Lists.FilterIsSublist | src/pages/History.tsx:12 | `filter` keeps an order-preserving sub-list |
| Lists.FilterKeepsAll | src/pages/History.tsx:12-20 | a predicate that holds everywhere keeps the whole list |
| Lists.FilterKeepsNone | src/pages/DyeingCalculator.tsx:107 | a predicate that holds nowhere keeps nothing |
| Lists.FilterSamePredicate | src/pages/History.tsx:12-20 | predicates that agree on each element filter alike |
| Lists.FilterHead | src/pages/ProductionDashboard.tsx:33-34 | the first element kept is the first element that passes |
| Lists.SumConcat | src/components/ChemicalItemsTable.tsx:377 | a left-to-right sum from 0 distributes over concatenation |
| Lists.SumRemoveAt | src/components/ChemicalItemsTable.tsx:38-40 | removing one position takes exactly its term off the sum |
| Lists.SumUpdate | src/components/ChemicalItemsTable.tsx:94-100 | replacing one term changes the sum by the difference |
| Lists.SumInsertAt | src/pages/DyeingCalculator.tsx:136 | inserting a term adds it to the sum |
| Lists.SumMoved | src/pages/DyeingCalculator.tsx:133-139 | a reorder leaves the sum unchanged |
| Lists.SumAppend | src/components/ChemicalItemsTable.tsx:20-36 | appending a term adds it to the sum |
| ChemicalItemsTable.Costings | src/components/ChemicalItemsTable.tsx:377 | one costing per row, in row order |
| ChemicalItemsTable.AddNewItem | src/components/ChemicalItemsTable.tsx:20-36 | exactly one blank row appended after the unchanged rows; the footer total is unchanged |
| ChemicalItemsTable.RemoveItem | src/components/ChemicalItemsTable.tsx:38-40 | the row at the index goes, the others keep their order, and the footer loses exactly that row's costing; an index naming no row changes nothing |
| ChemicalItemsTable.RemovedTotal | src/components/ChemicalItemsTable.tsx:38-40 | removing a row takes its costing off the footer total |
| ChemicalItemsTable.CostingsRemoveAt | src/components/ChemicalItemsTable.tsx:38-40 | the costings of the shortened list are the costings with that position removed |
| ChemicalItemsTable.ParseOrKeep | src/components/ChemicalItemsTable.tsx:71-77 | '' clears the value, numeric text sets it, other text keeps the current value |
| ChemicalItemsTable.ParsePrice | src/components/ChemicalItemsTable.tsx:83 | set exactly for numeric text, to that number; otherwise null |
| ChemicalItemsTable.EditedItem | src/components/ChemicalItemsTable.tsx:42-97 | the reducer: Dyeing step writes placeholders and clears numbers; leaving Dyeing step blanks the row; dosing clears shade and sets the quantity to the as-written kg/g/mg split of the dosing-derived kilograms; shade does the same from weight; other edits touch one field; costing is always quantity in kg × price; dosing and shade stay exclusive |
| ChemicalItemsTable.UpdateItem | src/components/ChemicalItemsTable.tsx:42-100 | the method writes the edited row (quantity split as written) back at the index and nowhere else; the footer changes by that row's new costing minus its old one |
| ChemicalItemsTable.StepAndBack | src/components/ChemicalItemsTable.tsx:47-67 | choosing Dyeing step and then another type leaves a blank row keeping only its highlight |
| ChemicalItemsTable.Recomputed | src/components/ChemicalItemsTable.tsx:106-133 | only qty and costing change; qty is the as-written split of the kilograms from dosing when dosing and water are set, else from shade when shade and weight are set, else all-null; costing matches qty and price |
| ChemicalItemsTable.RecomputeAll | src/components/ChemicalItemsTable.tsx:106-134 | same length; each row is its recomputed form |
| ChemicalItemsTable.RecomputeItems | src/components/ChemicalItemsTable.tsx:104-140 | the loop yields the recomputed list (quantities split as written); it notifies exactly when some row's qty or costing differs, which is exactly when the list changed |
| ChemicalItemsTable.RecomputeAllSnoc | src/components/ChemicalItemsTable.tsx:106-134 | recomputing one more row appends that row's recomputed form |
| ChemicalItemsTable.RecomputeIdempotent | src/components/ChemicalItemsTable.tsx:104-140 | the recompute's output is synced and a second recompute leaves it as it is |
| ChemicalItemsTable.SyncedFixedPoint | src/components/ChemicalItemsTable.tsx:104-140 | a list of synced rows is a fixed point of the recompute |
| ChemicalItemsTable.EditKeepsSynced | src/components/ChemicalItemsTable.tsx:42-100 | every edit keeps a synced row synced; type, dosing and shade edits leave the row synced whatever its state before |
| ChemicalItemsTable.BlankItemSynced | src/components/ChemicalItemsTable.tsx:20-36 | a newly added row needs no recompute |
| ChemicalItemsTable.RecomputeSettles | src/components/ChemicalItemsTable.tsx:104-140 | running the effect again on its own output notifies nothing |
| DyeingForm.NumberBoxValue | src/components/DyeingForm.tsx:171-182 | an empty or unreadable number box gives null, never 0; numeric text gives its number |
| DyeingForm.ClampNonNegative | src/components/DyeingForm.tsx:22-23 | null stays null; otherwise the value is ≥ 0 and unchanged when already ≥ 0 |
| DyeingForm.HandleChange | src/components/DyeingForm.tsx:10-28 | a text edit changes only its own field; a weight or ratio edit clamps both, leaves each null or ≥ 0, and sets total water to the value derived from them (null exactly when either is null, otherwise ≥ 0) |
| DyeingForm.ClampKeepsWater | src/components/DyeingForm.tsx:22-24 | clamping before deriving the water changes nothing, as the derivation clamps too |
| DyeingForm.HandleChangeKeepsWaterSynced | src/components/DyeingForm.tsx:10-28 | every edit keeps the stored water equal to the derived one; a weight or ratio edit restores it |
| DyeingForm.EmptyWeightClearsWater | src/components/DyeingForm.tsx:171 | an empty weight box clears the weight and the total water |
| DyeingCalculator.InitialFormData | src/pages/DyeingCalculator.tsx:32-61 | every text field empty except the date, which is today; in-house mode; weight, ratio and water null |
| DyeingCalculator.FreshFormData | src/pages/DyeingCalculator.tsx:117-121 | the initial form with only the request id replaced by the generated one |
| DyeingCalculator.HandleClear | src/pages/DyeingCalculator.tsx:117-123 | a fresh form and exactly one blank row; both synced; footer total 0 |
| DyeingCalculator.SyncTotalWater | src/pages/DyeingCalculator.tsx:83-88 | afterwards the water is the derived one; only the water changes, and it is written exactly when it was stale |
| DyeingCalculator.SyncTotalWaterSettles | src/pages/DyeingCalculator.tsx:83-88 | the effect re-run after its own write writes nothing |
| DyeingCalculator.OtherRecipesKept | src/pages/DyeingCalculator.tsx:107 | the recipes kept beside a saved one are exactly the stored recipes with another id, in stored order, every copy of each |
| DyeingCalculator.HandleSave | src/pages/DyeingCalculator.tsx:96-109 | the new recipe, with id = reqId, comes first; exactly one stored recipe has that id; the rest are the stored recipes with other ids in stored order, every copy of each kept and no copy of a recipe with that id |
| DyeingCalculator.SaveTwice | src/pages/DyeingCalculator.tsx:107-108 | saving the same form twice equals saving it once with the second timestamp |
| DyeingCalculator.CostingsMoved | src/pages/DyeingCalculator.tsx:133-139 | the costings of reordered rows are the reordered costings |
| DyeingCalculator.HandleReorderItems | src/pages/DyeingCalculator.tsx:131-140 | the splices on the array give the reorder: same length, a permutation, the dragged row at the target, same footer total |
| DyeingCalculator.HandleOnDragEnd | src/pages/DyeingCalculator.tsx:143-160 | no destination changes nothing; otherwise the reorder; always a permutation |
| History.FilteredRecipes | src/pages/History.tsx:12-20 | an order-preserving sub-list holding exactly the stored recipes that match, each as many times as it is stored; an empty term keeps all |
| History.SameLowerSameResult | src/pages/History.tsx:13 | terms that lower-case alike give the same result |
| History.CaseInsensitive | src/pages/History.tsx:13 | the result does not depend on the case of the term |
| History.EmptyResultMessage | src/pages/History.tsx:104-107 | a message appears exactly when the list is empty: "No recipes found…" with a term, "No recipes saved yet." without |
| History.MessageTellsWhy | src/pages/History.tsx:104-107 | with no term, "nothing saved" shows exactly when nothing is stored; with a term, "no match" shows exactly when no stored recipe matches |
| ProformaInvoice.InvoiceItem.Blank | src/pages/ProformaInvoice.tsx:26-48 | a line with empty name and description and zero quantity and price |
| ProformaInvoice.LineTotals | src/pages/ProformaInvoice.tsx:78-80 | one line total per line, each quantity × unit price |
| ProformaInvoice.CalculateTotalInvoicePrice | src/pages/ProformaInvoice.tsx:82-84 | the sum of the line totals from 0; 0 for no lines |
| ProformaInvoice.InitialInvoiceData | src/pages/ProformaInvoice.tsx:21-27 | empty header fields and exactly one fresh blank line, so the lines are distinct objects; total 0 |
| ProformaInvoice.HandleAddItem | src/pages/ProformaInvoice.tsx:45-50 | the old lines, then one fresh blank line; header unchanged; total unchanged; distinct lines stay distinct |
| ProformaInvoice.HandleItemChange | src/pages/ProformaInvoice.tsx:52-56 | only the named field of the line object at the index changes, in place; with distinct lines the total changes by that line's new total minus its old one |
| ProformaInvoice.SpliceStart | src/pages/ProformaInvoice.tsx:60 | where `splice(index, 1)` starts: the index itself in range, counted from the end when negative, clamped to the list |
| ProformaInvoice.RemoveItem | src/pages/ProformaInvoice.tsx:58-62 | for an index in range, one line fewer, the others in order, and the total loses that line's total; past the end nothing changes; a negative index counts from the end, and one reaching before the start removes the first line; distinct line objects stay distinct |
| ProformaInvoice.RemoveLineTotal | src/pages/ProformaInvoice.tsx:58-84 | removing a line takes its total off the invoice total |
| ProformaInvoice.DistinctRemoveAt | src/pages/ProformaInvoice.tsx:58-62 | removing a line keeps distinct line objects distinct |
| ProformaInvoice.DistinctMoved | src/pages/ProformaInvoice.tsx:90-99 | a reorder keeps distinct line objects distinct |
| ProformaInvoice.LineTotalsMoved | src/pages/ProformaInvoice.tsx:90-99 | the line totals of reordered lines are the reordered line totals |
| ProformaInvoice.HandleOnDragEnd | src/pages/ProformaInvoice.tsx:90-99 | no destination changes nothing; otherwise the reorder, a permutation with the dragged line at the target; the total never changes; distinct line objects stay distinct |
| Calendar.WeekdayOf | src/pages/ProductionDashboard.tsx:43 | `getDay` lies in 0..6 |
| Calendar.SundayOnOrBefore | src/pages/ProductionDashboard.tsx:42-43 | going back `getDay()` days lands on a Sunday |
| Calendar.DaysCivilDays | src/utils/dateUtils.ts:22 | a day number turned into a date and back is the same day number |
| Calendar.CivilDaysCivil | src/utils/dateUtils.ts:22 | a valid date turned into a day number and back is the same date |
| Calendar.CivilFromDaysValid | src/pages/ProductionDashboard.tsx:38-39 | every day number names a valid date (month 1..12, day within the month) |
| Calendar.DayOfMonth | src/utils/dateUtils.ts:22 | counting d−1 days on from the first of a month reaches day d of that month, when the month has one |
| Calendar.Epoch | src/pages/ProductionDashboard.tsx:43 | day 0 is 1 January 1970, a Thursday |
| DateUtils.Split | src/utils/dateUtils.ts:6 | `split(/[- ]/)` gives at least one piece |
| DateUtils.SplitShape | src/utils/dateUtils.ts:6 | one piece more than there are separators, and no piece holds a separator |
| DateUtils.SplitJoin | src/utils/dateUtils.ts:6 | joining the pieces with the separators that were cut gives back the string |
| DateUtils.SplitNoSeparator | src/utils/dateUtils.ts:6-7 | a string without separators is a single piece |
| DateUtils.SplitAtSeparator | src/utils/dateUtils.ts:6 | the piece before the first separator comes first, then the pieces of the rest |
| DateUtils.SplitThree | src/utils/dateUtils.ts:6-7 | three separator-free fields joined by two separators split back into those fields |
| DateUtils.TrimStart | src/utils/dateUtils.ts:8-10 | the suffix left after the leading white space `parseInt` skips |
| DateUtils.DigitPrefix | src/utils/dateUtils.ts:8-10 | the longest run of digits opening the string |
| DateUtils.ParseInt | src/utils/dateUtils.ts:8-10 | NaN exactly when no digit follows the white space and sign |
| DateUtils.ShowNatValue | src/utils/dateUtils.ts:8-10 | the decimal digits of n read back as n |
| DateUtils.DigitPrefixOfDigits | src/utils/dateUtils.ts:8-10 | `parseInt` reads the digits up to the first non-digit |
| DateUtils.ParseIntDigitsThen | src/utils/dateUtils.ts:8-10 | digits followed by a non-digit parse to the value of the digits |
| DateUtils.ParseIntMinusDigitsThen | src/utils/dateUtils.ts:8-10 | a minus sign, digits and a non-digit parse to the negated value |
| DateUtils.ParseIntShow | src/utils/dateUtils.ts:8-10 | `parseInt` reads back the decimal form of any integer, whatever non-digit text follows |
| DateUtils.ParseIntDigits | src/utils/dateUtils.ts:8-10 | a non-empty string of digits parses to its value |
| DateUtils.MonthLookup | src/utils/dateUtils.ts:15-20 | defined exactly for the twelve keys, giving the index 0..11 of that key |
| DateUtils.Prefix3 | src/utils/dateUtils.ts:20 | the first three characters, or the whole string when shorter |
| DateUtils.YearField | src/utils/dateUtils.ts:10-13 | NaN exactly when `parseInt` is; 2000 is added exactly when the field is two characters long |
| DateUtils.ParseCustomDate | src/utils/dateUtils.ts:2-26 | a native parse wins; fewer than three pieces, or an unknown month, gives now; otherwise the date from the year field, the month of the first three lower-cased letters, and the parsed day |
| DateUtils.FullYear | src/utils/dateUtils.ts:22 | `new Date(y, …)` maps years 0..99 to 1900..1999 and leaves others alone |
| DateUtils.DayOf | src/utils/dateUtils.ts:22 | `new Date(y, m, d)` is the first of month m of year y (0..99 read as 1900..1999) plus d−1 days, so a day past the month's end runs on into the next; it is valid exactly when that day lies within ±10^8 days of the epoch; a NaN day or year gives an invalid date; a date already parsed, or now, is kept as it is; a day that exists in its month gives exactly that date |
| DateUtils.DayOfDate | src/utils/dateUtils.ts:22 | a real day of a month of 2000..2099, the years a two-digit year field gives, is a valid date naming exactly that day |
| DateUtils.CenturyDays | src/utils/dateUtils.ts:22 | the first of every month of 2000..2099 lies within 50000 days after the epoch, well inside the range of a `Date` |
| DateUtils.NativeWins | src/utils/dateUtils.ts:3-4 | a string the native parser accepts is returned as parsed |
| DateUtils.NoSeparatorMeansNow | src/utils/dateUtils.ts:6-25 | without a separator the fallback is now |
| DateUtils.NoSeparatorNoSeparators | src/utils/dateUtils.ts:6 | a string without separators has no separators to cut |
| DateUtils.MonthByFirstThreeLetters | src/utils/dateUtils.ts:9-20 | only the first three letters of the month field count |
| DateUtils.DecemberInAnyCase | src/utils/dateUtils.ts:9-20 | "DEC", "Dec" and "December" all name month 11 |
| DateUtils.ShortMonthField | src/utils/dateUtils.ts:20-21 | a month field shorter than three letters names no month |
| DateUtils.TwoDigitsValue | src/utils/dateUtils.ts:8-10 | two digits have the value 10·d1 + d2 |
| DateUtils.TwoDigitNumber | src/utils/dateUtils.ts:8-10 | two digits parse to 10·d1 + d2 |
| DateUtils.TwoDigitYear | src/utils/dateUtils.ts:10-13 | a two-digit year field names a year in 2000..2099 |
| DateUtils.ParseThreeFields | src/utils/dateUtils.ts:6-23 | three separator-free fields parse field by field |
| DateUtils.DayMonthYearForm | src/utils/dateUtils.ts:6-23 | "DD-Mon-YY" gives the date with year 2000+YY, the month of Mon and day DD |
| ProductionDashboard.Insert | src/pages/ProductionDashboard.tsx:33 | one element longer; the same multiset plus the inserted record |
| ProductionDashboard.SortByDate | src/pages/ProductionDashboard.tsx:33 | a permutation of the records |
| ProductionDashboard.InsertSorted | src/pages/ProductionDashboard.tsx:33 | inserting into a latest-first list keeps it latest first |
| ProductionDashboard.SortByDateSorted | src/pages/ProductionDashboard.tsx:33 | the sorted records are latest first |
| ProductionDashboard.InsertKeepsDayOrder | src/pages/ProductionDashboard.tsx:33 | insertion keeps the order among the records of each day |
| ProductionDashboard.SortKeepsDayOrder | src/pages/ProductionDashboard.tsx:33 | the sort is stable: the records of each day keep their given order |
| ProductionDashboard.LatestIsLatest | src/pages/ProductionDashboard.tsx:33-34 | `latest` is dated on or after every record |
| ProductionDashboard.LatestIsFirstOfItsDay | src/pages/ProductionDashboard.tsx:33-34 | `latest` is the first record of its date in the given order |
| ProductionDashboard.RestAreTheOthers | src/pages/ProductionDashboard.tsx:33-34 | after `latest`, the sorted list holds exactly the other records |
| ProductionDashboard.PreviousIsLatestOfRest | src/pages/ProductionDashboard.tsx:85 | `prev` is dated on or after every record but `latest` |
| ProductionDashboard.StartOfWeek | src/pages/ProductionDashboard.tsx:42-44 | with a calendar weekday, the start of the week is a Sunday at most six days before the reference |
| ProductionDashboard.PeriodSumStep | src/pages/ProductionDashboard.tsx:57-82 | one more record adds its amount to each bucket whose period it falls in |
| ProductionDashboard.PeriodSumWithin | src/pages/ProductionDashboard.tsx:59-81 | with no negative amounts, a bucket whose period contains another holds at least as much |
| ProductionDashboard.BucketsNested | src/pages/ProductionDashboard.tsx:59-81 | with no negative amounts, month ≤ year ≤ all time |
| ProductionDashboard.SingleRecordBuckets | src/pages/ProductionDashboard.tsx:42-61 | a calendar date is in its own week, month and year |
| ProductionDashboard.Revenue | src/pages/ProductionDashboard.tsx:84-86 | NaN exactly when an industry total is NaN; for non-negative totals it lies between 1.18 and 1.25 times their sum |
| ProductionDashboard.Growth | src/pages/ProductionDashboard.tsx:88-89 | NaN exactly when either side is; positive exactly when latest > prev; zero exactly when they are equal; the ratio growth (latest/prev − 1)·100 when prev ≥ 1, and (latest − prev)·100 when prev ≤ 1 |
| ProductionDashboard.ProgressPercent | src/pages/ProductionDashboard.tsx:137-138 | at most 100; exactly 100 when the target is met; non-negative for non-negative production |
| ProductionDashboard.Shortfall | src/pages/ProductionDashboard.tsx:137-139 | never negative; zero exactly when the target is met |
| ProductionDashboard.ProgressAndShortfall | src/pages/ProductionDashboard.tsx:137-139 | progress = 100 − shortfall/target·100 |
| ProductionDashboard.AccumulateBuckets | src/pages/ProductionDashboard.tsx:46-82 | the loop leaves total, month and year weights as bucket sums over all records; water = 45 × weight and CO2 = 2.3 × weight; each industry's today is the latest record's total and its week, month and year are its bucket sums |
| ProductionDashboard.ComputeStats | src/pages/ProductionDashboard.tsx:29-108 | null exactly for null or no records; otherwise latest = first sorted record, its month and year as reference, the buckets as above, revenue of latest, and growth against the runner-up (0 with one record) |
| ProductionDashboard.StatsBucketsNested | src/pages/ProductionDashboard.tsx:59-81 | with no negative amounts, month weight ≤ year weight ≤ total weight, and each industry's month ≤ year |
| ProductionDashboard.SingleRecordStats | src/pages/ProductionDashboard.tsx:42-61 | with a single record and a numeric industry total, that industry's week, month and year all equal its today |

## Left out

- Floating point. All arithmetic is exact, so `NaN` appears only where the program guards against it or where `Number(x) || 0` maps it to 0. The float-only `gm === 1000` branch at src/types/index.ts:109 is unreachable in exact arithmetic; the as-written split keeps it.
- ProductionDashboard.AccumulateBuckets: `totalWater == 45 × totalWeight` and `totalCO2 == 2.3 × totalWeight` hold only in exact arithmetic. The program adds the products record by record, in floating point.
- Number formatting: `toFixed`, and `toLocaleString` for the month name. `Stats.refMonth` (0..11) stands in for `monthName`.
- `localStorage` and its JSON, `alert` and `console`. HandleSave takes the stored list as a parameter and returns the list it would store. The History page's recipe list is a parameter as well.
- `generateReqId` (clock and `Math.random`) and `new Date().toISOString()`. The request id, today's date and the save timestamp are parameters.
- The native `new Date(string)` parser and the clock. They are the parameters `native` and `today` of DateUtils.ParseCustomDate.
- Time zones and time of day. Dates are whole days, so `setHours(0, 0, 0, 0)` is not modelled.
- ProductionDashboard: the page's parsed dates are the parameter `dateOf`. A `Moment` carries its getters, and they agree with the Calendar module only where `Agrees` holds; SingleRecordBuckets and SingleRecordStats require it. A record whose date parses to an invalid `Date` (NaN comparisons) is not modelled.
- ProductionDashboard.ComputeStats: one `dateOf` serves the whole pass, so a record's date is read the same way at every use. In the program, a date string that falls through to `new Date()` (src/utils/dateUtils.ts:25) reads the clock anew at each call. Then the sort comparator, `refDate` and each loop iteration may see different instants, and the latest record can fall outside its own week bucket, with SingleRecordStats's week == today failing. The model does not capture this.
- ProductionDashboard.SortByDate: `Array.prototype.sort` is a library call. It is modelled as a stable insertion sort with the same comparator, and stability is proved.
- ProductionDashboard.AccumulateBuckets: the in-place `+=` on the `brandStats` object fields is modelled as record updates of local `BrandStats` values.
- The market-share percentages (src/pages/ProductionDashboard.tsx:141-142), which only size display bars. Their division by the production total has no zero guard.
- JSX layout, the charts, routing, printing, and PDF generation in src/pages/ProformaInvoice.tsx:101-316.
- `handleInputChange` of the invoice header (a one-field spread), and the `productMode` select of the requisition form.
- Text.ToLower: lower-cases only ASCII letters; other characters are left unchanged.
- DateUtils.IsJsSpace is the ECMAScript WhiteSpace and LineTerminator set that `parseInt` skips, with every Unicode space separator written out.
- DateUtils.YearField: string lengths count Unicode scalar values, not UTF-16 code units, so a year field holding a character outside the Basic Multilingual Plane ("5😀") is two characters long here but three in the program, and gets 2000 added where the program does not.
- ProformaInvoice.RemoveItem: modelled on values, returning the invoice with the line removed, not as a splice on an array copy. The result is the same list of line objects.
- DateUtils: literal-string examples such as "15-Dec-25" are stated through the general DayMonthYearForm lemma and DecemberInAnyCase.
- DateUtils.DayOf: a day that overflows its month (or a day of 0 or below) is stated as a day count from the first of the month, as `Date` counts it; only a day that exists in its month is also stated as a calendar date.
- DateUtils: no single lemma carries a "DD-Mon-YY" string all the way to its calendar date; DayMonthYearForm gives the parsed parts and DayOfDate the date they name.

## Findings

| source | as written | input that shows it | evidently intended | confidence | as-written member | corrected member |
|---|---|---|---|---|---|---|
| src/types/index.ts:105-111 | after the milligram carry (`mg === 1000`) the function returns `gm + 1` at once, so the `gm === 1000` check never sees the carried grams and a result with 1000 grams is possible | 0.9999996 kg gives 0 kg 1000 g 0 mg | the carry cascades into kilograms (1 kg 0 g 0 mg), as the comment at line 108 says | high; not executed | Types.ConvertToSubUnits (Types.ThousandGramsWitness, Types.ThousandGramsExactly) | Types.ConvertToSubUnitsCarried (Types.CarriedWitness, Types.CarriedReconstruct, Types.CarriedSameValue) |

The chemical-items table uses the split as written, as the program does, so a row can show 1000 g. The corrected split denotes the same kilogram value (Types.CarriedSameValue), so every costing would be unaffected by the fix.
