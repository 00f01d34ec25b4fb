# COA insights and data tab, modelled in Dafny

This project models the client-side logic of a dashboard for Certificate of Analysis (COA)
laboratory results. The parts modelled are:

- **Insights tab.** The rows fetched for an organisation are filtered by two multi-select
  dropdowns, suppliers and tests. The test options depend on the suppliers selected. A
  remembered test selection is reconciled with the tests currently on offer. The filtered
  working set feeds three charts:
  - failures by supplier, sorted by count, largest first;
  - pass, fail and unknown results per product;
  - failures per calendar month, in ascending month order.

  The two bar charts also get y-axis bounds.
- **Multi-select dropdown.** A click toggles a value in the selection. The trigger shows
  `All <label>s`, the label of the single selected option, or `<n> <label>s selected`.
- **Data tab.** The join with the attachments table is flattened into two top-level fields. A
  free-text search keeps the rows where some field, as lower-cased text, contains the
  lower-cased search text.

## Modules

| module | file | models |
|---|---|---|
| `Seqs` | seqs.dfy | `Option`, `Array.prototype.filter`, subsequences, first-occurrence `Dedup` |
| `Text` | text.dfy | UTF-16 code-unit string order with insertion sort (`Array.prototype.sort`), ASCII `toLowerCase`, `includes`, decimal digits |
| `OrderedMaps` | ordered_maps.dfy | a JavaScript `Map` or plain object: insertion-ordered pairs with `get` and `set` |
| `CoaRows` | coa_rows.dfy | the `coa_data` row and its three label fallbacks |
| `MonthKeys` | month_keys.dfy | `parseISO` on `yyyy-MM-dd`, `startOfMonth`; the `yyyy-MM-dd` and `MMM yyyy` formats |
| `SupplierChart` | supplier_chart.dfy | `processFailuresBySupplier` |
| `ProductChart` | product_chart.dfy | `processResultsByProduct` |
| `TrendChart` | trend_chart.dfy | `processFailureTrend` |
| `InsightsFilters` | insights_filters.dfy | `supplierOptions`, `testOptions`, `validSelectedTests`, `filteredData` |
| `ChartAxes` | chart_axes.dfy | `maxFailures`, `maxResults` |
| `MultiSelect` | multi_select.dfy | `handleSelect`, `displayLabel` |
| `InsightsView` | insights_view.dfy | the insights filter state and the wiring of both dropdowns |
| `DataTable` | data_table.dfy | the flattening in `load`, the state after `load`, `handleFilter` |

Each of the three chart builders is a `method` with the source's loop over the rows. Its
loop invariant ties the map built so far to a function of the rows visited so far, and its
`ensures` equates the result with a specification function. Lemmas then prove, about that
function, what the chart is meant to show.

The `useMemo` values and the component state are modelled as functions of the fetched rows
and the remembered selections. A click or a keystroke is a function from state to state.

## Model

| member | source | states |
|---|---|---|
| Seqs.Dedup | components/InsightsTab.tsx:216-219 | `Array.from(new Set(labels))` has no duplicates and exactly the labels' members |
| Seqs.DedupFirstOccurrenceOrder | components/InsightsTab.tsx:235-238 | the distinct labels are listed in order of first occurrence, as a `Set` iterates |
| Seqs.FilterMembers | components/InsightsTab.tsx:248 | `filter` keeps exactly the elements that satisfy the predicate, and never adds any |
| Seqs.FilterIsSubsequence | components/InsightsTab.tsx:248 | `filter` keeps the order of the elements it keeps |
| CoaRows.OrElse | components/InsightsTab.tsx:101 | `x \|\| fallback` gives the value of `x` when it is non-empty, and the fallback otherwise; with a non-empty fallback the label is never empty |
| CoaRows.Supplier | components/InsightsTab.tsx:101 | the supplier label is never empty; it is the sender name when that is non-empty, `Unknown Supplier` when it is `null` or empty |
| CoaRows.Product | components/InsightsTab.tsx:116 | the product label is never empty; it is the product name when that is non-empty, `Unknown Product` when it is `null` or empty |
| CoaRows.Test | components/InsightsTab.tsx:236 | the test label is never empty; it is the test name when that is non-empty, `Unknown Test` when it is `null` or empty |
| CoaRows.MissingAndEmptyLabelsCoincide | components/InsightsTab.tsx:217 | a `null` and an empty supplier, product or test name both get the sentinel label; labels are never empty; a non-empty name is its own label |
| Text.LeIsCodeUnitOrder | components/InsightsTab.tsx:220 | the string order of the model is exactly the lexicographic order of the strings' UTF-16 encodings, the order the default `sort()` uses |
| Text.AstralBeforeFullwidth | components/InsightsTab.tsx:220 | a name starting with U+1F600 sorts before one starting with U+FF26, as in JavaScript, although its scalar value is larger |
| Text.LeIsTotalOrder | components/InsightsTab.tsx:220 | the order the default `sort()` uses on strings is total, antisymmetric and transitive |
| Text.Sort | components/InsightsTab.tsx:220 | the sort returns a sorted permutation of its input |
| Text.SortDistinct | components/InsightsTab.tsx:216-220 | sorting distinct strings gives a strictly ascending list |
| Text.StrictlySortedUnique | components/InsightsTab.tsx:216-220 | two strictly ascending lists with the same members are equal |
| Text.Lower | components/DataTab.tsx:123-124 | lower-casing keeps the length, maps each character and leaves no upper-case ASCII letter |
| Text.LowerIdempotent | components/DataTab.tsx:123-124 | lower-casing twice is lower-casing once |
| Text.ContainsAt | components/DataTab.tsx:124 | `includes` holds exactly when the needle occurs at some position |
| Text.ContainsEmpty | components/DataTab.tsx:124 | every string includes the empty string |
| Text.NatToDecimal | components/ui/multi-select-dropdown.tsx:49 | the decimal text of a count is non-empty, digits only, without a leading zero, and reads back as the count |
| OrderedMaps.GetPut | components/InsightsTab.tsx:102 | after `set(k, v)`, `get(k)` is `v` and every other key reads as before |
| OrderedMaps.PutKeys | components/InsightsTab.tsx:102 | `set` of a present key keeps the key order; `set` of a new key appends it |
| OrderedMaps.PutKeepsFirstOccurrenceOrder | components/InsightsTab.tsx:106 | a map whose keys are the first occurrences of a key stream still is after one more `set` |
| OrderedMaps.SumValuesPut | components/InsightsTab.tsx:102 | replacing a counter changes the sum of all counters by the difference |
| MonthKeys.ParseIsoDate | components/InsightsTab.tsx:139 | a date-only string parses exactly when it has the `yyyy-MM-dd` shape, a month from 1 to 12 and a day inside that month; the fields are the digits read |
| MonthKeys.MonthKey | components/InsightsTab.tsx:139-140 | the key exists exactly when the date parses; it is a month key of the same month and year, except that year 0 is printed as `0001` |
| MonthKeys.MonthKeyIdempotent | components/InsightsTab.tsx:139-140 | a month key is its own month key |
| MonthKeys.MonthLabel | components/InsightsTab.tsx:152 | the `MMM yyyy` label of a key has eight characters |
| MonthKeys.MonthLabelRoundTrip | components/InsightsTab.tsx:152 | the key can be read back from its label |
| MonthKeys.MonthLabelInjective | components/InsightsTab.tsx:152 | two month keys with the same label are the same key, so no two points of the trend share an x value |
| MonthKeys.MonthAbbrevsDistinct | components/InsightsTab.tsx:152 | the twelve month abbreviations are distinct |
| SupplierChart.FailCountPositive | components/InsightsTab.tsx:99-104 | a supplier has failing rows exactly when it appears among the failing rows' suppliers |
| SupplierChart.FailTallyKeys | components/InsightsTab.tsx:99-104 | the map's keys are the suppliers of the failing rows, in order of each supplier's first failing row |
| SupplierChart.FailTallyGet | components/InsightsTab.tsx:99-104 | the map holds each supplier's number of failing rows, and no entry for a supplier without one |
| SupplierChart.FailTallySum | components/InsightsTab.tsx:99-104 | the counters add up to the number of failing rows |
| SupplierChart.SortByFailures | components/InsightsTab.tsx:108 | the sort is non-increasing in failures, and keeps the length and the members |
| SupplierChart.SortByFailuresNames | components/InsightsTab.tsx:108 | the sort permutes the names and keeps the total |
| SupplierChart.SortByFailuresStable | components/InsightsTab.tsx:108 | entries with equal counts keep their relative order (the sort is stable) |
| SupplierChart.ProcessFailuresBySupplier | components/InsightsTab.tsx:96-109 | the loop computes the specified chart; the bars are non-increasing and name exactly the suppliers with failing rows |
| SupplierChart.FailuresBySupplierNames | components/InsightsTab.tsx:96-109 | the bars name exactly the suppliers with a failing row, each once |
| SupplierChart.FailuresBySupplierCounts | components/InsightsTab.tsx:96-109 | each bar is its supplier's number of failing rows, at least 1 |
| SupplierChart.FailuresBySupplierTotal | components/InsightsTab.tsx:96-109 | the bars add up to the number of failing rows |
| SupplierChart.TiesInFirstFailureOrder | components/InsightsTab.tsx:106-108 | bars with equal counts are in the order of each supplier's first failing row |
| ProductChart.OutcomesPartitionRows | components/InsightsTab.tsx:121-123 | every row of a product is in exactly one of pass, fail and unknown |
| ProductChart.ProductTallyKeys | components/InsightsTab.tsx:115-124 | the map's keys are the product labels in order of first occurrence |
| ProductChart.ProductTallyGet | components/InsightsTab.tsx:115-124 | the map holds each occurring product's pass, fail and unknown counts, and nothing for other labels |
| ProductChart.ProductTallyTotal | components/InsightsTab.tsx:115-124 | the counters add up to the number of rows |
| ProductChart.ProcessResultsByProduct | components/InsightsTab.tsx:112-130 | the loop, with the counter created on first sight and then incremented, computes the specified chart; the bars name each product once, in order of first occurrence |
| ProductChart.ResultsByProductContents | components/InsightsTab.tsx:112-130 | each bar's segments count that product's passing, failing and other rows (a `null` result counts as unknown), and its height is its number of rows, at least 1 |
| ProductChart.ResultsByProductTotal | components/InsightsTab.tsx:112-130 | every row lands in exactly one bar: the heights add up to the number of rows |
| TrendChart.FailMonthsAreKeys | components/InsightsTab.tsx:137-141 | every grouping key is a valid first-of-month date |
| TrendChart.MonthCountPositive | components/InsightsTab.tsx:137-141 | a month has a count exactly when some failing row falls in it |
| TrendChart.MonthTallyKeys | components/InsightsTab.tsx:136-146 | the map's keys are the months of the dated failing rows, in order of first occurrence |
| TrendChart.MonthTallyGet | components/InsightsTab.tsx:136-146 | the map holds each month's number of dated failing rows, and nothing for other keys |
| TrendChart.MonthTallySum | components/InsightsTab.tsx:136-146 | the counters add up to the number of dated failing rows |
| TrendChart.SortByIsoKeys | components/InsightsTab.tsx:156 | sorting the points sorts their keys |
| TrendChart.SortByIsoMembers | components/InsightsTab.tsx:156 | sorting neither adds nor loses a point, nor changes the total count |
| TrendChart.ProcessFailureTrend | components/InsightsTab.tsx:133-159 | the loop computes the specified chart, which is empty exactly when no failing row has a parseable date |
| TrendChart.FailureTrendShape | components/InsightsTab.tsx:148-158 | the result is either empty or the single series `Failures` over the sorted points |
| TrendChart.TrendPointsSorted | components/InsightsTab.tsx:150-156 | the points' months are strictly ascending, one per month with dated failing rows |
| TrendChart.TrendPointsEntries | components/InsightsTab.tsx:150-155 | each point is labelled `MMM yyyy` from its month and counts that month's dated failing rows, at least 1 |
| TrendChart.TrendPointsTotal | components/InsightsTab.tsx:133-159 | the counts add up to the number of dated failing rows |
| TrendChart.DatedFailKey | components/InsightsTab.tsx:137-140 | a row contributes a month exactly when it fails and has a date that parses; the month is the date's month key |
| TrendChart.UnparseableDateIsSkipped | components/InsightsTab.tsx:137-144 | a failing row whose date is missing or does not parse changes neither the map nor the chart, while the supplier chart still counts it |
| InsightsFilters.SortedDistinctOptions | components/InsightsTab.tsx:216-221 | `Array.from(new Set(labels)).sort()` as options is strictly ascending, has exactly the labels' members, and label equals value |
| InsightsFilters.SupplierOptions | components/InsightsTab.tsx:215-222 | the supplier options are strictly ascending and are exactly the supplier labels in the data; it takes no selection, so it cannot depend on one |
| InsightsFilters.SupplierOptionsUnique | components/InsightsTab.tsx:215-222 | the supplier options are the only strictly ascending list of the data's suppliers |
| InsightsFilters.SupplierScope | components/InsightsTab.tsx:228-233 | all rows when no supplier is selected, otherwise exactly the rows of a selected supplier |
| InsightsFilters.TestOptions | components/InsightsTab.tsx:227-241 | the test options are strictly ascending and are exactly the test labels of the supplier-filtered rows |
| InsightsFilters.ValidSelectedTests | components/InsightsTab.tsx:246-249 | an order-preserving subsequence of the remembered tests, holding exactly the remembered tests that are on offer |
| InsightsFilters.FilteredData | components/InsightsTab.tsx:254-268 | an order-preserving subsequence of all rows, holding exactly the rows that meet both clauses; with both lists empty, all rows |
| InsightsFilters.SupplierOptionSelectsRows | components/InsightsTab.tsx:215-268 | an offered supplier, selected alone, leaves a non-empty working set |
| InsightsFilters.SupplierSelectionKeepsItsRows | components/InsightsTab.tsx:254-268 | a supplier selected alone keeps only its own rows |
| InsightsFilters.TestOptionSelectsRows | components/InsightsTab.tsx:227-268 | an offered test, selected alone, leaves a non-empty working set |
| InsightsFilters.TestSelectionKeepsItsRows | components/InsightsTab.tsx:254-268 | a test selected alone keeps only rows with that test |
| InsightsFilters.TestOptionsDependOnMembersOnly | components/InsightsTab.tsx:227-241 | the test options depend on which suppliers are selected, not on their order or repetition |
| InsightsFilters.FilteredDataDependsOnMembersOnly | components/InsightsTab.tsx:254-268 | likewise the working set |
| ChartAxes.MaxFailures | components/InsightsTab.tsx:287-290 | the bound is at least every bar, is attained by a bar, and is 0 without bars |
| ChartAxes.MaxResults | components/InsightsTab.tsx:292-295 | the bound is at least every bar's pass + fail + unknown, is attained by a bar, and is 0 without bars |
| ChartAxes.MaxFailuresIsFirstBar | components/InsightsTab.tsx:287-290 | since the bars are sorted, the bound is the first bar |
| ChartAxes.MaxFailuresBoundsSuppliers | components/InsightsTab.tsx:287-290 | the bound is at least any supplier's number of failing rows |
| ChartAxes.SupplierHasBar | components/InsightsTab.tsx:96-109 | a supplier with failing rows has a bar of exactly that height |
| ChartAxes.MaxFailuresZero | components/InsightsTab.tsx:287-290 | the supplier bound is 0 exactly when no row fails |
| ChartAxes.MaxResultsBoundsProducts | components/InsightsTab.tsx:292-295 | the product bound is at least any product's number of rows, and is 0 exactly when the working set is empty |
| MultiSelect.Toggle | components/ui/multi-select-dropdown.tsx:36-42 | a selected value is removed, every occurrence, and the other values keep their order and multiplicity; an unselected value is appended |
| MultiSelect.ToggleMembers | components/ui/multi-select-dropdown.tsx:36-42 | a click flips the clicked value's membership and leaves every other value's alone |
| MultiSelect.ToggleTwiceRestores | components/ui/multi-select-dropdown.tsx:36-42 | clicking an unselected value twice gives back the original selection |
| MultiSelect.ToggleTwiceSameMembers | components/ui/multi-select-dropdown.tsx:36-42 | clicking any value twice leaves the same members selected |
| MultiSelect.Find | components/ui/multi-select-dropdown.tsx:48 | `find` gives the first option with the value, or nothing when no option has it |
| MultiSelect.DisplayLabel | components/ui/multi-select-dropdown.tsx:44-49 | `All <label>s` for none; for one, the label of the first option with that value, or nothing; else `<n> <label>s selected` |
| InsightsView.MountShowsEverything | components/InsightsTab.tsx:180-181 | with both selections empty, no test is in effect and the charts see every row |
| InsightsView.ClickTestKeepsOnlyEffective | components/InsightsTab.tsx:344-349 | after a test click the remembered tests are only tests that were in effect, plus the clicked one, which is now selected exactly when it was not in effect |
| InsightsView.ClickOfferedTestIsEffective | components/InsightsTab.tsx:344-349 | after clicking an offered test, the tests in effect are exactly the remembered ones |
| InsightsView.SupplierRoundTrip | components/InsightsTab.tsx:338-343 | clicking a supplier twice restores the test options, the tests in effect and the working set, and leaves the remembered tests untouched |
| InsightsView.ClickSupplier | components/InsightsTab.tsx:338-343 | a supplier click flips the clicked supplier's membership, keeps every other supplier's, and leaves the rows and the remembered tests alone |
| InsightsView.ClickTest | components/InsightsTab.tsx:344-349 | a test click replaces the remembered tests by the tests in effect with the clicked one's membership flipped; the rows and suppliers are unchanged |
| InsightsView.ClickSuppliersKeepsTests | components/InsightsTab.tsx:338-343 | any sequence of supplier clicks leaves the rows and the remembered tests alone |
| InsightsView.IntentSurvivesSupplierChanges | components/InsightsTab.tsx:246-249 | any sequence of supplier clicks that ends on the same suppliers, in any order, restores the tests in effect and the working set |
| InsightsView.TestLabelAlwaysFound | components/InsightsTab.tsx:344-349 | with one test in effect, the test dropdown always has a label to show |
| InsightsView.DeselectingHides | components/InsightsTab.tsx:227-249 | in a two-supplier example, deselecting the supplier of the remembered test takes that test out of effect |
| InsightsView.ReselectingOffers | components/InsightsTab.tsx:227-241 | selecting that supplier again offers the test again |
| InsightsView.ReselectingRestoresHiddenTests | components/InsightsTab.tsx:246-249 | without a test click in between, the hidden test comes back into effect |
| InsightsView.ClickingATestForgetsHiddenTests | components/InsightsTab.tsx:344-349 | a test click while the test is hidden discards it from the remembered selection for good |
| DataTable.FlattenAll | components/DataTab.tsx:97-101 | one flattened row per fetched row, in order |
| DataTable.Flatten | components/DataTab.tsx:97-101 | the two attachment fields are set from the join's columns, or to `null` without a join |
| DataTable.FlattenFields | components/DataTab.tsx:97-101 | flattening keeps every other field, the join included, in its place, and adds no field but the two attachment fields |
| DataTable.FlattenNotEmpty | components/DataTab.tsx:97-101 | a flattened row has at least one field |
| DataTable.MatchesSomeField | components/DataTab.tsx:120-126 | a row matches exactly when some field, stringified and lower-cased, contains the lower-cased text |
| DataTable.Search | components/DataTab.tsx:120-126 | the search keeps, in order, exactly the rows that match |
| DataTable.SearchIsFilter | components/DataTab.tsx:120-126 | the search is `Array.prototype.filter` with the search predicate |
| DataTable.SearchEmptyText | components/DataTab.tsx:120-126 | with the empty text, the search keeps exactly the rows with at least one field |
| DataTable.SearchIdempotent | components/DataTab.tsx:120-126 | searching the result again with the same text changes nothing |
| DataTable.SearchKeepsAll | components/DataTab.tsx:120-126 | when every row matches, the search keeps all rows |
| DataTable.SearchIgnoresCase | components/DataTab.tsx:123-124 | only the lower-cased text matters |
| DataTable.JoinedRowsMatchObject | components/DataTab.tsx:121-124 | a row still holding a join object matches the text `object`, whatever its columns are |
| DataTable.InitialConsistent | components/DataTab.tsx:70-72 | the initial table is consistent with the empty search box |
| DataTable.Load | components/DataTab.tsx:95-105 | with a response, both the rows and the shown rows become the flattened fetched rows; without one nothing changes; the search text is never touched |
| DataTable.LoadWithoutTextConsistent | components/DataTab.tsx:95-105 | with an empty search box, a load leaves the table consistent |
| DataTable.HandleFilter | components/DataTab.tsx:118-128 | the box gets the text, the loaded rows stay, and the shown rows are, in order, exactly the loaded rows the text matches |
| DataTable.HandleFilterConsistent | components/DataTab.tsx:118-128 | typing leaves the shown rows equal to the search of all rows by the box's text; repeating the text changes nothing |
| DataTable.ReloadIgnoresSearchText | components/DataTab.tsx:103-104 | a reload while the box holds `zzz` shows a row that `zzz` does not match |

## Behaviour worth knowing

- **A test click drops hidden remembered tests.** The test dropdown receives
  `validSelectedTests` (components/InsightsTab.tsx:347). It writes its toggle of that list back
  into `selectedTests`, so a click in it drops every remembered test that is not on offer.
  `InsightsView.ClickingATestForgetsHiddenTests` gives a concrete case.
  - The design intent is that a remembered test survives supplier changes, and the line-179
    comment calls the selection the user's intent. That promise holds only while no test is
    clicked (`InsightsView.IntentSurvivesSupplierChanges`).
  - The model follows the code.
- **A reload ignores the search text.** A load sets `filtered` to all rows but keeps
  `filterText` (components/DataTab.tsx:103-104). `DataTable.ReloadIgnoresSearchText` shows a
  row on screen that the text in the box does not match.
- **`object` matches every joined row.** The search stringifies every field, the nested join
  object included, as `[object Object]` (`DataTable.JoinedRowsMatchObject`).

## Left out

- The Supabase queries, `useEffect`, the `isMounted` guard, and the loading and error flags are
  not modelled. A fetch result is a parameter; in `DataTable.Load` it is an `Option`, where
  `None` stands for an error, no data or an unmounted component.
- The JSX, the charts' rendering, the chart libraries and the layout are not modelled. The
  charts are modelled only as their input data.
- The date parsing accepts only the date-only `yyyy-MM-dd` form of a Postgres `date` column.
  Other ISO forms that `parseISO` accepts are not modelled.
  - `try`/`catch` is the `None` of `MonthKeys.MonthKey`.
  - The local time zone is not modelled: on a time-less date, `startOfMonth` and `format`
    keep the calendar fields.
- The comparisons use `Text.Le`, the UTF-16 code-unit order (`Text.LeIsCodeUnitOrder`):
  - the default `sort()` at components/InsightsTab.tsx:220 and 239, which compares by code unit;
  - the `localeCompare` at line 156.

  `localeCompare` agrees with code-unit order on the `yyyy-MM-01` keys it is given. In general
  it is locale-dependent, and that is not modelled.
- `toLowerCase` is modelled for ASCII letters only.
- `String(v)` is modelled only for its three inputs:
  - `null`, which the `?? ""` turns into the empty string;
  - the join object, `[object Object]`;
  - any other value, given in the model as its text (`DataTable.Value.Scalar`).

  Numbers, booleans and dates are not stringified by the model.
- The object model and JavaScript data shapes:
  - A row object is its fields in insertion order. JavaScript lists integer-like keys first,
    and this is not modelled.
  - `processResultsByProduct` mutates the counter object it reads from the map. The model
    writes the updated counter back into the map, which has the same effect since nothing
    else refers to the object.
  - Row identity and aliasing are not modelled: rows are values.
- The Excel export (`downloadExcel`), the table rendering and the files `FileUpload.tsx`,
  `login-form.tsx`, `app/page.tsx`, `app/api` and `types/next-auth.d.ts` are not part of the
  model.
- `useMemo` caching is not modelled: each derived value is recomputed as a function. This is
  equivalent, because every derivation is a function of its dependencies.
