# EV dashboard view logic in Dafny

This project models the view logic of a client-side dashboard of
electric-vehicle registrations. Four components are covered:

- **Vehicle table** (`EvTable`). It does a case-insensitive search over eight fixed columns (county, city, state, model year, make, model, vehicle type, electric range) and shows a zero-based page of the matching rows. Its state is the page, the rows per page and the search text, and three handlers change that state. Two cell transforms are modelled: the abbreviated vehicle type, and the range cell, which shows a dash when the range is unknown.
- **Filter bar** (`FilterBar`). It decides when any of the seven filters is active and when the "Clear filters" button is offered. It also encodes each filter into its select's value and decodes the option the user picks. The "All" option is `""`, which means the filter is unset.
- **KPI grid** (`KpiGrid`). It shows five fixed cards and formats the summary fields. The average range is shown only when it is positive, and the top make falls back to a dash.
- **Vehicle-type pie** (`VehicleTypePie`). Each type count becomes a chart row labelled with a 12-character abbreviation. The order of the rows is kept, and slice colours cycle through three colours.

Two helper modules support these components. `JsText` states the JavaScript built-ins the components use: `toLowerCase`, `trim`, `includes`, `slice`, `String(n)` and `Number(s)`. `TypeLabels` holds the keyword abbreviation that the table and the pie share. The table uses a width of 15 and the pie a width of 12.

`rowMatchesSearch` is a loop with an early return, so it is a method, proved against the predicate `RowMatches`. The table's UI state is the class `EvTable.TableState`. Its handlers are methods that say what the new state is and which page the table then shows. Everything else is written as functions and lemmas.

Two behaviours of the code are easy to miss, and the model keeps both:

- The table's page is not reset when the `data` prop changes. Only the rows-per-page and search handlers set it back to 0 (src/components/EvTable.tsx:65-74). When the filters shrink the data, the current page is kept. If that page is now past the end, it is empty and the table says "No data" while the paginator's count is still positive. `TableState` has no reaction to a change of data.
- The "Clear filters" button sits inside the branch that is taken only when the bar is enabled (src/components/FilterBar.tsx:50-173). So it is offered only when the bar is enabled and some filter is active, not whenever some filter is active.

## Model

| member | source | states |
|---|---|---|
| `JsText.ToLowerCase` | src/components/EvTable.tsx:40 | lowercasing keeps the length and maps each character on its own (ASCII letters) |
| `JsText.Trim` | src/components/EvTable.tsx:55 | the trimmed text is the infix of the input with only whitespace cut from both ends; it is empty exactly when the input is all whitespace |
| `JsText.IncludesIff` | src/components/EvTable.tsx:44 | `includes` holds exactly when the term occurs at some position of the text |
| `JsText.Slice` | src/components/EvTable.tsx:62 | with non-negative bounds, `slice` is the window clipped to the sequence, and it is never longer than `end - start` |
| `JsText.Number` | src/components/FilterBar.tsx:67 | `Number(s)` of a non-empty run of decimal digits is their value, and `""` or a whitespace-only string reads as 0 |
| `JsText.NumberToString` | src/components/FilterBar.tsx:65 | `String(x)` is "NaN" exactly for NaN; for a finite number it is non-empty and starts with '-' exactly when the number is negative |
| `JsText.IntToString` | src/components/EvTable.tsx:43 | `String(n)` is non-empty, starts with '-' exactly for negative numbers, and is otherwise decimal digits |
| `JsText.DecimalValueOfNatToString` | src/components/FilterBar.tsx:65-67 | reading back the digits written for a natural number gives that number |
| `JsText.NumberOfNumberToString` | src/components/FilterBar.tsx:65-67 | `Number(String(x)) == x` for every integer and for NaN |
| `TypeLabels.Abbreviate` | src/components/EvTable.tsx:76-80 | the label is "BEV", "PHEV", or a prefix of the type no longer than the width; for a type with neither keyword it is exactly `min(width, len)` characters long |
| `TypeLabels.AbbreviateCases` | src/components/EvTable.tsx:76-80 | "Battery Electric" gives "BEV" even if "Plug-in Hybrid" also occurs, "Plug-in Hybrid" alone gives "PHEV", and any other type gives its first `min(width, len)` characters |
| `TypeLabels.NarrowerIsPrefix` | src/components/charts/VehicleTypePie.tsx:13-17 | a narrower abbreviation of a type is a prefix of a wider one |
| `EvTable.RowMatches` | src/components/EvTable.tsx:38-47 | an empty term matches every row; a non-empty term matches exactly when some listed column's text contains the lowercased term |
| `EvTable.SearchIsCaseInsensitive` | src/components/EvTable.tsx:40-44 | a row matches a term exactly when it matches the lowercased term |
| `EvTable.AbsentNeverMatches` | src/components/EvTable.tsx:43-44 | the `val != null ? … : ""` branch: a missing cell is searched as `""` and contains no non-empty term (no `Record` column is ever missing, so this states only the branch itself) |
| `EvTable.RowMatchesSearch` | src/components/EvTable.tsx:38-47 | the column scan with early return answers exactly `RowMatches`: an empty term matches, otherwise some column's lowercased text contains the lowercased term |
| `EvTable.PerColumnNotConcatenation` | src/components/EvTable.tsx:41-45 | matching is per column: a term that occurs only across the boundary of two columns does not match |
| `EvTable.SeattleMatches` | src/components/EvTable.tsx:40-44 | "seattle" matches a row whose city is "Seattle" |
| `EvTable.XyzDoesNotMatch` | src/components/EvTable.tsx:41-46 | "xyz123" matches none of the eight columns of that row |
| `EvTable.Filter` | src/components/EvTable.tsx:57 | the filtered rows are no more than the input and every one of them is an input row that matches |
| `EvTable.FilterIsSubsequence` | src/components/EvTable.tsx:57 | the filter keeps rows in their original order (an order-preserving subsequence) |
| `EvTable.FilterAppend` | src/components/EvTable.tsx:57 | filtering a concatenation is the concatenation of the filtered parts |
| `EvTable.FilterKeepsMatches` | src/components/EvTable.tsx:57 | every matching row of the input survives the filter |
| `EvTable.BlankSearchIsIdentity` | src/components/EvTable.tsx:55-56 | an empty or whitespace-only search text returns the rows unchanged |
| `EvTable.SearchFilteredSpec` | src/components/EvTable.tsx:54-58 | the searched rows are an order-preserving subsequence of the data, and a row is in them exactly when it is in the data and matches the trimmed text |
| `EvTable.SearchFiltered` | src/components/EvTable.tsx:54-58 | never more rows than the data; a blank search returns the data itself; every row kept is a data row that matches the trimmed search |
| `EvTable.Sliced` | src/components/EvTable.tsx:60-63 | every row of the page comes from the searched rows; a page has at most `rowsPerPage` rows, and none once `page * rowsPerPage` reaches the count |
| `EvTable.SlicedWindow` | src/components/EvTable.tsx:60-63 | a page has at most `rowsPerPage` rows, is empty when `page * rowsPerPage >= len`, and is otherwise `xs[start .. min(len, start + rowsPerPage)]` |
| `EvTable.FirstPage` | src/components/EvTable.tsx:60-63 | page 0 is the first `min(len, rowsPerPage)` rows |
| `EvTable.ThirdOfTwentyFive` | src/components/EvTable.tsx:60-63 | of 25 rows at 10 per page, page 2 is rows 20 to 24 |
| `EvTable.PagesArePrefix` | src/components/EvTable.tsx:60-63 | pages 0 to k-1 concatenated are the first `min(len, k * rowsPerPage)` rows |
| `EvTable.PagesReconstruct` | src/components/EvTable.tsx:60-63 | enough pages, concatenated in order, give back all the searched rows |
| `EvTable.TypeShort` | src/components/EvTable.tsx:76-80 | "BEV" when the type contains "Battery Electric" (checked first), "PHEV" when it contains "Plug-in Hybrid", else the first `min(15, len)` characters; never longer than 15 |
| `EvTable.RangeCell` | src/components/EvTable.tsx:170 | the cell is a dash exactly when the range is zero or negative; otherwise it reads back as the range |
| `EvTable.TableState.constructor` | src/components/EvTable.tsx:49-52 | the initial state is page 0, the `pageSize` prop (10 by default) and an empty search |
| `EvTable.TableState.Visible` | src/components/EvTable.tsx:60-63 | the shown rows are data rows that match the trimmed search, at most `rowsPerPage` of them |
| `EvTable.TableState.ShowsNoData` | src/components/EvTable.tsx:154-159 | "No data" is shown whenever no row matches, and also whenever the page lies past the last matching row |
| `EvTable.TableState.Total` | src/components/EvTable.tsx:177-179 | the paginator's count is the number of rows after the search and before slicing; it is at most the number of rows and at least the rows on the page |
| `EvTable.TableState.ChangePage` | src/components/EvTable.tsx:65 | only the page changes |
| `EvTable.TableState.ChangeRowsPerPage` | src/components/EvTable.tsx:66-69 | the page size changes, the page goes back to 0, the search is kept, and the table then shows the first rows of the searched data |
| `EvTable.TableState.ChangeSearch` | src/components/EvTable.tsx:71-74 | the search text changes, the page goes back to 0, the page size is kept, and the table then shows the first rows of the new search |
| `EvTable.NoDataOnFirstPage` | src/components/EvTable.tsx:154-159 | on page 0 with a positive page size, "No data" is shown exactly when no row matches |
| `FilterBar.AnyTrueIff` | src/components/FilterBar.tsx:30-38 | `.some(Boolean)` over the flags holds exactly when some flag is true |
| `FilterBar.HasActive` | src/components/FilterBar.tsx:30-38 | the bar is active exactly when one of its seven flags is true; a set year always makes it active |
| `FilterBar.HasActiveIff` | src/components/FilterBar.tsx:30-38 | `hasActive` holds exactly when the year is set or some text filter is set to a non-empty string |
| `FilterBar.NoFiltersInactive` | src/components/FilterBar.tsx:30-38 | with all seven filters unset nothing is active |
| `FilterBar.YearAlwaysActive` | src/components/FilterBar.tsx:31 | a set year is active whatever its value, since the year gets no emptiness check |
| `FilterBar.EmptyTextInactive` | src/components/FilterBar.tsx:32-37 | text filters set to `""` do not make the bar active |
| `FilterBar.ClearButtonShown` | src/components/FilterBar.tsx:167-171 | a disabled bar never shows the button, and the button is shown only when some filter is active |
| `FilterBar.ClearButtonOffered` | src/components/FilterBar.tsx:167-171 | "Clear filters" is offered exactly when the bar is enabled and some filter is active |
| `FilterBar.ClearedBar` | src/components/FilterBar.tsx:62-171 | with no filters set the button is not offered and every select shows "All" |
| `FilterBar.YearSelectValue` | src/components/FilterBar.tsx:65 | the year select shows `""` exactly when the year is unset |
| `FilterBar.TextSelectValue` | src/components/FilterBar.tsx:80 | an unset text filter shows `""` and a set one shows its own text |
| `FilterBar.SelectValue` | src/components/FilterBar.tsx:65-155 | the year select shows `""` exactly when the year is unset; a text select shows `""` exactly when its filter is not active |
| `FilterBar.OnSelect` | src/components/FilterBar.tsx:67-157 | the year select, and only it, yields a year change, which unsets the year exactly for `""`; a text select yields a change of its own key, to unset for `""` and otherwise to the picked string |
| `FilterBar.Apply` | src/components/FilterBar.tsx:18 | a change sets exactly the filter it names and leaves the other six as they were |
| `FilterBar.DecodeYear` | src/components/FilterBar.tsx:67 | picking `""` unsets the year, and any other option sets it |
| `FilterBar.DecodeText` | src/components/FilterBar.tsx:82 | picking `""` unsets the field, and any other option is passed on unchanged |
| `FilterBar.AllUnsets` | src/components/FilterBar.tsx:62-166 | picking "All" in any of the seven selects unsets that select's filter |
| `FilterBar.TextOptionSetsOnlyItsKey` | src/components/FilterBar.tsx:77-166 | picking a non-empty text option sets exactly that string under the select's key, and no other filter changes |
| `FilterBar.YearOptionRoundTrip` | src/components/FilterBar.tsx:65-74 | picking the option `String(y)` sets the year to exactly `y` and changes nothing else |
| `FilterBar.YearOptionsDecodeToYears` | src/components/FilterBar.tsx:67-74 | every option the year select offers decodes to unset or to one of the offered years |
| `FilterBar.ReselectRoundTrip` | src/components/FilterBar.tsx:62-166 | picking the option a select currently shows changes nothing, except that a text filter holding `""` becomes unset |
| `FilterBar.UnsetShowsAll` | src/components/FilterBar.tsx:65-155 | every select of an unset filter shows "All" (`""`) |
| `KpiGrid.Show` | src/components/KpiGrid.tsx:23-35 | a formatted count is never empty and never the dash placeholder |
| `KpiGrid.Format` | src/components/KpiGrid.tsx:20-49 | the count cards never show a dash; the average card shows a dash exactly when the average is not positive; the top-make card shows the first make, or a dash when there is none |
| `KpiGrid.FormatAvgRange` | src/components/KpiGrid.tsx:41 | the average range shows a dash exactly when it is zero or negative; otherwise it reads back as the average |
| `KpiGrid.FormatTopMake` | src/components/KpiGrid.tsx:47 | the top-make card shows the first top make's name, or a dash when the list is empty |
| `KpiGrid.Render` | src/components/KpiGrid.tsx:52-81 | one view per card in card order; while loading every card is a placeholder and no formatter runs, otherwise card i shows its title and its formatted value |
| `KpiGrid.CardOrder` | src/components/KpiGrid.tsx:14-50 | the card list `KpiCards` has exactly five cards, in this order: total, BEV count, PHEV count, average range, top make |
| `KpiGrid.LabelsDistinct` | src/components/KpiGrid.tsx:55-56 | the card titles, used as keys, are pairwise distinct |
| `KpiGrid.CountCardsShowTheirFields` | src/components/KpiGrid.tsx:20-37 | the total, BEV and PHEV cards show `toLocaleString()` of `total`, `bevCount` and `phevCount`, so each card's text depends only on its own field |
| `KpiGrid.AvgCardShowsNumberIffPositive` | src/components/KpiGrid.tsx:38-43 | the fourth card shows a number exactly when the average range is positive |
| `KpiGrid.TopMakeCard` | src/components/KpiGrid.tsx:44-49 | the fifth card shows the first top make, or a dash when there is none |
| `VehicleTypePie.ShortLabel` | src/components/charts/VehicleTypePie.tsx:13-17 | "BEV" whenever the type contains "Battery Electric", "PHEV" when it contains only "Plug-in Hybrid", else the first `min(12, len)` characters; never longer than 12 |
| `VehicleTypePie.ChartData` | src/components/charts/VehicleTypePie.tsx:20 | there is one chart row per type count |
| `VehicleTypePie.ChartRowLabels` | src/components/charts/VehicleTypePie.tsx:20 | row i carries the short label, the count and the full type of the i-th type count |
| `VehicleTypePie.ChartDataLossless` | src/components/charts/VehicleTypePie.tsx:20 | the type counts, in order, can be read back from the rows' `fullName` and `value` |
| `VehicleTypePie.NoDataIffEmpty` | src/components/charts/VehicleTypePie.tsx:20-31 | once loaded, "No data" is shown exactly when there are no type counts; otherwise the pie draws the chart rows |
| `VehicleTypePie.Render` | src/components/charts/VehicleTypePie.tsx:19-56 | loading shows the skeleton; once loaded, no type counts show "No data"; otherwise the pie draws the chart rows, and slice i is filled with `SliceColor(i)` |
| `VehicleTypePie.SliceColor` | src/components/charts/VehicleTypePie.tsx:44-46 | every slice colour is one of the three colours, and the first three slices take them in order |
| `VehicleTypePie.ColorsCycle` | src/components/charts/VehicleTypePie.tsx:44-46 | slice colours repeat with period 3, and neighbouring slices never share a colour |
| `VehicleTypePie.PieLabelIsPrefixOfTableLabel` | src/components/charts/VehicleTypePie.tsx:13-17 | the pie's 12-character label of a type is a prefix of the table's 15-character label |

## Left out

- The aggregation layer and the filter engine are not part of this model: `summarize`, `applyFilters`, the derivation of the filter options, `setFilter` and `clearFilters`. Their source files are src/data/evAggregations.ts and src/hooks/useEvData.ts. `FilterBar.Apply` stands for the keyed update that the `onFilterChange(key, value)` signature asks for, and `FilterBar.NoFilters` stands for the cleared state.
- src/App.tsx only wires hook outputs into components. src/theme.ts and src/components/charts/ChartSkeleton.tsx are styling. The top-makes bar, by-year and range-histogram charts are thin chart-library wrappers. None of these is modelled.
- Rendering is not modelled: JSX, the UI and chart library components, icons, skeleton placeholders, tooltips, legends, pie slice labels and the paginator widget. That includes how the paginator bounds its own page.
- React scheduling (`useState`, `useMemo`, re-renders) is not modelled. Only the resulting state fields and transitions are.
- `KpiGrid.Show`: `toLocaleString()` is rendered as the plain decimal form. The thousands separators depend on the locale.
- `JsText.ToLowerCase`: only ASCII letters are lowercased. Unicode case mapping is not modelled, and it can change a string's length.
- `JsText.Slice`: strings are sequences of Unicode characters, while JavaScript indexes UTF-16 code units. For text outside the Basic Multilingual Plane, `slice(0, 15)` and `slice(0, 12)` can split a surrogate pair in JavaScript and cannot in the model.
- `JsText.Includes`: it compares Unicode characters, not UTF-16 code units. The two agree on whether a term occurs, except for a term that is itself half a surrogate pair.
- `JsText.Number`: only optionally signed decimal integers, with surrounding whitespace, are read. Fractions, exponents, hexadecimal and `Infinity` become NaN in the model. Year options come from `String(y)` of integer years, so they are always decimal integers.
- `KpiGrid.Summary`: the average electric range is an integer, and only the five fields the grid reads are kept. A fractional average would render with decimals.
- `EvTable.TableState.ChangeRowsPerPage` takes the parsed integer. The `parseInt` of the DOM event value is not modelled. The choices the paginator offers are not modelled.
- `EvTable.Record` holds only the eight displayed columns. The VIN and the registration id only form the React row key. The model makes the eight fields non-nullable, so the `val != null` branch of src/components/EvTable.tsx:43 is reached only through `Cell.Absent`.
