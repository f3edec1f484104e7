# Vettoo dashboard: filters and report table, modelled in Dafny

Vettoo is a Streamlit dashboard over apprenticeship contract-status sheets.
Each sheet row is one qualification. It has a `Training Packages` name, a
`Latest Qualification` name and one count per reporting period. This
project models the pure part of the dashboard:

- the two row filters and the qualification-options query (`modules/filters.py`);
- the label-shortening rule `shorten_label`;
- what `run_app` (`modules/ui.py`) computes from the loaded sheet and the two
  selections. That is the instructions guard, the numeric period columns and
  the latest period, the transposed chart frame, the totals row appended to
  the selection, and the renamed headers shown on screen.

Modules, one file each:

- `Tables` (`tables.dfy`): a positional table.
  - Columns have a name and a numeric flag.
  - A cell is `Text`, `Count` or `Missing`.
  - `IsSheet` is the invariant of a loaded sheet: distinct headers,
    rectangular rows, no text in numeric columns, and both key columns present,
    non-numeric and holding text.
- `Ordering` (`ordering.dfy`): Python's `str` ordering and `sorted(set(..))`.
- `Labels` (`labels.dfy`): `str.strip()`, using Python's whitespace set, and
  `shorten_label`.
- `Filters` (`filters.dfy`): `filter_by_tp`, `filter_by_qual` and
  `available_quals`.
- `Ui` (`ui.dfy`): the steps of `run_app`, and `RunApp`, which returns either
  the instructions screen or a `Report` holding these parts:
  - `selection`: the filtered table;
  - `chart`: the chart data;
  - `table`: the selection plus the totals row (the table the Excel export
    writes);
  - `display`: the renamed table shown on screen.

Behaviour of the code worth noting:

- The export writes `table` with its original period headers
  (modules/ui.py:99), not relabelled ones.
- The totals label is "Total of selected items" (modules/ui.py:83).
- The period columns are all numeric columns (modules/ui.py:63). There is no
  year-suffix test and no year range.
- The chart frame is the wide, transposed frame of modules/ui.py:74-76, not a
  long list of triples.
- When packages are chosen and no qualification is, the empty qualification
  list filters nothing (modules/filters.py:9-10). So every qualification
  aligned with the packages is shown.

## Model

| member | source | states |
|---|---|---|
| Filters.KeepRows | modules/filters.py:6 | the boolean-mask selection `df[df[col].isin(sel)]` yields the rows whose key cell is a selected name: every kept row matches, every matching row is kept exactly as often as it occurs, and the input order is preserved (subsequence); every result row is an input row |
| Filters.KeepRowsUnique | modules/filters.py:6 | the selection contract determines the result: any sequence that is a selection in that sense equals `KeepRows` |
| Filters.KeptRow | modules/filters.py:6 | a row is in the filtered rows iff it is an input row whose key cell is selected |
| Filters.KeepRowsCount | modules/filters.py:6 | the filter keeps exactly as many rows as there are matching input rows |
| Filters.FilterByPackage | modules/filters.py:3-6 | an empty package list returns the sheet unchanged; otherwise the rows are exactly the order-preserving selection on `Training Packages`; the columns are unchanged and the result is still a sheet |
| Filters.FilterByQual | modules/filters.py:8-11 | an empty qualification list returns the sheet unchanged; otherwise the rows are exactly the order-preserving selection on `Latest Qualification`; the columns are unchanged and the result is still a sheet |
| Filters.FilterByPackageIdempotent | modules/filters.py:3-6 | filtering twice by the same packages equals filtering once |
| Filters.FilterByQualIdempotent | modules/filters.py:8-11 | filtering twice by the same qualifications equals filtering once |
| Filters.FiltersCommute | modules/filters.py:3-11 | the package and qualification filters commute |
| Filters.AvailableQuals | modules/filters.py:13-17 | the options are strictly ascending (sorted, no duplicates); a name is offered iff some row has it as its qualification and, when packages are chosen, a chosen package |
| Filters.HasTextAfterKeep | modules/filters.py:16-17 | a qualification occurs in the package-filtered rows iff some input row has it together with a chosen package |
| Filters.AvailableQualsSubset | modules/filters.py:13-17 | the options offered for some packages are among those offered with no package chosen |
| Filters.AvailableQualsOfFiltered | modules/filters.py:16-17 | the options for chosen packages are exactly the full option list of the package-filtered sheet |
| Filters.OfferedQualificationHasRows | modules/ui.py:38-41 | choosing any offered qualification after the chosen packages leaves at least one row |
| Ordering.LessTransitive | modules/filters.py:15 | Python's string order is transitive |
| Ordering.LessTotal | modules/filters.py:15 | Python's string order is total: of two different strings one is smaller |
| Ordering.SortedDistinct | modules/filters.py:15 | `sorted(set(xs))` is strictly ascending and holds exactly the elements of `xs` |
| Ordering.AscendingUnique | modules/filters.py:15 | two strictly ascending lists with the same elements are equal, so the sorted distinct list is unique |
| Labels.Strip | modules/ui.py:16 | `strip()` returns the input without its leading and trailing whitespace; the result neither starts nor ends with whitespace |
| Labels.StripUnique | modules/ui.py:16 | only one string meets the strip contract, so the contract fixes `strip()` completely |
| Labels.StripKeepsOccurrences | modules/ui.py:16 | stripping removes no non-whitespace character |
| Labels.ShortenLabel | modules/ui.py:10-17 | without a comma the name is returned unchanged; with one, the result is the stripped text after the first comma, holding every later comma, and it is shorter than the name |
| Labels.ShortenLabelDetermined | modules/ui.py:15-16 | any string that is the strip of the text after the first comma is the shortened label |
| Labels.ShortenLabelStable | modules/ui.py:15-17 | a shortened label without a comma is unchanged by a second shortening |
| Labels.ShortenLabelTrimmed | modules/ui.py:16 | a shortened comma label neither starts nor ends with whitespace |
| Labels.ShortenLabelCommaExample | modules/ui.py:15-16 | "Apprentices, 2023_Q4" is shortened to "2023_Q4" |
| Labels.ShortenLabelPlainExample | modules/ui.py:17 | "2023_Q4" is left unchanged |
| Ui.PackageOptions | modules/ui.py:34-37 | the package options are strictly ascending and hold exactly the packages of the sheet's rows |
| Ui.NumericIndices | modules/ui.py:63 | the positions of the numeric columns: only numeric positions, strictly increasing, every numeric position listed, nothing numeric after the last one |
| Ui.NumericFromComplete | modules/ui.py:63 | the scan from a position lists every numeric column from there on |
| Ui.NumericColumns | modules/ui.py:63 | `numeric_cols` holds the headers of the numeric columns, one per numeric position, in column order |
| Ui.LatestPeriod | modules/ui.py:64 | with no numeric column the latest period is ""; otherwise it is the header of a numeric column after which no column is numeric |
| Ui.ReportLatestPeriod | modules/ui.py:59-64 | the report's latest period is the one of the sheet itself, because filtering keeps the columns |
| Ui.ChartData | modules/ui.py:74-76 | one period per numeric column, labelled with its shortened header; one series per selected row, named by its qualification; value (period p, row i) is row i's cell in the p-th numeric column |
| Ui.ChartRoundTrip | modules/ui.py:74-75 | transposing the chart values back gives the numeric columns of the selection |
| Ui.Project | modules/ui.py:74 | `[numeric_cols]` on positions: one row per input row, one entry per listed position, entry (i, p) is row i's cell at the p-th position |
| Ui.Transpose | modules/ui.py:75 | `.T`: one row per column of the input, each as long as the input; entry (c, i) is the input's entry (i, c) |
| Ui.TransposeTwice | modules/ui.py:75 | transposing twice gives the matrix back |
| Ui.ShortenAll | modules/ui.py:76 | the relabelled index has one label per period, and label p is the shortened p-th header |
| Ui.ComputeTotals | modules/ui.py:81 | `sub[numeric_cols].sum()` as a one-pass loop over the rows: entry p equals `ColumnSum` of the p-th numeric column. The report itself takes its totals from `TotalsRow`, which uses `ColumnSum` directly, so this loop is an independent check of that reference sum |
| Ui.TotalsRow | modules/ui.py:81-83 | `totals_dict` as a row: "Total of selected items" in the qualification column, the column sum in every numeric column, an empty cell in every other column |
| Ui.ColumnSumAppend | modules/ui.py:81 | a column sum over two blocks of rows is the sum of the two blocks' sums |
| Ui.WithTotals | modules/ui.py:81-86 | the combined table has the selection's columns and one more row; its first rows are the selection unchanged; the last row holds "Total of selected items" as its qualification, the column sum in every numeric column (0 for an empty selection) and an empty cell elsewhere; the result is well formed |
| Ui.CombinedColumnSum | modules/ui.py:81-86 | a numeric column of the combined table sums to twice the selection's sum |
| Ui.RenameForDisplay | modules/ui.py:89-90 | the rename keeps every cell and every numeric flag, and shows each numeric column's header shortened |
| Ui.RenameKeepsOtherHeaders | modules/ui.py:89-90 | with distinct headers, the rename leaves every non-numeric column untouched |
| Ui.DisplayHeadersMatchChart | modules/ui.py:76-90 | the on-screen period headers are exactly the chart's period labels |
| Ui.RunApp | modules/ui.py:44-90 | the instructions are shown iff no package and no qualification is chosen; otherwise the selection is the qualification filter applied after the package filter. The report also has these properties: its period columns are the sheet's; the latest-period label is the shortened latest period; the table is the selection plus one row, with the sheet's columns; the display has the table's rows |
| Ui.ReportRowsAreSelected | modules/ui.py:59-60 | every selected row has a chosen package (when packages are chosen) and a chosen qualification (when qualifications are chosen) |
| Ui.ReportShape | modules/ui.py:74-90 | the display has one row per selected row plus the totals row and the sheet's columns; the chart has one value per selected row and numeric column; the last display row is the totals row |
| Ui.ReportTotals | modules/ui.py:81-86 | in the report, the table's last row holds, for every numeric column, the sum of that column over the selected rows |
| Ui.PackageOnlyReport | modules/ui.py:44-90 | with packages chosen and no qualification, the display has one row per sheet row of those packages plus one, and the chart that many values per period |

## Left out

- Streamlit rendering is not modelled: page configuration, title, header and subtitle text, widgets, `st.line_chart` and `st.dataframe`. The widget selections become the inputs `tps` and `quals` of `RunApp`.
- The Excel export (modules/ui.py:97-107) is I/O and is not modelled. The model keeps `table`, the un-renamed table the export writes, next to `display`.
- Loading the sheet is file I/O and is not modelled: `DataLoader`, status selection, globbing, reading the workbook. The loaded sheet is an input. modules/data_loader.py is not part of this model.
- modules/plotter.py is a wrapper around the chart widget and is not part of this model.
- pandas dtype inference is not modelled: `is_numeric_dtype` is taken as given. Each column's numeric flag is part of the input table.
- Ui.ComputeTotals: sums are over unbounded integers with an empty cell counted as 0. pandas floating-point sums, NaN propagation and integer width are not modelled.
- Filters.AvailableQuals: empty (NaN) cells in the key columns are outside the model. `IsSheet` requires text there. On real data, `sorted` would raise a `TypeError` on a mix of strings and NaN, and `isin` never selects NaN.
- Missing key columns (a `KeyError` in pandas) are excluded by `IsSheet` and not modelled as an error path.
- Python's `str` order is modelled as code-point order. Characters are Unicode scalar values, so surrogate code points cannot occur.
- Labels.Strip: whitespace is the fixed set of Python's `str.isspace`. It is written out as ranges, not derived from the Unicode database.
- Ui.RenameForDisplay: two numeric headers that shorten to the same label give duplicate headers on screen. The model allows this, as pandas does, and states no distinctness for the display table.
- Rounding, redaction, aggregation by package, year-range selection and the metadata sheet do not appear in the code and are not modelled.
