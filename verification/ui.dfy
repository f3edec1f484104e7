/**
  The pure part of `run_app` (modules/ui.py): from a loaded sheet and the two
  selections to the chart data, the table with its totals row (what the Excel
  export writes) and the same table with shortened period headers (what is
  shown on screen).
 */
module Ui {
  import opened Tables
  import opened Ordering
  import opened Labels
  import opened Filters

  /** Options of the package selector: `sorted(df["Training Packages"].unique())`. */
  function PackageOptions(t: Table): (r: seq<string>)
    requires IsSheet(t)
    ensures StrictlyAscending(r)
    ensures forall p :: p in r <==> exists i :: 0 <= i < |t.rows| && t.rows[i][PackageIndex(t)] == Text(p)
  {
    var k := PackageIndex(t);
    var names := TextColumn(t.rows, k);
    assert forall p :: p in names ==> exists i :: 0 <= i < |t.rows| && t.rows[i][k] == Text(p);
    SortedDistinct(names)
  }

  // ---------------------------------------------------------------------------
  // Period columns

  /** Positions of the numeric columns from position `lo` on, left to right. */
  function NumericFrom(cols: seq<Column>, lo: nat): seq<nat>
    requires lo <= |cols|
    decreases |cols| - lo
  {
    if lo == |cols| then []
    else if cols[lo].numeric then [lo] + NumericFrom(cols, lo + 1)
    else NumericFrom(cols, lo + 1)
  }

  /** `NumericFrom` lists only numeric positions from `lo` on. */
  lemma {:induction false} NumericFromInRange(cols: seq<Column>, lo: nat)
    requires lo <= |cols|
    ensures forall p :: 0 <= p < |NumericFrom(cols, lo)| ==>
      lo <= NumericFrom(cols, lo)[p] < |cols| && cols[NumericFrom(cols, lo)[p]].numeric
    decreases |cols| - lo
  {
    if lo < |cols| {
      NumericFromInRange(cols, lo + 1);
      var rest := NumericFrom(cols, lo + 1);
      if cols[lo].numeric {
        var r := [lo] + rest;
        assert NumericFrom(cols, lo) == r;
        assert forall p :: 0 < p < |r| ==> r[p] == rest[p - 1];
      }
    }
  }

  /** `NumericFrom` lists its positions in increasing order. */
  lemma {:induction false} NumericFromIncreasing(cols: seq<Column>, lo: nat)
    requires lo <= |cols|
    ensures forall p, q :: 0 <= p < q < |NumericFrom(cols, lo)| ==> NumericFrom(cols, lo)[p] < NumericFrom(cols, lo)[q]
    decreases |cols| - lo
  {
    if lo < |cols| {
      NumericFromIncreasing(cols, lo + 1);
      NumericFromInRange(cols, lo + 1);
      var rest := NumericFrom(cols, lo + 1);
      if cols[lo].numeric {
        var r := [lo] + rest;
        assert NumericFrom(cols, lo) == r;
        assert forall p :: 0 < p < |r| ==> r[p] == rest[p - 1] && lo < r[p];
      }
    }
  }

  /** `NumericFrom` lists every numeric position from `lo` on. */
  lemma {:induction false} NumericFromComplete(cols: seq<Column>, lo: nat)
    requires lo <= |cols|
    ensures forall j :: lo <= j < |cols| && cols[j].numeric ==> j in NumericFrom(cols, lo)
    decreases |cols| - lo
  {
    if lo < |cols| {
      NumericFromComplete(cols, lo + 1);
      var rest := NumericFrom(cols, lo + 1);
      if cols[lo].numeric {
        assert NumericFrom(cols, lo) == [lo] + rest;
      }
    }
  }

  /** Nothing after the last listed position is numeric. */
  lemma LastNumeric(cols: seq<Column>, r: seq<nat>)
    requires forall j :: 0 <= j < |cols| && cols[j].numeric ==> j in r
    requires forall p, q :: 0 <= p < q < |r| ==> r[p] < r[q]
    ensures |r| > 0 ==> forall j :: r[|r| - 1] < j < |cols| ==> !cols[j].numeric
  {
    if |r| > 0 {
      assert forall p :: 0 <= p < |r| ==> r[p] <= r[|r| - 1];
      assert forall j :: r[|r| - 1] < j ==> j !in r;
    }
  }

  /** Positions of the numeric columns, left to right. */
  function NumericIndices(cols: seq<Column>): (r: seq<nat>)
    ensures forall p :: 0 <= p < |r| ==> r[p] < |cols| && cols[r[p]].numeric
    ensures forall p, q :: 0 <= p < q < |r| ==> r[p] < r[q]
    ensures forall j :: 0 <= j < |cols| && cols[j].numeric ==> j in r
    ensures |r| > 0 ==> forall j :: r[|r| - 1] < j < |cols| ==> !cols[j].numeric
  {
    NumericFromInRange(cols, 0);
    NumericFromIncreasing(cols, 0);
    NumericFromComplete(cols, 0);
    LastNumeric(cols, NumericFrom(cols, 0));
    NumericFrom(cols, 0)
  }

  /** `numeric_cols`: the headers of the numeric columns, in column order. */
  function NumericColumns(cols: seq<Column>): (r: seq<string>)
    ensures |r| == |NumericIndices(cols)|
    ensures forall p :: 0 <= p < |r| ==> r[p] == cols[NumericIndices(cols)[p]].name
  {
    var idx := NumericIndices(cols);
    seq(|idx|, p requires 0 <= p < |idx| => cols[idx[p]].name)
  }

  /** `latest_period`: the last numeric header, or "" when there is none. */
  function LatestPeriod(cols: seq<Column>): (r: string)
    ensures (forall j :: 0 <= j < |cols| ==> !cols[j].numeric) ==> r == ""
    ensures (exists j :: 0 <= j < |cols| && cols[j].numeric) ==>
      exists j :: 0 <= j < |cols| && cols[j].numeric && cols[j].name == r
        && forall k :: j < k < |cols| ==> !cols[k].numeric
  {
    var idx := NumericIndices(cols);
    var names := NumericColumns(cols);
    if |names| > 0 then
      names[|names| - 1]
    else
      ""
  }

  // ---------------------------------------------------------------------------
  // Chart data

  /** `m.T` for a matrix whose rows all have `width` entries. */
  function Transpose<T>(m: seq<seq<T>>, width: nat): (r: seq<seq<T>>)
    requires forall i :: 0 <= i < |m| ==> |m[i]| == width
    ensures |r| == width
    ensures forall c :: 0 <= c < width ==> |r[c]| == |m|
    ensures forall c, i :: 0 <= c < width && 0 <= i < |m| ==> r[c][i] == m[i][c]
  {
    seq(width, c requires 0 <= c < width => seq(|m|, i requires 0 <= i < |m| => m[i][c]))
  }

  /** Transposing twice gives the matrix back. */
  lemma TransposeTwice<T>(m: seq<seq<T>>, width: nat)
    requires forall i :: 0 <= i < |m| ==> |m[i]| == width
    ensures Transpose(Transpose(m, width), |m|) == m
  {
    var back := Transpose(Transpose(m, width), |m|);
    forall i | 0 <= i < |m|
      ensures back[i] == m[i]
    {
    }
  }

  /** `df[cols]` on positions: each row cut down to the listed columns. */
  function Project(rows: seq<Row>, idx: seq<nat>): (r: seq<seq<Value>>)
    requires forall i, p :: 0 <= i < |rows| && 0 <= p < |idx| ==> idx[p] < |rows[i]|
    ensures |r| == |rows|
    ensures forall i :: 0 <= i < |rows| ==> |r[i]| == |idx|
    ensures forall i, p :: 0 <= i < |rows| && 0 <= p < |idx| ==> r[i][p] == rows[i][idx[p]]
  {
    seq(|rows|, i requires 0 <= i < |rows| => seq(|idx|, p requires 0 <= p < |idx| => rows[i][idx[p]]))
  }

  /** `[shorten_label(c) for c in names]`. */
  function ShortenAll(names: seq<string>): (r: seq<string>)
    ensures |r| == |names|
    ensures forall p :: 0 <= p < |names| ==> r[p] == ShortenLabel(names[p])
  {
    if |names| == 0 then [] else [ShortenLabel(names[0])] + ShortenAll(names[1..])
  }

  /** Row `p` of the transposed projection is column `idx[p]` of the rows. */
  lemma TransposedProjection(rows: seq<Row>, idx: seq<nat>)
    requires forall i, p :: 0 <= i < |rows| && 0 <= p < |idx| ==> idx[p] < |rows[i]|
    ensures var v := Transpose(Project(rows, idx), |idx|);
      && |v| == |idx|
      && (forall p :: 0 <= p < |idx| ==> |v[p]| == |rows|)
      && forall p, i :: 0 <= p < |idx| && 0 <= i < |rows| ==> v[p][i] == rows[i][idx[p]]
  {
  }

  /**
    The chart's data frame: one line per row (named by its qualification),
    one point per period (labelled with its shortened header).
   */
  datatype Chart = Chart(periods: seq<string>, series: seq<string>, values: seq<seq<Value>>)

  /** The chart of `rows` with series names from column `k` and periods at positions `idx`. */
  function BuildChart(rows: seq<Row>, k: nat, idx: seq<nat>, names: seq<string>): (c: Chart)
    requires forall i :: 0 <= i < |rows| ==> k < |rows[i]| && rows[i][k].Text?
    requires forall i, p :: 0 <= i < |rows| && 0 <= p < |idx| ==> idx[p] < |rows[i]|
    requires |names| == |idx|
    ensures |c.periods| == |c.values| == |idx|
    ensures forall p :: 0 <= p < |idx| ==> c.periods[p] == ShortenLabel(names[p])
    ensures |c.series| == |rows|
    ensures forall i :: 0 <= i < |rows| ==> rows[i][k] == Text(c.series[i])
    ensures forall p :: 0 <= p < |idx| ==> |c.values[p]| == |rows|
    ensures forall p, i :: 0 <= p < |idx| && 0 <= i < |rows| ==> c.values[p][i] == rows[i][idx[p]]
  {
    TransposedProjection(rows, idx);
    Chart(ShortenAll(names), TextColumn(rows, k), Transpose(Project(rows, idx), |idx|))
  }

  /** `sub.set_index("Latest Qualification")[numeric_cols].T`, index shortened. */
  function ChartData(t: Table): (c: Chart)
    requires Rectangular(t) && IsKeyColumn(t, QualificationColumn)
    ensures var idx := NumericIndices(t.columns);
      && |c.periods| == |c.values| == |idx|
      && (forall p :: 0 <= p < |idx| ==> c.periods[p] == ShortenLabel(NumericColumns(t.columns)[p]))
      && |c.series| == |t.rows|
      && (forall i :: 0 <= i < |t.rows| ==> t.rows[i][IndexOf(t.columns, QualificationColumn)] == Text(c.series[i]))
      && (forall p :: 0 <= p < |idx| ==> |c.values[p]| == |t.rows|)
      && forall p, i :: 0 <= p < |idx| && 0 <= i < |t.rows| ==> c.values[p][i] == t.rows[i][idx[p]]
  {
    var idx := NumericIndices(t.columns);
    assert forall i, p :: 0 <= i < |t.rows| && 0 <= p < |idx| ==> idx[p] < |t.rows[i]|;
    BuildChart(t.rows, IndexOf(t.columns, QualificationColumn), idx, NumericColumns(t.columns))
  }

  /** Transposing the chart back gives the period columns of the table. */
  lemma ChartRoundTrip(t: Table)
    requires Rectangular(t) && IsKeyColumn(t, QualificationColumn)
    ensures Transpose(ChartData(t).values, |t.rows|) == Project(t.rows, NumericIndices(t.columns))
  {
    var idx := NumericIndices(t.columns);
    TransposeTwice(Project(t.rows, idx), |idx|);
  }

  // ---------------------------------------------------------------------------
  // Totals row

  const TotalLabel: string := "Total of selected items"

  /** A cell's contribution to a column sum: an empty cell adds nothing. */
  function CountOf(v: Value): int {
    if v.Count? then v.n else 0
  }

  /** `df[col].sum()` for the column at position `j`. */
  function ColumnSum(rows: seq<Row>, j: nat): int {
    if |rows| == 0 then 0
    else (if j < |rows[0]| then CountOf(rows[0][j]) else 0) + ColumnSum(rows[1..], j)
  }

  lemma {:induction false} ColumnSumAppend(a: seq<Row>, b: seq<Row>, j: nat)
    ensures ColumnSum(a + b, j) == ColumnSum(a, j) + ColumnSum(b, j)
    decreases |a|
  {
    if |a| == 0 {
      assert a + b == b;
    } else {
      assert (a + b)[1..] == a[1..] + b;
      ColumnSumAppend(a[1..], b, j);
    }
  }

  /**
    `sub[numeric_cols].sum()`, one pass over the rows: entry `p` is the sum of
    the `p`-th period column.
   */
  method ComputeTotals(t: Table) returns (totals: seq<int>)
    requires Rectangular(t)
    ensures |totals| == |NumericIndices(t.columns)|
    ensures forall p :: 0 <= p < |totals| ==> totals[p] == ColumnSum(t.rows, NumericIndices(t.columns)[p])
  {
    var idx := NumericIndices(t.columns);
    totals := seq(|idx|, p => 0);
    var i := 0;
    while i < |t.rows|
      invariant 0 <= i <= |t.rows|
      invariant |totals| == |idx|
      invariant forall p :: 0 <= p < |idx| ==> totals[p] == ColumnSum(t.rows[..i], idx[p])
    {
      var row := t.rows[i];
      forall p | 0 <= p < |idx|
        ensures ColumnSum(t.rows[..i + 1], idx[p]) == ColumnSum(t.rows[..i], idx[p]) + CountOf(row[idx[p]])
      {
        assert t.rows[..i + 1] == t.rows[..i] + [row];
        ColumnSumAppend(t.rows[..i], [row], idx[p]);
      }
      totals := seq(|idx|, p requires 0 <= p < |idx| => totals[p] + CountOf(row[idx[p]]));
      i := i + 1;
    }
    assert t.rows[..i] == t.rows;
  }

  /** `totals_dict` as a row: period sums, the total label, empty elsewhere. */
  function TotalsRow(t: Table): (r: Row)
    requires IsSheet(t)
    ensures |r| == |t.columns|
    ensures r[QualificationIndex(t)] == Text(TotalLabel)
    ensures forall j :: 0 <= j < |t.columns| && t.columns[j].numeric ==> r[j] == Count(ColumnSum(t.rows, j))
    ensures forall j :: 0 <= j < |t.columns| && !t.columns[j].numeric && j != QualificationIndex(t) ==> r[j] == Missing
  {
    assert forall j :: 0 <= j < |t.columns| && j != QualificationIndex(t) ==> t.columns[j].name != QualificationColumn;
    seq(|t.columns|, j requires 0 <= j < |t.columns| =>
      if t.columns[j].name == QualificationColumn then Text(TotalLabel)
      else if t.columns[j].numeric then Count(ColumnSum(t.rows, j))
      else Missing)
  }

  /** `pd.concat([sub, pd.DataFrame([totals_dict])], ignore_index=True)`. */
  function WithTotals(t: Table): (r: Table)
    requires IsSheet(t)
    ensures WellFormed(r) && r.columns == t.columns
    ensures |r.rows| == |t.rows| + 1 && r.rows[..|t.rows|] == t.rows
    ensures r.rows[|t.rows|][QualificationIndex(t)] == Text(TotalLabel)
    ensures forall j :: 0 <= j < |t.columns| && t.columns[j].numeric ==>
      r.rows[|t.rows|][j] == Count(ColumnSum(t.rows, j))
    ensures forall j :: 0 <= j < |t.columns| && !t.columns[j].numeric && j != QualificationIndex(t) ==>
      r.rows[|t.rows|][j] == Missing
    ensures |t.rows| == 0 ==> forall j :: 0 <= j < |t.columns| && t.columns[j].numeric ==>
      r.rows[0][j] == Count(0)
  {
    var total := TotalsRow(t);
    var r := Table(t.columns, t.rows + [total]);
    assert r.rows[..|t.rows|] == t.rows;
    r
  }

  /**
    Summing a period column of the combined table counts every selected row
    twice: once itself and once inside the totals row.
   */
  lemma CombinedColumnSum(t: Table, j: nat)
    requires IsSheet(t)
    requires j < |t.columns| && t.columns[j].numeric
    ensures ColumnSum(WithTotals(t).rows, j) == 2 * ColumnSum(t.rows, j)
  {
    var total := WithTotals(t).rows[|t.rows|];
    assert WithTotals(t).rows == t.rows + [total];
    ColumnSumAppend(t.rows, [total], j);
  }

  // ---------------------------------------------------------------------------
  // Display headers

  /** `table.rename(columns={c: shorten_label(c) for c in numeric_cols})`. */
  function RenameForDisplay(t: Table): (r: Table)
    ensures r.rows == t.rows && |r.columns| == |t.columns|
    ensures forall j :: 0 <= j < |t.columns| ==> r.columns[j].numeric == t.columns[j].numeric
    ensures forall j :: 0 <= j < |t.columns| && t.columns[j].numeric ==>
      r.columns[j].name == ShortenLabel(t.columns[j].name)
  {
    var names := NumericColumns(t.columns);
    assert forall j :: 0 <= j < |t.columns| && t.columns[j].numeric ==> t.columns[j].name in names by {
      forall j | 0 <= j < |t.columns| && t.columns[j].numeric
        ensures t.columns[j].name in names
      {
        var idx := NumericIndices(t.columns);
        var p :| 0 <= p < |idx| && idx[p] == j;
        assert names[p] == t.columns[j].name;
      }
    }
    var cols := seq(|t.columns|, j requires 0 <= j < |t.columns| =>
      var c := t.columns[j];
      if c.name in names then Column(ShortenLabel(c.name), c.numeric) else c);
    Table(cols, t.rows)
  }

  /** With unique headers, the rename leaves every non-numeric header alone. */
  lemma RenameKeepsOtherHeaders(t: Table)
    requires DistinctNames(t.columns)
    ensures forall j :: 0 <= j < |t.columns| && !t.columns[j].numeric ==>
      RenameForDisplay(t).columns[j] == t.columns[j]
  {
    var names := NumericColumns(t.columns);
    forall j | 0 <= j < |t.columns| && !t.columns[j].numeric
      ensures t.columns[j].name !in names
    {
    }
  }

  /** The on-screen period headers are the chart's period labels. */
  lemma DisplayHeadersMatchChart(t: Table)
    requires IsSheet(t)
    ensures NumericColumns(RenameForDisplay(WithTotals(t)).columns) == ChartData(t).periods
  {
    var d := RenameForDisplay(WithTotals(t));
    assert NumericIndices(d.columns) == NumericIndices(t.columns) by {
      NumericFromByFlags(d.columns, t.columns, 0);
    }
  }

  /** The numeric positions depend on the flags alone, not the headers. */
  lemma {:induction false} NumericFromByFlags(a: seq<Column>, b: seq<Column>, lo: nat)
    requires |a| == |b| && lo <= |a|
    requires forall j :: 0 <= j < |a| ==> a[j].numeric == b[j].numeric
    ensures NumericFrom(a, lo) == NumericFrom(b, lo)
    decreases |a| - lo
  {
    if lo < |a| {
      NumericFromByFlags(a, b, lo + 1);
    }
  }

  // ---------------------------------------------------------------------------
  // The whole page

  datatype Dashboard = Dashboard(
    selection: Table,        // `sub`: the filtered rows
    periodColumns: seq<string>,
    latestPeriod: string,
    latestPeriodLabel: string,
    chart: Chart,
    table: Table,            // selection plus totals row; what the Excel export writes
    display: Table)          // `table` with shortened period headers; what is shown

  /** Either the instructions (nothing selected) or the report. */
  datatype Screen = Instructions | Report(dashboard: Dashboard)

  /** `run_app` after the sheet is loaded and the two selections are made. */
  function RunApp(sheet: Table, tps: seq<string>, quals: seq<string>): (s: Screen)
    requires IsSheet(sheet)
    ensures s.Instructions? <==> |tps| == 0 && |quals| == 0
    ensures s.Report? ==> var d := s.dashboard;
      && d.selection == FilterByQual(FilterByPackage(sheet, tps), quals)
      && d.periodColumns == NumericColumns(sheet.columns)
      && d.latestPeriodLabel == ShortenLabel(d.latestPeriod)
      && |d.table.rows| == |d.selection.rows| + 1
      && d.table.rows[..|d.selection.rows|] == d.selection.rows
      && d.display.rows == d.table.rows
      && d.table.columns == sheet.columns
  {
    if |tps| == 0 && |quals| == 0 then Instructions
    else
      var sub := FilterByQual(FilterByPackage(sheet, tps), quals);
      var latest := LatestPeriod(sub.columns);
      var table := WithTotals(sub);
      Report(Dashboard(
        sub,
        NumericColumns(sub.columns),
        latest,
        ShortenLabel(latest),
        ChartData(sub),
        table,
        RenameForDisplay(table)))
  }

  /** Every selected row has a chosen package (if any) and a chosen qualification (if any). */
  lemma ReportRowsAreSelected(sheet: Table, tps: seq<string>, quals: seq<string>)
    requires IsSheet(sheet)
    requires |tps| > 0 || |quals| > 0
    ensures var d := RunApp(sheet, tps, quals).dashboard;
      forall i :: 0 <= i < |d.selection.rows| ==>
        && (|tps| == 0 || Matches(d.selection.rows[i], PackageIndex(sheet), tps))
        && (|quals| == 0 || Matches(d.selection.rows[i], QualificationIndex(sheet), quals))
  {
    var u := FilterByPackage(sheet, tps);
    var w := FilterByQual(u, quals);
    var p, k := PackageIndex(sheet), QualificationIndex(sheet);
    assert PackageIndex(u) == p && QualificationIndex(u) == k;
    forall i | 0 <= i < |w.rows|
      ensures |tps| == 0 || Matches(w.rows[i], p, tps)
    {
      if |tps| > 0 && |quals| > 0 {
        KeptRow(u.rows, k, quals, w.rows[i]);
        KeptRow(sheet.rows, p, tps, w.rows[i]);
      }
    }
  }

  /**
    Shape of the report: one table row per selected row plus the totals row,
    the sheet's period columns, and one chart point per (row, period) pair.
   */
  lemma ReportShape(sheet: Table, tps: seq<string>, quals: seq<string>)
    requires IsSheet(sheet)
    requires |tps| > 0 || |quals| > 0
    ensures var d := RunApp(sheet, tps, quals).dashboard;
      && |d.display.rows| == |d.selection.rows| + 1
      && |d.display.columns| == |sheet.columns|
      && |d.chart.values| == |NumericIndices(sheet.columns)|
      && (forall p :: 0 <= p < |d.chart.values| ==> |d.chart.values[p]| == |d.selection.rows|)
      && d.display.rows[|d.selection.rows|][QualificationIndex(sheet)] == Text(TotalLabel)
  {
  }

  /**
    The subtitle's period is the latest period of the sheet itself: filtering
    never changes which columns are numeric.
   */
  lemma ReportLatestPeriod(sheet: Table, tps: seq<string>, quals: seq<string>)
    requires IsSheet(sheet)
    requires |tps| > 0 || |quals| > 0
    ensures RunApp(sheet, tps, quals).dashboard.latestPeriod == LatestPeriod(sheet.columns)
  {
    var sub := FilterByQual(FilterByPackage(sheet, tps), quals);
    assert sub.columns == sheet.columns;
  }

  /** The report's table is the selection with its totals row appended. */
  lemma ReportTableHasTotals(sheet: Table, tps: seq<string>, quals: seq<string>)
    requires IsSheet(sheet)
    requires |tps| > 0 || |quals| > 0
    ensures var d := RunApp(sheet, tps, quals).dashboard;
      IsSheet(d.selection) && d.table == WithTotals(d.selection)
  {
  }

  /**
    The report's last table row holds, in every period column, the sum of
    that column over the selected rows.
   */
  lemma ReportTotals(sheet: Table, tps: seq<string>, quals: seq<string>)
    requires IsSheet(sheet)
    requires |tps| > 0 || |quals| > 0
    ensures var d := RunApp(sheet, tps, quals).dashboard;
      forall j :: 0 <= j < |sheet.columns| && sheet.columns[j].numeric ==>
        d.table.rows[|d.selection.rows|][j] == Count(ColumnSum(d.selection.rows, j))
  {
    ReportTableHasTotals(sheet, tps, quals);
    var d := RunApp(sheet, tps, quals).dashboard;
    assert d.selection.columns == sheet.columns;
  }

  /**
    A package chosen and no qualification: the table has one row per sheet row
    of that package plus the totals row, and the chart one point per such row
    and period.
   */
  lemma PackageOnlyReport(sheet: Table, tps: seq<string>)
    requires IsSheet(sheet)
    requires |tps| > 0
    ensures var d := RunApp(sheet, tps, []).dashboard;
      var n := CountMatching(sheet.rows, PackageIndex(sheet), tps);
      && |d.display.rows| == n + 1
      && |d.chart.values| == |NumericIndices(sheet.columns)|
      && (forall p :: 0 <= p < |d.chart.values| ==> |d.chart.values[p]| == n)
  {
    KeepRowsCount(sheet.rows, PackageIndex(sheet), tps);
    var d := RunApp(sheet, tps, []).dashboard;
    assert d.selection.rows == KeepRows(sheet.rows, PackageIndex(sheet), tps);
  }
}
