/**
  The in-memory table the dashboard works on: a list of named columns, each
  flagged numeric or not, and a list of rows holding one value per column.
  A numeric column is a reporting "period" (a count per qualification).
 */
module Tables {

  /** One cell. `Missing` is the spreadsheet's empty cell (pandas NaN). */
  datatype Value = Text(text: string) | Count(n: int) | Missing

  /** A column header and whether its dtype is numeric. */
  datatype Column = Column(name: string, numeric: bool)

  type Row = seq<Value>

  datatype Table = Table(columns: seq<Column>, rows: seq<Row>)

  const PackageColumn: string := "Training Packages"
  const QualificationColumn: string := "Latest Qualification"

  predicate HasColumn(cols: seq<Column>, name: string) {
    exists i :: 0 <= i < |cols| && cols[i].name == name
  }

  /** Position of the first column called `name`. */
  function IndexOf(cols: seq<Column>, name: string): (i: nat)
    requires HasColumn(cols, name)
    ensures i < |cols| && cols[i].name == name
    ensures forall k :: 0 <= k < i ==> cols[k].name != name
  {
    if cols[0].name == name then 0
    else
      var k :| 0 <= k < |cols| && cols[k].name == name;
      assert cols[1..][k - 1].name == name;
      1 + IndexOf(cols[1..], name)
  }

  /** No two columns share a header (spreadsheet loading renames duplicates). */
  predicate DistinctNames(cols: seq<Column>) {
    forall i, j :: 0 <= i < j < |cols| ==> cols[i].name != cols[j].name
  }

  predicate Rectangular(t: Table) {
    forall i :: 0 <= i < |t.rows| ==> |t.rows[i]| == |t.columns|
  }

  /** A numeric column holds counts or empty cells, never text. */
  predicate NumericCellsAreCounts(t: Table)
    requires Rectangular(t)
  {
    forall i, j :: 0 <= i < |t.rows| && 0 <= j < |t.columns| && t.columns[j].numeric ==> !t.rows[i][j].Text?
  }

  /** Any table the dashboard builds: unique headers, one value per column. */
  predicate WellFormed(t: Table) {
    DistinctNames(t.columns) && Rectangular(t) && NumericCellsAreCounts(t)
  }

  /** A key column is present, not numeric, and holds text in every row. */
  predicate IsKeyColumn(t: Table, name: string)
    requires Rectangular(t)
  {
    && HasColumn(t.columns, name)
    && !t.columns[IndexOf(t.columns, name)].numeric
    && forall i :: 0 <= i < |t.rows| ==> t.rows[i][IndexOf(t.columns, name)].Text?
  }

  /** A loaded status sheet: the package and qualification columns are keys. */
  predicate IsSheet(t: Table) {
    && WellFormed(t)
    && IsKeyColumn(t, PackageColumn)
    && IsKeyColumn(t, QualificationColumn)
  }

  function PackageIndex(t: Table): (k: nat)
    requires IsSheet(t)
    ensures k < |t.columns| && t.columns[k].name == PackageColumn
  {
    IndexOf(t.columns, PackageColumn)
  }

  function QualificationIndex(t: Table): (k: nat)
    requires IsSheet(t)
    ensures k < |t.columns| && t.columns[k].name == QualificationColumn
  {
    IndexOf(t.columns, QualificationColumn)
  }

  /** The text of column `k` in every row, in row order. */
  function TextColumn(rows: seq<Row>, k: nat): (r: seq<string>)
    requires forall i :: 0 <= i < |rows| ==> k < |rows[i]| && rows[i][k].Text?
    ensures |r| == |rows|
    ensures forall i :: 0 <= i < |rows| ==> r[i] == rows[i][k].text
  {
    if |rows| == 0 then [] else [rows[0][k].text] + TextColumn(rows[1..], k)
  }
}
