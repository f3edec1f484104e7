/**
  Row filters and the qualification-options query (modules/filters.py).
  A selection is a list of names; an empty list means "no filter".
 */
module Filters {
  import opened Tables
  import opened Ordering

  /** pandas `isin`: only a text cell equal to a listed name is selected. */
  predicate Selected(v: Value, sel: seq<string>) {
    v.Text? && v.text in sel
  }

  predicate Matches(row: Row, k: nat, sel: seq<string>) {
    k < |row| && Selected(row[k], sel)
  }

  /** `a` is `b` with some elements left out, the rest in their order. */
  ghost predicate IsSubsequence(a: seq<Row>, b: seq<Row>)
    decreases |b|
  {
    if |a| == 0 then true
    else if |b| == 0 then false
    else (a[0] == b[0] && IsSubsequence(a[1..], b[1..])) || IsSubsequence(a, b[1..])
  }

  /**
    `r` holds exactly the rows of `rows` whose column `k` is selected: every
    kept row matches, every matching row is kept as often as it occurs, and
    the original order is kept.
   */
  ghost predicate IsSelection(r: seq<Row>, rows: seq<Row>, k: nat, sel: seq<string>) {
    && (forall j :: 0 <= j < |r| ==> Matches(r[j], k, sel))
    && (forall x :: Matches(x, k, sel) ==> multiset(r)[x] == multiset(rows)[x])
    && IsSubsequence(r, rows)
  }

  /** The boolean-mask indexing `df[df[col].isin(sel)]`. */
  function KeepRows(rows: seq<Row>, k: nat, sel: seq<string>): (r: seq<Row>)
    ensures IsSelection(r, rows, k, sel)
    ensures forall j :: 0 <= j < |r| ==> r[j] in rows
  {
    if |rows| == 0 then []
    else
      var h := rows[0];
      assert rows == [h] + rows[1..];
      assert multiset(rows) == multiset([h]) + multiset(rows[1..]);
      var rest := KeepRows(rows[1..], k, sel);
      if Matches(h, k, sel) then
        var r := [h] + rest;
        assert r[1..] == rest;
        assert multiset(r) == multiset([h]) + multiset(rest);
        r
      else
        assert forall x :: Matches(x, k, sel) ==> x != h;
        rest
  }

  /** How many rows have a selected value in column `k`. */
  function CountMatching(rows: seq<Row>, k: nat, sel: seq<string>): nat {
    if |rows| == 0 then 0
    else (if Matches(rows[0], k, sel) then 1 else 0) + CountMatching(rows[1..], k, sel)
  }

  /** The filter keeps as many rows as there are matching rows. */
  lemma {:induction false} KeepRowsCount(rows: seq<Row>, k: nat, sel: seq<string>)
    ensures |KeepRows(rows, k, sel)| == CountMatching(rows, k, sel)
    decreases |rows|
  {
    if |rows| > 0 {
      KeepRowsCount(rows[1..], k, sel);
    }
  }

  /** A row survives the filter iff it is an input row that matches. */
  lemma KeptRow(rows: seq<Row>, k: nat, sel: seq<string>, row: Row)
    ensures row in KeepRows(rows, k, sel) <==> row in rows && Matches(row, k, sel)
  {
    var r := KeepRows(rows, k, sel);
    if row in rows && Matches(row, k, sel) {
      assert multiset(r)[row] == multiset(rows)[row] > 0;
    }
    if row in r {
      var j :| 0 <= j < |r| && r[j] == row;
    }
  }

  /** A subsequence holds each row at most as often as the sequence it comes from. */
  lemma {:induction false} SubsequenceCount(a: seq<Row>, b: seq<Row>, x: Row)
    requires IsSubsequence(a, b)
    ensures multiset(a)[x] <= multiset(b)[x]
    decreases |b|
  {
    if |a| > 0 {
      assert b == [b[0]] + b[1..];
      if a[0] == b[0] && IsSubsequence(a[1..], b[1..]) {
        assert a == [a[0]] + a[1..];
        SubsequenceCount(a[1..], b[1..], x);
      } else {
        SubsequenceCount(a, b[1..], x);
      }
    }
  }

  /** The selection contract admits one result only: `KeepRows` is that result. */
  lemma {:induction false} KeepRowsUnique(r: seq<Row>, rows: seq<Row>, k: nat, sel: seq<string>)
    requires IsSelection(r, rows, k, sel)
    ensures r == KeepRows(rows, k, sel)
    decreases |rows|
  {
    if |rows| == 0 {
      assert |r| == 0;
    } else {
      var h := rows[0];
      assert rows == [h] + rows[1..];
      if Matches(h, k, sel) {
        assert multiset(r)[h] == multiset(rows)[h] > 0;
        assert |r| > 0;
        if !(r[0] == h && IsSubsequence(r[1..], rows[1..])) {
          SubsequenceCount(r, rows[1..], h);
          assert false;
        }
        assert r == [h] + r[1..];
        forall x | Matches(x, k, sel)
          ensures multiset(r[1..])[x] == multiset(rows[1..])[x]
        {
          assert multiset(r)[x] == multiset(rows)[x];
        }
        KeepRowsUnique(r[1..], rows[1..], k, sel);
      } else {
        if |r| > 0 {
          assert Matches(r[0], k, sel);
          assert IsSubsequence(r, rows[1..]);
        }
        forall x | Matches(x, k, sel)
          ensures multiset(r)[x] == multiset(rows[1..])[x]
        {
          assert multiset(r)[x] == multiset(rows)[x];
        }
        KeepRowsUnique(r, rows[1..], k, sel);
      }
    }
  }

  lemma {:induction false} KeepRowsIdempotent(rows: seq<Row>, k: nat, sel: seq<string>)
    ensures KeepRows(KeepRows(rows, k, sel), k, sel) == KeepRows(rows, k, sel)
    decreases |rows|
  {
    if |rows| > 0 {
      KeepRowsIdempotent(rows[1..], k, sel);
      if Matches(rows[0], k, sel) {
        var once := KeepRows(rows, k, sel);
        assert once[0] == rows[0] && once[1..] == KeepRows(rows[1..], k, sel);
      }
    }
  }

  lemma {:induction false} KeepRowsCommute(rows: seq<Row>, k1: nat, s1: seq<string>, k2: nat, s2: seq<string>)
    ensures KeepRows(KeepRows(rows, k1, s1), k2, s2) == KeepRows(KeepRows(rows, k2, s2), k1, s1)
    decreases |rows|
  {
    if |rows| > 0 {
      KeepRowsCommute(rows[1..], k1, s1, k2, s2);
      var h := rows[0];
      var a1, a2 := KeepRows(rows, k1, s1), KeepRows(rows, k2, s2);
      if Matches(h, k1, s1) {
        assert a1[0] == h && a1[1..] == KeepRows(rows[1..], k1, s1);
      }
      if Matches(h, k2, s2) {
        assert a2[0] == h && a2[1..] == KeepRows(rows[1..], k2, s2);
      }
    }
  }

  /** Filtering keeps the sheet's shape: same columns, rows drawn from the input. */
  lemma SelectionKeepsSheet(t: Table, r: seq<Row>)
    requires IsSheet(t)
    requires forall j :: 0 <= j < |r| ==> r[j] in t.rows
    ensures IsSheet(Table(t.columns, r))
  {
    var u := Table(t.columns, r);
    forall j | 0 <= j < |r|
      ensures exists i :: 0 <= i < |t.rows| && t.rows[i] == r[j]
    {
      assert r[j] in t.rows;
    }
    assert Rectangular(u);
  }

  /** `filter_by_tp`. */
  function FilterByPackage(t: Table, tps: seq<string>): (r: Table)
    requires IsSheet(t)
    ensures IsSheet(r) && r.columns == t.columns
    ensures |tps| == 0 ==> r == t
    ensures |tps| > 0 ==> IsSelection(r.rows, t.rows, PackageIndex(t), tps)
  {
    if |tps| == 0 then t
    else
      var rows := KeepRows(t.rows, PackageIndex(t), tps);
      SelectionKeepsSheet(t, rows);
      Table(t.columns, rows)
  }

  /** `filter_by_qual`. */
  function FilterByQual(t: Table, quals: seq<string>): (r: Table)
    requires IsSheet(t)
    ensures IsSheet(r) && r.columns == t.columns
    ensures |quals| == 0 ==> r == t
    ensures |quals| > 0 ==> IsSelection(r.rows, t.rows, QualificationIndex(t), quals)
  {
    if |quals| == 0 then t
    else
      var rows := KeepRows(t.rows, QualificationIndex(t), quals);
      SelectionKeepsSheet(t, rows);
      Table(t.columns, rows)
  }

  lemma FilterByPackageIdempotent(t: Table, tps: seq<string>)
    requires IsSheet(t)
    ensures FilterByPackage(FilterByPackage(t, tps), tps) == FilterByPackage(t, tps)
  {
    if |tps| > 0 {
      KeepRowsIdempotent(t.rows, PackageIndex(t), tps);
    }
  }

  lemma FilterByQualIdempotent(t: Table, quals: seq<string>)
    requires IsSheet(t)
    ensures FilterByQual(FilterByQual(t, quals), quals) == FilterByQual(t, quals)
  {
    if |quals| > 0 {
      KeepRowsIdempotent(t.rows, QualificationIndex(t), quals);
    }
  }

  /** The order in which the two selections are applied does not matter. */
  lemma FiltersCommute(t: Table, tps: seq<string>, quals: seq<string>)
    requires IsSheet(t)
    ensures FilterByQual(FilterByPackage(t, tps), quals) == FilterByPackage(FilterByQual(t, quals), tps)
  {
    if |tps| > 0 && |quals| > 0 {
      KeepRowsCommute(t.rows, PackageIndex(t), tps, QualificationIndex(t), quals);
    }
  }

  /** Some row holds the text `q` in column `k`. */
  ghost predicate HasText(rows: seq<Row>, k: nat, q: string) {
    exists i :: 0 <= i < |rows| && k < |rows[i]| && rows[i][k] == Text(q)
  }

  /** Some row holds `q` in column `k` and a selected value in column `p`. */
  ghost predicate HasTextWhere(rows: seq<Row>, k: nat, q: string, p: nat, sel: seq<string>) {
    exists i :: 0 <= i < |rows| && k < |rows[i]| && rows[i][k] == Text(q) && Matches(rows[i], p, sel)
  }

  /** `df[col].unique()` as a list: the text of column `k`, row by row. */
  function TextsOf(rows: seq<Row>, k: nat): (r: seq<string>)
    requires forall i :: 0 <= i < |rows| ==> k < |rows[i]| && rows[i][k].Text?
    ensures forall q :: q in r <==> HasText(rows, k, q)
  {
    var r := TextColumn(rows, k);
    assert forall q :: q in r ==> HasText(rows, k, q) by {
      forall q | q in r
        ensures HasText(rows, k, q)
      {
        var i :| 0 <= i < |r| && r[i] == q;
        assert rows[i][k] == Text(q);
      }
    }
    r
  }

  /** Filtering on column `p` then looking for `q` in column `k` finds the rows matching both. */
  lemma HasTextAfterKeep(rows: seq<Row>, k: nat, q: string, p: nat, sel: seq<string>)
    ensures HasText(KeepRows(rows, p, sel), k, q) <==> HasTextWhere(rows, k, q, p, sel)
  {
    if HasTextWhere(rows, k, q, p, sel) {
      KeptWitness(rows, k, q, p, sel);
    }
    if HasText(KeepRows(rows, p, sel), k, q) {
      WitnessOfKept(rows, k, q, p, sel);
    }
  }

  /** A matching row holding `q` survives the filter. */
  lemma KeptWitness(rows: seq<Row>, k: nat, q: string, p: nat, sel: seq<string>)
    requires HasTextWhere(rows, k, q, p, sel)
    ensures HasText(KeepRows(rows, p, sel), k, q)
  {
    var i :| 0 <= i < |rows| && k < |rows[i]| && rows[i][k] == Text(q) && Matches(rows[i], p, sel);
    var row := rows[i];
    KeptRow(rows, p, sel, row);
    var sub := KeepRows(rows, p, sel);
    var j :| 0 <= j < |sub| && sub[j] == row;
  }

  /** A surviving row holding `q` is a matching input row. */
  lemma WitnessOfKept(rows: seq<Row>, k: nat, q: string, p: nat, sel: seq<string>)
    requires HasText(KeepRows(rows, p, sel), k, q)
    ensures HasTextWhere(rows, k, q, p, sel)
  {
    var sub := KeepRows(rows, p, sel);
    var j :| 0 <= j < |sub| && k < |sub[j]| && sub[j][k] == Text(q);
    var row := sub[j];
    KeptRow(rows, p, sel, row);
    var i :| 0 <= i < |rows| && rows[i] == row;
  }

  /** A row of `t` has qualification `q` and, if packages are chosen, a chosen package. */
  ghost predicate Reachable(t: Table, tps: seq<string>, q: string)
    requires IsSheet(t)
  {
    if |tps| == 0 then HasText(t.rows, QualificationIndex(t), q)
    else HasTextWhere(t.rows, QualificationIndex(t), q, PackageIndex(t), tps)
  }

  /** Every row of a sheet holds text in its key columns. */
  lemma KeyCellsAreText(t: Table, rows: seq<Row>)
    requires IsSheet(t)
    requires forall j :: 0 <= j < |rows| ==> rows[j] in t.rows
    ensures forall j :: 0 <= j < |rows| ==> QualificationIndex(t) < |rows[j]| && rows[j][QualificationIndex(t)].Text?
  {
    var k := QualificationIndex(t);
    forall j | 0 <= j < |rows|
      ensures k < |rows[j]| && rows[j][k].Text?
    {
      var row := rows[j];
      assert row in t.rows;
      var i :| 0 <= i < |t.rows| && t.rows[i] == row;
      assert k < |t.rows[i]| && t.rows[i][k].Text?;
    }
  }

  /**
    `available_quals`: the sorted distinct qualification names of all rows,
    or of the rows whose package is selected.
   */
  function AvailableQuals(t: Table, tps: seq<string>): (r: seq<string>)
    requires IsSheet(t)
    ensures StrictlyAscending(r)
    ensures forall q :: q in r <==> Reachable(t, tps, q)
  {
    var k := QualificationIndex(t);
    if |tps| == 0 then
      KeyCellsAreText(t, t.rows);
      SortedDistinct(TextsOf(t.rows, k))
    else
      var sub := KeepRows(t.rows, PackageIndex(t), tps);
      KeyCellsAreText(t, sub);
      var r := SortedDistinct(TextsOf(sub, k));
      assert forall q :: q in r <==> Reachable(t, tps, q) by {
        forall q
          ensures q in r <==> Reachable(t, tps, q)
        {
          HasTextAfterKeep(t.rows, k, q, PackageIndex(t), tps);
        }
      }
      r
  }

  /** Options offered for some packages are among those offered for none. */
  lemma AvailableQualsSubset(t: Table, tps: seq<string>)
    requires IsSheet(t)
    ensures forall q :: q in AvailableQuals(t, tps) ==> q in AvailableQuals(t, [])
  {
  }

  /** A name is reachable through the packages iff it occurs in the package-filtered sheet. */
  lemma ReachableOfFiltered(t: Table, tps: seq<string>, q: string)
    requires IsSheet(t)
    ensures Reachable(t, tps, q) <==> Reachable(FilterByPackage(t, tps), [], q)
  {
    var u := FilterByPackage(t, tps);
    assert QualificationIndex(u) == QualificationIndex(t);
    if |tps| > 0 {
      HasTextAfterKeep(t.rows, QualificationIndex(t), q, PackageIndex(t), tps);
    }
  }

  /** The options equal the full option list of the package-filtered sheet. */
  lemma AvailableQualsOfFiltered(t: Table, tps: seq<string>)
    requires IsSheet(t)
    ensures AvailableQuals(t, tps) == AvailableQuals(FilterByPackage(t, tps), [])
  {
    var u := FilterByPackage(t, tps);
    var a, b := AvailableQuals(t, tps), AvailableQuals(u, []);
    forall q
      ensures q in a <==> q in b
    {
      ReachableOfFiltered(t, tps, q);
    }
    AscendingUnique(a, b);
  }

  /**
    Every qualification offered for the chosen packages picks out at least one
    row when both filters are applied.
   */
  lemma OfferedQualificationHasRows(t: Table, tps: seq<string>, q: string)
    requires IsSheet(t)
    requires q in AvailableQuals(t, tps)
    ensures |FilterByQual(FilterByPackage(t, tps), [q]).rows| > 0
  {
    var u := FilterByPackage(t, tps);
    AvailableQualsOfFiltered(t, tps);
    assert Reachable(u, [], q);
    var k := QualificationIndex(u);
    var i :| 0 <= i < |u.rows| && k < |u.rows[i]| && u.rows[i][k] == Text(q);
    var row := u.rows[i];
    KeptRow(u.rows, k, [q], row);
    assert row in FilterByQual(u, [q]).rows;
  }
}
