/**
 * handle_missing_values: drop sparse columns, then sparse rows, with
 * pandas' `dropna(thresh = ...)` semantics (wrangle_zillow.py).
 */
module ZillowPrune {
  import opened Frame
  import opened Stats

  /** Number of present cells in column `j`. */
  function ColumnCount(t: Table, j: nat): nat
    requires WellFormed(t) && j < |t.columns|
  {
    CountPresent(Column(t, j))
  }

  /** Ascending positions, below `n`, of the columns with at least `thresh` present cells. */
  function DenseColumns(t: Table, thresh: int, n: nat): (ks: seq<nat>)
    requires WellFormed(t) && n <= |t.columns|
    ensures |ks| <= n
    ensures forall k :: 0 <= k < |ks| ==> ks[k] < n
    ensures forall k, l :: 0 <= k < l < |ks| ==> ks[k] < ks[l]
    ensures forall j :: 0 <= j < n ==> (j in ks <==> ColumnCount(t, j) >= thresh)
  {
    if n == 0 then []
    else
      var ks := DenseColumns(t, thresh, n - 1);
      if ColumnCount(t, n - 1) >= thresh then ks + [n - 1] else ks
  }

  /** The elements of `row` at positions `ks`. */
  function Select<T>(row: seq<T>, ks: seq<nat>): (r: seq<T>)
    requires forall k :: 0 <= k < |ks| ==> ks[k] < |row|
    ensures |r| == |ks| && forall k :: 0 <= k < |ks| ==> r[k] == row[ks[k]]
  {
    seq(|ks|, k requires 0 <= k < |ks| => row[ks[k]])
  }

  /** The columns of `t` at ascending positions `ks`, every row kept. */
  function Project(t: Table, ks: seq<nat>): (r: Table)
    requires WellFormed(t)
    requires forall k :: 0 <= k < |ks| ==> ks[k] < |t.columns|
    requires forall k, l :: 0 <= k < l < |ks| ==> ks[k] < ks[l]
    ensures WellFormed(r) && |r.rows| == |t.rows| && |r.columns| == |ks|
    ensures forall k :: 0 <= k < |ks| ==> r.columns[k] == t.columns[ks[k]]
    ensures forall i, k :: 0 <= i < |t.rows| && 0 <= k < |ks| ==> r.rows[i][k] == t.rows[i][ks[k]]
  {
    var r := Table(Select(t.columns, ks), seq(|t.rows|, i requires 0 <= i < |t.rows| => Select(t.rows[i], ks)));
    assert Distinct(r.columns) by {
      forall a, b | 0 <= a < b < |ks| ensures r.columns[a] != r.columns[b] {
        assert ks[a] < ks[b];
      }
    }
    r
  }

  /** Keeping a column keeps its present-cell count. */
  lemma ProjectKeepsCounts(t: Table, ks: seq<nat>, k: nat)
    requires WellFormed(t)
    requires forall k :: 0 <= k < |ks| ==> ks[k] < |t.columns|
    requires forall k, l :: 0 <= k < l < |ks| ==> ks[k] < ks[l]
    requires k < |ks|
    ensures ColumnCount(Project(t, ks), k) == ColumnCount(t, ks[k])
  {
    assert Column(Project(t, ks), k) == Column(t, ks[k]);
  }

  /** Picking ascending positions keeps the picked elements in their order. */
  lemma {:induction false} SelectIsSubsequence<T>(row: seq<T>, ks: seq<nat>)
    requires forall k :: 0 <= k < |ks| ==> ks[k] < |row|
    requires forall k, l :: 0 <= k < l < |ks| ==> ks[k] < ks[l]
    ensures IsSubsequence(Select(row, ks), row)
    decreases |row|
  {
    if ks != [] {
      if ks[0] == 0 {
        var rest := seq(|ks| - 1, k requires 0 <= k < |ks| - 1 => assert ks[0] < ks[k + 1]; ks[k + 1] - 1);
        SelectIsSubsequence(row[1..], rest);
        assert Select(row, ks)[1..] == Select(row[1..], rest);
      } else {
        var down := seq(|ks|, k requires 0 <= k < |ks| => assert k == 0 || ks[0] < ks[k]; ks[k] - 1);
        SelectIsSubsequence(row[1..], down);
        assert Select(row, ks) == Select(row[1..], down);
      }
    }
  }

  /**
   * A projection on ascending positions keeps a label exactly when it keeps
   * that label's position; the kept labels stay in order, and each kept
   * column has the cells of the input column with that label.
   */
  lemma ProjectKeeps(t: Table, ks: seq<nat>)
    requires WellFormed(t)
    requires forall k :: 0 <= k < |ks| ==> ks[k] < |t.columns|
    requires forall k, l :: 0 <= k < l < |ks| ==> ks[k] < ks[l]
    ensures forall j :: 0 <= j < |t.columns| ==> (t.columns[j] in Project(t, ks).columns <==> j in ks)
    ensures IsSubsequence(Project(t, ks).columns, t.columns)
    ensures IsProjection(t, Project(t, ks))
  {
    var r := Project(t, ks);
    SelectIsSubsequence(t.columns, ks);
    assert r.columns == Select(t.columns, ks);
    forall j | 0 <= j < |t.columns| ensures t.columns[j] in r.columns <==> j in ks {
      if t.columns[j] in r.columns {
        var k :| 0 <= k < |ks| && r.columns[k] == t.columns[j];
        assert ks[k] == j;
      }
      if j in ks {
        var k :| 0 <= k < |ks| && ks[k] == j;
        assert r.columns[k] == t.columns[j];
      }
    }
    forall i, k | 0 <= i < |t.rows| && 0 <= k < |ks|
      ensures r.rows[i][k] == t.rows[i][IndexOf(t.columns, r.columns[k]).value]
    {
      DistinctIndexOf(t.columns, ks[k]);
    }
  }

  /**
   * `dropna(axis = 'columns', thresh = thresh)`: a column survives exactly
   * when it has at least `thresh` present cells; the survivors keep their
   * order, their labels and their cells, and every row is kept.
   */
  function DropSparseColumns(t: Table, thresh: int): (r: Table)
    requires WellFormed(t)
    ensures WellFormed(r) && |r.rows| == |t.rows| && |r.columns| <= |t.columns|
    ensures forall j :: 0 <= j < |t.columns| ==> (t.columns[j] in r.columns <==> ColumnCount(t, j) >= thresh)
    ensures IsSubsequence(r.columns, t.columns)
    ensures IsProjection(t, r)
    ensures forall k :: 0 <= k < |r.columns| ==> ColumnCount(r, k) >= thresh
  {
    var ks := DenseColumns(t, thresh, |t.columns|);
    var r := Project(t, ks);
    ProjectKeeps(t, ks);
    assert forall k :: 0 <= k < |ks| ==> ColumnCount(r, k) >= thresh by {
      forall k | 0 <= k < |ks| ensures ColumnCount(r, k) >= thresh {
        ProjectKeepsCounts(t, ks, k);
      }
    }
    r
  }

  /** The mask of rows with at least `thresh` present cells. */
  function DenseRow(thresh: int): seq<Cell> -> bool {
    row => CountPresent(row) >= thresh
  }

  /** `dropna(axis = 'index', thresh = thresh)`. */
  function DropSparseRows(t: Table, thresh: int): (r: Table)
    requires WellFormed(t)
    ensures WellFormed(r) && r.columns == t.columns && |r.rows| <= |t.rows|
    ensures IsSubsequence(r.rows, t.rows)
    ensures forall i :: 0 <= i < |r.rows| ==> CountPresent(r.rows[i]) >= thresh
    ensures forall i :: 0 <= i < |t.rows| && CountPresent(t.rows[i]) >= thresh ==> t.rows[i] in r.rows
    ensures forall row :: multiset(r.rows)[row] == if CountPresent(row) >= thresh then multiset(t.rows)[row] else 0
  {
    FilterIsSubsequence(t.rows, DenseRow(thresh));
    FilterCounts(t.rows, DenseRow(thresh));
    Table(t.columns, Filter(t.rows, DenseRow(thresh)))
  }

  /** `round(df.shape[0] * prop_required_column)`, taken on the input. */
  function ColumnThreshold(t: Table, propRequiredColumn: real): int {
    RoundHalfEven(|t.rows| as real * propRequiredColumn)
  }

  /** The positions of the columns the column pass keeps. */
  function KeptColumns(t: Table, propRequiredColumn: real): (ks: seq<nat>)
    requires WellFormed(t)
    ensures |ks| <= |t.columns|
    ensures forall k :: 0 <= k < |ks| ==> ks[k] < |t.columns|
    ensures forall k, l :: 0 <= k < l < |ks| ==> ks[k] < ks[l]
  {
    DenseColumns(t, ColumnThreshold(t, propRequiredColumn), |t.columns|)
  }

  /** `round(df.shape[1] * prop_required_row)`, taken after the column pass. */
  function RowThreshold(width: nat, propRequiredRow: real): int {
    RoundHalfEven(width as real * propRequiredRow)
  }

  /**
   * handle_missing_values(df, prop_required_column, prop_required_row):
   * columns first, against the input's row count; then rows, against the
   * number of columns that survived. Empty results are allowed.
   */
  function HandleMissingValues(t: Table, propRequiredColumn: real, propRequiredRow: real): (r: Table)
    requires WellFormed(t)
    ensures WellFormed(r)
    ensures |r.columns| <= |t.columns| && |r.rows| <= |t.rows|
    ensures forall i :: 0 <= i < |r.rows| ==> CountPresent(r.rows[i]) >= RowThreshold(|r.columns|, propRequiredRow)
  {
    var c := DropSparseColumns(t, ColumnThreshold(t, propRequiredColumn));
    DropSparseRows(c, RowThreshold(|c.columns|, propRequiredRow))
  }

  /** The column pass is the projection on the kept columns. */
  lemma ColumnPassIsProjection(t: Table, propRequiredColumn: real)
    requires WellFormed(t)
    ensures DropSparseColumns(t, ColumnThreshold(t, propRequiredColumn))
         == Project(t, KeptColumns(t, propRequiredColumn))
  {
  }

  /**
   * The columns that survive are exactly those whose present-cell count in
   * the input reaches round(row_count * prop_required_column), in their
   * original order.
   */
  lemma HandleMissingValuesColumns(t: Table, propRequiredColumn: real, propRequiredRow: real)
    requires WellFormed(t)
    ensures var ks := KeptColumns(t, propRequiredColumn);
      && HandleMissingValues(t, propRequiredColumn, propRequiredRow).columns == Select(t.columns, ks)
      && (forall j :: 0 <= j < |t.columns| ==>
            (j in ks <==> ColumnCount(t, j) >= ColumnThreshold(t, propRequiredColumn)))
  {
    ColumnPassIsProjection(t, propRequiredColumn);
    var ks := KeptColumns(t, propRequiredColumn);
    assert Project(t, ks).columns == Select(t.columns, ks);
  }

  /**
   * The rows that survive are, in their original order and with their cells
   * unchanged, the input rows narrowed to the kept columns that have at least
   * round(kept_columns * prop_required_row) present cells; no such row, and no copy of one, is lost.
   */
  lemma HandleMissingValuesRows(t: Table, propRequiredColumn: real, propRequiredRow: real)
    requires WellFormed(t)
    ensures var ks := KeptColumns(t, propRequiredColumn);
      var r := HandleMissingValues(t, propRequiredColumn, propRequiredRow);
      && IsSubsequence(r.rows, Project(t, ks).rows)
      && (forall i :: 0 <= i < |r.rows| ==> CountPresent(r.rows[i]) >= RowThreshold(|ks|, propRequiredRow))
      && (forall i :: 0 <= i < |t.rows| && CountPresent(Select(t.rows[i], ks)) >= RowThreshold(|ks|, propRequiredRow)
            ==> Select(t.rows[i], ks) in r.rows)
      && (forall row :: multiset(r.rows)[row] ==
            if CountPresent(row) >= RowThreshold(|ks|, propRequiredRow) then multiset(Project(t, ks).rows)[row] else 0)
  {
    ColumnPassIsProjection(t, propRequiredColumn);
    var ks := KeptColumns(t, propRequiredColumn);
    var c := Project(t, ks);
    forall i | 0 <= i < |t.rows| ensures Select(t.rows[i], ks) == c.rows[i] {
      assert |c.rows[i]| == |ks|;
    }
  }

  /**
   * Python rounds half to even: with 5 rows, `round(5 * 0.9)` is
   * `round(4.5) == 4`, so a column missing one value in five survives a 90%
   * requirement.
   */
  lemma ColumnThresholdRoundsHalfToEven(t: Table)
    requires |t.rows| == 5
    ensures ColumnThreshold(t, 0.9) == 4
  {
    RoundHalfEvenUnique(4.5, 4);
  }

  /** With 10 rows and 0.9, the column pass keeps exactly the columns with at least 9 present cells. */
  lemma ColumnThresholdTenRows(t: Table)
    requires WellFormed(t) && |t.rows| == 10
    ensures ColumnThreshold(t, 0.9) == 9
    ensures forall j :: 0 <= j < |t.columns| ==> (j in KeptColumns(t, 0.9) <==> ColumnCount(t, j) >= 9)
  {
    RoundHalfEvenUnique(9.0, 9);
  }

  /**
   * Pruning is not idempotent: the row pass can leave a column below the
   * threshold a second column pass would apply. Here, with 0.5 for both
   * proportions, the first call keeps all three columns and the last two
   * rows, and a second call then drops column "a", which is missing in both.
   */
  lemma HandleMissingValuesNotIdempotent(t: Table)
    requires t == Table(["a", "b", "c"], [
      [Some(Num(1.0)), None, None],
      [Some(Num(1.0)), None, None],
      [None, Some(Num(2.0)), Some(Num(2.0))],
      [None, Some(Num(2.0)), Some(Num(3.0))]])
    ensures WellFormed(t)
    ensures HandleMissingValues(t, 0.5, 0.5).columns == ["a", "b", "c"]
    ensures HandleMissingValues(HandleMissingValues(t, 0.5, 0.5), 0.5, 0.5).columns == ["b", "c"]
  {
    assert WellFormed(t);
    FirstPassCounts(t);
    FirstPassRows(t);
    var u := Table(t.columns, t.rows[2..]);
    FirstPassExample(t, u);
    SecondPassExample(u);
  }

  /** A table whose columns all reach the column threshold loses only the rows its row pass drops. */
  lemma FirstPassExample(t: Table, u: Table)
    requires WellFormed(t) && |t.columns| == 3 && ColumnThreshold(t, 0.5) == 2
    requires ColumnCount(t, 0) == 2 && ColumnCount(t, 1) == 2 && ColumnCount(t, 2) == 2
    requires u == Table(t.columns, Filter(t.rows, DenseRow(2)))
    ensures HandleMissingValues(t, 0.5, 0.5) == u
  {
    ThreeColumnsKept(t, 2);
    ColumnPassIsProjection(t, 0.5);
    ProjectAll(t, [0, 1, 2]);
    assert RowThreshold(3, 0.5) == 2 by { RoundHalfEvenUnique(1.5, 2); }
  }

  lemma FirstPassCounts(t: Table)
    requires t == Table(["a", "b", "c"], [
      [Some(Num(1.0)), None, None],
      [Some(Num(1.0)), None, None],
      [None, Some(Num(2.0)), Some(Num(2.0))],
      [None, Some(Num(2.0)), Some(Num(3.0))]])
    ensures WellFormed(t) && |t.columns| == 3 && ColumnThreshold(t, 0.5) == 2
    ensures ColumnCount(t, 0) == 2 && ColumnCount(t, 1) == 2 && ColumnCount(t, 2) == 2
  {
    assert WellFormed(t);
    assert ColumnThreshold(t, 0.5) == 2 by { RoundHalfEvenUnique(2.0, 2); }
    assert Column(t, 0) == [Some(Num(1.0)), Some(Num(1.0)), None, None];
    assert Column(t, 1) == [None, None, Some(Num(2.0)), Some(Num(2.0))];
    assert Column(t, 2) == [None, None, Some(Num(2.0)), Some(Num(3.0))];
  }

  lemma ThreeColumnsKept(t: Table, thresh: int)
    requires WellFormed(t) && |t.columns| == 3
    requires ColumnCount(t, 0) >= thresh && ColumnCount(t, 1) >= thresh && ColumnCount(t, 2) >= thresh
    ensures DenseColumns(t, thresh, 3) == [0, 1, 2]
  {
    assert DenseColumns(t, thresh, 0) == [];
    assert DenseColumns(t, thresh, 1) == [] + [0];
    assert DenseColumns(t, thresh, 2) == [0] + [1];
    assert DenseColumns(t, thresh, 3) == [0, 1] + [2];
  }

  lemma LastTwoColumnsKept(t: Table, thresh: int)
    requires WellFormed(t) && |t.columns| == 3
    requires ColumnCount(t, 0) < thresh && ColumnCount(t, 1) >= thresh && ColumnCount(t, 2) >= thresh
    ensures DenseColumns(t, thresh, 3) == [1, 2]
  {
    assert DenseColumns(t, thresh, 0) == [];
    assert DenseColumns(t, thresh, 1) == [];
    assert DenseColumns(t, thresh, 2) == [] + [1];
    assert DenseColumns(t, thresh, 3) == [1] + [2];
  }

  /** Projecting on every column, in order, changes nothing. */
  lemma ProjectAll(t: Table, ks: seq<nat>)
    requires WellFormed(t) && |ks| == |t.columns|
    requires forall k :: 0 <= k < |ks| ==> ks[k] == k
    ensures Project(t, ks) == t
  {
    var r := Project(t, ks);
    forall i | 0 <= i < |t.rows| ensures r.rows[i] == t.rows[i] {
      assert |t.rows[i]| == |ks|;
    }
  }

  lemma FirstPassRows(t: Table)
    requires t == Table(["a", "b", "c"], [
      [Some(Num(1.0)), None, None],
      [Some(Num(1.0)), None, None],
      [None, Some(Num(2.0)), Some(Num(2.0))],
      [None, Some(Num(2.0)), Some(Num(3.0))]])
    ensures Filter(t.rows, DenseRow(2)) == t.rows[2..]
  {
    assert CountPresent(t.rows[0]) == 1 && CountPresent(t.rows[1]) == 1;
    assert CountPresent(t.rows[2]) == 2 && CountPresent(t.rows[3]) == 2;
    assert t.rows[1..][1..] == t.rows[2..];
    FilterAll(t.rows[2..], DenseRow(2));
  }

  lemma SecondPassExample(u: Table)
    requires u == Table(["a", "b", "c"], [
      [None, Some(Num(2.0)), Some(Num(2.0))],
      [None, Some(Num(2.0)), Some(Num(3.0))]])
    ensures WellFormed(u) && HandleMissingValues(u, 0.5, 0.5).columns == ["b", "c"]
  {
    SecondPassCounts(u);
    LastTwoColumnsKept(u, 1);
    HandleMissingValuesColumns(u, 0.5, 0.5);
  }

  lemma SecondPassCounts(u: Table)
    requires u == Table(["a", "b", "c"], [
      [None, Some(Num(2.0)), Some(Num(2.0))],
      [None, Some(Num(2.0)), Some(Num(3.0))]])
    ensures WellFormed(u) && |u.columns| == 3 && ColumnThreshold(u, 0.5) == 1
    ensures ColumnCount(u, 0) == 0 && ColumnCount(u, 1) == 2 && ColumnCount(u, 2) == 2
  {
    assert WellFormed(u);
    assert ColumnThreshold(u, 0.5) == 1 by { RoundHalfEvenUnique(1.0, 1); }
    assert Column(u, 0) == [None, None];
    assert Column(u, 1) == [Some(Num(2.0)), Some(Num(2.0))];
    assert Column(u, 2) == [Some(Num(2.0)), Some(Num(3.0))];
  }
}
