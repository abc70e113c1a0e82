/**
 * The abstract data frame shared by both wrangling modules: a table is a
 * sequence of column names and a sequence of rows, each row a sequence of
 * cells, and a cell is either a value or missing (pandas' NaN/None).
 */
module Frame {

  datatype Option<T> = None | Some(value: T)

  /** The failures the wrangling code can raise, by kind. */
  datatype Error =
    | SchemaError      // a referenced column is absent (pandas KeyError / AttributeError)
    | EmptyFitError    // an imputer column has no present value in train
    | NonNumericError  // mean or median asked of a column holding a string
    | EmptyInputError  // an imputer given a frame with no rows, or a group with no columns

  datatype Result<T> = Ok(value: T) | Err(error: Error)

  /** A present cell value: numeric columns hold reals, text columns strings. */
  datatype Value = Num(x: real) | Str(s: string)

  type Cell = Option<Value>

  datatype Table = Table(columns: seq<string>, rows: seq<seq<Cell>>)

  predicate Distinct(names: seq<string>) {
    forall a, b :: 0 <= a < b < |names| ==> names[a] != names[b]
  }

  /** Every row has one cell per column, and column labels are unique. */
  predicate WellFormed(t: Table) {
    && Distinct(t.columns)
    && forall i :: 0 <= i < |t.rows| ==> |t.rows[i]| == |t.columns|
  }

  /** The position of the first column called `name`, as pandas looks a label up. */
  function IndexOf(names: seq<string>, name: string): (r: Option<nat>)
    ensures r.None? <==> name !in names
    ensures r.Some? ==> r.value < |names| && names[r.value] == name && name !in names[..r.value]
  {
    if |names| == 0 then None
    else if names[0] == name then Some(0)
    else match IndexOf(names[1..], name)
      case None => None
      case Some(j) =>
        assert names[1..][..j] == names[1..j + 1];
        Some(j + 1)
  }

  /**
   * `r` keeps every row of `t`, and each of its columns is the column of `t`
   * with the same label, cell for cell.
   */
  predicate IsProjection(t: Table, r: Table)
    requires WellFormed(t) && WellFormed(r)
  {
    && |r.rows| == |t.rows|
    && (forall k :: 0 <= k < |r.columns| ==> r.columns[k] in t.columns)
    && forall i :: 0 <= i < |t.rows| ==>
         (forall k :: 0 <= k < |r.columns| ==> r.rows[i][k] == t.rows[i][IndexOf(t.columns, r.columns[k]).value])
  }

  /** In distinct labels, looking a label up finds its own position. */
  lemma DistinctIndexOf(names: seq<string>, j: nat)
    requires Distinct(names) && j < |names|
    ensures IndexOf(names, names[j]) == Some(j)
  {
    var r := IndexOf(names, names[j]).value;
    assert names[r] == names[j];
  }

  /** Number of present (non-missing) cells, pandas' `count`. */
  function CountPresent(cells: seq<Cell>): (n: nat)
    ensures n <= |cells|
    ensures n == |cells| <==> forall i :: 0 <= i < |cells| ==> cells[i].Some?
    ensures n == 0 <==> forall i :: 0 <= i < |cells| ==> cells[i].None?
  {
    if cells == [] then 0
    else (if cells[0].Some? then 1 else 0) + CountPresent(cells[1..])
  }

  /** The cells of column `j`, top to bottom. */
  function Column(t: Table, j: nat): (c: seq<Cell>)
    requires WellFormed(t) && j < |t.columns|
    ensures |c| == |t.rows|
    ensures forall i :: 0 <= i < |t.rows| ==> c[i] == t.rows[i][j]
  {
    seq(|t.rows|, i requires 0 <= i < |t.rows| => t.rows[i][j])
  }

  /** The present values of a sequence of cells, in order. */
  function Present(cells: seq<Cell>): (vs: seq<Value>)
    ensures |vs| == CountPresent(cells)
    ensures forall v :: v in vs <==> Some(v) in cells
  {
    if cells == [] then []
    else if cells[0].Some? then [cells[0].value] + Present(cells[1..])
    else Present(cells[1..])
  }

  /** The elements of `s` that satisfy `p`, in their original order (a boolean mask). */
  function Filter<T>(s: seq<T>, p: T -> bool): (r: seq<T>)
    ensures |r| <= |s|
    ensures forall i :: 0 <= i < |r| ==> r[i] in s && p(r[i])
    ensures forall i :: 0 <= i < |s| && p(s[i]) ==> s[i] in r
  {
    if s == [] then []
    else if p(s[0]) then [s[0]] + Filter(s[1..], p)
    else Filter(s[1..], p)
  }

  /** `a` can be obtained from `b` by deleting elements: order and values are kept. */
  predicate IsSubsequence<T(==)>(a: seq<T>, b: seq<T>)
    decreases |a| + |b|
  {
    if a == [] then true
    else if b == [] then false
    else (a[0] == b[0] && IsSubsequence(a[1..], b[1..])) || IsSubsequence(a, b[1..])
  }

  lemma {:induction false} FilterIsSubsequence<T>(s: seq<T>, p: T -> bool)
    ensures IsSubsequence(Filter(s, p), s)
  {
    if s != [] {
      FilterIsSubsequence(s[1..], p);
      if p(s[0]) {
        assert Filter(s, p)[1..] == Filter(s[1..], p);
      }
    }
  }

  /** A mask keeps every copy of an element that passes it, and no copy of one that does not. */
  lemma {:induction false} FilterCounts<T>(s: seq<T>, p: T -> bool)
    ensures forall x :: multiset(Filter(s, p))[x] == if p(x) then multiset(s)[x] else 0
  {
    if s != [] {
      FilterCounts(s[1..], p);
      assert s == [s[0]] + s[1..];
      if p(s[0]) {
        assert Filter(s, p) == [s[0]] + Filter(s[1..], p);
      }
    }
  }

  /** Masking twice is masking once with the conjunction of the two masks. */
  lemma {:induction false} FilterFilter<T>(s: seq<T>, p: T -> bool, q: T -> bool, both: T -> bool)
    requires forall x :: both(x) == (p(x) && q(x))
    ensures Filter(Filter(s, p), q) == Filter(s, both)
  {
    if s != [] {
      FilterFilter(s[1..], p, q, both);
      if p(s[0]) {
        assert Filter(s, p) == [s[0]] + Filter(s[1..], p);
        assert Filter(s, p)[1..] == Filter(s[1..], p);
      }
    }
  }

  /** A mask that every element passes keeps the whole sequence. */
  lemma {:induction false} FilterAll<T>(s: seq<T>, p: T -> bool)
    requires forall i :: 0 <= i < |s| ==> p(s[i])
    ensures Filter(s, p) == s
  {
    if s != [] {
      FilterAll(s[1..], p);
    }
  }
}
