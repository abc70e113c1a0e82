/**
 * impute_missing_values: for each (strategy, columns) group, fit one
 * statistic per column on the train partition and fill the missing cells of
 * those columns in train, validate and test (wrangle_zillow.py).
 */
module ZillowImpute {
  import opened Frame
  import Stats

  /** scikit-learn SimpleImputer strategies used by the source. */
  datatype Strategy = Mean | Median | MostFrequent

  /** One entry of `columns_strategy`. */
  datatype Group = Group(strategy: Strategy, names: seq<string>)

  /** The three row-disjoint frames that split_data returns. */
  datatype Partition = Partition(train: Table, validate: Table, test: Table)

  datatype Part = Train | Validate | Test

  function Get(p: Partition, w: Part): Table {
    match w
    case Train => p.train
    case Validate => p.validate
    case Test => p.test
  }

  predicate PartitionWellFormed(p: Partition) {
    WellFormed(p.train) && WellFormed(p.validate) && WellFormed(p.test)
  }

  // ---------------------------------------------------------------------------
  // Fitting one column

  predicate AllNumeric(vs: seq<Value>) {
    forall i :: 0 <= i < |vs| ==> vs[i].Num?
  }

  function Numbers(vs: seq<Value>): (xs: seq<real>)
    requires AllNumeric(vs)
    ensures |xs| == |vs| && forall i :: 0 <= i < |vs| ==> vs[i] == Num(xs[i])
  {
    seq(|vs|, i requires 0 <= i < |vs| => vs[i].x)
  }

  /**
   * SimpleImputer.fit on one column's present values. Mean and median refuse
   * strings; a column with no present value yields no statistic (scikit-learn
   * drops it, and the assignment back into the frame then fails).
   */
  function Fit(s: Strategy, vs: seq<Value>): (r: Result<Value>)
    ensures r.Ok? <==> vs != [] && (s == MostFrequent || AllNumeric(vs))
    ensures r.Err? && s != MostFrequent && !AllNumeric(vs) ==> r.error == NonNumericError
    ensures r.Err? && (s == MostFrequent || AllNumeric(vs)) ==> r.error == EmptyFitError
    ensures r.Ok? && s == MostFrequent ==> Stats.IsSmallestMode(vs, r.value)
    ensures r.Ok? && s == Mean ==> r.value.Num? && r.value.x * |vs| as real == Stats.Sum(Numbers(vs))
    ensures r.Ok? && s == Median ==> r.value.Num? && r.value.x == Stats.Median(Numbers(vs))
  {
    if s != MostFrequent && !AllNumeric(vs) then Err(NonNumericError)
    else if vs == [] then Err(EmptyFitError)
    else match s
      case Mean => Ok(Num(Stats.Mean(Numbers(vs))))
      case Median => Ok(Num(Stats.Median(Numbers(vs))))
      case MostFrequent => Ok(Stats.MostFrequent(vs))
  }

  /** The present values of the column called `c`. */
  function ColumnValues(t: Table, c: string): seq<Value>
    requires WellFormed(t) && c in t.columns
  {
    Present(Column(t, IndexOf(t.columns, c).value))
  }

  /** The statistic for column `c`, fitted on `train` alone. */
  function Fitted(train: Table, s: Strategy, c: string): Result<Value>
    requires WellFormed(train) && c in train.columns
  {
    Fit(s, ColumnValues(train, c))
  }

  // ---------------------------------------------------------------------------
  // Checks the library performs on `frame[columns]`

  predicate HasColumns(t: Table, names: seq<string>) {
    forall k :: 0 <= k < |names| ==> names[k] in t.columns
  }

  predicate NumericColumns(t: Table, names: seq<string>)
    requires WellFormed(t) && HasColumns(t, names)
  {
    forall k :: 0 <= k < |names| ==> AllNumeric(ColumnValues(t, names[k]))
  }

  predicate NonEmptyColumns(t: Table, names: seq<string>)
    requires WellFormed(t) && HasColumns(t, names)
  {
    forall k :: 0 <= k < |names| ==> ColumnValues(t, names[k]) != []
  }

  /**
   * The fit on train goes through: the group names a column, the columns
   * exist, train has a row, every column has a present value, and the
   * columns are numeric for mean or median.
   */
  predicate FitsOnTrain(train: Table, s: Strategy, names: seq<string>)
    requires WellFormed(train)
  {
    && HasColumns(train, names)
    && |names| > 0
    && |train.rows| > 0
    && NonEmptyColumns(train, names)
    && (s != MostFrequent ==> NumericColumns(train, names))
  }

  /** A fitted imputer can transform `t`: the columns exist, are numeric for mean or median, and `t` has a row. */
  predicate Transforms(t: Table, s: Strategy, names: seq<string>)
    requires WellFormed(t)
  {
    && HasColumns(t, names)
    && (s != MostFrequent ==> NumericColumns(t, names))
    && |t.rows| > 0
  }

  /** Everything a group needs to go through: the fit on train and the transforms of validate and test. */
  predicate Imputable(p: Partition, s: Strategy, names: seq<string>)
    requires PartitionWellFormed(p)
  {
    FitsOnTrain(p.train, s, names) && Transforms(p.validate, s, names) && Transforms(p.test, s, names)
  }

  // ---------------------------------------------------------------------------
  // Filling

  /** The fitted statistic of every column of a group. */
  function GroupFills(train: Table, s: Strategy, names: seq<string>): (m: map<string, Value>)
    requires WellFormed(train) && HasColumns(train, names)
    requires forall k :: 0 <= k < |names| ==> Fitted(train, s, names[k]).Ok?
    ensures m.Keys == set c | c in names
    ensures forall c :: c in m ==> Fitted(train, s, c) == Ok(m[c])
  {
    map c | c in names :: Fitted(train, s, c).value
  }

  /** SimpleImputer.transform: every missing cell of a filled column gets that column's statistic. */
  function FillColumns(t: Table, fills: map<string, Value>): (r: Table)
    requires WellFormed(t)
    ensures WellFormed(r) && r.columns == t.columns && |r.rows| == |t.rows|
    ensures forall i, j :: 0 <= i < |t.rows| && 0 <= j < |t.columns| ==>
      r.rows[i][j] == (if t.rows[i][j].None? && t.columns[j] in fills then Some(fills[t.columns[j]]) else t.rows[i][j])
  {
    Table(t.columns, seq(|t.rows|, i requires 0 <= i < |t.rows| =>
      seq(|t.columns|, j requires 0 <= j < |t.columns| =>
        if t.rows[i][j].None? && t.columns[j] in fills then Some(fills[t.columns[j]]) else t.rows[i][j])))
  }

  /** The outcome of each check a group goes through, in the order the loop body runs into them. */
  datatype Checks = Checks(
    trainHas: bool, fitInput: bool, trainNumeric: bool, trainNonEmpty: bool,
    validateHas: bool, validateNumeric: bool, validateRows: bool,
    testHas: bool, testNumeric: bool, testRows: bool)

  /** The checks of a group on a partition: for each frame, columns present, numeric if need be, rows present. */
  function ChecksOf(p: Partition, s: Strategy, names: seq<string>): Checks
    requires PartitionWellFormed(p)
  {
    Checks(
      HasColumns(p.train, names),
      |names| > 0 && |p.train.rows| > 0,
      HasColumns(p.train, names) && (s == MostFrequent || NumericColumns(p.train, names)),
      HasColumns(p.train, names) && NonEmptyColumns(p.train, names),
      HasColumns(p.validate, names),
      HasColumns(p.validate, names) && (s == MostFrequent || NumericColumns(p.validate, names)),
      |p.validate.rows| > 0,
      HasColumns(p.test, names),
      HasColumns(p.test, names) && (s == MostFrequent || NumericColumns(p.test, names)),
      |p.test.rows| > 0)
  }

  /** The error of the first check that fails, if any. */
  function FirstFailure(c: Checks): (e: Option<Error>)
    ensures e.None? <==>
      c.trainHas && c.fitInput && c.trainNumeric && c.trainNonEmpty &&
      c.validateHas && c.validateNumeric && c.validateRows && c.testHas && c.testNumeric && c.testRows
  {
    if !c.trainHas then Some(SchemaError)
    else if !c.fitInput then Some(EmptyInputError)
    else if !c.trainNumeric then Some(NonNumericError)
    else if !c.trainNonEmpty then Some(EmptyFitError)
    else if !c.validateHas then Some(SchemaError)
    else if !c.validateNumeric then Some(NonNumericError)
    else if !c.validateRows then Some(EmptyInputError)
    else if !c.testHas then Some(SchemaError)
    else if !c.testNumeric then Some(NonNumericError)
    else if !c.testRows then Some(EmptyInputError)
    else None
  }

  /**
   * The first check of a group that fails: the fit on train (a missing
   * column, no column or no row, a string under mean or median, a column
   * with no present value), then the transform of validate, then that of
   * test; `None` when every check passes.
   */
  function GroupCheck(p: Partition, s: Strategy, names: seq<string>): (e: Option<Error>)
    requires PartitionWellFormed(p)
    ensures e.None? <==> Imputable(p, s, names)
  {
    FirstFailure(ChecksOf(p, s, names))
  }

  /** One iteration of the loop over `columns_strategy`. */
  function ImputeGroup(p: Partition, s: Strategy, names: seq<string>): (r: Result<Partition>)
    requires PartitionWellFormed(p)
    ensures r.Ok? <==> Imputable(p, s, names)
    ensures r.Err? && !HasColumns(p.train, names) ==> r.error == SchemaError
    ensures r.Ok? ==> PartitionWellFormed(r.value)
    ensures r.Ok? ==> forall w ::
      Get(r.value, w) == FillColumns(Get(p, w), GroupFills(p.train, s, names))
  {
    match GroupCheck(p, s, names)
    case Some(e) => Err(e)
    case None =>
      var fills := GroupFills(p.train, s, names);
      var r := Partition(FillColumns(p.train, fills), FillColumns(p.validate, fills), FillColumns(p.test, fills));
      assert forall w :: Get(r, w) == FillColumns(Get(p, w), fills) by {
        forall w ensures Get(r, w) == FillColumns(Get(p, w), fills) { }
      }
      Ok(r)
  }

  /**
   * The error a failing group reports: a missing-column error means a frame
   * lacks a column, a non-numeric error only arises under mean or median, an
   * empty-fit error means a train column has no present value, and an
   * empty-input error means the group names no column or a frame has no row.
   */
  lemma ImputeGroupErrorCauses(p: Partition, s: Strategy, names: seq<string>)
    requires PartitionWellFormed(p)
    ensures var r := ImputeGroup(p, s, names);
      && (r.Err? && r.error == SchemaError ==>
            !HasColumns(p.train, names) || !HasColumns(p.validate, names) || !HasColumns(p.test, names))
      && (r.Err? && r.error == NonNumericError ==> s != MostFrequent)
      && (r.Err? && r.error == EmptyFitError ==> HasColumns(p.train, names) && !NonEmptyColumns(p.train, names))
      && (r.Err? && r.error == EmptyInputError ==>
            |names| == 0 || |p.train.rows| == 0 || |p.validate.rows| == 0 || |p.test.rows| == 0)
  {
  }

  /**
   * The order in which a group's checks fire: the fit on train comes first
   * (a group with no column, or a train column with no present value, fails
   * there), then the transform of validate, then that of test, each failing
   * on a missing column or on a frame with no row.
   */
  lemma ImputeGroupErrors(p: Partition, s: Strategy, names: seq<string>)
    requires PartitionWellFormed(p)
    ensures var r := ImputeGroup(p, s, names);
      && (|names| == 0 ==> r == Err(EmptyInputError))
      && ((HasColumns(p.train, names) && |names| > 0 && |p.train.rows| > 0
             && (s == MostFrequent || NumericColumns(p.train, names))
             && !NonEmptyColumns(p.train, names)) ==> r == Err(EmptyFitError))
      && (FitsOnTrain(p.train, s, names) && !HasColumns(p.validate, names) ==> r == Err(SchemaError))
      && ((FitsOnTrain(p.train, s, names) && HasColumns(p.validate, names)
             && (s == MostFrequent || NumericColumns(p.validate, names))
             && |p.validate.rows| == 0) ==> r == Err(EmptyInputError))
      && ((FitsOnTrain(p.train, s, names) && Transforms(p.validate, s, names) && !HasColumns(p.test, names))
            ==> r == Err(SchemaError))
      && ((FitsOnTrain(p.train, s, names) && Transforms(p.validate, s, names) && HasColumns(p.test, names)
             && (s == MostFrequent || NumericColumns(p.test, names))
             && |p.test.rows| == 0) ==> r == Err(EmptyInputError))
  {
  }

  /** The groups applied in order; the first failure is the result. */
  function ImputeAll(p: Partition, groups: seq<Group>): (r: Result<Partition>)
    requires PartitionWellFormed(p)
    ensures r.Ok? ==> PartitionWellFormed(r.value)
  {
    if groups == [] then Ok(p)
    else
      var last := groups[|groups| - 1];
      match ImputeAll(p, groups[..|groups| - 1])
      case Err(e) => Err(e)
      case Ok(q) => ImputeGroup(q, last.strategy, last.names)
  }

  /**
   * impute_missing_values after split_data: the loop over the groups, each
   * iteration refitting on the current train frame and overwriting the
   * group's columns in all three frames.
   */
  method ImputeMissingValues(p: Partition, groups: seq<Group>) returns (r: Result<Partition>)
    requires PartitionWellFormed(p)
    ensures r == ImputeAll(p, groups)
  {
    var acc := p;
    var i := 0;
    while i < |groups|
      invariant 0 <= i <= |groups|
      invariant PartitionWellFormed(acc)
      invariant ImputeAll(p, groups[..i]) == Ok(acc)
    {
      var g := groups[i];
      assert groups[..i + 1][..i] == groups[..i];
      var step := ImputeGroup(acc, g.strategy, g.names);
      if step.Err? {
        ImputeAllFailureSticks(p, groups, i + 1);
        return step;
      }
      acc := step.value;
      i := i + 1;
    }
    assert groups[..|groups|] == groups;
    return Ok(acc);
  }

  /** Once a group fails, the whole call fails with that error. */
  lemma {:induction false} ImputeAllFailureSticks(p: Partition, groups: seq<Group>, n: nat)
    requires PartitionWellFormed(p)
    requires n <= |groups| && ImputeAll(p, groups[..n]).Err?
    ensures ImputeAll(p, groups) == ImputeAll(p, groups[..n])
    decreases |groups| - n
  {
    if n < |groups| {
      assert groups[..n + 1][..n] == groups[..n];
      ImputeAllFailureSticks(p, groups, n + 1);
    } else {
      assert groups[..n] == groups;
    }
  }

  // ---------------------------------------------------------------------------
  // What the imputation guarantees

  function NameSet(names: seq<string>): set<string> {
    set c | c in names
  }

  /** The names of all columns named by some group. */
  function Named(groups: seq<Group>): (n: set<string>)
    ensures forall a, c :: 0 <= a < |groups| && c in groups[a].names ==> c in n
    ensures forall c :: c in n ==> exists a :: 0 <= a < |groups| && c in groups[a].names
  {
    if groups == [] then {}
    else Named(groups[..|groups| - 1]) + NameSet(groups[|groups| - 1].names)
  }

  /** `r` is `t` with only missing cells of the `named` columns changed. */
  predicate Preserves(t: Table, r: Table, named: set<string>) {
    && WellFormed(r) && r.columns == t.columns && |r.rows| == |t.rows|
    && forall i :: 0 <= i < |t.rows| ==>
         (forall j :: 0 <= j < |t.rows[i]| && j < |t.columns| && (t.rows[i][j].Some? || t.columns[j] !in named)
            ==> r.rows[i][j] == t.rows[i][j])
  }

  /** No missing cell is left in the `named` columns of `r`. */
  predicate Complete(r: Table, named: set<string>) {
    forall i :: 0 <= i < |r.rows| ==>
      (forall j :: 0 <= j < |r.rows[i]| && j < |r.columns| && r.columns[j] in named ==> r.rows[i][j].Some?)
  }

  lemma PreservesTransitive(t: Table, u: Table, r: Table, a: set<string>, b: set<string>)
    requires WellFormed(t) && Preserves(t, u, a) && Preserves(u, r, b)
    ensures Preserves(t, r, a + b)
  {
    forall i, j | 0 <= i < |t.rows| && 0 <= j < |t.columns| && (t.rows[i][j].Some? || t.columns[j] !in a + b)
      ensures r.rows[i][j] == t.rows[i][j]
    {
      assert |t.rows[i]| == |t.columns| && |u.rows[i]| == |u.columns|;
      assert u.rows[i][j].Some? || u.columns[j] !in b;
    }
  }

  /** A later fill keeps earlier columns complete, since it never touches a present cell. */
  lemma CompleteAccumulates(u: Table, r: Table, a: set<string>, b: set<string>)
    requires WellFormed(u) && Complete(u, a) && Preserves(u, r, b) && Complete(r, b)
    ensures Complete(r, a + b)
  {
    forall i, j | 0 <= i < |r.rows| && 0 <= j < |r.columns| && r.columns[j] in a + b
      ensures r.rows[i][j].Some?
    {
      assert |u.rows[i]| == |u.columns|;
      if r.columns[j] !in b {
        assert u.rows[i][j].Some?;
      }
    }
  }

  /** One group keeps the shape and present cells and completes its own columns. */
  lemma ImputeGroupPreservesAndCompletes(q: Partition, g: Group, w: Part)
    requires PartitionWellFormed(q) && ImputeGroup(q, g.strategy, g.names).Ok?
    ensures Preserves(Get(q, w), Get(ImputeGroup(q, g.strategy, g.names).value, w), NameSet(g.names))
    ensures Complete(Get(ImputeGroup(q, g.strategy, g.names).value, w), NameSet(g.names))
  {
    var fills := GroupFills(q.train, g.strategy, g.names);
    assert fills.Keys == NameSet(g.names);
    assert Get(ImputeGroup(q, g.strategy, g.names).value, w) == FillColumns(Get(q, w), fills);
    FillPreservesAndCompletes(Get(q, w), fills);
  }

  /** Filling keeps the shape and every present cell, and leaves no missing cell in a filled column. */
  lemma FillPreservesAndCompletes(t: Table, fills: map<string, Value>)
    requires WellFormed(t)
    ensures Preserves(t, FillColumns(t, fills), fills.Keys)
    ensures Complete(FillColumns(t, fills), fills.Keys)
  {
  }

  /**
   * Whatever the groups, a successful imputation keeps every frame's shape,
   * never changes a present cell, leaves the columns no group names
   * untouched, and leaves no missing cell in the columns the groups name.
   */
  lemma {:induction false} ImputeAllPreservesAndCompletes(p: Partition, groups: seq<Group>, w: Part)
    requires PartitionWellFormed(p) && ImputeAll(p, groups).Ok?
    ensures Preserves(Get(p, w), Get(ImputeAll(p, groups).value, w), Named(groups))
    ensures Complete(Get(ImputeAll(p, groups).value, w), Named(groups))
  {
    if groups != [] {
      var init, last := groups[..|groups| - 1], groups[|groups| - 1];
      var q := ImputeAll(p, init).value;
      ImputeAllPreservesAndCompletes(p, init, w);
      ImputeGroupPreservesAndCompletes(q, last, w);
      var r := Get(ImputeAll(p, groups).value, w);
      assert r == Get(ImputeGroup(q, last.strategy, last.names).value, w);
      PreservesTransitive(Get(p, w), Get(q, w), r, Named(init), NameSet(last.names));
      CompleteAccumulates(Get(q, w), r, Named(init), NameSet(last.names));
    }
  }

  // ---------------------------------------------------------------------------
  // Where the filled values come from

  /** No column is named by two groups. */
  predicate GroupsDisjoint(groups: seq<Group>) {
    forall a, b, c :: 0 <= a < b < |groups| && c in groups[a].names ==> c !in groups[b].names
  }

  /** The strategy of the group that names `c` (the last one, if several do). */
  function StrategyFor(groups: seq<Group>, c: string): Strategy
    requires c in Named(groups)
  {
    var last := groups[|groups| - 1];
    if c in last.names then last.strategy else StrategyFor(groups[..|groups| - 1], c)
  }

  /** Every cell missing in `t` of a named column holds, in `r`, the statistic fitted on `train`. */
  predicate FilledFromTrain(t: Table, r: Table, train: Table, groups: seq<Group>)
    requires WellFormed(train)
  {
    forall i :: 0 <= i < |t.rows| ==>
      (forall j :: 0 <= j < |t.rows[i]| && j < |t.columns| && t.rows[i][j].None? && t.columns[j] in Named(groups) ==>
        && t.columns[j] in train.columns
        && Fitted(train, StrategyFor(groups, t.columns[j]), t.columns[j]).Ok?
        && i < |r.rows| && j < |r.rows[i]|
        && r.rows[i][j] == Some(Fitted(train, StrategyFor(groups, t.columns[j]), t.columns[j]).value))
  }

  /** With disjoint groups, a column of the last group is named by no earlier one. */
  lemma NotNamedEarlier(groups: seq<Group>, c: string)
    requires GroupsDisjoint(groups) && groups != [] && c in groups[|groups| - 1].names
    ensures c !in Named(groups[..|groups| - 1])
  {
    var init := groups[..|groups| - 1];
    forall a | 0 <= a < |init| ensures c !in init[a].names {
      assert init[a] == groups[a];
    }
  }

  /** A column that a step does not name keeps its present values. */
  lemma ColumnValuesUnchanged(t: Table, u: Table, named: set<string>, c: string)
    requires WellFormed(t) && Preserves(t, u, named) && c in t.columns && c !in named
    ensures c in u.columns && ColumnValues(u, c) == ColumnValues(t, c)
  {
    var j := IndexOf(t.columns, c).value;
    assert Column(u, j) == Column(t, j) by {
      forall i | 0 <= i < |t.rows| ensures u.rows[i][j] == t.rows[i][j] {
        assert |t.rows[i]| == |t.columns|;
      }
    }
  }

  /** A column that a step does not name keeps its fitted statistic. */
  lemma FittedUnchanged(t: Table, u: Table, named: set<string>, s: Strategy, c: string)
    requires WellFormed(t) && Preserves(t, u, named) && c in t.columns && c !in named
    ensures Fitted(u, s, c) == Fitted(t, s, c)
  {
    ColumnValuesUnchanged(t, u, named, c);
  }

  /** The checks on a group's columns do not see a step that names none of them. */
  lemma GroupChecksUnchanged(t: Table, u: Table, named: set<string>, names: seq<string>)
    requires WellFormed(t) && Preserves(t, u, named)
    requires forall k :: 0 <= k < |names| ==> names[k] !in named
    ensures HasColumns(u, names) == HasColumns(t, names)
    ensures HasColumns(t, names) ==>
      && NumericColumns(u, names) == NumericColumns(t, names)
      && NonEmptyColumns(u, names) == NonEmptyColumns(t, names)
  {
    if HasColumns(t, names) {
      forall k | 0 <= k < |names| ensures ColumnValues(u, names[k]) == ColumnValues(t, names[k]) {
        ColumnValuesUnchanged(t, u, named, names[k]);
      }
    }
  }

  /**
   * A group that names no column of the earlier steps succeeds or fails on
   * their result exactly as it would on the original frames, and fails with
   * the same error.
   */
  lemma ImputeGroupUnchanged(p: Partition, q: Partition, named: set<string>, s: Strategy, names: seq<string>)
    requires PartitionWellFormed(p)
    requires forall w :: Preserves(Get(p, w), Get(q, w), named)
    requires forall k :: 0 <= k < |names| ==> names[k] !in named
    ensures PartitionWellFormed(q)
    ensures Imputable(q, s, names) == Imputable(p, s, names)
    ensures ImputeGroup(q, s, names).Err? ==> ImputeGroup(q, s, names) == ImputeGroup(p, s, names)
  {
    assert Preserves(Get(p, Train), Get(q, Train), named);
    assert Preserves(Get(p, Validate), Get(q, Validate), named);
    assert Preserves(Get(p, Test), Get(q, Test), named);
    GroupChecksUnchanged(p.train, q.train, named, names);
    GroupChecksUnchanged(p.validate, q.validate, named, names);
    GroupChecksUnchanged(p.test, q.test, named, names);
    SameChecksSameError(p, q, s, names);
  }

  /** Two partitions on which every check of a group comes out the same fail that group at the same check. */
  lemma SameChecksSameError(p: Partition, q: Partition, s: Strategy, names: seq<string>)
    requires PartitionWellFormed(p) && PartitionWellFormed(q)
    requires HasColumns(q.train, names) == HasColumns(p.train, names)
    requires HasColumns(q.validate, names) == HasColumns(p.validate, names)
    requires HasColumns(q.test, names) == HasColumns(p.test, names)
    requires HasColumns(p.train, names) ==>
      NumericColumns(q.train, names) == NumericColumns(p.train, names) && NonEmptyColumns(q.train, names) == NonEmptyColumns(p.train, names)
    requires HasColumns(p.validate, names) ==> NumericColumns(q.validate, names) == NumericColumns(p.validate, names)
    requires HasColumns(p.test, names) ==> NumericColumns(q.test, names) == NumericColumns(p.test, names)
    requires |q.train.rows| == |p.train.rows| && |q.validate.rows| == |p.validate.rows| && |q.test.rows| == |p.test.rows|
    ensures GroupCheck(q, s, names) == GroupCheck(p, s, names)
    ensures Imputable(q, s, names) == Imputable(p, s, names)
    ensures ImputeGroup(q, s, names).Err? ==> ImputeGroup(q, s, names) == ImputeGroup(p, s, names)
  {
  }

  /** Any prefix of disjoint groups is disjoint. */
  lemma DisjointPrefix(groups: seq<Group>, n: nat)
    requires GroupsDisjoint(groups) && n <= |groups|
    ensures GroupsDisjoint(groups[..n])
  {
    var init := groups[..n];
    forall a, b, c | 0 <= a < b < |init| && c in init[a].names ensures c !in init[b].names {
      assert init[a] == groups[a] && init[b] == groups[b];
    }
  }

  /**
   * With disjoint groups, group `n` meets the frames the earlier groups
   * leave exactly as it would meet the original frames.
   */
  lemma LaterGroupUnaffected(p: Partition, groups: seq<Group>, n: nat)
    requires PartitionWellFormed(p) && GroupsDisjoint(groups) && n < |groups|
    requires ImputeAll(p, groups[..n]).Ok?
    ensures var q := ImputeAll(p, groups[..n]).value; var g := groups[n];
      && (Imputable(q, g.strategy, g.names) == Imputable(p, g.strategy, g.names))
      && (ImputeGroup(q, g.strategy, g.names).Err? ==> ImputeGroup(q, g.strategy, g.names) == ImputeGroup(p, g.strategy, g.names))
  {
    var init, g := groups[..n], groups[n];
    var q := ImputeAll(p, init).value;
    forall w ensures Preserves(Get(p, w), Get(q, w), Named(init)) {
      ImputeAllPreservesAndCompletes(p, init, w);
    }
    DisjointPrefix(groups, n + 1);
    assert groups[..n + 1][..n] == init && groups[..n + 1][n] == g;
    forall k | 0 <= k < |g.names| ensures g.names[k] !in Named(init) {
      NotNamedEarlier(groups[..n + 1], g.names[k]);
    }
    ImputeGroupUnchanged(p, q, Named(init), g.strategy, g.names);
  }

  /**
   * With disjoint groups, the whole imputation succeeds when every group
   * could be imputed on the frames as split_data returned them.
   */
  lemma {:induction false} ImputeAllSucceeds(p: Partition, groups: seq<Group>)
    requires PartitionWellFormed(p) && GroupsDisjoint(groups)
    requires forall a :: 0 <= a < |groups| ==> Imputable(p, groups[a].strategy, groups[a].names)
    ensures ImputeAll(p, groups).Ok?
  {
    if groups != [] {
      var n := |groups| - 1;
      var init := groups[..n];
      DisjointPrefix(groups, n);
      assert forall a :: 0 <= a < |init| ==> init[a] == groups[a];
      ImputeAllSucceeds(p, init);
      LaterGroupUnaffected(p, groups, n);
    }
  }

  /**
   * With disjoint groups, the first group that could not be imputed on the
   * frames as split_data returned them decides the result: its error is the
   * error of the whole imputation.
   */
  lemma ImputeAllFirstFailure(p: Partition, groups: seq<Group>, n: nat)
    requires PartitionWellFormed(p) && GroupsDisjoint(groups) && n < |groups|
    requires forall a :: 0 <= a < n ==> Imputable(p, groups[a].strategy, groups[a].names)
    requires !Imputable(p, groups[n].strategy, groups[n].names)
    ensures ImputeAll(p, groups).Err?
    ensures ImputeAll(p, groups) == ImputeGroup(p, groups[n].strategy, groups[n].names)
  {
    var init := groups[..n];
    DisjointPrefix(groups, n);
    assert forall a :: 0 <= a < |init| ==> init[a] == groups[a];
    ImputeAllSucceeds(p, init);
    LaterGroupUnaffected(p, groups, n);
    assert groups[..n + 1][..n] == init && groups[..n + 1][n] == groups[n];
    ImputeAllFailureSticks(p, groups, n + 1);
  }

  /** With disjoint groups, imputation succeeds exactly when every group can be imputed on the split frames. */
  lemma ImputeAllOkIff(p: Partition, groups: seq<Group>)
    requires PartitionWellFormed(p) && GroupsDisjoint(groups)
    ensures ImputeAll(p, groups).Ok? <==>
      forall a :: 0 <= a < |groups| ==> Imputable(p, groups[a].strategy, groups[a].names)
  {
    var n := 0;
    while n < |groups| && Imputable(p, groups[n].strategy, groups[n].names)
      invariant 0 <= n <= |groups|
      invariant forall a :: 0 <= a < n ==> Imputable(p, groups[a].strategy, groups[a].names)
    {
      n := n + 1;
    }
    if n < |groups| {
      ImputeAllFirstFailure(p, groups, n);
    } else {
      ImputeAllSucceeds(p, groups);
    }
  }

  /**
   * Fit isolation: when no column is named twice, every cell that was
   * missing in a named column of train, validate or test ends up holding the
   * statistic of that column's group fitted on the ORIGINAL train frame:
   * it depends on nothing in validate or test, and not on the other groups.
   */
  lemma {:induction false} ImputeAllFillsFromTrain(p: Partition, groups: seq<Group>, w: Part)
    requires PartitionWellFormed(p) && GroupsDisjoint(groups) && ImputeAll(p, groups).Ok?
    ensures FilledFromTrain(Get(p, w), Get(ImputeAll(p, groups).value, w), p.train, groups)
  {
    if groups != [] {
      var init, last := groups[..|groups| - 1], groups[|groups| - 1];
      DisjointPrefix(groups, |groups| - 1);
      var q := ImputeAll(p, init).value;
      ImputeAllFillsFromTrain(p, init, w);
      ImputeAllPreservesAndCompletes(p, init, w);
      ImputeAllPreservesAndCompletes(p, init, Train);
      var fills := GroupFills(q.train, last.strategy, last.names);
      var t, u := Get(p, w), Get(q, w);
      var r := Get(ImputeAll(p, groups).value, w);
      assert r == FillColumns(u, fills);
      forall i, j | 0 <= i < |t.rows| && 0 <= j < |t.rows[i]| && j < |t.columns| && t.rows[i][j].None? && t.columns[j] in Named(groups)
        ensures t.columns[j] in p.train.columns
        ensures Fitted(p.train, StrategyFor(groups, t.columns[j]), t.columns[j]).Ok?
        ensures r.rows[i][j] == Some(Fitted(p.train, StrategyFor(groups, t.columns[j]), t.columns[j]).value)
      {
        var c := t.columns[j];
        assert |t.rows[i]| == |t.columns| && |u.rows[i]| == |u.columns|;
        if c in last.names {
          NotNamedEarlier(groups, c);
          assert u.rows[i][j].None?;
          assert c in q.train.columns;
          FittedUnchanged(p.train, q.train, Named(init), last.strategy, c);
        } else {
          assert u.rows[i][j].Some?;
        }
      }
    }
  }

  /**
   * The train frame that comes out depends on the train frame that goes in
   * and on the groups alone, never on validate or test.
   */
  lemma {:induction false} ImputeAllTrainIsolation(p: Partition, p': Partition, groups: seq<Group>)
    requires PartitionWellFormed(p) && PartitionWellFormed(p') && p.train == p'.train
    requires ImputeAll(p, groups).Ok? && ImputeAll(p', groups).Ok?
    ensures ImputeAll(p, groups).value.train == ImputeAll(p', groups).value.train
  {
    if groups != [] {
      var init, last := groups[..|groups| - 1], groups[|groups| - 1];
      ImputeAllTrainIsolation(p, p', init);
      var q, q' := ImputeAll(p, init).value, ImputeAll(p', init).value;
      assert Get(ImputeGroup(q, last.strategy, last.names).value, Train)
          == FillColumns(q.train, GroupFills(q.train, last.strategy, last.names));
      assert Get(ImputeGroup(q', last.strategy, last.names).value, Train)
          == FillColumns(q'.train, GroupFills(q'.train, last.strategy, last.names));
    }
  }

  /**
   * A mean group on one column "x" whose train cells are [1, 2, missing, 3]
   * fits 2.0. It fills the validate cells [missing, 5] to [2.0, 5], and the
   * test cells [4], with nothing missing, come back unchanged.
   */
  lemma MeanImputeExample(p: Partition)
    requires PartitionWellFormed(p)
    requires p.train.columns == ["x"] && p.validate.columns == ["x"] && p.test.columns == ["x"]
    requires Column(p.train, 0) == [Some(Num(1.0)), Some(Num(2.0)), None, Some(Num(3.0))]
    requires Column(p.validate, 0) == [None, Some(Num(5.0))]
    requires Column(p.test, 0) == [Some(Num(4.0))]
    ensures Fitted(p.train, Mean, "x") == Ok(Num(2.0))
    ensures ImputeGroup(p, Mean, ["x"]).Ok?
    ensures var r := ImputeGroup(p, Mean, ["x"]).value;
      && r.train.columns == ["x"] && r.validate.columns == ["x"]
      && Column(r.train, 0) == [Some(Num(1.0)), Some(Num(2.0)), Some(Num(2.0)), Some(Num(3.0))]
      && Column(r.validate, 0) == [Some(Num(2.0)), Some(Num(5.0))]
      && r.test == p.test
  {
    MeanExampleFit(p.train);
    MeanExampleTrain(p.train);
    MeanExampleValidate(p.validate);
    MeanExampleTest(p.test);
    OneColumnImputable(p);
    SingleFill(p.train, Mean, "x", Num(2.0));
    ImputeGroupFills(p, Mean, ["x"]);
    SameColumnSameTable(FillColumns(p.test, map["x" := Num(2.0)]), p.test);
  }

  lemma MeanExampleTrain(train: Table)
    requires WellFormed(train) && train.columns == ["x"]
    requires Column(train, 0) == [Some(Num(1.0)), Some(Num(2.0)), None, Some(Num(3.0))]
    ensures var r := FillColumns(train, map["x" := Num(2.0)]);
      r.columns == ["x"] && Column(r, 0) == [Some(Num(1.0)), Some(Num(2.0)), Some(Num(2.0)), Some(Num(3.0))]
  {
    FillExample(train, [Some(Num(1.0)), Some(Num(2.0)), None, Some(Num(3.0))], map["x" := Num(2.0)],
      [Some(Num(1.0)), Some(Num(2.0)), Some(Num(2.0)), Some(Num(3.0))]);
  }

  /** The mean of the present train values 1, 2 and 3 is 2. */
  lemma MeanExampleFit(train: Table)
    requires WellFormed(train) && train.columns == ["x"]
    requires Column(train, 0) == [Some(Num(1.0)), Some(Num(2.0)), None, Some(Num(3.0))]
    ensures ColumnValues(train, "x") != [] && AllNumeric(ColumnValues(train, "x"))
    ensures Fitted(train, Mean, "x") == Ok(Num(2.0))
  {
    OneColumnPresent(train, [Some(Num(1.0)), Some(Num(2.0)), None, Some(Num(3.0))], [Num(1.0), Num(2.0), Num(3.0)]);
    MeanOfExample(ColumnValues(train, "x"));
  }

  lemma MeanExampleValidate(validate: Table)
    requires WellFormed(validate) && validate.columns == ["x"]
    requires Column(validate, 0) == [None, Some(Num(5.0))]
    ensures ColumnValues(validate, "x") != [] && AllNumeric(ColumnValues(validate, "x"))
    ensures var r := FillColumns(validate, map["x" := Num(2.0)]);
      r.columns == ["x"] && Column(r, 0) == [Some(Num(2.0)), Some(Num(5.0))]
  {
    OneColumnPresent(validate, [None, Some(Num(5.0))], [Num(5.0)]);
    FillExample(validate, [None, Some(Num(5.0))], map["x" := Num(2.0)], [Some(Num(2.0)), Some(Num(5.0))]);
  }

  lemma MeanExampleTest(test: Table)
    requires WellFormed(test) && test.columns == ["x"]
    requires Column(test, 0) == [Some(Num(4.0))]
    ensures ColumnValues(test, "x") != [] && AllNumeric(ColumnValues(test, "x"))
    ensures var r := FillColumns(test, map["x" := Num(2.0)]);
      r.columns == ["x"] && Column(r, 0) == [Some(Num(4.0))]
  {
    OneColumnPresent(test, [Some(Num(4.0))], [Num(4.0)]);
    FillExample(test, [Some(Num(4.0))], map["x" := Num(2.0)], [Some(Num(4.0))]);
  }

  lemma OneColumnPresent(t: Table, cells: seq<Cell>, vs: seq<Value>)
    requires WellFormed(t) && t.columns == ["x"] && Column(t, 0) == cells && Present(cells) == vs
    ensures ColumnValues(t, "x") == vs
  {
    OneColumnValues(t);
  }

  /** Filling the one column "x" of a frame whose cells are `cells` gives the cells `filled`. */
  lemma FillExample(t: Table, cells: seq<Cell>, fills: map<string, Value>, filled: seq<Cell>)
    requires WellFormed(t) && t.columns == ["x"] && Column(t, 0) == cells
    requires fills == map["x" := Num(2.0)]
    requires |filled| == |cells|
    requires forall i :: 0 <= i < |cells| ==> filled[i] == if cells[i].None? then Some(Num(2.0)) else cells[i]
    ensures FillColumns(t, fills).columns == ["x"] && Column(FillColumns(t, fills), 0) == filled
  {
    FillOneColumn(t, "x", Num(2.0));
  }

  /** The present values of the only column of a one-column frame. */
  lemma OneColumnValues(t: Table)
    requires WellFormed(t) && t.columns == ["x"]
    ensures ColumnValues(t, "x") == Present(Column(t, 0))
  {
    assert IndexOf(t.columns, "x") == Some(0);
  }

  /** Filling a one-column frame fills its missing cells with `v` and keeps the others. */
  lemma FillOneColumn(t: Table, c: string, v: Value)
    requires WellFormed(t) && t.columns == [c]
    ensures var r := FillColumns(t, map[c := v]);
      && r.columns == [c] && |Column(r, 0)| == |Column(t, 0)|
      && forall i :: 0 <= i < |t.rows| ==>
           Column(r, 0)[i] == if Column(t, 0)[i].None? then Some(v) else Column(t, 0)[i]
  {
  }

  /** Two one-column frames with the same label and the same cells are equal. */
  lemma SameColumnSameTable(t: Table, u: Table)
    requires WellFormed(t) && WellFormed(u) && |t.columns| == 1 && t.columns == u.columns
    requires Column(t, 0) == Column(u, 0)
    ensures t == u
  {
    assert |t.rows| == |Column(t, 0)| == |u.rows|;
    forall i | 0 <= i < |t.rows| ensures t.rows[i] == u.rows[i] {
      assert t.rows[i][0] == Column(t, 0)[i];
    }
  }

  /** A group that can be imputed fills each frame with the statistics fitted on train. */
  lemma ImputeGroupFills(p: Partition, s: Strategy, names: seq<string>)
    requires PartitionWellFormed(p) && Imputable(p, s, names)
    ensures ImputeGroup(p, s, names).Ok?
    ensures var fills := GroupFills(p.train, s, names);
      ImputeGroup(p, s, names).value
        == Partition(FillColumns(p.train, fills), FillColumns(p.validate, fills), FillColumns(p.test, fills))
  {
    var r := ImputeGroup(p, s, names).value;
    assert Get(r, Train) == r.train && Get(r, Validate) == r.validate && Get(r, Test) == r.test;
  }

  lemma SingleFill(train: Table, s: Strategy, c: string, v: Value)
    requires WellFormed(train) && c in train.columns && Fitted(train, s, c) == Ok(v)
    ensures HasColumns(train, [c]) && GroupFills(train, s, [c]) == map[c := v]
  {
    assert HasColumns(train, [c]) && [c][0] == c;
    var fills := GroupFills(train, s, [c]);
    assert fills.Keys == {c} by {
      assert NameSet([c]) == {c};
    }
    SingletonMap(fills, c, v);
  }

  lemma SingletonMap(m: map<string, Value>, c: string, v: Value)
    requires m.Keys == {c} && m[c] == v
    ensures m == map[c := v]
  {
  }

  /** A single numeric column "x", with a present value in each frame, can be mean-imputed. */
  lemma OneColumnImputable(p: Partition)
    requires PartitionWellFormed(p)
    requires p.train.columns == ["x"] && p.validate.columns == ["x"] && p.test.columns == ["x"]
    requires ColumnValues(p.train, "x") != [] && AllNumeric(ColumnValues(p.train, "x"))
    requires ColumnValues(p.validate, "x") != [] && AllNumeric(ColumnValues(p.validate, "x"))
    requires ColumnValues(p.test, "x") != [] && AllNumeric(ColumnValues(p.test, "x"))
    ensures Imputable(p, Mean, ["x"])
  {
    HasRows(p.train, "x");
    HasRows(p.validate, "x");
    HasRows(p.test, "x");
  }

  /** A frame with a present value in some column has a row. */
  lemma HasRows(t: Table, c: string)
    requires WellFormed(t) && c in t.columns && ColumnValues(t, c) != []
    ensures |t.rows| > 0
  {
  }

  lemma MeanOfExample(vs: seq<Value>)
    requires vs == [Num(1.0), Num(2.0), Num(3.0)]
    ensures Fit(Mean, vs) == Ok(Num(2.0))
  {
    assert Numbers(vs) == [1.0, 2.0, 3.0];
    assert Stats.Sum([1.0, 2.0, 3.0]) == 6.0;
  }
}
