/**
 * prepare_zillow: drop the listed id columns, keep the single-unit
 * properties, prune sparse columns and rows at 90%, split, then impute the
 * named columns group by group (wrangle_zillow.py).
 */
module WrangleZillow {
  import opened Frame
  import ZillowRows
  import ZillowPrune
  import opened ZillowImpute

  /** The columns prepare_zillow drops first; `propertylandusetypeid` is listed twice, as in the source. */
  const DroppedColumns: seq<string> := [
    "typeconstructiontypeid",
    "airconditioningtypeid",
    "architecturalstyletypeid",
    "buildingclasstypeid",
    "propertylandusetypeid",
    "storytypeid",
    "heatingorsystemtypeid",
    "propertylandusetypeid"
  ]

  /** `columns_strategy`, in the insertion order in which the loop visits it. */
  const ZillowGroups: seq<Group> := [
    Group(Mean, [
      "calculatedfinishedsquarefeet",
      "finishedsquarefeet12",
      "structuretaxvaluedollarcnt",
      "taxvaluedollarcnt",
      "landtaxvaluedollarcnt",
      "taxamount"
    ]),
    Group(MostFrequent, [
      "calculatedbathnbr",
      "fullbathcnt",
      "regionidcity",
      "regionidzip",
      "yearbuilt"
    ]),
    Group(Median, [
      "censustractandblock"
    ])
  ]

  /** The proportion of present cells both pruning passes ask for. */
  const Required: real := 0.9

  /** Ascending positions, below `n`, of the columns whose label is not in `names`. */
  function Undropped(columns: seq<string>, names: seq<string>, n: nat): (ks: seq<nat>)
    requires n <= |columns|
    ensures forall k :: 0 <= k < |ks| ==> ks[k] < n
    ensures forall k, l :: 0 <= k < l < |ks| ==> ks[k] < ks[l]
    ensures forall j :: 0 <= j < n ==> (j in ks <==> columns[j] !in names)
  {
    if n == 0 then []
    else
      var ks := Undropped(columns, names, n - 1);
      if columns[n - 1] !in names then ks + [n - 1] else ks
  }

  /**
   * `df.drop(columns = names)`: a label that is absent raises; otherwise
   * every column whose label is listed goes, the others keep their order
   * and their cells.
   */
  function DropColumns(t: Table, names: seq<string>): (r: Result<Table>)
    requires WellFormed(t)
    ensures r.Err? <==> !HasColumns(t, names)
    ensures r.Err? ==> r.error == SchemaError
    ensures r.Ok? ==> WellFormed(r.value) && |r.value.rows| == |t.rows|
    ensures r.Ok? ==> forall c :: c in r.value.columns <==> c in t.columns && c !in names
    ensures r.Ok? ==> WellFormed(r.value) && IsProjection(t, r.value)
    ensures r.Ok? ==> IsSubsequence(r.value.columns, t.columns)
  {
    if !HasColumns(t, names) then Err(SchemaError)
    else
      var ks := Undropped(t.columns, names, |t.columns|);
      var r := ZillowPrune.Project(t, ks);
      UndroppedLabels(t, names);
      ZillowPrune.ProjectKeeps(t, ks);
      Ok(r)
  }

  lemma UndroppedLabels(t: Table, names: seq<string>)
    requires WellFormed(t)
    ensures var r := ZillowPrune.Project(t, Undropped(t.columns, names, |t.columns|));
      forall c :: c in r.columns <==> c in t.columns && c !in names
  {
    var ks := Undropped(t.columns, names, |t.columns|);
    var r := ZillowPrune.Project(t, ks);
    forall c ensures c in r.columns <==> c in t.columns && c !in names {
      if c in r.columns {
        var k :| 0 <= k < |ks| && r.columns[k] == c;
        assert t.columns[ks[k]] == c && ks[k] in ks;
      }
      if c in t.columns && c !in names {
        var j :| 0 <= j < |t.columns| && t.columns[j] == c;
        assert j in ks;
        var k :| 0 <= k < |ks| && ks[k] == j;
        assert r.columns[k] == c;
      }
    }
  }

  /** The steps of prepare_zillow before the split, the first failure being the result. */
  function PrunedSingleUnits(df: Table): (r: Result<Table>)
    requires WellFormed(df)
    ensures r.Err? ==> r.error == SchemaError
    ensures r.Ok? ==> WellFormed(r.value)
  {
    match DropColumns(df, DroppedColumns)
    case Err(e) => Err(e)
    case Ok(kept) =>
      match ZillowRows.GetSingleUnitProperties(kept)
      case Err(e) => Err(e)
      case Ok(units) => Ok(ZillowPrune.HandleMissingValues(units, Required, Required))
  }

  /**
   * The stages before the split fail, always with a missing-column error,
   * exactly when a listed id column or one of the two columns the row filter
   * reads is absent; the columns it reads are not among those dropped.
   */
  lemma PrunedSingleUnitsFails(df: Table)
    requires WellFormed(df)
    ensures PrunedSingleUnits(df).Err? <==>
      || !HasColumns(df, DroppedColumns)
      || "propertylandusedesc" !in df.columns
      || "unitcnt" !in df.columns
  {
    assert "propertylandusedesc" !in DroppedColumns && "unitcnt" !in DroppedColumns;
  }

  /** What split_data is assumed to do: partition the rows into three frames with the input's columns. */
  ghost predicate SplitsRows(split: Table -> Partition) {
    forall t :: WellFormed(t) ==>
      && PartitionWellFormed(split(t))
      && split(t).train.columns == t.columns
      && split(t).validate.columns == t.columns
      && split(t).test.columns == t.columns
      && multiset(split(t).train.rows + split(t).validate.rows + split(t).test.rows) == multiset(t.rows)
  }

  /** No column is named by two groups of `columns_strategy`. */
  lemma ZillowGroupsDisjoint()
    ensures GroupsDisjoint(ZillowGroups)
  {
    forall a, b, c | 0 <= a < b < |ZillowGroups| && c in ZillowGroups[a].names
      ensures c !in ZillowGroups[b].names
    {
      if a == 0 {
        assert c !in ZillowGroups[1].names && c !in ZillowGroups[2].names;
      } else {
        assert c !in ZillowGroups[2].names;
      }
    }
  }

  /**
   * prepare_zillow(df), with split_data passed in as `split`. The result is
   * the imputation of the split of the pruned single-unit frame, and it
   * succeeds exactly when each group could be imputed on the split. On success
   * the three frames keep the pruned frame's columns, no present cell
   * changes, no named column has a missing cell left, and every filled cell
   * holds the statistic of its column fitted on the train frame alone.
   */
  method PrepareZillow(df: Table, split: Table -> Partition) returns (r: Result<Partition>)
    requires WellFormed(df) && SplitsRows(split)
    ensures PrunedSingleUnits(df).Err? ==> r == Err(SchemaError)
    ensures PrunedSingleUnits(df).Ok? ==> r == ImputeAll(split(PrunedSingleUnits(df).value), ZillowGroups)
    ensures r.Ok? ==> PrunedSingleUnits(df).Ok?
    ensures PrunedSingleUnits(df).Ok? ==> var parts := split(PrunedSingleUnits(df).value);
      (r.Ok? <==> forall a :: 0 <= a < |ZillowGroups| ==> Imputable(parts, ZillowGroups[a].strategy, ZillowGroups[a].names))
    ensures r.Ok? ==> ImputedFrom(split(PrunedSingleUnits(df).value), r.value, ZillowGroups)
    ensures r.Ok? ==> var columns := PrunedSingleUnits(df).value.columns;
      r.value.train.columns == columns && r.value.validate.columns == columns && r.value.test.columns == columns
  {
    var pruned := PrunedSingleUnits(df);
    if pruned.Err? {
      return Err(SchemaError);
    }
    var parts := split(pruned.value);
    r := ImputeMissingValues(parts, ZillowGroups);
    ZillowGroupsDisjoint();
    ImputeAllOkIff(parts, ZillowGroups);
    if r.Ok? {
      ImputedFromTrain(parts, ZillowGroups);
      ImputedKeepsColumns(parts, r.value, ZillowGroups);
    }
  }

  /**
   * `after` is `before` imputed by `groups`: in each of the three frames the
   * shape and every present cell are kept, the columns no group names are
   * untouched, the named columns have no missing cell left, and every cell
   * that was missing in a named column holds its group's statistic fitted on
   * the train frame of `before`.
   */
  ghost predicate ImputedFrom(before: Partition, after: Partition, groups: seq<Group>)
    requires PartitionWellFormed(before)
  {
    forall w ::
      && Preserves(Get(before, w), Get(after, w), Named(groups))
      && Complete(Get(after, w), Named(groups))
      && FilledFromTrain(Get(before, w), Get(after, w), before.train, groups)
  }

  /** With disjoint groups, a successful imputation has all the guarantees of ImputedFrom. */
  lemma ImputedFromTrain(parts: Partition, groups: seq<Group>)
    requires PartitionWellFormed(parts) && GroupsDisjoint(groups) && ImputeAll(parts, groups).Ok?
    ensures ImputedFrom(parts, ImputeAll(parts, groups).value, groups)
  {
    forall w
      ensures Preserves(Get(parts, w), Get(ImputeAll(parts, groups).value, w), Named(groups))
      ensures Complete(Get(ImputeAll(parts, groups).value, w), Named(groups))
      ensures FilledFromTrain(Get(parts, w), Get(ImputeAll(parts, groups).value, w), parts.train, groups)
    {
      ImputeAllPreservesAndCompletes(parts, groups, w);
      ImputeAllFillsFromTrain(parts, groups, w);
    }
  }

  lemma ImputedKeepsColumns(before: Partition, after: Partition, groups: seq<Group>)
    requires PartitionWellFormed(before) && ImputedFrom(before, after, groups)
    ensures after.train.columns == before.train.columns
    ensures after.validate.columns == before.validate.columns
    ensures after.test.columns == before.test.columns
  {
    assert Preserves(Get(before, Train), Get(after, Train), Named(groups));
    assert Preserves(Get(before, Validate), Get(after, Validate), Named(groups));
    assert Preserves(Get(before, Test), Get(after, Test), Named(groups));
  }
}
