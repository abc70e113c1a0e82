# Zillow and mall wrangling, modelled in Dafny

This project models the data-wrangling core of a clustering-exercises
repository: the Zillow missing-data pipeline (`prepare_zillow` in
`wrangle_zillow.py`) and the interquartile-range outlier helpers of
`wrangle_mall.py`.

A data frame is a `Frame.Table`. It has a sequence of column labels and a
sequence of rows. Each cell is `Some(value)` or `None`, where `None` stands for
pandas' NaN/None. A value is a real number or a string. Python's `round`
(half to even), pandas' `dropna(thresh = ...)`, `isin`, boolean masks,
`drop(columns = ...)` and linear-interpolation `quantile` are written out
explicitly. scikit-learn's `SimpleImputer` is modelled through its `mean`,
`median` and `most_frequent` strategies.

The modules are:

- `Frame` (frame.dfy): tables, cells, label lookup, present-cell counts,
  masks (`Filter`) and subsequences.
- `Stats` (stats.dfy): round half to even, sorting, sum, mean, median, the
  smallest mode, and quantiles by linear interpolation.
- `ZillowRows` (zillow_rows.dfy): `get_single_unit_properties`.
- `ZillowPrune` (zillow_prune.dfy): `handle_missing_values`.
- `ZillowImpute` (zillow_impute.dfy): `impute_missing_values`.
  - The loop over `columns_strategy` is a method.
  - It is proved equal to a fold (`ImputeAll`) about which the lemmas are
    stated.
- `WrangleZillow` (zillow_prepare.dfy): `prepare_zillow`, in the source's
  step order.
  - First it drops the id columns.
  - Then it keeps the single-unit rows.
  - Then it prunes at 0.90 and 0.90.
  - Then it splits the frame.
  - Finally it imputes the three groups.
- `WrangleMall` (mall.dfy): `get_upper_outliers` and `get_lower_outliers`.

Some behaviours of the code worth knowing, which the model keeps:

- Pruning is not idempotent. `ZillowPrune.HandleMissingValuesNotIdempotent`
  gives a table where a second call drops a column the first call kept.
- Each group is refitted on the train frame as the earlier groups left it.
  `ZillowImpute.ImputeAllFillsFromTrain` shows that this equals fitting on
  the original train frame when no column is named by two groups, which
  holds for `columns_strategy`.
- The code checks neither overlapping groups nor proportions outside
  [0, 1], and neither does the model.
- `get_lower_outliers` is kept literally as `min(x + lower_bound, 0)`. This
  is not the mirror of the upper helper.

## Model

| member | source | states |
|---|---|---|
| ZillowRows.GetSingleUnitProperties | wrangle_zillow.py:171-185 | Fails with a missing-column error exactly when `propertylandusedesc` or `unitcnt` is absent. Otherwise the columns are unchanged, and every kept row has a land use among the seven listed types and a `unitcnt` of 1 or missing |
| ZillowRows.GetSingleUnitPropertiesSelects | wrangle_zillow.py:181-183 | The two successive masks select exactly the rows passing both tests. The result is an order-preserving subsequence of the input rows with cells unchanged, and every input row passing both tests is kept |
| ZillowPrune.DropSparseColumns | wrangle_zillow.py:190 | `dropna(axis='columns', thresh)`: a column survives exactly when it has at least `thresh` present cells. The survivors are the input's columns in their original order, each with its cells unchanged, and every row is kept |
| ZillowPrune.DropSparseRows | wrangle_zillow.py:191 | `dropna(axis='index', thresh)`: columns are unchanged. The rows are an order-preserving subsequence, and each surviving row has at least `thresh` present cells. Every copy of a row reaching `thresh` is kept: each row occurs in the result exactly as often as in the input when it reaches `thresh`, and not at all otherwise |
| ZillowPrune.HandleMissingValues | wrangle_zillow.py:189-193 | Never adds rows or columns and may return an empty table. Every surviving row has at least round(surviving columns × prop_required_row) present cells |
| ZillowPrune.HandleMissingValuesColumns | wrangle_zillow.py:190 | A column survives exactly when its present-cell count reaches round(input rows × prop_required_column). Survivors keep their original order and labels |
| ZillowPrune.HandleMissingValuesRows | wrangle_zillow.py:191 | The surviving rows are an order-preserving subsequence of the input rows narrowed to the kept columns, with cells unchanged. The row threshold uses the post-column-pass column count. Each narrowed row occurs in the result exactly as often as among the narrowed input rows when it reaches that threshold, and not at all otherwise, so duplicate rows are all kept |
| ZillowPrune.ColumnPassIsProjection | wrangle_zillow.py:190 | The column pass is the projection of the input on the kept columns: no cell changes |
| ZillowPrune.ColumnThresholdTenRows | wrangle_zillow.py:190 | On 10 rows at 0.9 the threshold is 9: a column is kept exactly when it has at least 9 present cells |
| ZillowPrune.ColumnThresholdRoundsHalfToEven | wrangle_zillow.py:190 | On 5 rows at 0.9 the threshold is round(4.5) = 4, by Python's half-to-even rounding |
| ZillowPrune.HandleMissingValuesNotIdempotent | wrangle_zillow.py:189-193 | For a concrete 4×3 table at 0.5 and 0.5, the first call keeps columns a, b, c and a second call keeps only b, c: pruning is not idempotent |
| Stats.RoundHalfEven | wrangle_zillow.py:190-191 | The result is within 1/2 of the argument, and at an exact half it is even |
| Stats.RoundHalfEvenUnique | wrangle_zillow.py:190-191 | These two properties determine the rounded value |
| ZillowImpute.Fit | wrangle_zillow.py:201-202 | A fit succeeds exactly when the column has a present value and, for mean or median, all values are numbers. Otherwise the error kind says which check failed. Mean times count equals the sum, median is the median of the numbers, and most_frequent is the smallest most frequent value |
| Stats.Mean | wrangle_zillow.py:201-202 | The mean times the count equals the sum of the values |
| Stats.MeanBounds | wrangle_zillow.py:201-202 | The mean lies between any lower and upper bound of the values |
| Stats.Sort | wrangle_zillow.py:201-202 | The values in ascending order: sorted, and a permutation of the input |
| Stats.SortedUnique | wrangle_zillow.py:201-202 | Two sorted permutations of the same values are equal, so the order statistics depend only on the multiset |
| Stats.MedianProperties | wrangle_zillow.py:201-202 | The median lies between the least and the greatest value, is one of the values when their count is odd, and does not depend on their order |
| Stats.MostFrequent | wrangle_zillow.py:201-202 | The result occurs in the values, no value occurs more often, and among equally frequent values it is the smallest |
| Stats.SmallestModeUnique | wrangle_zillow.py:201-202 | Exactly one value is the smallest most frequent value |
| Stats.ValueLessIsStrictTotalOrder | wrangle_zillow.py:201-202 | The tie-breaking order on values is irreflexive, transitive and total |
| ZillowImpute.ImputeGroup | wrangle_zillow.py:201-206 | One group succeeds exactly when it names at least one column, the columns exist in all three frames, every frame has at least one row, each train column has a present value, and for mean or median the columns are numeric. Then each frame equals itself with the missing cells of those columns filled with the train-fitted statistics. A column missing from train is a missing-column error |
| ZillowImpute.ImputeGroupErrorCauses | wrangle_zillow.py:201-206 | Each error kind names its cause. A missing-column error means some frame lacks a named column. A non-numeric error only arises under mean or median. An empty-fit error means a train column has no present value. An empty-input error means the group names no column or some frame has no row |
| ZillowImpute.ImputeGroupErrors | wrangle_zillow.py:201-206 | The fit on train is checked before the transforms, and validate before test. A group with no column is an empty-input error. A train column that exists and is numeric (or under most_frequent) but has no present value is an empty-fit error. After a good fit, a column missing from validate is a missing-column error, and a validate frame with no row is an empty-input error. After validate passes, test fails in the same two ways |
| ZillowImpute.ImputeAllSucceeds | wrangle_zillow.py:200-206 | With no column named twice, the whole imputation succeeds when every group can be imputed on the frames as split |
| ZillowImpute.ImputeAllFirstFailure | wrangle_zillow.py:200-206 | With no column named twice, the first group that cannot be imputed on the split frames fails the whole imputation, with the error it gives on those frames |
| ZillowImpute.ImputeAllOkIff | wrangle_zillow.py:200-206 | With no column named twice, the imputation succeeds exactly when every group can be imputed on the split frames |
| ZillowImpute.ImputeMissingValues | wrangle_zillow.py:197-208 | The loop over the groups, each refitting on the current train frame, computes `ImputeAll`, and the first failing group's error is the result |
| ZillowImpute.ImputeAllFailureSticks | wrangle_zillow.py:200-206 | Once a prefix of the groups fails, the whole imputation fails with that error |
| ZillowImpute.ImputeAllPreservesAndCompletes | wrangle_zillow.py:200-206 | After a successful imputation each frame keeps its shape and every present cell, unnamed columns are untouched, and no named column has a missing cell |
| ZillowImpute.ImputeAllFillsFromTrain | wrangle_zillow.py:201-206 | With no column named twice, every cell that was missing in a named column holds its group's statistic fitted on the original train frame |
| ZillowImpute.ImputeAllTrainIsolation | wrangle_zillow.py:201-204 | The output train frame depends only on the input train frame and the groups, never on validate or test |
| ZillowImpute.MeanImputeExample | wrangle_zillow.py:201-206 | A mean group on the single column x, with train cells [1, 2, missing, 3], validate cells [missing, 5] and test cells [4], fits 2.0. It fills train to [1, 2, 2.0, 3] and validate to [2.0, 5], and it returns the test frame unchanged |
| WrangleZillow.DropColumns | wrangle_zillow.py:131-141 | `drop(columns = names)` fails exactly when a listed label is absent. Otherwise the kept labels are exactly those not listed, in their original order, every row is kept, and each kept column has the same cells as in the input |
| WrangleZillow.PrunedSingleUnitsFails | wrangle_zillow.py:141-144 | The steps before the split fail exactly when a listed id column, `propertylandusedesc` or `unitcnt` is absent |
| WrangleZillow.ZillowGroupsDisjoint | wrangle_zillow.py:146-165 | No column is named by two groups of `columns_strategy` |
| WrangleZillow.PrepareZillow | wrangle_zillow.py:130-167 | The result is the imputation of the split of the pruned single-unit frame, and pruning failures are missing-column errors. After pruning, it succeeds exactly when each of the three groups can be imputed on the split frames. On success all three frames have the pruned frame's columns and keep every present cell. No named column has a missing cell, and every filled cell holds its column's statistic fitted on train alone |
| WrangleMall.Quartiles | wrangle_mall.py:56 | Q1 and Q3 by linear interpolation satisfy min ≤ Q1 ≤ Q3 ≤ max |
| Stats.QuantileBetween | wrangle_mall.py:56 | On sorted values, a quantile lies between the order statistics on either side of its position |
| Stats.QuantileMonotone | wrangle_mall.py:56 | On sorted values, a larger fraction never gives a smaller quantile |
| WrangleMall.GetUpperOutliers | wrangle_mall.py:55-59 | One result per value, in order, each ≥ 0. A result is positive exactly when the value exceeds Q3 + k·IQR, and then it equals the excess |
| WrangleMall.GetLowerOutliers | wrangle_mall.py:63-67 | One result per value, in order, each ≤ 0. A result is negative exactly when x + (Q1 − k·IQR) < 0, and then it equals that sum |
| WrangleMall.FencesOutsideQuartiles | wrangle_mall.py:56-58 | For k ≥ 0 and Q1 ≤ Q3: lower bound ≤ Q1 ≤ Q3 ≤ upper bound |
| WrangleMall.UpperOutliersExample | wrangle_mall.py:55-59 | [1, 2, 3, 4, 100] with k = 1.5 has Q1 = 2, Q3 = 4 and upper bound 7, and only 100 has a positive excess, 93 |

## Left out

- `get_zillow_data`, `get_mall_data`, the SQL query strings and `get_db_url`: file caching and database reads, which are I/O.
- `summarize_column_nulls`, `summarize_row_nulls` and `summarize_data`: reporting only.
- `encode_gender`: a one-call wrapper over pandas `get_dummies`.
- `split_data` is not part of this model.
  - `PrepareZillow` takes it as a function parameter.
  - The parameter is assumed to return three well-formed frames with the input's columns whose rows together are the input's rows (`SplitsRows`).
- Floating point:
  - Cells and statistics are exact reals.
  - `n * 0.9` is exact, so a threshold that IEEE rounding would push across a half may differ.
  - Means are exact quotients.
- dtype coercion: integer columns becoming floats, and object columns.
- Duplicate column labels: `WellFormed` requires distinct labels, although pandas allows duplicates.
- Mixed numbers and strings in one `most_frequent` column:
  - Python cannot order them.
  - The model breaks such ties by putting numbers before strings.
- Errors are modelled by kind only (missing column, empty fit, non-numeric, empty input), not by exception class or message.
- The imputer's input validation is modelled only for what scikit-learn's `check_array` rejects here: a group with no column, and a frame with no row.
- A train column with no present value is an `EmptyFitError`.
  - scikit-learn drops such a feature with a warning, and the assignment back then fails.
  - The model does not distinguish that failure.
- Pandas chained-assignment warnings and copy semantics:
  - Each frame is a value.
  - The in-place assignment `train[columns] = ...` becomes a new value of the frame.
- GetUpperOutliers, GetLowerOutliers:
  - The series holds reals, with no missing values.
  - pandas' `quantile` would skip NaN and `apply` would propagate it.
  - An empty series maps to an empty series; pandas computes NaN quartiles that nothing then reads.
