# Forecast-verification statistics, modelled in Dafny

This project models the two computing modules of a small Python package
that scores model forecasts against observations held in a table:

- `src/model_analysis.py`: comparison and counting helpers over paired
  columns (`pairwise_comparison`, `sum_1_column`, `sum_2_columns`,
  `in_bounds`), and the confusion-matrix metrics (`sum_cmatrix`, which counts
  true/false positives and negatives from above- and below-climatology label
  columns, and `confusion_matrix_calculation`, which turns them into
  precision, recall, accuracy and F1). Modelled in `model_analysis.dfy` as
  functions and lemmas, since the source is pure.
- `statistical_analysis.py`: mean absolute bias, root mean squared error,
  percent gross error and mean absolute percentage error, each a loop over
  the zipped (observed, model) pairs of one lead day (or of the whole table),
  and `total_mean_bias`, the average bias over several lead days. Modelled in
  `statistical_analysis.dfy`: each loop is a method whose accumulators are
  tied by loop invariants to a recursive sum, and whose result is proved
  equal to a specification function; the properties of each statistic are
  lemmas about that function.
- `frames.dfy` holds what both share: the data frame, abstracted as a map
  from an optional lead day (None for the table itself) to a map from
  column names to sequences; column lookup; Python's `zip` (which stops at
  the shorter column) and `abs`; and the `Result` and `Error` types.

Values are exact `real`s (categorical labels are any type with equality).
Where the source divides by zero or looks up a missing key, the model returns
a `Failure` instead of raising: `MissingKey` for a pandas `KeyError`,
`DivisionByZero` for a `ZeroDivisionError` (or the inf/NaN numpy produces
for the same division on numpy numbers), and `EmptyMean` for `np.mean` of an
empty list. Because numpy does not raise, `sum_cmatrix`, whose counts are
numpy numbers, reports each metric on its own: a zero denominator fails only
the metric it belongs to (and F1, which is computed from precision and recall),
while a direct call of `confusion_matrix_calculation` with Python numbers stops at
the first division that raises.

Where the source's docstrings and its code differ, the model follows the
code: `percent_gross_error` is documented as returning a "Percent gross
error" (statistical_analysis.py:91) but returns the fraction count/total, not
multiplied by 100; `mean_absolute_percentage_error` is documented as dividing
by the forecast (statistical_analysis.py:126-127) but divides by the signed
observed value (line 134), not by its absolute value, so negative
observations give negative terms.

## Model

| member | source | states |
|---|---|---|
| `Frames.Zip` | statistical_analysis.py:26 | the pairs number min(\|xs\|, \|ys\|) and pair i is (xs[i], ys[i]) |
| `ModelAnalysis.PairwiseComparison` | src/model_analysis.py:3-22 | one label per zipped pair (length min of the two columns); label i is var1 when column1[i] < column2[i], else var2; every label is var1 or var2 |
| `ModelAnalysis.PairwiseComparisonCounts` | src/model_analysis.py:22 | with distinct labels, sum_1_column counts var1 once per pair whose first value is smaller, and the two label counts add up to the number of pairs |
| `ModelAnalysis.PairwiseComparisonExample` | src/model_analysis.py:22 | ([1,5],'A',[3,2],'B') gives ['A','B'] |
| `ModelAnalysis.SumOneColumn` | src/model_analysis.py:25-32 | the count equals the number of indices i with column[i] == v, and is at most \|column\| |
| `ModelAnalysis.SumOneColumnIsMultiplicity` | src/model_analysis.py:32 | the count equals the multiplicity of v in the column |
| `ModelAnalysis.TwoLabelsPartition` | src/model_analysis.py:32 | in a column holding only two distinct labels, their two counts add up to the column's length |
| `ModelAnalysis.SumTwoColumns` | src/model_analysis.py:34-44 | on equal-length columns, the count equals the number of indices where column1[i] == var1 and column2[i] == var2, and is at most each single-column count |
| `ModelAnalysis.SumTwoColumnsSymmetric` | src/model_analysis.py:44 | swapping the (column, value) arguments pairwise leaves the count unchanged |
| `ModelAnalysis.SumTwoColumnsExample` | src/model_analysis.py:44 | ([1,2,1],1,[5,6,5],5) gives 2 |
| `ModelAnalysis.InBounds` | src/model_analysis.py:46-54 | the count equals the number of indices with lowerbound < column1[i] < upperbound (both strict), and is at most \|column1\| |
| `ModelAnalysis.InBoundsEmptyInterval` | src/model_analysis.py:54 | when upperbound <= lowerbound the count is 0 |
| `ModelAnalysis.InBoundsWiden` | src/model_analysis.py:54 | widening the bounds never lowers the count |
| `ModelAnalysis.ConfusionMatrixCalculation` | src/model_analysis.py:56-72 | precision, recall and accuracy are defined exactly when their three denominators are non-zero, and then satisfy p·(tp+fp) = tp, r·(tp+fn) = tp, a·total = tp+tn; F1 is defined on its own exactly when p + r ≠ 0, and then F1·(p+r) = 2pr; every failure is DivisionByZero |
| `ModelAnalysis.ConfusionMatrixDefinedIff` | src/model_analysis.py:66-72 | with counts that are not negative, precision, recall and accuracy are defined exactly when tp+fp > 0 and tp+fn > 0, and F1 then exactly when tp > 0 |
| `ModelAnalysis.ConfusionMatrixInUnitInterval` | src/model_analysis.py:66-72 | with counts that are not negative, precision, recall, accuracy and F1 (where defined) all lie in [0,1] |
| `ModelAnalysis.ConfusionMatrixPerfect` | src/model_analysis.py:66-72 | with no false positives or negatives and true_pos > 0, every metric, F1 included, is exactly 1 |
| `ModelAnalysis.ConfusionMatrixExamples` | src/model_analysis.py:66-72 | (10,10,0,0) gives all ones; (0,0,5,5) gives precision = recall = accuracy = 0 with only the F1 division failing |
| `ModelAnalysis.F1Score` | src/model_analysis.py:72 | F1 is defined exactly when p + r ≠ 0, and then F1·(p+r) = 2pr |
| `ModelAnalysis.ElementwiseConfusionMatrix` | src/model_analysis.py:66-72 | on numpy counts each of precision, recall and accuracy is defined exactly when its own denominator is non-zero and then satisfies p·(tp+fp) = tp, r·(tp+fn) = tp, a·total = tp+tn; F1 is defined exactly when p and r are and p + r ≠ 0 |
| `ModelAnalysis.ElementwiseAgreesWithCalculation` | src/model_analysis.py:66-72 | whenever the calculation on Python numbers produces its metrics, the numpy one produces the same four values |
| `ModelAnalysis.ElementwiseInUnitInterval` | src/model_analysis.py:66-72 | with counts that are not negative, every metric the numpy calculation produces lies in [0,1] |
| `ModelAnalysis.ElementwiseNoPredictedPositive` | src/model_analysis.py:66-72 | tp = fp = 0, tn = fn = 1: precision and F1 fail (nan) while recall is 0 and accuracy 0.5 |
| `ModelAnalysis.SumCMatrix` | src/model_analysis.py:75-106 | fails with MissingKey exactly when one of the four columns is absent; true_pos counts rows with model_A == var1 and obs_A == var2, true_neg model_B/obs_B, false_neg model_B/obs_A, false_pos model_A/obs_B; each count is at most the number of rows; the metrics are the numpy (element-wise) calculation on (tp, tn, fp, fn), so each metric fails only by its own denominator |
| `ModelAnalysis.FourCellsCoverRows` | src/model_analysis.py:92-98 | when no row is flagged both above and below on either side, the four counts add up to at most the number of rows, and to exactly that number when every row is flagged once on each side |
| `ModelAnalysis.SumCMatrixCoverage` | src/model_analysis.py:91-98 | the same bound for sum_cmatrix on a frame: the four cells never count more rows than the table has |
| `StatisticalAnalysis.Pairs` | statistical_analysis.py:25-30 | fails with MissingKey exactly when the lead day or one of the two columns is absent; otherwise the zipped (observed, model) columns of df[col] or df[LeadDay][col] |
| `StatisticalAnalysis.LeadDaySelectsSubTable` | statistical_analysis.py:25-32 | the lead-day branch reads the same pairs as the plain branch would on that lead day's sub-table |
| `StatisticalAnalysis.LeadDayStatistics` | statistical_analysis.py:25-33 | hence mean absolute bias, mean squared error, percent gross error and MAPE of lead day d equal the same statistic on a frame made of d's sub-table: the two branches of each loop compute the same thing |
| `StatisticalAnalysis.SumAbsDiff` | statistical_analysis.py:26-28 | the sum of \|obs - model\| over the pairs is not negative |
| `StatisticalAnalysis.SumAbsDiffZeroIff` | statistical_analysis.py:27 | the sum of absolute differences is zero exactly when every pair agrees |
| `StatisticalAnalysis.MeanAbsoluteBiasOf` | statistical_analysis.py:22-34 | defined exactly when both columns exist and there is at least one zipped pair (otherwise the division by count fails); the mean is not negative |
| `StatisticalAnalysis.MeanAbsoluteBias` | statistical_analysis.py:22-34 | the loop leaves count = number of zipped pairs and avgdiff = sum of \|obs - model\|, and returns avgdiff/count or the source's error |
| `StatisticalAnalysis.MeanAbsoluteBiasZeroIff` | statistical_analysis.py:27-34 | the mean absolute bias is 0 exactly when obs[i] == model[i] on every zipped row |
| `StatisticalAnalysis.LeadBiases` | statistical_analysis.py:47 | succeeds exactly when every lead day's bias does, giving one bias per lead day in order; otherwise fails with the error of the first lead day that fails |
| `StatisticalAnalysis.TotalMeanBias` | statistical_analysis.py:36-47 | the arithmetic mean of the lead days' biases; EmptyMean for an empty list; defined exactly when the list is non-empty and every lead day has a bias |
| `StatisticalAnalysis.TotalMeanBiasZeroIff` | statistical_analysis.py:47 | the total is not negative, and is 0 exactly when every lead day's bias is 0 |
| `StatisticalAnalysis.TotalMeanBiasOfTwo` | statistical_analysis.py:47 | over lead days [1,2] it equals the average of the two biases |
| `StatisticalAnalysis.SumSquaredDiff` | statistical_analysis.py:68-70 | the sum of (model - obs)^2 over the pairs is not negative |
| `StatisticalAnalysis.SumSquaredDiffZeroIff` | statistical_analysis.py:69 | the sum of squares is zero exactly when every pair agrees |
| `StatisticalAnalysis.MeanSquaredErrorOf` | statistical_analysis.py:64-77 | defined exactly when both columns exist and there is a zipped pair; the mean of squares is not negative |
| `StatisticalAnalysis.MeanSquaredError` | statistical_analysis.py:64-77 | the loop accumulates total = sum of (model - obs)^2 and count = number of pairs, and returns total/count or the source's error |
| `StatisticalAnalysis.MeanSquaredErrorZeroIff` | statistical_analysis.py:64-77 | the mean of squares is 0 exactly when model equals observed on every zipped row |
| `StatisticalAnalysis.GrossCount` | statistical_analysis.py:102-105 | the number of pairs with \|obs - model\| >= threshold never exceeds the number of pairs |
| `StatisticalAnalysis.GrossCountAntitone` | statistical_analysis.py:103 | a higher threshold flags no more pairs |
| `StatisticalAnalysis.GrossCountAll` | statistical_analysis.py:103 | a threshold <= 0 flags every pair |
| `StatisticalAnalysis.PercentGrossErrorOf` | statistical_analysis.py:99-112 | defined exactly when both columns exist and there is a zipped pair |
| `StatisticalAnalysis.PercentGrossError` | statistical_analysis.py:99-112 | the loop keeps count <= count2 and returns the fraction count/count2, which lies in [0,1] (not scaled by 100) |
| `StatisticalAnalysis.PercentGrossErrorAntitone` | statistical_analysis.py:103-112 | the fraction is non-increasing as the threshold rises |
| `StatisticalAnalysis.PercentGrossErrorNonPositiveThreshold` | statistical_analysis.py:103-112 | a threshold <= 0 makes the fraction 1 |
| `StatisticalAnalysis.SumPercentErrorExact` | statistical_analysis.py:134-135 | the sum of percentage terms is 0 when every pair agrees |
| `StatisticalAnalysis.SumPercentError` | statistical_analysis.py:134-135 | the sum of \|obs - model\|/obs*100 over the pairs is not negative when every observation is positive, and not positive when every observation is negative |
| `StatisticalAnalysis.MeanAbsolutePercentageErrorOf` | statistical_analysis.py:130-143 | defined exactly when both columns exist, there is a zipped pair and no observed value in the pairs is zero |
| `StatisticalAnalysis.MeanAbsolutePercentageError` | statistical_analysis.py:130-143 | the loop accumulates the sum of \|obs - model\|/obs*100 over the pairs, stopping with DivisionByZero at a zero observation, and returns the sum over count |
| `StatisticalAnalysis.MeanAbsolutePercentageErrorExact` | statistical_analysis.py:130-143 | the percentage error is 0 when model equals observed on every zipped row |
| `StatisticalAnalysis.MeanAbsolutePercentageErrorPositiveObserved` | statistical_analysis.py:130-143 | with positive observed values the percentage error is not negative |
| `StatisticalAnalysis.MeanAbsolutePercentageErrorNegativeObserved` | statistical_analysis.py:134 | observed -1 against model 0 gives -100: the division by the signed observed value makes the result negative |

## Left out

- `statistical_analysis` (statistical_analysis.py:145-161) only prints the four statistics; printing is not modelled, and the four statistics it prints are.
- The `print` calls in `confusion_matrix_calculation` (src/model_analysis.py:69-72) and `sum_cmatrix` (src/model_analysis.py:100-104): the model returns the metrics and the counts instead.
- StatisticalAnalysis.MeanSquaredError: stops at the mean of the squares; the final `math.sqrt` (statistical_analysis.py:79) is not modelled, since there is no square root over exact reals. The square root is monotone and zero only at zero, so the zero-iff and non-negativity facts carry over.
- IEEE floating point: values are exact reals, so rounding, overflow, inf and NaN are not modelled; a division that would give inf or NaN under numpy is reported as `DivisionByZero`, the same as Python's `ZeroDivisionError`. A NaN that then flows into later arithmetic is followed only where it decides a reported value (F1 in `sum_cmatrix`; the sum in `mean_absolute_percentage_error`, which is reported as failed as a whole).
- numpy/pandas semantics: broadcasting, index alignment of `&` between Series, and comparison against per-row bound columns in `in_bounds` (the model takes scalar bounds). `sum_2_columns` therefore requires columns of equal length, and `sum_cmatrix` requires a frame whose columns share their length, as a DataFrame's do.
- The key named by a `KeyError` is not carried; every missing lead day or column gives `MissingKey`. The order in which the source looks up the columns therefore does not matter to the result.
- The data frame itself is abstracted as a map from an optional lead day to named columns; loading or building it is not modelled.
- `setup.py` holds packaging metadata only.
