# Derived-metrics engine of the numeric insights layer

This project is a Dafny model of `src/insights/numeric_analyzer.py`, the
symbolic layer that turns a chart's table of (label, value) rows into a
mapping of derived metrics before a language model is asked for insights.
`gerar_resumo_numerico` always computes five baseline figures:

- `tipo_grafico`
- `num_categorias`
- `total_geral`
- `media`
- `mediana`

It then merges in the metrics of one analyzer, chosen by the chart type:

- `horizontal_bar` uses the ranking analyzer (`_analisar_ranking`). This covers leadership, gaps, and top-3/top-5 concentration measured against an optional population total.
- `vertical_bar` uses the direct comparison (`_analisar_comparacao`). This covers the largest and smallest values, their percentage difference, and their shares of the table's sum.
- `grouped_vertical_bar` and `stacked_bar` use `_analisar_comparacao_agrupada`, which is the direct comparison again.
- `line` uses the temporal analyzer (`_analisar_temporal`). This covers trend, growth, peak and trough, amplitude, mean period-over-period change, and the acceleration of the second half of the series over the first.

Any other chart type gets the baseline alone.

## Modules

- `Wrappers`: `Option` and `Result`.
- `Numbers`: float64 values.
  - A value is `Num = Fin(v) | PosInf | NegInf | NaN`. Finite values are exact reals; non-finite values are what numpy produces on a zero denominator.
  - Python's `round(x, digits)` is modelled as round-half-to-even at a decimal scale.
  - `ChangePct` is the guarded relative change `round((to - from) / from * 100, 1)`. Four metrics share it: growth, amplitude, range and difference.
- `Table`: rows, the value column, and its sum, maximum, minimum, mean and counts. It also holds first-occurrence `idxmax`/`idxmin`.
- `Sorting`: `sort_values` on a copy of the table, either by value largest-first or by date earliest-first.
  - pandas' default sort is not stable, so the model promises only a sorted permutation.
  - `TiesDoNotChangeValues` shows that the largest-first sort gives the same value column whichever way it places rows of equal value. The ranking and comparison figures and the median therefore do not depend on that placement. The earliest-first date sort has no such lemma: rows sharing a date can carry different values (see "Left out").
- `Ranking`, `Comparison` and `Temporal`: one module per analyzer.
  - Each metric record has one field per key. An `Option` field is a key that is written only when it is `Some`.
  - `Analyze` fails exactly when the source raises. An empty table raises `IndexError` at `.iloc[0]`. A population total of zero given as a Python number raises `ZeroDivisionError` at line 124.
- `NumericAnalyzer`: the baseline, the dispatch, and the key sets of the merged mapping.

A zero denominator in an unguarded division (lines 97, 101, 107, 117, 124, 154-156) gives numpy's inf or nan, and the key stays in the mapping. The contracts of `Ranking.Analyze` and `Comparison.Analyze` state exactly when this happens.

Four behaviours of the code that the model keeps:

- **Proportion of [100, 60].** Python's `round` rounds the tie 62.5 to even, so the whole-number shares of 100 and 60 are 62 and 38 (`Comparison.TwoBarExample`).
- **Sort stability.** Both sorts call `sort_values` with its default algorithm, which is not stable.
- **Undefined denominators.** A zero denominator gives inf or nan, and the key stays in the mapping. A zero population total raises.
- **Empty table.** Every analyzer raises. An unrecognised chart type still returns the baseline, with a nan mean and median.

## Model

| member | source | states |
|---|---|---|
| Numbers.Quotient | src/insights/numeric_analyzer.py:154-155 | numpy division: finite exactly when the denominator is nonzero, and then the true quotient; otherwise +inf, -inf or nan by the numerator's sign |
| Numbers.RoundHalfEven | src/insights/numeric_analyzer.py:164 | `round(x, 0)`: an integer within one half of `x`, and the even one on a tie |
| Numbers.Round | src/insights/numeric_analyzer.py:97 | `round(x, 1)`: `x` rounded half-to-even at the given decimal scale |
| Numbers.RoundIsNearest | src/insights/numeric_analyzer.py:97 | the rounded value is within half a unit of the last kept decimal of `x` |
| Numbers.RoundMonotone | src/insights/numeric_analyzer.py:97 | rounding preserves order |
| Numbers.RoundNum | src/insights/numeric_analyzer.py:97 | `round` on a float64: nan and the infinities come back unchanged, and a finite value is rounded half-to-even at the decimal scale |
| Numbers.ChangePct | src/insights/numeric_analyzer.py:208-210 | the relative change in percent is computed exactly when the base value is positive |
| Numbers.ChangePctMeaning | src/insights/numeric_analyzer.py:208-210 | a computed relative change agrees in sign with the difference and is within 0.05 of the exact percentage |
| Numbers.Percent | src/insights/numeric_analyzer.py:124 | `round(a / b * 100, 1)` is finite exactly when `b` is nonzero; a zero `b` gives numpy's inf or nan |
| Numbers.PercentMonotone | src/insights/numeric_analyzer.py:94-97 | a larger part is a larger percentage of the same positive whole |
| Numbers.PercentOfLargerWhole | src/insights/numeric_analyzer.py:78-81 | the same non-negative part is a smaller percentage of a larger whole |
| Table.SumAppend | src/insights/numeric_analyzer.py:39 | `Series.sum()` of two concatenated columns is the sum of their sums |
| Table.SumPermutation | src/insights/numeric_analyzer.py:82 | reordering a column, as the sort does, leaves its sum unchanged |
| Table.SumAtLeastEach | src/insights/numeric_analyzer.py:81-82 | in a column of non-negative values every value is at most the sum |
| Table.Mean | src/insights/numeric_analyzer.py:40 | `Series.mean()`: nan for an empty column, otherwise the value whose product with the row count is the sum |
| Table.MeanBetweenExtremes | src/insights/numeric_analyzer.py:40 | the mean of a non-empty column lies between its minimum and maximum |
| Table.FirstMaxIndex | src/insights/numeric_analyzer.py:213 | `idxmax`: a position holding the maximum, with every earlier value strictly smaller |
| Table.FirstMinIndex | src/insights/numeric_analyzer.py:214 | `idxmin`: a position holding the minimum, with every earlier value strictly larger |
| Sorting.Sort | src/insights/numeric_analyzer.py:76 | `sort_values` returns a sorted permutation of the rows |
| Sorting.TiesDoNotChangeValues | src/insights/numeric_analyzer.py:76 | any two largest-first arrangements of one table have the same value column |
| Sorting.ValueArrangementExtremes | src/insights/numeric_analyzer.py:86-87 | in a largest-first arrangement the first value is the maximum, the last is the minimum, and the sum is unchanged |
| Ranking.Keys | src/insights/numeric_analyzer.py:84-124 | the ranking analyzer writes only keys from its own fixed set |
| Ranking.UniverseTotal | src/insights/numeric_analyzer.py:78-81 | the denominator of the concentrations is the population total when one is given, and otherwise the table's sum, which is at least every value of a non-negative table |
| Ranking.Measure | src/insights/numeric_analyzer.py:84-124 | read off a ranked copy, `top_categorias` holds min(3, n) labels led by `categoria_max`; the top-3, top-5 and gap keys are present exactly from 3, 5 and 2 rows; the concentrations are finite exactly when the universe total is nonzero; `amplitude_relativa` is the change from last to first value; the leader's deviation and contribution are its percentages over the mean and over the universe total |
| Ranking.MeasureRules | src/insights/numeric_analyzer.py:86-121 | when the copy is in non-increasing order, its first and last values are the maximum and minimum, their difference and relative change are non-negative, the gap is non-negative and leads back to the runner-up, and `multiplo_1_vs_2` is present exactly when the runner-up is positive |
| Ranking.Analyze | src/insights/numeric_analyzer.py:60-126 | fails exactly on an empty table or a zero population total; `total_topn` is the table sum and `total_universo` the population total when given, else the table sum; `valor_max`/`valor_min` are the maximum and minimum and `diferenca_max_min` their non-negative difference; `top_categorias` holds min(3, n) labels led by `categoria_max`; `concentracao_top3`/`top5` are present exactly from 3 and 5 rows, `gap_1_2` and its percentage exactly from 2 rows, and they are finite exactly when the universe total is nonzero; the gap is non-negative and `multiplo_1_vs_2` is present exactly when the runner-up is positive (the gap's value, first minus second ranked value, is stated by `Ranking.GapsFollowRankOrder`); `amplitude_relativa` is the non-negative relative change from minimum to maximum; the leader's deviation is its excess over the table mean as a percentage of that mean; its contribution is its percentage of the universe total |
| Ranking.ReadsRankOrder | src/insights/numeric_analyzer.py:76 | the metrics are read off a largest-first copy, whose value column is that of every largest-first arrangement |
| Ranking.SharesFollowRankOrder | src/insights/numeric_analyzer.py:94-101 | top-3 and top-5 concentration are the percentages of the first three and five ranked values over the universe total, present exactly at 3 and 5 rows; the leader contribution is the leader's percentage |
| Ranking.GapsFollowRankOrder | src/insights/numeric_analyzer.py:103-121 | the gap, its percentage of the runner-up, and the multiple are computed from the first two ranked values, under their row-count and sign guards |
| Ranking.TopCategoriesAreLeaders | src/insights/numeric_analyzer.py:84-89 | `top_categorias`, `categoria_max` and `categoria_min` are the labels of the first min(3, n) rows, the first row and the last row of one largest-first arrangement |
| Ranking.ExtremesComeFromRows | src/insights/numeric_analyzer.py:86-89 | the leader's and last-placed row's label and value come from one input row each |
| Ranking.LeaderContributionWithinTop3 | src/insights/numeric_analyzer.py:94-124 | with non-negative values and a positive universe total, the leader's contribution never exceeds the top-3 concentration |
| Ranking.PopulationTotalLowersConcentration | src/insights/numeric_analyzer.py:78-97 | a population total at least the table sum never raises the top-3 concentration above its value against the table sum |
| Ranking.DocumentedConcentrationExample | src/insights/numeric_analyzer.py:30-34 | values 100, 70, 40 give a top-3 concentration of 42.0 against a total of 500, and 100.0 against their own sum |
| Ranking.GapExample | src/insights/numeric_analyzer.py:104-107 | values 100 and 70 give a gap of 30.0, which is 42.9% of the runner-up |
| Comparison.Keys | src/insights/numeric_analyzer.py:140-164 | the comparison writes only keys from its own fixed set |
| Comparison.Share | src/insights/numeric_analyzer.py:154-155 | a value's share of the total in percent: finite exactly when the total is nonzero, and then the value times 100 over the total; numpy's inf or nan otherwise |
| Comparison.Measure | src/insights/numeric_analyzer.py:140-164 | the largest and smallest label/value pairs are the first and last rows of the ranked copy; `diferenca_pct` is the change from smallest to largest; the shares, their point difference and the proportion are taken against the copy's sum, finite exactly when it is nonzero; the proportion is present exactly for two rows |
| Comparison.MeasureRules | src/insights/numeric_analyzer.py:147-160 | when the first value is at least the last, `diferenca_pct` is never negative, and the larger value has the larger share and a non-negative point difference for a positive sum, the smaller share for a negative sum |
| Comparison.Analyze | src/insights/numeric_analyzer.py:138-166 | fails exactly on an empty table; the largest and smallest values are the column's maximum and minimum; `diferenca_pct` is the relative change from smallest to largest, present exactly when the smallest value is positive and never negative; both shares, their point difference and the proportion are taken against the table's own sum and are finite exactly when that sum is nonzero; with a positive sum the larger value has the larger share and the point difference is non-negative, with a negative sum the shares swap; `proporcao_relativa` is present exactly for two rows |
| Comparison.AnalyzeGrouped | src/insights/numeric_analyzer.py:169-178 | the grouped analysis equals the direct comparison on every table |
| Comparison.ExtremesComeFromRows | src/insights/numeric_analyzer.py:138-144 | the largest and smallest label/value pairs are the ends of a largest-first arrangement, hence input rows |
| Comparison.TwoBarExample | src/insights/numeric_analyzer.py:147-164 | values 100 and 60 give a difference of 66.7% and whole-number shares 62 and 38 |
| Temporal.Keys | src/insights/numeric_analyzer.py:193-248 | the temporal analyzer writes only keys from its own fixed set |
| Temporal.TrendOf | src/insights/numeric_analyzer.py:199-205 | the trend is rising, falling or flat exactly when the last value is above, below or equal to the first |
| Temporal.PaceOf | src/insights/numeric_analyzer.py:243-248 | the pace label is acceleration above +10, deceleration below -10, and constant pace otherwise |
| Temporal.Changes | src/insights/numeric_analyzer.py:228 | `pct_change()` without its leading nan: each change is the next value over the current one, minus one, in float64 |
| Temporal.DropNaN | src/insights/numeric_analyzer.py:228 | `dropna()` keeps each change that is not nan exactly as often as it occurs, and no nan |
| Temporal.DropNaNAppend | src/insights/numeric_analyzer.py:228 | `dropna()` works entry by entry, so the kept changes stay in their original order |
| Temporal.MeanChange | src/insights/numeric_analyzer.py:226-230 | `variacao_media_pct` is present exactly when some pair of consecutive values is not `0, 0`, that is, when some change survives `dropna()` |
| Temporal.HalfMeans | src/insights/numeric_analyzer.py:235-237 | the first-half mean is the mean of positions `[0, n/2)` and the second-half mean that of `[n/2, n)`, so the second half takes the odd period |
| Temporal.Acceleration | src/insights/numeric_analyzer.py:234-240 | computed exactly for at least six periods with a positive first-half mean, as the second half's growth over the first half in percent |
| Temporal.Measure | src/insights/numeric_analyzer.py:193-248 | read off a date-ordered copy: `num_periodos` is its length, the first and last values are those of its first and last rows, the peak and trough are its maximum and minimum with a non-negative amplitude; the trend, growth and pace rules hold; `amplitude_pct` is the non-negative change from trough to peak; one period gives no mean change and the acceleration needs six |
| Temporal.Analyze | src/insights/numeric_analyzer.py:181-250 | fails exactly on an empty table; `num_periodos` is the row count; the peak and trough are the column's maximum and minimum and the amplitude their non-negative difference; each trend name holds exactly when its comparison of last and first value holds; the growth rate is the relative change from first to last, present exactly when the first value is positive, and agrees in sign with the trend; `amplitude_pct` is the non-negative rise from trough to peak relative to a positive trough; the pace label comes exactly with the acceleration, which needs six periods, and its rounded figure never contradicts the label; one period gives no mean change |
| Temporal.ReadsDateOrder | src/insights/numeric_analyzer.py:191 | the metrics are read off a date-ordered permutation of the rows |
| Temporal.PeriodsFromDateOrder | src/insights/numeric_analyzer.py:191-219 | the first and last values are those of the earliest and latest dates; the peak and trough periods are the first dates holding the extremes |
| Temporal.AccelerationRule | src/insights/numeric_analyzer.py:233-248 | the acceleration and its label are present exactly for at least six periods with a positive mean of the first half `[0, n/2)`; the label follows the unrounded value, and the rounded figure never contradicts the label |
| Temporal.MeanChangeRule | src/insights/numeric_analyzer.py:226-230 | absent for one period; the rounded mean of the exact changes when no value before the last is zero; a non-finite float, not omitted, after a zero followed by a nonzero value |
| Temporal.MeanChangeFacts | src/insights/numeric_analyzer.py:226-230 | the same three facts for any value series |
| Temporal.TwoMonthExample | src/insights/numeric_analyzer.py:191-230 | February 120 and January 100, given out of order, read as a rising series with 20.0% growth, a February peak, a January trough and a 20.0% mean change |
| Temporal.PaceRounding | src/insights/numeric_analyzer.py:241-248 | the acceleration rounded to one decimal never contradicts the label chosen from the unrounded value |
| NumericAnalyzer.Median | src/insights/numeric_analyzer.py:41 | `Series.median()` is finite exactly for a non-empty column; it is then the middle value, or the mean of the two middle values, of every largest-first arrangement; it lies between the minimum and maximum and splits the column: at least half the values are at most the median and at least half are at least it |
| NumericAnalyzer.MiddleOfAnyArrangement | src/insights/numeric_analyzer.py:41 | all largest-first arrangements of a table have the same middle |
| NumericAnalyzer.MedianOfArrangement | src/insights/numeric_analyzer.py:41 | the median is the middle of any one largest-first arrangement |
| NumericAnalyzer.MedianOfTwo | src/insights/numeric_analyzer.py:41 | the median of two values is their mean, not either of them |
| NumericAnalyzer.BaselineOf | src/insights/numeric_analyzer.py:36-42 | the baseline carries the chart type, the row count, the sum, the column mean and the median; the mean and median are finite exactly for a non-empty table, and then both lie between the minimum and the maximum, and the median is the middle of every largest-first arrangement and splits the column in halves |
| NumericAnalyzer.MiddleSplits | src/insights/numeric_analyzer.py:41 | the middle of a largest-first arrangement, or the mean of its two middles, splits the column in halves and lies between its extremes |
| NumericAnalyzer.Summarize | src/insights/numeric_analyzer.py:36-57 | fails exactly when the chosen analyzer raises: an analyzed chart type with an empty table, or a horizontal bar chart with a zero population total; every result carries the chart type, row count, sum and mean of the table and its median, the middle of every largest-first arrangement, which splits it in halves; an unrecognised chart type gets the baseline alone |
| NumericAnalyzer.Extras | src/insights/numeric_analyzer.py:44-55 | the analyzer step fails exactly when the chosen analyzer raises, and adds nothing for an unrecognised chart type |
| NumericAnalyzer.SummaryBaseline | src/insights/numeric_analyzer.py:36-42 | whatever the chart type, a summary's baseline is the table's baseline |
| NumericAnalyzer.DispatchesByChartType | src/insights/numeric_analyzer.py:44-55 | horizontal bars get the ranking metrics, vertical bars the comparison, and lines the temporal metrics |
| NumericAnalyzer.GroupedIsComparison | src/insights/numeric_analyzer.py:51-52 | grouped and stacked bars get exactly the vertical-bar metrics |
| NumericAnalyzer.UnknownTagAddsNothing | src/insights/numeric_analyzer.py:44-57 | an unrecognised chart type yields exactly the five baseline keys |
| NumericAnalyzer.AnalyzerKeysDisjoint | src/insights/numeric_analyzer.py:36-55 | no analyzer can write a baseline key |
| NumericAnalyzer.BaselineKeysSurvive | src/insights/numeric_analyzer.py:36-57 | merging an analyzer's metrics never overwrites a baseline figure |

## Left out

- `volatilidade` (line 231): the model knows its key is written whenever `variacao_media_pct` is, but not its value. A sample standard deviation needs a square root.
- `gerar_prompt_insights` and `formatar_metricas_para_exibicao`: they assemble text and JSON for the language model and for display, and compute no metric.
- The text of `proporcao_relativa`: the model keeps the pair of whole-number shares, not the f-string rendering.
- Binary floating point: the model rounds the exact value of each expression. Python rounds the nearest double, so a result can differ by one unit in the last kept decimal when a double lands just beside a tie. Signed zero and overflow are not modelled.
- Input cells that are nan or non-numeric: values are finite reals. Dates are an integer `key` per row, giving their position in the column's natural order.
- The population total is a Python number, as the caller passes it. A numpy scalar zero would give inf instead of raising, and that case is not modelled.
- Sorting.Sort: promises a sorted permutation only, not pandas' placement of tied rows. The labels of tied rows (`top_categorias`, `categoria_max`, `pico_periodo`) are therefore known only up to that choice. `Ranking.TopCategoriesAreLeaders` and `Temporal.PeriodsFromDateOrder` state them against an arrangement.
- Temporal.MeanChangeRule: gives a closed form only when no value before the last is zero. After a zero it only says the result is non-finite. A run of zeros, where `0/0` changes are dropped as nan, is left without a closed form.
- Temporal.MeanChangeFacts: has the same gap as `Temporal.MeanChangeRule`, stated for a bare value series.
- Temporal.Analyze: with repeated dates, the figures read by position are those of the one earliest-first arrangement `Sort` picks. These are `valor_inicial`, `valor_final`, `tendencia`, `taxa_crescimento_pct`, `variacao_media_pct`, the acceleration and the peak and trough periods. Rows `("d", 5)` and `("d", 7)` can come out in either order, and the model does not say which one pandas chooses.
- Ranking.Analyze: `top_categorias` is modelled as the labels as strings. The source's `.head(3).tolist()` keeps the raw cell values, so a numeric label stays a number there, while `categoria_max` and `categoria_min` apply `str()`.
