/** `gerar_resumo_numerico`: the baseline figures every summary carries, and
    the dispatch on the chart type to the analyzer whose metrics are merged
    into the summary. */
module NumericAnalyzer {
  import opened Wrappers
  import opened Numbers
  import opened Table
  import opened Sorting
  import Ranking
  import Comparison
  import Temporal

  /** The five baseline keys and their values. */
  datatype Baseline = Baseline(
    chartType: string,   // tipo_grafico
    rowCount: nat,       // num_categorias
    total: real,         // total_geral
    mean: Num,           // media
    median: Num          // mediana
  )

  /** The metrics the chart type's analyzer merges in, if any. */
  datatype Extra =
    | NoExtra
    | RankingExtra(ranking: Ranking.RankingMetrics)
    | ComparisonExtra(comparison: Comparison.ComparisonMetrics)
    | TemporalExtra(temporal: Temporal.TemporalMetrics)

  datatype Summary = Summary(baseline: Baseline, extra: Extra)

  const BaselineKeys: set<string> := {"tipo_grafico", "num_categorias", "total_geral", "media", "mediana"}

  /** The keys of the summary mapping. */
  function Keys(s: Summary): set<string>
  {
    BaselineKeys +
    match s.extra
    case NoExtra => {}
    case RankingExtra(m) => Ranking.Keys(m)
    case ComparisonExtra(m) => Comparison.Keys(m)
    case TemporalExtra(m) => Temporal.Keys(m)
  }

  /** The middle value of a column, or the mean of its two middle values. */
  function Middle(d: seq<real>): real
    requires |d| > 0
  {
    var h := |d| / 2;
    if |d| % 2 == 1 then d[h] else (d[h - 1] + d[h]) / 2.0
  }

  /** `Series.median()`: the middle of the sorted column, nan for an empty
      column. Every largest-first arrangement of the table has the same
      middle, the median; it splits the column: at least half of the values
      are at most the median and at least half are at least the median. */
  function Median(rows: seq<Row>): (m: Num)
    ensures m.Fin? <==> |rows| > 0
    ensures m.Fin? ==> IsMedian(rows, m.v)
    ensures m.Fin? ==> SplitsInHalves(Values(rows), m.v)
    ensures m.Fin? ==> Min(Values(rows)) <= m.v <= Max(Values(rows))
  {
    if |rows| == 0 then NaN
    else
      var t := Sort(ValueDescending, rows);
      MiddleSplits(rows, t);
      MiddleOfAnyArrangement(rows, t);
      Fin(Middle(Values(t)))
  }

  /** `m` is the middle value (or the mean of the two middle values) of every
      largest-first arrangement of the table. */
  ghost predicate IsMedian(rows: seq<Row>, m: real)
  {
    forall t :: Arrangement(ValueDescending, rows, t) ==> |t| == |rows| > 0 && m == Middle(Values(t))
  }

  /** Arrangements differ only in the order of rows of equal value, so they
      all have the same middle. */
  lemma MiddleOfAnyArrangement(rows: seq<Row>, s: seq<Row>)
    requires |rows| > 0 && Arrangement(ValueDescending, rows, s)
    ensures IsMedian(rows, Middle(Values(s)))
  {
    forall t | Arrangement(ValueDescending, rows, t)
      ensures |t| == |rows| > 0 && Middle(Values(s)) == Middle(Values(t))
    {
      assert |t| == |multiset(t)| == |multiset(rows)| == |rows|;
      TiesDoNotChangeValues(s, t);
    }
  }

  /** The median is the middle of any one largest-first arrangement. */
  lemma MedianOfArrangement(rows: seq<Row>, t: seq<Row>)
    requires |rows| > 0 && Arrangement(ValueDescending, rows, t)
    ensures |t| == |rows| && Median(rows) == Fin(Middle(Values(t)))
  {
    var m := Median(rows);
    assert IsMedian(rows, m.v);
  }

  /** An even count takes the mean of the two middle values: the median of
      two values is their mean, not either of them. */
  lemma MedianOfTwo(rows: seq<Row>)
    requires |rows| == 2
    ensures Median(rows) == Fin((rows[0].value + rows[1].value) / 2.0)
  {
    var t := if rows[0].value >= rows[1].value then rows else [rows[1], rows[0]];
    assert Arrangement(ValueDescending, rows, t) by {
      assert rows == [rows[0], rows[1]];
    }
    calc {
      Median(rows);
      { MedianOfArrangement(rows, t); }
      Fin(Middle(Values(t)));
      { MiddleOfTwo(t); }
      Fin((t[0].value + t[1].value) / 2.0);
      Fin((rows[0].value + rows[1].value) / 2.0);
    }
  }

  lemma MiddleOfTwo(t: seq<Row>)
    requires |t| == 2
    ensures Middle(Values(t)) == (t[0].value + t[1].value) / 2.0
  {
  }

  /** At least half of `vs` is at most `m`, and at least half is at least `m`. */
  predicate SplitsInHalves(vs: seq<real>, m: real)
  {
    2 * CountAtMost(vs, m) >= |vs| && 2 * CountAtLeast(vs, m) >= |vs|
  }

  /** The figures computed for every chart type. On an empty table they are
      0 rows, a sum of 0 and a nan mean and median; otherwise the mean and the
      median lie between the column's smallest and largest values, and the
      median is the middle of every largest-first arrangement. */
  function BaselineOf(rows: seq<Row>, chartType: string): (b: Baseline)
    ensures b.chartType == chartType && b.rowCount == |rows|
    ensures b.total == Sum(Values(rows))
    ensures b.mean == Mean(Values(rows)) && b.median == Median(rows)
    ensures b.mean.Fin? <==> |rows| > 0
    ensures b.median.Fin? <==> |rows| > 0
    ensures |rows| > 0 ==> Min(Values(rows)) <= b.mean.v <= Max(Values(rows))
    ensures |rows| > 0 ==> IsMedian(rows, b.median.v)
    ensures |rows| > 0 ==> SplitsInHalves(Values(rows), b.median.v)
    ensures |rows| > 0 ==> Min(Values(rows)) <= b.median.v <= Max(Values(rows))
  {
    MeanBetweenExtremes(Values(rows));
    Baseline(chartType, |rows|, Sum(Values(rows)), Mean(Values(rows)), Median(rows))
  }

  /** The chart types that have an analyzer. */
  predicate Analyzed(chartType: string)
  {
    chartType in {"horizontal_bar", "vertical_bar", "grouped_vertical_bar", "stacked_bar", "line"}
  }

  /** `gerar_resumo_numerico`. An analyzer's exception propagates; any
      other chart type gets the baseline alone, even for an empty table. */
  function Summarize(rows: seq<Row>, chartType: string, populationTotal: Option<real>): (r: Result<Summary, Error>)
    ensures r.Failure? <==>
      (Analyzed(chartType) && |rows| == 0) || (chartType == "horizontal_bar" && populationTotal == Some(0.0))
    ensures r.Success? ==> r.value.baseline.chartType == chartType && r.value.baseline.rowCount == |rows|
    ensures r.Success? ==> r.value.baseline.total == Sum(Values(rows)) && r.value.baseline.mean == Mean(Values(rows))
    ensures r.Success? ==> (r.value.baseline.median.Fin? <==> |rows| > 0)
    ensures r.Success? && |rows| > 0 ==> IsMedian(rows, r.value.baseline.median.v)
    ensures r.Success? && |rows| > 0 ==> SplitsInHalves(Values(rows), r.value.baseline.median.v)
    ensures !Analyzed(chartType) ==> r.Success? && r.value.extra == NoExtra
  {
    match Extras(rows, chartType, populationTotal)
    case Success(extra) => Success(Summary(BaselineOf(rows, chartType), extra))
    case Failure(e) => Failure(e)
  }

  /** The dispatch on the chart type: the metrics of the matching analyzer,
      or its exception, and nothing for any other chart type. */
  function Extras(rows: seq<Row>, chartType: string, populationTotal: Option<real>): (r: Result<Extra, Error>)
    ensures r.Failure? <==>
      (Analyzed(chartType) && |rows| == 0) || (chartType == "horizontal_bar" && populationTotal == Some(0.0))
    ensures !Analyzed(chartType) ==> r == Success(NoExtra)
  {
    if chartType == "horizontal_bar" then
      match Ranking.Analyze(rows, populationTotal)
      case Success(m) => Success(RankingExtra(m))
      case Failure(e) => Failure(e)
    else if chartType == "vertical_bar" then
      match Comparison.Analyze(rows)
      case Success(m) => Success(ComparisonExtra(m))
      case Failure(e) => Failure(e)
    else if chartType in ["grouped_vertical_bar", "stacked_bar"] then
      match Comparison.AnalyzeGrouped(rows)
      case Success(m) => Success(ComparisonExtra(m))
      case Failure(e) => Failure(e)
    else if chartType == "line" then
      match Temporal.Analyze(rows)
      case Success(m) => Success(TemporalExtra(m))
      case Failure(e) => Failure(e)
    else Success(NoExtra)
  }

  /** Each tag reaches its analyzer: ranking for horizontal bars, direct
      comparison for vertical bars, and the temporal analysis for lines. */
  lemma DispatchesByChartType(rows: seq<Row>, chartType: string, populationTotal: Option<real>)
    ensures var r := Summarize(rows, chartType, populationTotal);
      && (chartType == "horizontal_bar" && r.Success? ==> r.value.extra == RankingExtra(Ranking.Analyze(rows, populationTotal).value))
      && (chartType == "vertical_bar" && r.Success? ==> r.value.extra == ComparisonExtra(Comparison.Analyze(rows).value))
      && (chartType == "line" && r.Success? ==> r.value.extra == TemporalExtra(Temporal.Analyze(rows).value))
  {
    if chartType == "vertical_bar" {
      assert chartType != "horizontal_bar";
    } else if chartType == "line" {
      assert chartType != "horizontal_bar" && chartType != "vertical_bar";
      assert chartType !in ["grouped_vertical_bar", "stacked_bar"];
    }
  }

  /** Grouped and stacked bars get exactly the direct comparison's metrics. */
  lemma GroupedIsComparison(rows: seq<Row>, chartType: string, populationTotal: Option<real>)
    requires chartType == "grouped_vertical_bar" || chartType == "stacked_bar"
    ensures var grouped := Summarize(rows, chartType, populationTotal);
      var vertical := Summarize(rows, "vertical_bar", populationTotal);
      && grouped.Success? == vertical.Success?
      && (grouped.Success? ==> grouped.value.extra == vertical.value.extra)
  {
    assert Extras(rows, chartType, populationTotal) == Extras(rows, "vertical_bar", populationTotal) by {
      assert chartType != "horizontal_bar" && chartType != "vertical_bar";
      assert chartType in ["grouped_vertical_bar", "stacked_bar"];
    }
  }

  /** An unrecognised chart type adds no key beyond the baseline. */
  lemma UnknownTagAddsNothing(rows: seq<Row>, chartType: string, populationTotal: Option<real>)
    requires !Analyzed(chartType)
    ensures var r := Summarize(rows, chartType, populationTotal);
      r.Success? && Keys(r.value) == BaselineKeys
  {
  }

  /** No analyzer emits a baseline key, so merging its metrics never
      overwrites a baseline figure: every summary holds the five baseline
      keys with the baseline's values. */
  lemma BaselineKeysSurvive(rows: seq<Row>, chartType: string, populationTotal: Option<real>)
    ensures var r := Summarize(rows, chartType, populationTotal);
      r.Success? ==>
        && BaselineKeys <= Keys(r.value)
        && (match r.value.extra
            case NoExtra => Keys(r.value) == BaselineKeys
            case RankingExtra(m) => BaselineKeys !! Ranking.Keys(m)
            case ComparisonExtra(m) => BaselineKeys !! Comparison.Keys(m)
            case TemporalExtra(m) => BaselineKeys !! Temporal.Keys(m))
  {
    AnalyzerKeysDisjoint();
  }

  /** No analyzer can emit a baseline key. */
  lemma AnalyzerKeysDisjoint()
    ensures BaselineKeys !! Ranking.AllKeys
    ensures BaselineKeys !! Comparison.AllKeys
    ensures BaselineKeys !! Temporal.AllKeys
  {
  }

  /** The middle of any largest-first arrangement splits the column in halves
      and lies between its extremes. */
  lemma MiddleSplits(rows: seq<Row>, t: seq<Row>)
    requires |rows| > 0 && Arrangement(ValueDescending, rows, t)
    ensures |t| == |rows|
    ensures SplitsInHalves(Values(rows), Middle(Values(t)))
    ensures Min(Values(rows)) <= Middle(Values(t)) <= Max(Values(rows))
  {
    ValueArrangementExtremes(rows, t);
    var n := |rows|;
    var d := Values(t);
    SortedByValueIsNonIncreasing(t);
    ValuesPermutation(t, rows);
    var m := Middle(d);
    var h := n / 2;
    assert d[0] == Max(Values(rows)) && d[n - 1] == Min(Values(rows));
    if n % 2 == 1 {
      assert m == d[h];
      CountFromPrefix(d, h + 1, m);
      CountFromSuffix(d, h, m);
    } else {
      assert m == (d[h - 1] + d[h]) / 2.0;
      assert d[h - 1] >= d[h];
      CountFromPrefix(d, h, m);
      CountFromSuffix(d, h, m);
    }
    CountPermutation(d, Values(rows), m);
  }

  /** In a non-increasing column, the first `k` values are all at least `m`
      as soon as the `k`-th is. */
  lemma CountFromPrefix(d: seq<real>, k: nat, m: real)
    requires 0 < k <= |d| && NonIncreasing(d) && d[k - 1] >= m
    ensures CountAtLeast(d, m) >= k
  {
    assert d == d[..k] + d[k..];
    CountAppend(d[..k], d[k..], m);
    CountAllAtLeast(d[..k], m);
  }

  /** In a non-increasing column, the values from position `k` on are all at
      most `m` as soon as the `k`-th is. */
  lemma CountFromSuffix(d: seq<real>, k: nat, m: real)
    requires k < |d| && NonIncreasing(d) && d[k] <= m
    ensures CountAtMost(d, m) >= |d| - k
  {
    assert d == d[..k] + d[k..];
    CountAppend(d[..k], d[k..], m);
    CountAllAtMost(d[k..], m);
  }

  /** The summary's baseline is the table's baseline, whatever the chart type. */
  lemma SummaryBaseline(rows: seq<Row>, chartType: string, populationTotal: Option<real>)
    ensures var r := Summarize(rows, chartType, populationTotal);
      r.Success? ==> r.value.baseline == BaselineOf(rows, chartType)
  {
  }
}
