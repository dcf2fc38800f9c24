/** The ranking analyzer (`_analisar_ranking`), used for horizontal bar
    charts: leadership and concentration metrics of a table that may itself be
    only the top N rows of a larger filtered population. */
module Ranking {
  import opened Wrappers
  import opened Numbers
  import opened Table
  import opened Sorting

  /** The ranking metrics. Fields of type `Option` are keys present only
      when `Some`, except `relativeRange`, whose key is always present and
      whose `None` is Python's `None`. */
  datatype RankingMetrics = RankingMetrics(
    topCategories: seq<string>,       // top_categorias
    maxValue: real,                   // valor_max
    minValue: real,                   // valor_min
    maxCategory: string,              // categoria_max
    minCategory: string,              // categoria_min
    topNTotal: real,                  // total_topn
    universeTotal: real,              // total_universo
    top3SharePct: Option<Num>,        // concentracao_top3_pct
    top5SharePct: Option<Num>,        // concentracao_top5_pct
    gap12: Option<real>,              // gap_1_2
    gap12Pct: Option<Num>,            // gap_1_2_pct
    maxMinRange: real,                // diferenca_max_min
    relativeRange: Option<real>,      // amplitude_relativa
    leaderDeviationPct: Num,          // desvio_lider_media_pct
    leaderMultiple: Option<real>,     // multiplo_1_vs_2
    leaderContributionPct: Num        // contribuicao_lider_pct
  )

  /** Every key the analyzer can emit. */
  const AllKeys: set<string> := {"top_categorias", "valor_max", "valor_min", "categoria_max", "categoria_min",
    "total_topn", "total_universo", "diferenca_max_min", "amplitude_relativa",
    "desvio_lider_media_pct", "contribuicao_lider_pct", "concentracao_top3_pct",
    "concentracao_top5_pct", "gap_1_2", "gap_1_2_pct", "multiplo_1_vs_2"}

  /** The names of the keys the metrics put in the result mapping. */
  function Keys(m: RankingMetrics): (ks: set<string>)
    ensures ks <= AllKeys
  {
    {"top_categorias", "valor_max", "valor_min", "categoria_max", "categoria_min",
     "total_topn", "total_universo", "diferenca_max_min", "amplitude_relativa",
     "desvio_lider_media_pct", "contribuicao_lider_pct"}
    + (if m.top3SharePct.Some? then {"concentracao_top3_pct"} else {})
    + (if m.top5SharePct.Some? then {"concentracao_top5_pct"} else {})
    + (if m.gap12.Some? then {"gap_1_2"} else {})
    + (if m.gap12Pct.Some? then {"gap_1_2_pct"} else {})
    + (if m.leaderMultiple.Some? then {"multiplo_1_vs_2"} else {})
  }

  /** The concentration denominator: the population total when the caller
      supplies one, otherwise the table's own sum, which for non-negative
      values is at least every value. */
  function UniverseTotal(rows: seq<Row>, populationTotal: Option<real>): (u: real)
    ensures populationTotal.Some? ==> u == populationTotal.value
    ensures populationTotal.None? ==> u == Sum(Values(rows))
    ensures populationTotal.None? && (forall i :: 0 <= i < |rows| ==> rows[i].value >= 0.0) ==>
      forall i :: 0 <= i < |rows| ==> rows[i].value <= u
  {
    SumAtLeastEach(Values(rows));

    if populationTotal.Some? then populationTotal.value else Sum(Values(rows))
  }

  function Smaller(a: nat, b: nat): nat
  {
    if a <= b then a else b
  }

  /** The metrics read off the largest-first copy `t` of the table. The
      presence of each conditional key depends only on the row count, and
      the percentages are of the leader's value; `MeasureRules` adds what
      holds once the values are in non-increasing order. */
  function Measure(t: seq<Row>, populationTotal: Option<real>): (m: RankingMetrics)
    requires |t| > 0
    ensures |m.topCategories| == Smaller(3, |t|) && m.topCategories[0] == m.maxCategory
    ensures Thresholds(m, |t|)
    ensures ConcentrationFinite(m)
    ensures m.relativeRange == ChangePct(m.minValue, m.maxValue)
    ensures m.leaderDeviationPct == Percent(m.maxValue - Mean(Values(t)).v, Mean(Values(t)).v)
    ensures m.leaderContributionPct == Percent(m.maxValue, m.universeTotal)
  {
    var n := |t|;
    var vs := Values(t);
    var topN := Sum(vs);
    var total := UniverseTotal(t, populationTotal);
    var range := vs[0] - vs[n - 1];
    var mean := topN / n as real;
    var m := RankingMetrics(
      topCategories := Labels(t[..Smaller(3, n)]),
      maxValue := vs[0],
      minValue := vs[n - 1],
      maxCategory := t[0].name,
      minCategory := t[n - 1].name,
      topNTotal := topN,
      universeTotal := total,
      top3SharePct := if n >= 3 then Some(Percent(Sum(vs[..3]), total)) else None,
      top5SharePct := if n >= 5 then Some(Percent(Sum(vs[..5]), total)) else None,
      gap12 := if n >= 2 then Some(vs[0] - vs[1]) else None,
      gap12Pct := if n >= 2 then Some(Percent(vs[0] - vs[1], vs[1])) else None,
      maxMinRange := range,
      relativeRange := ChangePct(vs[n - 1], vs[0]),
      leaderDeviationPct := Percent(vs[0] - mean, mean),
      leaderMultiple := if n >= 2 && vs[1] > 0.0 then Some(Round(vs[0] / vs[1], Hundredths)) else None,
      leaderContributionPct := Percent(vs[0], total)
    );
    assert Labels(t[..Smaller(3, n)])[0] == t[0].name;
    m
  }

  /** `_analisar_ranking`. An empty table raises `IndexError` at `.iloc[0]`;
      a population total of zero, given as a Python number, raises
      `ZeroDivisionError` in the leader contribution. The runner-up's value
      is `maxValue - gap12`. A zero denominator makes a percentage a
      non-finite float; it does not remove the key. */
  function Analyze(rows: seq<Row>, populationTotal: Option<real>): (r: Result<RankingMetrics, Error>)
    ensures r.Failure? <==> |rows| == 0 || populationTotal == Some(0.0)
    ensures |rows| == 0 ==> r == Failure(EmptyTable)
    ensures r.Success? ==> Describes(rows, populationTotal, r.value)
  {
    if |rows| == 0 then Failure(EmptyTable)
    else if populationTotal == Some(0.0) then Failure(ZeroDivision)
    else
      var t := Sort(ValueDescending, rows);
      MeasureOfArrangement(rows, t, populationTotal);
      Success(Measure(t, populationTotal))
  }

  /** What the ranking metrics `m` say about a non-empty table: `total_topn`
      is its sum, `total_universo` the population total when given and the
      sum otherwise; `valor_max` and `valor_min` are its maximum and minimum,
      and their difference is never negative; `top_categorias` holds
      min(3, n) labels, led by `categoria_max`; the conditional keys follow
      their row-count thresholds and the runner-up rules; the relative range
      is the non-negative change from minimum to maximum; the leader's
      deviation is its excess over the mean as a percentage of the mean; its
      contribution is its percentage of the universe total. */
  predicate Describes(rows: seq<Row>, populationTotal: Option<real>, m: RankingMetrics)
  {
    var mean := Mean(Values(rows));
    && |rows| > 0 && mean.Fin?
    && m.topNTotal == Sum(Values(rows))
    && m.universeTotal == UniverseTotal(rows, populationTotal)
    && m.maxValue == Max(Values(rows)) && m.minValue == Min(Values(rows))
    && m.maxMinRange == m.maxValue - m.minValue >= 0.0
    && |m.topCategories| == Smaller(3, |rows|) && m.topCategories[0] == m.maxCategory
    && Thresholds(m, |rows|)
    && RunnerUpRules(m)
    && m.relativeRange == ChangePct(m.minValue, m.maxValue)
    && (m.relativeRange.Some? ==> m.relativeRange.value >= 0.0)
    && m.leaderDeviationPct == Percent(m.maxValue - mean.v, mean.v)
    && m.leaderContributionPct == Percent(m.maxValue, m.universeTotal)
    && ConcentrationFinite(m)
  }

  /** Which conditional keys are present, by row count: top-3 from three
      rows, top-5 from five, the gap and its percentage from two. */
  predicate Thresholds(m: RankingMetrics, n: nat)
  {
    && (m.top3SharePct.Some? <==> n >= 3)
    && (m.top5SharePct.Some? <==> n >= 5)
    && (m.gap12.Some? <==> n >= 2)
    && (m.gap12Pct.Some? <==> n >= 2)
  }

  /** The leader-versus-runner-up metrics: the gap is never negative, its
      percentage is of the runner-up's value, and the multiple is present
      exactly when the runner-up is positive. */
  predicate RunnerUpRules(m: RankingMetrics)
  {
    m.gap12.Some? ==>
      var runnerUp := m.maxValue - m.gap12.value;
      && m.gap12.value >= 0.0
      && m.gap12Pct == Some(Percent(m.gap12.value, runnerUp))
      && m.leaderMultiple == (if runnerUp > 0.0 then Some(Round(m.maxValue / runnerUp, Hundredths)) else None)
  }

  /** The concentrations are finite exactly when the universe total is nonzero. */
  predicate ConcentrationFinite(m: RankingMetrics)
  {
    && (m.top3SharePct.Some? ==> (m.top3SharePct.value.Fin? <==> m.universeTotal != 0.0))
    && (m.top5SharePct.Some? ==> (m.top5SharePct.value.Fin? <==> m.universeTotal != 0.0))
  }

  /** The facts `Analyze` promises, for the metrics of any largest-first
      arrangement of the table. */
  lemma MeasureOfArrangement(rows: seq<Row>, t: seq<Row>, populationTotal: Option<real>)
    requires |rows| > 0 && Arrangement(ValueDescending, rows, t)
    ensures |t| == |rows|
    ensures Describes(rows, populationTotal, Measure(t, populationTotal))
  {
    ValueArrangementExtremes(rows, t);
    SortedByValueIsNonIncreasing(t);
    MeasureRules(t, populationTotal);
    assert Mean(Values(t)) == Mean(Values(rows));
    assert UniverseTotal(t, populationTotal) == UniverseTotal(rows, populationTotal);
  }

  /** In a non-increasing table the first and last values are the extremes,
      their difference and relative change are never negative, and the
      runner-up rules hold. */
  lemma MeasureRules(t: seq<Row>, populationTotal: Option<real>)
    requires |t| > 0 && NonIncreasing(Values(t))
    ensures var m := Measure(t, populationTotal);
      && m.maxValue == Max(Values(t)) && m.minValue == Min(Values(t))
      && m.maxMinRange >= 0.0
      && RunnerUpRules(m)
      && (m.relativeRange.Some? ==> m.relativeRange.value >= 0.0)
  {
    var m := Measure(t, populationTotal);
    var vs := Values(t);
    NonIncreasingEnds(vs);
    if |t| >= 2 {
      assert m.gap12 == Some(vs[0] - vs[1]);
      assert m.maxValue - m.gap12.value == vs[1];
    }
    ChangeSigns(m.minValue, m.maxValue);
  }

  /** The analysis reads the largest-first copy made by `Sort`, whose value
      column is that of any other largest-first arrangement `t`. */
  lemma ReadsRankOrder(rows: seq<Row>, populationTotal: Option<real>, t: seq<Row>)
    requires |rows| > 0 && populationTotal != Some(0.0)
    requires Arrangement(ValueDescending, rows, t)
    ensures var s := Sort(ValueDescending, rows);
      && |t| == |s| == |rows|
      && Values(s) == Values(t)
      && Analyze(rows, populationTotal) == Success(Measure(s, populationTotal))
      && UniverseTotal(s, populationTotal) == UniverseTotal(rows, populationTotal)
  {
    var s := Sort(ValueDescending, rows);
    TiesDoNotChangeValues(s, t);
    ValueArrangementExtremes(rows, s);
    ValueArrangementExtremes(rows, t);
  }

  /** The shares of the universe total are read off the values in rank order,
      whichever largest-first arrangement `t` of the table pandas produced. */
  lemma SharesFollowRankOrder(rows: seq<Row>, populationTotal: Option<real>, t: seq<Row>)
    requires |rows| > 0 && populationTotal != Some(0.0)
    requires Arrangement(ValueDescending, rows, t)
    ensures |t| == |rows|
    ensures Analyze(rows, populationTotal).value.top3SharePct
      == (if |t| >= 3 then Some(Percent(t[0].value + t[1].value + t[2].value, UniverseTotal(rows, populationTotal))) else None)
    ensures Analyze(rows, populationTotal).value.top5SharePct
      == (if |t| >= 5 then Some(Percent(Sum(Values(t[..5])), UniverseTotal(rows, populationTotal))) else None)
    ensures Analyze(rows, populationTotal).value.leaderContributionPct
      == Percent(t[0].value, UniverseTotal(rows, populationTotal))
  {
    ReadsRankOrder(rows, populationTotal, t);
    MeasureShares(Sort(ValueDescending, rows), populationTotal, t);
  }

  lemma MeasureShares(s: seq<Row>, populationTotal: Option<real>, t: seq<Row>)
    requires |s| > 0 && Values(s) == Values(t)
    ensures var m, total := Measure(s, populationTotal), UniverseTotal(s, populationTotal);
      && m.top3SharePct == (if |t| >= 3 then Some(Percent(t[0].value + t[1].value + t[2].value, total)) else None)
      && m.top5SharePct == (if |t| >= 5 then Some(Percent(Sum(Values(t[..5])), total)) else None)
      && m.leaderContributionPct == Percent(t[0].value, total)
  {
    var vs := Values(t);
    assert vs[0] == t[0].value;
    if |t| >= 3 {
      SumOfFirstThree(vs);
      assert vs[1] == t[1].value && vs[2] == t[2].value;
    }
    if |t| >= 5 {
      assert Values(t[..5]) == vs[..5];
    }
  }

  lemma SumOfFirstThree(vs: seq<real>)
    requires |vs| >= 3
    ensures Sum(vs[..3]) == vs[0] + vs[1] + vs[2]
  {
    var head := vs[..3];
    assert Sum(head) == head[0] + Sum(head[1..]);
    assert Sum(head[1..]) == head[1] + Sum(head[2..]);
    assert Sum(head[2..]) == head[2] + Sum(head[3..]);
    assert head[3..] == [];
  }

  /** The leader-versus-runner-up metrics are read off the first two values in
      rank order, whichever largest-first arrangement `t` pandas produced. */
  lemma GapsFollowRankOrder(rows: seq<Row>, populationTotal: Option<real>, t: seq<Row>)
    requires |rows| > 0 && populationTotal != Some(0.0)
    requires Arrangement(ValueDescending, rows, t)
    ensures var m := Analyze(rows, populationTotal).value;
      var n := |rows|;
      && |t| == n
      && m.gap12 == (if n >= 2 then Some(t[0].value - t[1].value) else None)
      && m.gap12Pct == (if n >= 2 then Some(Percent(t[0].value - t[1].value, t[1].value)) else None)
      && m.leaderMultiple == (if n >= 2 && t[1].value > 0.0 then Some(Round(t[0].value / t[1].value, Hundredths)) else None)
  {
    ReadsRankOrder(rows, populationTotal, t);
    MeasureGaps(Sort(ValueDescending, rows), populationTotal, t);
  }

  lemma MeasureGaps(s: seq<Row>, populationTotal: Option<real>, t: seq<Row>)
    requires |s| > 0 && Values(s) == Values(t)
    ensures var m := Measure(s, populationTotal);
      && m.gap12 == (if |t| >= 2 then Some(t[0].value - t[1].value) else None)
      && m.gap12Pct == (if |t| >= 2 then Some(Percent(t[0].value - t[1].value, t[1].value)) else None)
      && m.leaderMultiple == (if |t| >= 2 && t[1].value > 0.0 then Some(Round(t[0].value / t[1].value, Hundredths)) else None)
  {
    var vs := Values(t);
    assert vs[0] == t[0].value;
    assert |t| >= 2 ==> vs[1] == t[1].value;
  }

  /** The top categories are the labels of the first `min(3, n)` rows, and the
      leader and last-placed labels are those of the first and last rows, of
      one largest-first arrangement of the table. */
  lemma TopCategoriesAreLeaders(rows: seq<Row>, populationTotal: Option<real>)
    requires |rows| > 0 && populationTotal != Some(0.0)
    ensures var m := Analyze(rows, populationTotal).value;
      exists t: seq<Row> :: Arrangement(ValueDescending, rows, t)
           && |t| == |rows|
           && m.topCategories == Labels(t[..Smaller(3, |rows|)])
           && t[0] == Row(m.maxCategory, t[0].key, m.maxValue)
           && t[|t| - 1] == Row(m.minCategory, t[|t| - 1].key, m.minValue)
  {
    var t := Sort(ValueDescending, rows);
    ValueArrangementExtremes(rows, t);
    assert Arrangement(ValueDescending, rows, t);
  }

  /** The leader's and the last-placed row's label and value belong to one row of
      the input table. */
  lemma ExtremesComeFromRows(rows: seq<Row>, populationTotal: Option<real>)
    requires |rows| > 0 && populationTotal != Some(0.0)
    ensures var m := Analyze(rows, populationTotal).value;
      && (exists i :: 0 <= i < |rows| && rows[i].name == m.maxCategory && rows[i].value == m.maxValue)
      && (exists i :: 0 <= i < |rows| && rows[i].name == m.minCategory && rows[i].value == m.minValue)
  {
    var t := Sort(ValueDescending, rows);
    ValueArrangementExtremes(rows, t);
    assert t[0] in multiset(rows) && t[|t| - 1] in multiset(rows);
  }

  /** With a positive denominator and no negative values, the leader's
      contribution never exceeds the top-3 concentration. */
  lemma LeaderContributionWithinTop3(rows: seq<Row>, populationTotal: Option<real>)
    requires |rows| >= 3 && populationTotal != Some(0.0)
    requires forall i :: 0 <= i < |rows| ==> rows[i].value >= 0.0
    requires UniverseTotal(rows, populationTotal) > 0.0
    ensures var m := Analyze(rows, populationTotal).value;
      && m.top3SharePct.Some? && m.top3SharePct.value.Fin? && m.leaderContributionPct.Fin?
      && m.leaderContributionPct.v <= m.top3SharePct.value.v
  {
    var t := Sort(ValueDescending, rows);
    assert t[1].value >= 0.0 && t[2].value >= 0.0 by {
      NonNegativeRowsStayNonNegative(rows, t);
    }
    MeasureOfArrangement(rows, t, populationTotal);
    LeaderShareWithinTop3(t, populationTotal);
  }

  lemma LeaderShareWithinTop3(t: seq<Row>, populationTotal: Option<real>)
    requires |t| >= 3 && t[1].value >= 0.0 && t[2].value >= 0.0
    requires UniverseTotal(t, populationTotal) > 0.0
    ensures var m := Measure(t, populationTotal);
      && m.top3SharePct.Some? && m.top3SharePct.value.Fin? && m.leaderContributionPct.Fin?
      && m.leaderContributionPct.v <= m.top3SharePct.value.v
  {
    var vs := Values(t);
    SumOfFirstThree(vs);
    PercentMonotone(vs[0], Sum(vs[..3]), UniverseTotal(t, populationTotal));
  }



  /** Supplying the population total `T` of a truncated table with sum
      `0 < S <= T` never raises the top-3 concentration above the legacy figure
      computed against `S`. */
  lemma PopulationTotalLowersConcentration(rows: seq<Row>, populationTotal: real)
    requires |rows| >= 3
    requires forall i :: 0 <= i < |rows| ==> rows[i].value >= 0.0
    requires 0.0 < Sum(Values(rows)) <= populationTotal
    ensures var withTotal := Analyze(rows, Some(populationTotal)).value.top3SharePct;
      var legacy := Analyze(rows, None).value.top3SharePct;
      && withTotal.Some? && legacy.Some? && withTotal.value.Fin? && legacy.value.Fin?
      && withTotal.value.v <= legacy.value.v
  {
    var t := RankedCopy(rows);
    Top3FollowsRankOrder(rows, Some(populationTotal), t);
    Top3FollowsRankOrder(rows, None, t);
    NonNegativeRowsStayNonNegative(rows, t);
    PercentOfLargerWhole(t[0].value + t[1].value + t[2].value, Sum(Values(rows)), populationTotal);
  }

  /** Some largest-first arrangement of the table. */
  lemma RankedCopy(rows: seq<Row>) returns (t: seq<Row>)
    ensures Arrangement(ValueDescending, rows, t) && |t| == |rows|
  {
    t := Sort(ValueDescending, rows);
  }

  lemma Top3FollowsRankOrder(rows: seq<Row>, populationTotal: Option<real>, t: seq<Row>)
    requires |rows| >= 3 && populationTotal != Some(0.0)
    requires Arrangement(ValueDescending, rows, t)
    ensures |t| == |rows|
    ensures Analyze(rows, populationTotal).value.top3SharePct
      == Some(Percent(t[0].value + t[1].value + t[2].value,
                      if populationTotal.Some? then populationTotal.value else Sum(Values(rows))))
  {
    SharesFollowRankOrder(rows, populationTotal, t);
  }

  lemma NonNegativeRowsStayNonNegative(rows: seq<Row>, t: seq<Row>)
    requires multiset(rows) == multiset(t)
    requires forall i :: 0 <= i < |rows| ==> rows[i].value >= 0.0
    ensures forall i :: 0 <= i < |t| ==> t[i].value >= 0.0
  {
    forall i | 0 <= i < |t|
      ensures t[i].value >= 0.0
    {
      assert t[i] in multiset(rows);
    }
  }

  /** The documented example: values 100, 70, 40 against a population total
      of 500 give a top-3 concentration of 42.0, not 100.0. */
  lemma DocumentedConcentrationExample()
    ensures var rows := [Row("A", 0, 100.0), Row("B", 1, 70.0), Row("C", 2, 40.0)];
      Analyze(rows, Some(500.0)).value.top3SharePct == Some(Fin(42.0))
      && Analyze(rows, None).value.top3SharePct == Some(Fin(100.0))
  {
    var rows := [Row("A", 0, 100.0), Row("B", 1, 70.0), Row("C", 2, 40.0)];
    ThreeOfTotal(rows, Some(500.0));
    ThreeOfTotal(rows, None);
    assert RoundHalfEven(420.0) == 420 by { RoundHalfEvenUnique(420.0, 420); }
    assert RoundHalfEven(1000.0) == 1000 by { RoundHalfEvenUnique(1000.0, 1000); }
  }

  lemma ThreeOfTotal(rows: seq<Row>, populationTotal: Option<real>)
    requires rows == [Row("A", 0, 100.0), Row("B", 1, 70.0), Row("C", 2, 40.0)]
    requires populationTotal != Some(0.0)
    ensures Analyze(rows, populationTotal).value.top3SharePct
      == Some(Percent(210.0, if populationTotal.Some? then populationTotal.value else 210.0))
  {
    ThreeRows(rows);
    SharesFollowRankOrder(rows, populationTotal, rows);
  }

  lemma ThreeRows(rows: seq<Row>)
    requires rows == [Row("A", 0, 100.0), Row("B", 1, 70.0), Row("C", 2, 40.0)]
    ensures Arrangement(ValueDescending, rows, rows)
    ensures Sum(Values(rows)) == 210.0
  {
    var vs := Values(rows);
    assert vs == [100.0, 70.0, 40.0];
    SumOfFirstThree(vs);
    assert vs[..3] == vs;
  }

  /** Values 100 and 70: a gap of 30.0, which is 42.9% of the runner-up. */
  lemma GapExample()
    ensures var m := Analyze([Row("A", 0, 100.0), Row("B", 1, 70.0)], None).value;
      m.gap12 == Some(30.0) && m.gap12Pct == Some(Fin(42.9))
  {
    var rows := [Row("A", 0, 100.0), Row("B", 1, 70.0)];
    assert Arrangement(ValueDescending, rows, rows);
    GapsFollowRankOrder(rows, None, rows);
    assert RoundHalfEven(30.0 / 70.0 * 100.0 * 10.0) == 429 by {
      RoundHalfEvenUnique(30.0 / 70.0 * 100.0 * 10.0, 429);
    }
  }
}
