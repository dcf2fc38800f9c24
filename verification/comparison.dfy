/** The direct-comparison analyzer (`_analisar_comparacao`), used for vertical
    bar charts, and the grouped analyzer (`_analisar_comparacao_agrupada`),
    which delegates to it. Shares are always of the table's own sum. */
module Comparison {
  import opened Wrappers
  import opened Numbers
  import opened Table
  import opened Sorting

  /** The comparison metrics; `Option` fields are keys present only when `Some`. */
  datatype ComparisonMetrics = ComparisonMetrics(
    largestCategory: string,          // categoria_maior
    smallestCategory: string,         // categoria_menor
    largestValue: real,               // valor_maior
    smallestValue: real,              // valor_menor
    differencePct: Option<real>,      // diferenca_pct
    pointsDifference: Num,            // diferenca_pontos_percentuais
    largestSharePct: Num,             // contribuicao_maior_pct
    smallestSharePct: Num,            // contribuicao_menor_pct
    proportion: Option<(Num, Num)>    // proporcao_relativa, as its two whole percentages
  )

  /** Every key the analyzer can emit. */
  const AllKeys: set<string> := {"categoria_maior", "categoria_menor", "valor_maior", "valor_menor",
    "diferenca_pontos_percentuais", "contribuicao_maior_pct", "contribuicao_menor_pct",
    "diferenca_pct", "proporcao_relativa"}

  /** The names of the keys the metrics put in the result mapping. */
  function Keys(m: ComparisonMetrics): (ks: set<string>)
    ensures ks <= AllKeys
  {
    {"categoria_maior", "categoria_menor", "valor_maior", "valor_menor",
     "diferenca_pontos_percentuais", "contribuicao_maior_pct", "contribuicao_menor_pct"}
    + (if m.differencePct.Some? then {"diferenca_pct"} else {})
    + (if m.proportion.Some? then {"proporcao_relativa"} else {})
  }

  /** A value's unrounded share of the total, in percent (`pct_maior`, `pct_menor`). */
  function Share(value: real, total: real): (r: Num)
    ensures r.Fin? <==> total != 0.0
    ensures r.Fin? ==> r.v * total == value * 100.0
    ensures total == 0.0 ==> r == Quotient(value, total)
  {
    Scale(Quotient(value, total), 100.0)
  }

  /** The metrics read off the largest-first copy `t` of the table: the
      first and last rows are the largest and smallest, the shares are of the
      sum of `t`, finite exactly when that sum is not zero, and the proportion
      is present exactly for two rows. */
  function Measure(t: seq<Row>): (m: ComparisonMetrics)
    requires |t| > 0
    ensures Row(m.largestCategory, t[0].key, m.largestValue) == t[0]
    ensures Row(m.smallestCategory, t[|t| - 1].key, m.smallestValue) == t[|t| - 1]
    ensures m.differencePct == ChangePct(m.smallestValue, m.largestValue)
    ensures SharesOf(m, Sum(Values(t)))
    ensures m.largestSharePct.Fin? <==> Sum(Values(t)) != 0.0
    ensures m.proportion.Some? <==> |t| == 2
  {
    var n := |t|;
    var largest := t[0].value;
    var smallest := t[n - 1].value;
    var total := Sum(Values(t));
    var pctLargest := Share(largest, total);
    var pctSmallest := Share(smallest, total);
    ComparisonMetrics(
      largestCategory := t[0].name,
      smallestCategory := t[n - 1].name,
      largestValue := largest,
      smallestValue := smallest,
      differencePct := ChangePct(smallest, largest),
      pointsDifference := RoundNum(Sub(pctLargest, pctSmallest), Tenths),
      largestSharePct := RoundNum(pctLargest, Tenths),
      smallestSharePct := RoundNum(pctSmallest, Tenths),
      proportion := if n == 2 then Some((RoundNum(pctLargest, Units), RoundNum(pctSmallest, Units))) else None
    )
  }

  /** `_analisar_comparacao`. An empty table raises `IndexError` at `.iloc[0]`.
      The shares and their difference are taken against the table's own sum:
      with a zero sum they are non-finite floats, not omitted. */
  function Analyze(rows: seq<Row>): (r: Result<ComparisonMetrics, Error>)
    ensures r.Failure? <==> |rows| == 0
    ensures r.Failure? ==> r.error == EmptyTable
    ensures r.Success? ==> r.value.largestValue == Max(Values(rows)) && r.value.smallestValue == Min(Values(rows))
    ensures r.Success? ==> r.value.differencePct == ChangePct(r.value.smallestValue, r.value.largestValue)
    ensures r.Success? && r.value.differencePct.Some? ==> r.value.differencePct.value >= 0.0
    ensures r.Success? ==> SharesOf(r.value, Sum(Values(rows)))
    ensures r.Success? ==> (r.value.largestSharePct.Fin? <==> Sum(Values(rows)) != 0.0)
    ensures r.Success? && Sum(Values(rows)) > 0.0 ==>
      && r.value.largestSharePct.v >= r.value.smallestSharePct.v
      && r.value.pointsDifference.Fin? && r.value.pointsDifference.v >= 0.0
    ensures r.Success? && Sum(Values(rows)) < 0.0 ==>
      r.value.largestSharePct.v <= r.value.smallestSharePct.v
    ensures r.Success? ==> (r.value.proportion.Some? <==> |rows| == 2)
  {
    if |rows| == 0 then Failure(EmptyTable)
    else
      var t := Sort(ValueDescending, rows);
      ValueArrangementExtremes(rows, t);
      MeasureRules(t);
      Success(Measure(t))
  }

  /** The shares, their point difference and the proportion of `m` are the
      shares of its largest and smallest values in `total`. */
  predicate SharesOf(m: ComparisonMetrics, total: real)
  {
    var large, small := Share(m.largestValue, total), Share(m.smallestValue, total);
    && m.largestSharePct == RoundNum(large, Tenths)
    && m.smallestSharePct == RoundNum(small, Tenths)
    && m.pointsDifference == RoundNum(Sub(large, small), Tenths)
    && (m.proportion.Some? ==> m.proportion.value == (RoundNum(large, Units), RoundNum(small, Units)))
  }

  /** When the first value is at least the last, the relative difference is
      never negative, and the larger value has the larger share for a
      positive sum and the smaller share for a negative one. */
  lemma MeasureRules(t: seq<Row>)
    requires |t| > 0 && t[0].value >= t[|t| - 1].value
    ensures var m, total := Measure(t), Sum(Values(t));
      && (m.differencePct.Some? ==> m.differencePct.value >= 0.0)
      && (total > 0.0 ==>
            && m.largestSharePct.v >= m.smallestSharePct.v
            && m.pointsDifference.Fin? && m.pointsDifference.v >= 0.0)
      && (total < 0.0 ==> m.largestSharePct.v <= m.smallestSharePct.v)
  {
    var m, total := Measure(t), Sum(Values(t));
    var large, small := t[0].value, t[|t| - 1].value;
    if small > 0.0 {
      ChangePctMeaning(small, large);
    }
    if total > 0.0 {
      SharesOrdered(small, large, total);
    } else if total < 0.0 {
      SharesReversed(small, large, total);
    }
  }

  /** `_analisar_comparacao_agrupada`: the grouped analysis is the direct
      comparison of the group column. */
  function AnalyzeGrouped(rows: seq<Row>): (r: Result<ComparisonMetrics, Error>)
    ensures r == Analyze(rows)
  {
    Analyze(rows)
  }

  /** The two extremes' labels and values are those of the first and last rows
      of one largest-first arrangement of the table, hence of two input rows. */
  lemma ExtremesComeFromRows(rows: seq<Row>)
    requires |rows| > 0
    ensures var m := Analyze(rows).value;
      && (exists t: seq<Row> :: Arrangement(ValueDescending, rows, t) && |t| == |rows|
            && t[0] == Row(m.largestCategory, t[0].key, m.largestValue)
            && t[|t| - 1] == Row(m.smallestCategory, t[|t| - 1].key, m.smallestValue))
      && (exists i :: 0 <= i < |rows| && rows[i].name == m.largestCategory && rows[i].value == m.largestValue)
      && (exists i :: 0 <= i < |rows| && rows[i].name == m.smallestCategory && rows[i].value == m.smallestValue)
  {
    var t := Sort(ValueDescending, rows);
    ValueArrangementExtremes(rows, t);
    assert Arrangement(ValueDescending, rows, t);
    assert t[0] in multiset(rows) && t[|t| - 1] in multiset(rows);
  }

  /** The arithmetic behind the share order for a positive sum. */
  lemma SharesOrdered(small: real, large: real, total: real)
    requires small <= large && total > 0.0
    ensures var pctLarge, pctSmall := Share(large, total), Share(small, total);
      && pctLarge.Fin? && pctSmall.Fin?
      && RoundNum(pctSmall, Tenths).v <= RoundNum(pctLarge, Tenths).v
      && RoundNum(Sub(pctLarge, pctSmall), Tenths).v == Round(large / total * 100.0 - small / total * 100.0, Tenths)
      && RoundNum(Sub(pctLarge, pctSmall), Tenths).v >= 0.0
  {
    var hi, lo := large / total * 100.0, small / total * 100.0;
    assert small / total <= large / total;
    assert Share(large, total) == Fin(hi);
    assert Share(small, total) == Fin(lo);
    RoundMonotone(lo, hi, Tenths);
    RoundMonotone(0.0, hi - lo, Tenths);
    assert Round(0.0, Tenths) == 0.0 by { RoundHalfEvenUnique(0.0, 0); }
  }

  /** With a negative sum the larger value has the smaller share. */
  lemma SharesReversed(small: real, large: real, total: real)
    requires small <= large && total < 0.0
    ensures RoundNum(Share(large, total), Tenths).Fin? && RoundNum(Share(small, total), Tenths).Fin?
    ensures RoundNum(Share(large, total), Tenths).v <= RoundNum(Share(small, total), Tenths).v
  {
    assert large / total <= small / total;
    RoundMonotone(large / total * 100.0, small / total * 100.0, Tenths);
  }

  /** Values 100 and 60: the larger is 66.7% above the smaller, and the
      proportion's whole-number shares are 62 and 38, because 62.5 rounds half
      to even. */
  lemma TwoBarExample()
    ensures var m := Analyze([Row("A", 0, 100.0), Row("B", 1, 60.0)]).value;
      && m.differencePct == Some(66.7)
      && m.proportion == Some((Fin(62.0), Fin(38.0)))
  {
    TwoBarSorted();
    TwoBarMeasure();
  }

  lemma TwoBarSorted()
    ensures var rows := [Row("A", 0, 100.0), Row("B", 1, 60.0)];
      Sort(ValueDescending, rows) == rows
  {
    var rows := [Row("A", 0, 100.0), Row("B", 1, 60.0)];
    assert Sort(ValueDescending, rows[1..]) == rows[1..];
  }

  lemma TwoBarMeasure()
    ensures var m := Measure([Row("A", 0, 100.0), Row("B", 1, 60.0)]);
      && m.differencePct == Some(66.7)
      && m.proportion == Some((Fin(62.0), Fin(38.0)))
  {
    var vs := Values([Row("A", 0, 100.0), Row("B", 1, 60.0)]);
    assert Sum(vs) == 160.0 by {
      assert vs == [100.0, 60.0];
      assert Sum(vs) == vs[0] + Sum(vs[1..]);
      assert Sum(vs[1..]) == vs[1] + Sum(vs[1..][1..]);
      assert vs[1..][1..] == [];
    }
    TwoBarFigures();
  }

  lemma TwoBarFigures()
    ensures ChangePct(60.0, 100.0) == Some(66.7)
    ensures RoundNum(Share(100.0, 160.0), Units) == Fin(62.0)
    ensures RoundNum(Share(60.0, 160.0), Units) == Fin(38.0)
  {
    assert RoundHalfEven(40.0 / 60.0 * 100.0 * 10.0) == 667 by {
      RoundHalfEvenUnique(40.0 / 60.0 * 100.0 * 10.0, 667);
    }
    assert Share(100.0, 160.0) == Fin(62.5);
    assert Share(60.0, 160.0) == Fin(37.5);
    assert RoundHalfEven(62.5) == 62 by { RoundHalfEvenUnique(62.5, 62); }
    assert RoundHalfEven(37.5) == 38 by { RoundHalfEvenUnique(37.5, 38); }
  }
}
