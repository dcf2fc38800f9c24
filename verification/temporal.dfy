/** The temporal analyzer (`_analisar_temporal`), used for line charts:
    trend, growth, peak and trough, period-over-period change and the
    acceleration of the second half of the series over the first. */
module Temporal {
  import opened Wrappers
  import opened Numbers
  import opened Table
  import opened Sorting

  /** `tendencia`. */
  datatype Trend = Rising | Falling | Flat
  {
    function Name(): string
    {
      match this
      case Rising => "crescente"
      case Falling => "decrescente"
      case Flat => "estável"
    }
  }

  /** `comportamento_temporal`. */
  datatype Pace = Accelerating | Decelerating | Steady
  {
    function Name(): string
    {
      match this
      case Accelerating => "aceleração no segundo período"
      case Decelerating => "desaceleração no segundo período"
      case Steady => "ritmo constante"
    }
  }

  /** The temporal metrics; `Option` fields are keys present only when `Some`. */
  datatype TemporalMetrics = TemporalMetrics(
    periods: nat,                     // num_periodos
    firstValue: real,                 // valor_inicial
    lastValue: real,                  // valor_final
    trend: Trend,                     // tendencia
    growthPct: Option<real>,          // taxa_crescimento_pct
    peakValue: real,                  // pico_valor
    peakPeriod: string,               // pico_periodo
    troughValue: real,                // vale_valor
    troughPeriod: string,             // vale_periodo
    amplitude: real,                  // amplitude
    amplitudePct: Option<real>,       // amplitude_pct
    meanChangePct: Option<Num>,       // variacao_media_pct
    accelerationPct: Option<real>,    // aceleracao_segunda_metade_pct
    pace: Option<Pace>                // comportamento_temporal
  )

  /** Every key the analyzer can emit. */
  const AllKeys: set<string> := {"num_periodos", "valor_inicial", "valor_final", "tendencia", "pico_valor",
    "pico_periodo", "vale_valor", "vale_periodo", "amplitude", "taxa_crescimento_pct",
    "amplitude_pct", "variacao_media_pct", "volatilidade", "aceleracao_segunda_metade_pct",
    "comportamento_temporal"}

  /** The names of the keys the metrics put in the result mapping.
      `volatilidade` is written together with `variacao_media_pct`; its
      value is not modelled. */
  function Keys(m: TemporalMetrics): (ks: set<string>)
    ensures ks <= AllKeys
  {
    {"num_periodos", "valor_inicial", "valor_final", "tendencia", "pico_valor",
     "pico_periodo", "vale_valor", "vale_periodo", "amplitude"}
    + (if m.growthPct.Some? then {"taxa_crescimento_pct"} else {})
    + (if m.amplitudePct.Some? then {"amplitude_pct"} else {})
    + (if m.meanChangePct.Some? then {"variacao_media_pct", "volatilidade"} else {})
    + (if m.accelerationPct.Some? then {"aceleracao_segunda_metade_pct"} else {})
    + (if m.pace.Some? then {"comportamento_temporal"} else {})
  }

  /** The trend of a series that starts at `first` and ends at `last`. */
  function TrendOf(first: real, last: real): (t: Trend)
    ensures t == Rising <==> last > first
    ensures t == Falling <==> last < first
    ensures t == Flat <==> last == first
  {
    if last > first then Rising
    else if last < first then Falling
    else Flat
  }

  /** The label for an (unrounded) acceleration, with fixed +/-10 thresholds. */
  function PaceOf(acceleration: real): (p: Pace)
    ensures p.Name() == "aceleração no segundo período" <==> acceleration > 10.0
    ensures p.Name() == "desaceleração no segundo período" <==> acceleration < -10.0
    ensures p.Name() == "ritmo constante" <==> -10.0 <= acceleration <= 10.0
  {
    if acceleration > 10.0 then Accelerating
    else if acceleration < -10.0 then Decelerating
    else Steady
  }

  /** `Series.pct_change()` without its leading nan: entry `i` is
      `vs[i + 1] / vs[i] - 1`, a non-finite float when `vs[i]` is zero. */
  function Changes(vs: seq<real>): (cs: seq<Num>)
    requires |vs| > 0
    ensures |cs| == |vs| - 1
    ensures forall i :: 0 <= i < |cs| ==> cs[i] == Sub(Quotient(vs[i + 1], vs[i]), Fin(1.0))
  {
    seq(|vs| - 1, i requires 0 <= i < |vs| - 1 => Sub(Quotient(vs[i + 1], vs[i]), Fin(1.0)))
  }

  /** `dropna()`: the entries that are not nan, each as often as it occurs.
      `DropNaNAppend` shows that the order is kept. */
  function DropNaN(cs: seq<Num>): (kept: seq<Num>)
    ensures |kept| <= |cs|
    ensures forall i :: 0 <= i < |kept| ==> kept[i] != NaN
    ensures multiset(kept) == multiset(cs)[NaN := 0]
  {
    if |cs| == 0 then []
    else
      assert cs == [cs[0]] + cs[1..];
      if cs[0] == NaN then DropNaN(cs[1..])
      else [cs[0]] + DropNaN(cs[1..])
  }

  /** Dropping nan from a concatenation drops it from each part, so the kept
      entries stay in their original order. */
  lemma {:induction false} DropNaNAppend(a: seq<Num>, b: seq<Num>)
    ensures DropNaN(a + b) == DropNaN(a) + DropNaN(b)
  {
    if |a| > 0 {
      assert (a + b)[0] == a[0];
      assert (a + b)[1..] == a[1..] + b;
      DropNaNAppend(a[1..], b);
    } else {
      assert a + b == b;
    }
  }

  /** The float64 sum of a series. */
  function NumSum(cs: seq<Num>): Num
  {
    if |cs| == 0 then Fin(0.0) else Add(cs[0], NumSum(cs[1..]))
  }

  /** `Series.mean()` of a non-empty series without nan. */
  function NumMean(cs: seq<Num>): Num
    requires |cs| > 0
  {
    var total := NumSum(cs);
    if total.Fin? then Fin(total.v / |cs| as real) else total
  }

  /** `variacao_media_pct`: present when at least one change survives
      `dropna`, that is, unless every pair of consecutive values is `0, 0`
      (whose change `0/0 - 1` is nan). */
  function MeanChange(vs: seq<real>): (r: Option<Num>)
    ensures r.Some? <==> exists i :: ChangeDefined(vs, i)
  {
    if |vs| > 1 then
      var kept := DropNaN(Changes(vs));
      ChangesSurvive(vs);
      if |kept| > 0 then Some(RoundNum(Scale(NumMean(kept), 100.0), Tenths)) else None
    else None
  }

  /** The change from period `i` to `i + 1` is not nan: the two values are
      not both zero. */
  predicate ChangeDefined(vs: seq<real>, i: int)
  {
    0 <= i < |vs| - 1 && (vs[i] != 0.0 || vs[i + 1] != 0.0)
  }

  /** Some change survives `dropna` exactly when two consecutive values are
      not both zero. */
  lemma ChangesSurvive(vs: seq<real>)
    requires |vs| > 1
    ensures |DropNaN(Changes(vs))| > 0 <==> exists i :: ChangeDefined(vs, i)
  {
    var cs := Changes(vs);
    var kept := DropNaN(cs);
    if exists i :: ChangeDefined(vs, i) {
      var i :| ChangeDefined(vs, i);
      assert cs[i] != NaN;
      assert cs[i] in multiset(cs);
      assert multiset(kept)[cs[i]] > 0;
    }
    if |kept| > 0 {
      assert kept[0] in multiset(kept);
      assert kept[0] in multiset(cs);
      var i :| 0 <= i < |cs| && cs[i] == kept[0];
      assert ChangeDefined(vs, i);
    }
  }

  /** The exact period-over-period changes `vs[i + 1] / vs[i] - 1` of a series
      whose values before the last are all nonzero: the reference for
      `MeanChange`. */
  function Ratios(vs: seq<real>): (rs: seq<real>)
    requires |vs| > 0
    requires forall i :: 0 <= i < |vs| - 1 ==> vs[i] != 0.0
    ensures |rs| == |vs| - 1
    ensures forall i :: 0 <= i < |rs| ==> (rs[i] + 1.0) * vs[i] == vs[i + 1]
  {
    seq(|vs| - 1, i requires 0 <= i < |vs| - 1 => vs[i + 1] / vs[i] - 1.0)
  }

  /** The exact mean of `Ratios(vs)`, in percent. */
  function MeanRatioPct(vs: seq<real>): real
    requires |vs| > 1
    requires forall i :: 0 <= i < |vs| - 1 ==> vs[i] != 0.0
  {
    Sum(Ratios(vs)) / (|vs| - 1) as real * 100.0
  }

  /** Finite reals as float64 values. */
  function Fins(rs: seq<real>): (cs: seq<Num>)
    ensures |cs| == |rs|
    ensures forall i :: 0 <= i < |rs| ==> cs[i] == Fin(rs[i])
  {
    seq(|rs|, i requires 0 <= i < |rs| => Fin(rs[i]))
  }

  /** With no zero value before the last, the mean change is the rounded mean
      of the exact changes, in percent. */
  lemma MeanChangeOfNonzeroSeries(vs: seq<real>)
    requires |vs| > 1
    requires forall i :: 0 <= i < |vs| - 1 ==> vs[i] != 0.0
    ensures MeanChange(vs) == Some(Fin(Round(MeanRatioPct(vs), Tenths)))
  {
    var rs := Ratios(vs);
    var x := Sum(rs) / |rs| as real * 100.0;
    var y := RoundNum(Scale(NumMean(Fins(rs)), 100.0), Tenths);
    assert y == Fin(Round(x, Tenths)) by {
      MeanOfFinite(rs);
    }
    assert MeanChange(vs) == Some(y) by {
      MeanChangeOfExactChanges(vs);
    }
    assert MeanRatioPct(vs) == x;
  }

  /** With no zero value before the last, every change survives `dropna`
      and is the exact change. */
  lemma MeanChangeOfExactChanges(vs: seq<real>)
    requires |vs| > 1
    requires forall i :: 0 <= i < |vs| - 1 ==> vs[i] != 0.0
    ensures MeanChange(vs) == Some(RoundNum(Scale(NumMean(Fins(Ratios(vs))), 100.0), Tenths))
  {
    var rs := Ratios(vs);
    ChangesOfNonzeroSeries(vs);
    DropNaNKeepsFinite(Fins(rs));
    MeanChangeOfKept(vs, Fins(rs));
  }

  /** The mean change is the rounded mean of the changes `dropna` keeps. */
  lemma MeanChangeOfKept(vs: seq<real>, kept: seq<Num>)
    requires |vs| > 1 && DropNaN(Changes(vs)) == kept && |kept| > 0
    ensures MeanChange(vs) == Some(RoundNum(Scale(NumMean(kept), 100.0), Tenths))
  {
  }

  lemma ChangesOfNonzeroSeries(vs: seq<real>)
    requires |vs| > 1
    requires forall i :: 0 <= i < |vs| - 1 ==> vs[i] != 0.0
    ensures Changes(vs) == Fins(Ratios(vs))
  {
    var rs := Ratios(vs);
    forall i | 0 <= i < |rs|
      ensures Changes(vs)[i] == Fins(rs)[i]
    {
      assert Quotient(vs[i + 1], vs[i]) == Fin(vs[i + 1] / vs[i]);
    }
  }

  /** The float64 mean of finite values, rounded as `MeanChange` rounds it. */
  lemma MeanOfFinite(rs: seq<real>)
    requires |rs| > 0
    ensures RoundNum(Scale(NumMean(Fins(rs)), 100.0), Tenths) == Fin(Round(Sum(rs) / |rs| as real * 100.0, Tenths))
  {
    var mean := Sum(rs) / |rs| as real;
    assert NumMean(Fins(rs)) == Fin(mean) by { NumSumOfFinite(rs); }
    calc {
      RoundNum(Scale(NumMean(Fins(rs)), 100.0), Tenths);
      RoundNum(Scale(Fin(mean), 100.0), Tenths);
      { RoundOfPercent(mean); }
      Fin(Round(mean * 100.0, Tenths));
    }
  }

  lemma RoundOfPercent(m: real)
    ensures RoundNum(Scale(Fin(m), 100.0), Tenths) == Fin(Round(m * 100.0, Tenths))
  {
  }

  /** A zero value followed by a nonzero one makes a change infinite, and the
      mean change is then a non-finite float, not omitted. */
  lemma MeanChangeAfterZero(vs: seq<real>, i: nat)
    requires i + 1 < |vs| && vs[i] == 0.0 && vs[i + 1] != 0.0
    ensures MeanChange(vs).Some? && !MeanChange(vs).value.Fin?
  {
    var cs := Changes(vs);
    assert cs[i] != NaN && !cs[i].Fin?;
    var kept := DropNaN(cs);
    DropNaNKeeps(cs, i);
    MeanChangeOfKept(vs, kept);
    NumSumOfNonFinite(kept, cs[i]);
  }

  /** An entry that is not nan survives `dropna`. */
  lemma DropNaNKeeps(cs: seq<Num>, i: nat)
    requires i < |cs| && cs[i] != NaN
    ensures cs[i] in DropNaN(cs)
  {
    assert cs[i] in multiset(cs);
    assert multiset(DropNaN(cs))[cs[i]] == multiset(cs)[cs[i]];
  }

  lemma {:induction false} DropNaNKeepsFinite(cs: seq<Num>)
    requires forall i :: 0 <= i < |cs| ==> cs[i] != NaN
    ensures DropNaN(cs) == cs
  {
    if |cs| > 0 {
      DropNaNKeepsFinite(cs[1..]);
    }
  }

  lemma {:induction false} NumSumOfFinite(rs: seq<real>)
    ensures NumSum(Fins(rs)) == Fin(Sum(rs))
  {
    if |rs| > 0 {
      assert Fins(rs)[1..] == Fins(rs[1..]);
      NumSumOfFinite(rs[1..]);
    }
  }

  lemma {:induction false} NumSumOfNonFinite(cs: seq<Num>, x: Num)
    requires x in cs && !x.Fin?
    ensures !NumSum(cs).Fin?
  {
    if cs[0] != x {
      assert x in cs[1..];
      NumSumOfNonFinite(cs[1..], x);
    }
  }

  /** The means of the first half `[0, n / 2)` of the series and of the
      rest, the second half taking the odd period. */
  function HalfMeans(vs: seq<real>): (means: (real, real))
    requires |vs| >= 2
    ensures means.0 == Mean(vs[..|vs| / 2]).v && means.1 == Mean(vs[|vs| / 2..]).v
  {
    var half := |vs| / 2;
    (Sum(vs[..half]) / half as real, Sum(vs[half..]) / (|vs| - half) as real)
  }

  /** The unrounded growth of the second half's mean over the first half's, in
      percent: computed for at least six periods when the first half's mean
      is positive. */
  function Acceleration(vs: seq<real>): (a: Option<real>)
    ensures a.Some? <==> |vs| >= 6 && Mean(vs[..|vs| / 2]).v > 0.0
    ensures a.Some? ==>
      var m1, m2 := Mean(vs[..|vs| / 2]).v, Mean(vs[|vs| / 2..]).v;
      a.value * m1 == (m2 - m1) * 100.0
  {
    if |vs| >= 6 then
      var means := HalfMeans(vs);
      if means.0 > 0.0 then Some((means.1 - means.0) / means.0 * 100.0) else None
    else None
  }

  /** The metrics read off the earliest-first copy `t` of the table: the
      first and last values are those of its first and last rows, the peak
      and trough are its extremes, and the trend, growth, amplitude, mean
      change and pace follow their rules. */
  function Measure(t: seq<Row>): (m: TemporalMetrics)
    requires |t| > 0
    ensures m.periods == |t|
    ensures m.firstValue == t[0].value && m.lastValue == t[|t| - 1].value
    ensures m.peakValue == Max(Values(t)) && m.troughValue == Min(Values(t))
    ensures m.amplitude == m.peakValue - m.troughValue >= 0.0
    ensures TrendRules(m)
    ensures m.amplitudePct == ChangePct(m.troughValue, m.peakValue)
    ensures m.amplitudePct.Some? ==> m.amplitudePct.value >= 0.0
    ensures PaceRules(m)
    ensures |t| == 1 ==> m.meanChangePct == None
    ensures m.accelerationPct.Some? ==> |t| >= 6
  {
    var n := |t|;
    var vs := Values(t);
    var first := vs[0];
    var last := vs[n - 1];
    var iPeak := FirstMaxIndex(vs);
    var iTrough := FirstMinIndex(vs);
    var acceleration := Acceleration(vs);
    var m := TemporalMetrics(
      periods := n,
      firstValue := first,
      lastValue := last,
      trend := TrendOf(first, last),
      growthPct := ChangePct(first, last),
      peakValue := vs[iPeak],
      peakPeriod := t[iPeak].name,
      troughValue := vs[iTrough],
      troughPeriod := t[iTrough].name,
      amplitude := vs[iPeak] - vs[iTrough],
      amplitudePct := ChangePct(vs[iTrough], vs[iPeak]),
      meanChangePct := MeanChange(vs),
      accelerationPct := if acceleration.Some? then Some(Round(acceleration.value, Tenths)) else None,
      pace := if acceleration.Some? then Some(PaceOf(acceleration.value)) else None
    );
    ChangeSigns(first, last);
    ChangeSigns(vs[iTrough], vs[iPeak]);
    if acceleration.Some? then PaceRounding(acceleration.value); m else m
  }

  /** `_analisar_temporal`. An empty table raises `IndexError` at `.iloc[0]`. */
  function Analyze(rows: seq<Row>): (r: Result<TemporalMetrics, Error>)
    ensures r.Failure? <==> |rows| == 0
    ensures r.Failure? ==> r.error == EmptyTable
    ensures r.Success? ==> r.value.periods == |rows|
    ensures r.Success? ==> r.value.peakValue == Max(Values(rows)) && r.value.troughValue == Min(Values(rows))
    ensures r.Success? ==> r.value.amplitude == r.value.peakValue - r.value.troughValue >= 0.0
    ensures r.Success? ==> TrendRules(r.value)
    ensures r.Success? ==> r.value.amplitudePct == ChangePct(r.value.troughValue, r.value.peakValue)
    ensures r.Success? && r.value.amplitudePct.Some? ==> r.value.amplitudePct.value >= 0.0
    ensures r.Success? ==> PaceRules(r.value)
    ensures r.Success? && |rows| == 1 ==> r.value.meanChangePct == None
    ensures r.Success? && r.value.accelerationPct.Some? ==> |rows| >= 6
  {
    if |rows| == 0 then Failure(EmptyTable)
    else
      var t := Sort(KeyAscending, rows);
      MeasureOfDateOrder(rows, t);
      Success(Measure(t))
  }

  /** The trend compares the last value with the first; the growth rate is
      the relative change between them, present exactly when the first value
      is positive, and its sign agrees with the trend. */
  predicate TrendRules(m: TemporalMetrics)
  {
    && (m.trend == Rising <==> m.lastValue > m.firstValue)
    && (m.trend == Falling <==> m.lastValue < m.firstValue)
    && (m.trend == Flat <==> m.lastValue == m.firstValue)
    && m.growthPct == ChangePct(m.firstValue, m.lastValue)
    && (m.growthPct.Some? && m.trend == Rising ==> m.growthPct.value >= 0.0)
    && (m.growthPct.Some? && m.trend == Falling ==> m.growthPct.value <= 0.0)
    && (m.growthPct.Some? && m.trend == Flat ==> m.growthPct.value == 0.0)
  }

  /** The pace label comes with the acceleration figure, and the figure,
      rounded to one decimal, never contradicts the label. */
  predicate PaceRules(m: TemporalMetrics)
  {
    && (m.pace.Some? <==> m.accelerationPct.Some?)
    && (m.pace == Some(Accelerating) ==> m.accelerationPct.value >= 10.0)
    && (m.pace == Some(Decelerating) ==> m.accelerationPct.value <= -10.0)
    && (m.pace == Some(Steady) ==> -10.0 <= m.accelerationPct.value <= 10.0)
  }

  /** The facts `Analyze` promises, for the metrics of any permutation of the table. */
  lemma MeasureOfDateOrder(rows: seq<Row>, t: seq<Row>)
    requires |rows| > 0 && multiset(t) == multiset(rows)
    ensures |t| == |rows|
    ensures var m := Measure(t);
      && m.periods == |rows|
      && m.peakValue == Max(Values(rows)) && m.troughValue == Min(Values(rows))
      && m.amplitude == m.peakValue - m.troughValue >= 0.0
      && TrendRules(m)
      && m.amplitudePct == ChangePct(m.troughValue, m.peakValue)
      && (m.amplitudePct.Some? ==> m.amplitudePct.value >= 0.0)
      && PaceRules(m)
      && (|rows| == 1 ==> m.meanChangePct == None)
      && (m.accelerationPct.Some? ==> |rows| >= 6)
  {
    DateOrderExtremes(rows, t);
    ValuesPermutation(t, rows);
    var vs := Values(t);
    assert Max(vs) == vs[FirstMaxIndex(vs)] && Min(vs) == vs[FirstMinIndex(vs)];
  }

  /** The peak and trough of a date-ordered copy are the column's maximum and minimum. */
  lemma DateOrderExtremes(rows: seq<Row>, t: seq<Row>)
    requires |rows| > 0 && multiset(t) == multiset(rows)
    ensures |t| == |rows|
    ensures Values(t)[FirstMaxIndex(Values(t))] == Max(Values(rows))
    ensures Values(t)[FirstMinIndex(Values(t))] == Min(Values(rows))
  {
    assert |t| == |multiset(t)| == |multiset(rows)| == |rows|;
    ValuesPermutation(t, rows);
    var vs, ws := Values(t), Values(rows);
    assert forall i :: 0 <= i < |ws| ==> ws[i] in multiset(vs);
    var p, q := FirstMaxIndex(vs), FirstMinIndex(vs);
    assert vs[p] in multiset(ws) && vs[q] in multiset(ws);
    var hi, lo := Max(ws), Min(ws);
    assert hi in multiset(vs) && lo in multiset(vs);
  }

  /** The analysis reads the date-ordered copy that `Sort` returns. */
  lemma ReadsDateOrder(rows: seq<Row>)
    requires |rows| > 0
    ensures Analyze(rows) == Success(Measure(Sort(KeyAscending, rows)))
    ensures Arrangement(KeyAscending, rows, Sort(KeyAscending, rows))
  {
  }

  /** The first and last values, the trend between them, and the peak and
      trough at the first period where they occur, all read off the
      earliest-first arrangement of the table. */
  lemma PeriodsFromDateOrder(rows: seq<Row>)
    requires |rows| > 0
    ensures var m := Analyze(rows).value;
      var t := Sort(KeyAscending, rows);
      && Arrangement(KeyAscending, rows, t) && |t| == |rows|
      && m.firstValue == t[0].value
      && m.lastValue == t[|t| - 1].value
      && (exists i :: 0 <= i < |t| && t[i].name == m.peakPeriod && t[i].value == m.peakValue
            && forall j :: 0 <= j < i ==> t[j].value < m.peakValue)
      && (exists i :: 0 <= i < |t| && t[i].name == m.troughPeriod && t[i].value == m.troughValue
            && forall j :: 0 <= j < i ==> t[j].value > m.troughValue)
  {
    ReadsDateOrder(rows);
    var t := Sort(KeyAscending, rows);
    var p, q := MeasurePeriods(t);
  }

  lemma MeasurePeriods(t: seq<Row>) returns (p: nat, q: nat)
    requires |t| > 0
    ensures var m := Measure(t);
      && m.firstValue == t[0].value
      && m.lastValue == t[|t| - 1].value
      && p < |t| && t[p].name == m.peakPeriod && t[p].value == m.peakValue
      && (forall j :: 0 <= j < p ==> t[j].value < m.peakValue)
      && q < |t| && t[q].name == m.troughPeriod && t[q].value == m.troughValue
      && (forall j :: 0 <= j < q ==> t[j].value > m.troughValue)
  {
    var vs := Values(t);
    p, q := FirstMaxIndex(vs), FirstMinIndex(vs);
    assert forall j :: 0 <= j < |t| ==> t[j].value == vs[j];
  }

  /** The acceleration is present exactly when there are at least six periods
      and the first half `[0, n/2)` of the date-ordered values has a positive
      mean; it is then the rounded growth of the second half's mean over the
      first's, its label follows the unrounded value against fixed thresholds
      of +10 and -10, and the rounded figure never contradicts the label. */
  lemma AccelerationRule(rows: seq<Row>)
    requires |rows| > 0
    ensures var m := Analyze(rows).value;
      var n := |rows|;
      var vs := Values(Sort(KeyAscending, rows));
      var a := Acceleration(vs);
      && (m.accelerationPct.Some? <==> n >= 6 && Mean(vs[..n / 2]).v > 0.0)
      && (m.pace.Some? <==> m.accelerationPct.Some?)
      && (m.accelerationPct.Some? ==>
            && m.accelerationPct.value == Round(a.value, Tenths)
            && m.pace.value == PaceOf(a.value))
      && (m.pace == Some(Accelerating) ==> m.accelerationPct.value >= 10.0)
      && (m.pace == Some(Decelerating) ==> m.accelerationPct.value <= -10.0)
      && (m.pace == Some(Steady) ==> -10.0 <= m.accelerationPct.value <= 10.0)
  {
    ReadsDateOrder(rows);
    var vs := Values(Sort(KeyAscending, rows));
    var a := Acceleration(vs);
    if a.Some? {
      PaceRounding(a.value);
    }
  }

  /** The mean change is taken over the date-ordered values: absent for a
      single period; with no zero value before the last period it is the
      rounded mean of the exact changes; a zero followed by a nonzero value
      makes it a non-finite float rather than omitting it. */
  lemma MeanChangeRule(rows: seq<Row>)
    requires |rows| > 0
    ensures var m := Analyze(rows).value;
      var vs := Values(Sort(KeyAscending, rows));
      && (|rows| == 1 ==> m.meanChangePct == None)
      && ((|vs| > 1 && forall i :: 0 <= i < |vs| - 1 ==> vs[i] != 0.0) ==>
            m.meanChangePct == Some(Fin(Round(MeanRatioPct(vs), Tenths))))
      && (forall i :: 0 <= i < |vs| - 1 && vs[i] == 0.0 && vs[i + 1] != 0.0 ==>
            m.meanChangePct.Some? && !m.meanChangePct.value.Fin?)
  {
    ReadsDateOrder(rows);
    var vs := Values(Sort(KeyAscending, rows));
    assert Analyze(rows).value.meanChangePct == MeanChange(vs);
    MeanChangeFacts(vs);
  }

  lemma MeanChangeFacts(vs: seq<real>)
    ensures |vs| <= 1 ==> MeanChange(vs) == None
    ensures (|vs| > 1 && forall i :: 0 <= i < |vs| - 1 ==> vs[i] != 0.0) ==>
      MeanChange(vs) == Some(Fin(Round(MeanRatioPct(vs), Tenths)))
    ensures forall i :: 0 <= i < |vs| - 1 && vs[i] == 0.0 && vs[i + 1] != 0.0 ==>
      MeanChange(vs).Some? && !MeanChange(vs).value.Fin?
  {
    if |vs| > 1 && forall i :: 0 <= i < |vs| - 1 ==> vs[i] != 0.0 {
      MeanChangeOfNonzeroSeries(vs);
    }
    forall i | 0 <= i < |vs| - 1 && vs[i] == 0.0 && vs[i + 1] != 0.0
      ensures MeanChange(vs).Some? && !MeanChange(vs).value.Fin?
    {
      MeanChangeAfterZero(vs, i);
    }
  }

  /** Two months given out of order, 120 in February and 100 in January: the
      series is read January first, so it is rising with a growth of 20.0%,
      peak in February and trough in January. */
  lemma TwoMonthExample()
    ensures var m := Analyze([Row("2024-02", 2, 120.0), Row("2024-01", 1, 100.0)]).value;
      && m.firstValue == 100.0 && m.lastValue == 120.0
      && m.trend.Name() == "crescente"
      && m.growthPct == Some(20.0)
      && m.peakPeriod == "2024-02" && m.troughPeriod == "2024-01"
      && m.amplitude == 20.0 && m.amplitudePct == Some(20.0)
      && m.meanChangePct == Some(Fin(20.0))
      && m.accelerationPct == None && m.pace == None
  {
    var feb, jan := Row("2024-02", 2, 120.0), Row("2024-01", 1, 100.0);
    var rows := [feb, jan];
    assert Sort(KeyAscending, rows) == [jan, feb] by {
      assert Sort(KeyAscending, rows[1..]) == [jan];
    }
    ReadsDateOrder(rows);
    TwoMonthMeasure();
  }

  lemma TwoMonthMeasure()
    ensures var m := Measure([Row("2024-01", 1, 100.0), Row("2024-02", 2, 120.0)]);
      && m.firstValue == 100.0 && m.lastValue == 120.0
      && m.trend.Name() == "crescente"
      && m.growthPct == Some(20.0)
      && m.peakPeriod == "2024-02" && m.troughPeriod == "2024-01"
      && m.amplitude == 20.0 && m.amplitudePct == Some(20.0)
      && m.meanChangePct == Some(Fin(20.0))
      && m.accelerationPct == None && m.pace == None
  {
    var t := [Row("2024-01", 1, 100.0), Row("2024-02", 2, 120.0)];
    var vs := Values(t);
    assert vs == [100.0, 120.0];
    TwoMonthFigures(vs);
  }

  lemma TwoMonthFigures(vs: seq<real>)
    requires vs == [100.0, 120.0]
    ensures FirstMaxIndex(vs) == 1 && FirstMinIndex(vs) == 0
    ensures ChangePct(100.0, 120.0) == Some(20.0)
    ensures MeanChange(vs) == Some(Fin(20.0))
    ensures Acceleration(vs) == None
  {
    assert vs[..1] == [100.0];
    assert Round(20.0, Tenths) == 20.0 by { RoundHalfEvenUnique(200.0, 200); }
    MeanChangeOfNonzeroSeries(vs);
    assert Ratios(vs) == [0.2];
    assert Sum([0.2]) == 0.2 by { assert [0.2][1..] == []; }
    assert MeanRatioPct(vs) == 20.0;
  }

  /** The arithmetic behind the last part of `AccelerationRule`. */
  lemma PaceRounding(acceleration: real)
    ensures PaceOf(acceleration) == Accelerating ==> Round(acceleration, Tenths) >= 10.0
    ensures PaceOf(acceleration) == Decelerating ==> Round(acceleration, Tenths) <= -10.0
    ensures PaceOf(acceleration) == Steady ==> -10.0 <= Round(acceleration, Tenths) <= 10.0
  {
    assert Round(10.0, Tenths) == 10.0 by { RoundHalfEvenUnique(100.0, 100); }
    assert Round(-10.0, Tenths) == -10.0 by { RoundHalfEvenUnique(-100.0, -100); }
    if acceleration > 10.0 {
      RoundMonotone(10.0, acceleration, Tenths);
    } else if acceleration < -10.0 {
      RoundMonotone(acceleration, -10.0, Tenths);
    } else {
      RoundMonotone(-10.0, acceleration, Tenths);
      RoundMonotone(acceleration, 10.0, Tenths);
    }
  }
}
