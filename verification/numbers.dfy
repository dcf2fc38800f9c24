/** Float64 arithmetic as the analyzer uses it: exact reals, plus the
    non-finite values numpy produces when a quotient has a zero denominator,
    and Python's `round(x, digits)` (round half to even). */
module Numbers {
  import opened Wrappers

  /** A float64 value: a finite real or one of IEEE 754's non-finite values. */
  datatype Num = Fin(v: real) | PosInf | NegInf | NaN

  /** numpy's `a / b` for finite operands: a finite quotient, or
      +inf / -inf / nan when the denominator is zero. */
  function Quotient(a: real, b: real): (q: Num)
    ensures q.Fin? <==> b != 0.0
    ensures q.Fin? ==> q.v * b == a
    ensures q == NaN <==> a == 0.0 && b == 0.0
    ensures q == PosInf <==> a > 0.0 && b == 0.0
    ensures q == NegInf <==> a < 0.0 && b == 0.0
  {
    if b != 0.0 then Fin(a / b)
    else if a > 0.0 then PosInf
    else if a < 0.0 then NegInf
    else NaN
  }

  /** `x * k` for a positive constant `k`: infinities and nan are unchanged. */
  function Scale(x: Num, k: real): (r: Num)
    requires k > 0.0
    ensures r.Fin? <==> x.Fin?
    ensures !x.Fin? ==> r == x
    ensures x.Fin? ==> r.v / k == x.v
  {
    if x.Fin? then Fin(x.v * k) else x
  }

  /** IEEE 754 addition. */
  function Add(x: Num, y: Num): (r: Num)
    ensures r.Fin? <==> x.Fin? && y.Fin?
    ensures x.Fin? && y.Fin? ==> r.v - y.v == x.v
    ensures r == NaN <==> x == NaN || y == NaN || (x == PosInf && y == NegInf) || (x == NegInf && y == PosInf)
  {
    if x.Fin? && y.Fin? then Fin(x.v + y.v)
    else if x == NaN || y == NaN then NaN
    else if (x == PosInf && y == NegInf) || (x == NegInf && y == PosInf) then NaN
    else if x == PosInf || y == PosInf then PosInf
    else NegInf
  }

  /** IEEE 754 negation. */
  function Negate(x: Num): (r: Num)
    ensures r.Fin? <==> x.Fin?
    ensures r == NaN <==> x == NaN
    ensures x.Fin? ==> r.v + x.v == 0.0
  {
    match x
    case Fin(v) => Fin(-v)
    case PosInf => NegInf
    case NegInf => PosInf
    case NaN => NaN
  }

  /** IEEE 754 subtraction. */
  function Sub(x: Num, y: Num): (r: Num)
    ensures r.Fin? <==> x.Fin? && y.Fin?
    ensures x.Fin? && y.Fin? ==> r.v + y.v == x.v
  {
    Add(x, Negate(y))
  }

  /** The integer nearest to `x`; a tie goes to the even neighbour
      (Python's `round(x)` and numpy's `rint` on an exact value). */
  function RoundHalfEven(x: real): (n: int)
    ensures x - 0.5 <= n as real <= x + 0.5
    ensures n as real == x - 0.5 || n as real == x + 0.5 ==> n % 2 == 0
  {
    var f := x.Floor;
    var frac := x - f as real;
    if frac < 0.5 then f
    else if frac > 0.5 then f + 1
    else if f % 2 == 0 then f
    else f + 1
  }

  /** The two properties in `RoundHalfEven`'s contract pin the result down:
      no other integer has them. */
  lemma RoundHalfEvenUnique(x: real, m: int)
    requires x - 0.5 <= m as real <= x + 0.5
    requires m as real == x - 0.5 || m as real == x + 0.5 ==> m % 2 == 0
    ensures m == RoundHalfEven(x)
  {
  }

  lemma RoundHalfEvenMonotone(x: real, y: real)
    requires x <= y
    ensures RoundHalfEven(x) <= RoundHalfEven(y)
  {
  }

  /** Scales for the number of decimal places kept by `round(x, digits)`:
      `round(x, 0)`, `round(x, 1)` and `round(x, 2)`. */
  const Units: real := 1.0
  const Tenths: real := 10.0
  const Hundredths: real := 100.0

  /** Python's `round(x, digits)` on the exact value `x`, where `scale` is
      10 to the power `digits`: the multiple of `1 / scale` nearest to `x`. */
  function Round(x: real, scale: real): (r: real)
    requires scale > 0.0
    ensures r * scale == RoundHalfEven(x * scale) as real
  {
    DivideThenMultiply(RoundHalfEven(x * scale) as real, scale);
    RoundHalfEven(x * scale) as real / scale
  }

  lemma DivideThenMultiply(a: real, p: real)
    requires p > 0.0
    ensures (a / p) * p == a
  {
  }

  /** The rounded value lies within half a unit of the last kept digit. */
  lemma RoundIsNearest(x: real, scale: real)
    requires scale > 0.0
    ensures (x - Round(x, scale)) * scale <= 0.5
    ensures (Round(x, scale) - x) * scale <= 0.5
  {
    var n := RoundHalfEven(x * scale);
    assert (x - Round(x, scale)) * scale == x * scale - n as real;
    assert (Round(x, scale) - x) * scale == n as real - x * scale;
  }

  lemma RoundMonotone(x: real, y: real, scale: real)
    requires x <= y && scale > 0.0
    ensures Round(x, scale) <= Round(y, scale)
  {
    assert x * scale <= y * scale;
    RoundHalfEvenMonotone(x * scale, y * scale);
  }

  /** The relative change from `from` to `to` in percent, `round((to - from)
      / from * 100, 1)`, computed only when `from` is positive. */
  function ChangePct(from: real, to: real): (r: Option<real>)
    ensures r.Some? <==> from > 0.0
  {
    if from > 0.0 then Some(Round((to - from) / from * 100.0, Tenths)) else None
  }

  /** The relative change, when present, agrees in sign with `to - from` and
      lies within 0.05 of the exact percentage. */
  lemma ChangePctMeaning(from: real, to: real)
    requires from > 0.0
    ensures var c := ChangePct(from, to).value;
      && (to > from ==> c >= 0.0)
      && (to < from ==> c <= 0.0)
      && (to == from ==> c == 0.0)
      && -0.05 <= c - (to - from) / from * 100.0 <= 0.05
  {
    var x := (to - from) / from * 100.0;
    assert Round(0.0, Tenths) == 0.0 by { RoundHalfEvenUnique(0.0, 0); }
    if to > from {
      assert x > 0.0;
      RoundMonotone(0.0, x, Tenths);
    } else if to < from {
      assert x < 0.0;
      RoundMonotone(x, 0.0, Tenths);
    } else {
      assert x == 0.0;
    }
    RoundIsNearest(x, Tenths);
  }
  /** A computed relative change agrees in sign with the difference. */
  lemma ChangeSigns(from: real, to: real)
    ensures ChangePct(from, to).Some? ==>
      var c := ChangePct(from, to).value;
      && (to > from ==> c >= 0.0)
      && (to < from ==> c <= 0.0)
      && (to == from ==> c == 0.0)
  {
    if from > 0.0 {
      ChangePctMeaning(from, to);
    }
  }


  /** `round(x, digits)` lifted to float64: a non-finite value is that value. */
  function RoundNum(x: Num, scale: real): (r: Num)
    requires scale > 0.0
    ensures r.Fin? <==> x.Fin?
    ensures !x.Fin? ==> r == x
    ensures x.Fin? ==> r.v * scale == RoundHalfEven(x.v * scale) as real
  {
    if x.Fin? then Fin(Round(x.v, scale)) else x
  }

  /** The analyzer's percentage metric `round((a / b) * 100, 1)`. */
  function Percent(a: real, b: real): (r: Num)
    ensures r.Fin? <==> b != 0.0
    ensures b == 0.0 ==> r == Quotient(a, b)
    ensures b != 0.0 ==> r.v == Round(a / b * 100.0, Tenths)
  {
    RoundNum(Scale(Quotient(a, b), 100.0), Tenths)
  }

  /** A percentage of a larger part of a positive whole is at least the
      percentage of a smaller part. */
  lemma PercentMonotone(a: real, a': real, b: real)
    requires a <= a' && b > 0.0
    ensures Percent(a, b).Fin? && Percent(a', b).Fin?
    ensures Percent(a, b).v <= Percent(a', b).v
  {
    assert a / b * 100.0 <= a' / b * 100.0;
    RoundMonotone(a / b * 100.0, a' / b * 100.0, Tenths);
  }

  /** The same non-negative part is a smaller percentage of a larger whole. */
  lemma PercentOfLargerWhole(a: real, small: real, large: real)
    requires a >= 0.0 && 0.0 < small <= large
    ensures Percent(a, large).Fin? && Percent(a, small).Fin?
    ensures Percent(a, large).v <= Percent(a, small).v
  {
    assert a / large <= a / small;
    RoundMonotone(a / large * 100.0, a / small * 100.0, Tenths);
  }
}
