/** `DataFrame.sort_values`: the analyzers work on a sorted copy of the table. */
module Sorting {
  import opened Table

  /** The two orders the analyzers use: by value, largest first
      (`sort_values(value, ascending=False)`), and by date, earliest first
      (`sort_values(date)`). */
  datatype Order = ValueDescending | KeyAscending

  /** Where a row goes in an order: rows with a smaller rank come first. */
  function Rank(o: Order, r: Row): real
  {
    match o
    case ValueDescending => -r.value
    case KeyAscending => r.key as real
  }

  predicate Sorted(o: Order, s: seq<Row>)
  {
    forall i, j :: 0 <= i < j < |s| ==> Rank(o, s[i]) <= Rank(o, s[j])
  }

  /** `t` is the table `rows` sorted in order `o`: one of the copies
      `sort_values` may return. */
  predicate Arrangement(o: Order, rows: seq<Row>, t: seq<Row>)
  {
    Sorted(o, t) && multiset(t) == multiset(rows)
  }

  /** A non-increasing sequence of numbers. */
  predicate NonIncreasing(s: seq<real>)
  {
    forall i, j :: 0 <= i < j < |s| ==> s[i] >= s[j]
  }

  lemma SortedByValueIsNonIncreasing(s: seq<Row>)
    requires Sorted(ValueDescending, s)
    ensures NonIncreasing(Values(s))
  {
  }

  /** Inserting a row into a sorted table keeps it sorted and keeps every row. */
  function Insert(o: Order, r: Row, s: seq<Row>): (t: seq<Row>)
    requires Sorted(o, s)
    ensures Sorted(o, t)
    ensures multiset(t) == multiset(s) + multiset{r}
  {
    if |s| == 0 then [r]
    else if Rank(o, r) <= Rank(o, s[0]) then [r] + s
    else
      var rest := Insert(o, r, s[1..]);
      assert s == [s[0]] + s[1..];
      RankBound(o, s[0], rest, r, s[1..]);
      [s[0]] + rest
  }

  /** A lower bound on the ranks of `s` and of `r` bounds every rank in a
      permutation of `s` with `r` added. */
  lemma RankBound(o: Order, x: Row, t: seq<Row>, r: Row, s: seq<Row>)
    requires multiset(t) == multiset(s) + multiset{r}
    requires Rank(o, x) <= Rank(o, r)
    requires forall k :: 0 <= k < |s| ==> Rank(o, x) <= Rank(o, s[k])
    ensures forall k :: 0 <= k < |t| ==> Rank(o, x) <= Rank(o, t[k])
  {
    forall k | 0 <= k < |t|
      ensures Rank(o, x) <= Rank(o, t[k])
    {
      assert t[k] in multiset(t);
      if t[k] != r {
        assert t[k] in multiset(s);
      }
    }
  }

  /** The sorted copy. pandas' default sort is not stable, so only the order
      and the multiset of rows are promised, not where equal-ranked rows go. */
  function Sort(o: Order, s: seq<Row>): (t: seq<Row>)
    ensures Sorted(o, t)
    ensures multiset(t) == multiset(s)
    ensures |t| == |s|
  {
    if |s| == 0 then []
    else
      assert s == [s[0]] + s[1..];
      Insert(o, s[0], Sort(o, s[1..]))
  }

  /** A non-increasing arrangement of a multiset of numbers is unique. */
  lemma {:induction false} NonIncreasingUnique(a: seq<real>, b: seq<real>)
    requires NonIncreasing(a) && NonIncreasing(b)
    requires multiset(a) == multiset(b)
    ensures a == b
    decreases |a|
  {
    assert |a| == |multiset(a)| == |multiset(b)| == |b|;
    if |a| > 0 {
      assert a == [a[0]] + a[1..];
      assert b == [b[0]] + b[1..];
      HeadsAgree(a, b);
      assert multiset(a[1..]) == multiset(a) - multiset{a[0]};
      assert multiset(b[1..]) == multiset(b) - multiset{b[0]};
      NonIncreasingUnique(a[1..], b[1..]);
    }
  }

  /** Two non-increasing arrangements of one multiset start with the same element. */
  lemma HeadsAgree(a: seq<real>, b: seq<real>)
    requires |a| > 0 && |b| > 0
    requires NonIncreasing(a) && NonIncreasing(b)
    requires multiset(a) == multiset(b)
    ensures a[0] == b[0]
  {
    assert b[0] in multiset(a);
    assert a[0] in multiset(b);
  }

  /** Whatever order pandas leaves tied rows in, any two largest-first
      arrangements of the same table have the same value column; only the
      labels of tied rows can differ. */
  lemma TiesDoNotChangeValues(s: seq<Row>, t: seq<Row>)
    requires Sorted(ValueDescending, s) && Sorted(ValueDescending, t)
    requires multiset(s) == multiset(t)
    ensures Values(s) == Values(t)
  {
    ValuesPermutation(s, t);
    NonIncreasingUnique(Values(s), Values(t));
  }

  /** In any largest-first arrangement the first row holds the column's
      maximum, the last row its minimum, and the sum is unchanged. */
  lemma ValueArrangementExtremes(rows: seq<Row>, t: seq<Row>)
    requires |rows| > 0 && Arrangement(ValueDescending, rows, t)
    ensures |t| == |rows|
    ensures t[0].value == Max(Values(rows))
    ensures t[|t| - 1].value == Min(Values(rows))
    ensures Sum(Values(t)) == Sum(Values(rows))
  {
    assert |t| == |multiset(t)| == |multiset(rows)| == |rows|;
    ValuesPermutation(t, rows);
    SumPermutation(Values(t), Values(rows));
    SortedByValueIsNonIncreasing(t);
    FirstIsMax(Values(t), Values(rows));
    LastIsMin(Values(t), Values(rows));
  }

  /** The first element of a non-increasing permutation is the maximum. */
  lemma FirstIsMax(vs: seq<real>, ws: seq<real>)
    requires |ws| > 0 && NonIncreasing(vs) && multiset(vs) == multiset(ws)
    ensures |vs| > 0 && vs[0] == Max(ws)
  {
    var hi := Max(ws);
    assert hi in multiset(vs);
    assert vs[0] in multiset(ws);
  }

  /** The last element of a non-increasing permutation is the minimum. */
  lemma LastIsMin(vs: seq<real>, ws: seq<real>)
    requires |ws| > 0 && NonIncreasing(vs) && multiset(vs) == multiset(ws)
    ensures |vs| > 0 && vs[|vs| - 1] == Min(ws)
  {
    var lo := Min(ws);
    assert lo in multiset(vs);
    assert vs[|vs| - 1] in multiset(ws);
  }

  /** In a non-increasing column the first value is the maximum, the last
      the minimum, and the first is at least the second. */
  lemma NonIncreasingEnds(vs: seq<real>)
    ensures |vs| > 0 && NonIncreasing(vs) ==>
      && vs[0] == Max(vs) && vs[|vs| - 1] == Min(vs)
      && (|vs| >= 2 ==> vs[0] >= vs[1])
  {
    if |vs| > 0 && NonIncreasing(vs) {
      FirstIsMax(vs, vs);
      LastIsMin(vs, vs);
    }
  }
}
