/** The analyzer's input table and the column statistics pandas computes on it. */
module Table {
  import opened Numbers

  /** One row of the table. `name` is the x-axis cell as `str()` renders it
      (category name or date); `key` is that cell's position in its column's
      natural order (a date as a day number), used only when sorting by date;
      `value` is the y-axis cell. */
  datatype Row = Row(name: string, key: int, value: real)

  /** The exceptions an analysis can raise: `IndexError` from `.iloc[0]` on an
      empty table, and `ZeroDivisionError` from a plain Python division. */
  datatype Error = EmptyTable | ZeroDivision

  /** The value column. */
  function Values(rows: seq<Row>): (vs: seq<real>)
    ensures |vs| == |rows|
    ensures forall i :: 0 <= i < |rows| ==> vs[i] == rows[i].value
  {
    seq(|rows|, i requires 0 <= i < |rows| => rows[i].value)
  }

  /** The label column. */
  function Labels(rows: seq<Row>): (ls: seq<string>)
    ensures |ls| == |rows|
    ensures forall i :: 0 <= i < |rows| ==> ls[i] == rows[i].name
  {
    seq(|rows|, i requires 0 <= i < |rows| => rows[i].name)
  }

  /** Reordering rows reorders the value column the same way. */
  lemma {:induction false} ValuesPermutation(a: seq<Row>, b: seq<Row>)
    requires multiset(a) == multiset(b)
    ensures multiset(Values(a)) == multiset(Values(b))
    decreases |a|
  {
    if |a| > 0 {
      var j := PermutationHead(a, b);
      ValuesPermutation(a[1..], b[..j] + b[j+1..]);
      ValuesWithout(b, j);
      assert Values(a) == [a[0].value] + Values(a[1..]);
      assert multiset(Values(a)) == multiset{a[0].value} + multiset(Values(a[1..]));
    } else {
      assert b == [];
    }
  }

  /** Taking row `j` out of a table takes its value out of the value column. */
  lemma ValuesWithout(b: seq<Row>, j: nat)
    requires j < |b|
    ensures multiset(Values(b)) == multiset(Values(b[..j] + b[j+1..])) + multiset{b[j].value}
  {
    var vs := Values(b);
    assert Values(b[..j] + b[j+1..]) == vs[..j] + vs[j+1..];
    MultisetWithout(vs, j);
  }

  lemma MultisetWithout<T>(s: seq<T>, j: nat)
    requires j < |s|
    ensures multiset(s) == multiset(s[..j] + s[j+1..]) + multiset{s[j]}
  {
    assert s == s[..j] + [s[j]] + s[j+1..];
  }

  /** An element of one permutation sits somewhere in the other; removing it
      from both leaves permutations again. */
  lemma PermutationHead<T>(a: seq<T>, b: seq<T>) returns (j: nat)
    requires |a| > 0 && multiset(a) == multiset(b)
    ensures j < |b| && b[j] == a[0]
    ensures multiset(a[1..]) == multiset(b[..j] + b[j+1..])
  {
    assert a == [a[0]] + a[1..];
    assert a[0] in multiset(b);
    j :| 0 <= j < |b| && b[j] == a[0];
    assert b == b[..j] + [b[j]] + b[j+1..];
    assert multiset(b) == multiset(b[..j]) + multiset{b[j]} + multiset(b[j+1..]);
    assert multiset(a) == multiset{a[0]} + multiset(a[1..]);
    assert multiset(b[..j] + b[j+1..]) == multiset(b[..j]) + multiset(b[j+1..]);
    assert multiset(a[1..]) == multiset(a) - multiset{a[0]};
  }

  /** `Series.sum()`. */
  function Sum(s: seq<real>): real
  {
    if |s| == 0 then 0.0 else s[0] + Sum(s[1..])
  }

  lemma {:induction false} SumAppend(a: seq<real>, b: seq<real>)
    ensures Sum(a + b) == Sum(a) + Sum(b)
  {
    if |a| > 0 {
      assert (a + b)[1..] == a[1..] + b;
      SumAppend(a[1..], b);
    } else {
      assert a + b == b;
    }
  }

  /** Each value of a non-negative column is at most the column's sum. */
  lemma {:induction false} SumAtLeastEach(s: seq<real>)
    ensures (forall i :: 0 <= i < |s| ==> s[i] >= 0.0) ==> forall i :: 0 <= i < |s| ==> s[i] <= Sum(s)
  {
    if |s| > 0 && forall i :: 0 <= i < |s| ==> s[i] >= 0.0 {
      SumAtLeastEach(s[1..]);
      assert Sum(s[1..]) >= 0.0 by {
        if |s| > 1 { assert s[1..][0] <= Sum(s[1..]); }
      }
    }
  }

  /** The sum does not depend on the order of the rows. */
  lemma {:induction false} SumPermutation(a: seq<real>, b: seq<real>)
    requires multiset(a) == multiset(b)
    ensures Sum(a) == Sum(b)
    decreases |a|
  {
    if |a| > 0 {
      var j := PermutationHead(a, b);
      SumPermutation(a[1..], b[..j] + b[j+1..]);
      SumAppend(b[..j], b[j+1..]);
      SumAppend(b[..j], [b[j]] + b[j+1..]);
      assert b == b[..j] + ([b[j]] + b[j+1..]);
      assert ([b[j]] + b[j+1..])[1..] == b[j+1..];
    } else {
      assert b == [];
    }
  }

  /** The mean of values that are all at least `lo` is at least `lo`. */
  lemma {:induction false} MeanAtLeast(s: seq<real>, lo: real)
    requires |s| > 0
    requires forall i :: 0 <= i < |s| ==> lo <= s[i]
    ensures lo <= Sum(s) / |s| as real
  {
    SumAtLeast(s, lo);
  }

  /** The mean of values that are all at most `hi` is at most `hi`. */
  lemma {:induction false} MeanAtMost(s: seq<real>, hi: real)
    requires |s| > 0
    requires forall i :: 0 <= i < |s| ==> s[i] <= hi
    ensures Sum(s) / |s| as real <= hi
  {
    SumAtMost(s, hi);
  }

  lemma {:induction false} SumAtLeast(s: seq<real>, lo: real)
    requires forall i :: 0 <= i < |s| ==> lo <= s[i]
    ensures |s| as real * lo <= Sum(s)
  {
    if |s| > 0 {
      SumAtLeast(s[1..], lo);
      assert |s| as real * lo == lo + (|s| - 1) as real * lo;
    }
  }

  lemma {:induction false} SumAtMost(s: seq<real>, hi: real)
    requires forall i :: 0 <= i < |s| ==> s[i] <= hi
    ensures Sum(s) <= |s| as real * hi
  {
    if |s| > 0 {
      SumAtMost(s[1..], hi);
      assert |s| as real * hi == hi + (|s| - 1) as real * hi;
    }
  }

  /** The largest element. */
  function Max(s: seq<real>): (m: real)
    requires |s| > 0
    ensures m in s
    ensures forall i :: 0 <= i < |s| ==> s[i] <= m
  {
    if |s| == 1 then s[0]
    else
      var rest := Max(s[1..]);
      if s[0] >= rest then s[0] else rest
  }

  /** The smallest element. */
  function Min(s: seq<real>): (m: real)
    requires |s| > 0
    ensures m in s
    ensures forall i :: 0 <= i < |s| ==> m <= s[i]
  {
    if |s| == 1 then s[0]
    else
      var rest := Min(s[1..]);
      if s[0] <= rest then s[0] else rest
  }

  /** `Series.mean()`: nan for an empty column. */
  function Mean(s: seq<real>): (m: Num)
    ensures m.Fin? <==> |s| > 0
    ensures |s| > 0 ==> m.v * |s| as real == Sum(s)
  {
    if |s| == 0 then NaN else Fin(Sum(s) / |s| as real)
  }

  /** The mean of a non-empty column lies between its smallest and largest element. */
  lemma MeanBetweenExtremes(s: seq<real>)
    ensures |s| > 0 ==> Min(s) <= Mean(s).v <= Max(s)
  {
    if |s| > 0 {
      MeanAtLeast(s, Min(s));
      MeanAtMost(s, Max(s));
    }
  }

  /** How many elements are at most `m`. */
  function CountAtMost(s: seq<real>, m: real): (c: nat)
    ensures c <= |s|
  {
    if |s| == 0 then 0 else (if s[0] <= m then 1 else 0) + CountAtMost(s[1..], m)
  }

  /** How many elements are at least `m`. */
  function CountAtLeast(s: seq<real>, m: real): (c: nat)
    ensures c <= |s|
  {
    if |s| == 0 then 0 else (if s[0] >= m then 1 else 0) + CountAtLeast(s[1..], m)
  }

  lemma {:induction false} CountAppend(a: seq<real>, b: seq<real>, m: real)
    ensures CountAtMost(a + b, m) == CountAtMost(a, m) + CountAtMost(b, m)
    ensures CountAtLeast(a + b, m) == CountAtLeast(a, m) + CountAtLeast(b, m)
  {
    if |a| > 0 {
      assert (a + b)[1..] == a[1..] + b;
      CountAppend(a[1..], b, m);
    } else {
      assert a + b == b;
    }
  }

  /** Counts do not depend on the order of the elements. */
  lemma {:induction false} CountPermutation(a: seq<real>, b: seq<real>, m: real)
    requires multiset(a) == multiset(b)
    ensures CountAtMost(a, m) == CountAtMost(b, m)
    ensures CountAtLeast(a, m) == CountAtLeast(b, m)
    decreases |a|
  {
    if |a| > 0 {
      var j := PermutationHead(a, b);
      CountPermutation(a[1..], b[..j] + b[j+1..], m);
      CountAppend(b[..j], b[j+1..], m);
      CountAppend(b[..j], [b[j]] + b[j+1..], m);
      assert b == b[..j] + ([b[j]] + b[j+1..]);
      assert ([b[j]] + b[j+1..])[1..] == b[j+1..];
    } else {
      assert b == [];
    }
  }

  /** Every element of a non-increasing run is counted when it is at least (resp. at
      most) the bound. */
  lemma {:induction false} CountAllAtLeast(s: seq<real>, m: real)
    requires forall i :: 0 <= i < |s| ==> s[i] >= m
    ensures CountAtLeast(s, m) == |s|
  {
    if |s| > 0 {
      CountAllAtLeast(s[1..], m);
    }
  }

  lemma {:induction false} CountAllAtMost(s: seq<real>, m: real)
    requires forall i :: 0 <= i < |s| ==> s[i] <= m
    ensures CountAtMost(s, m) == |s|
  {
    if |s| > 0 {
      CountAllAtMost(s[1..], m);
    }
  }

  /** `Series.idxmax()` on a freshly numbered series: the first position of the largest value. */
  function FirstMaxIndex(s: seq<real>): (i: nat)
    requires |s| > 0
    ensures i < |s|
    ensures forall j :: 0 <= j < |s| ==> s[j] <= s[i]
    ensures forall j :: 0 <= j < i ==> s[j] < s[i]
  {
    if |s| == 1 then 0
    else
      var k := FirstMaxIndex(s[..|s| - 1]);
      if s[|s| - 1] > s[k] then |s| - 1 else k
  }

  /** `Series.idxmin()` on a freshly numbered series: the first position of the smallest value. */
  function FirstMinIndex(s: seq<real>): (i: nat)
    requires |s| > 0
    ensures i < |s|
    ensures forall j :: 0 <= j < |s| ==> s[i] <= s[j]
    ensures forall j :: 0 <= j < i ==> s[i] < s[j]
  {
    if |s| == 1 then 0
    else
      var k := FirstMinIndex(s[..|s| - 1]);
      if s[|s| - 1] < s[k] then |s| - 1 else k
  }
}
