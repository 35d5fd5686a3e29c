/**
 * The statistics behind the comparable value of history_store.py: windowed
 * means, the z-score's mean and variance, and `_percentile_rank`.
 */
module ValueTransformer {

  import opened Optional

  function Sum(s: seq<real>): real
    decreases |s|
  {
    if s == [] then 0.0 else s[0] + Sum(s[1..])
  }

  function Mean(s: seq<real>): real
    requires |s| > 0
  {
    Sum(s) / |s| as real
  }

  /** `s[-k:] if k > 0 else s`: the last k elements, or all of them. */
  function Lookback(s: seq<real>, k: int): (r: seq<real>)
    ensures |r| == (if 0 < k < |s| then k else |s|)
    ensures r == s[|s| - |r|..]
  {
    if 0 < k < |s| then s[|s| - k..] else s
  }

  function Square(x: real): real
  {
    x * x
  }

  /** `sum((v - m) ** 2 for v in s)`. */
  function SumSquares(s: seq<real>, m: real): real
    decreases |s|
  {
    if s == [] then 0.0 else Square(s[0] - m) + SumSquares(s[1..], m)
  }

  /** Population variance. */
  function Variance(s: seq<real>): real
    requires |s| > 0
  {
    SumSquares(s, Mean(s)) / |s| as real
  }

  predicate Constant(s: seq<real>)
  {
    forall i, j :: 0 <= i < |s| && 0 <= j < |s| ==> s[i] == s[j]
  }

  lemma SquarePositive(x: real)
    requires x != 0.0
    ensures Square(x) > 0.0
  {
    if x > 0.0 {
      calc { Square(x); == x * x; > 0.0; }
    } else {
      calc { Square(x); == (-x) * (-x); > 0.0; }
    }
  }

  /** A sum of squared deviations is never negative, and it is zero exactly when every value is the centre. */
  lemma {:induction false} SumSquaresZero(s: seq<real>, m: real)
    ensures SumSquares(s, m) >= 0.0
    ensures SumSquares(s, m) == 0.0 <==> forall i :: 0 <= i < |s| ==> s[i] == m
    decreases |s|
  {
    if s != [] {
      SumSquaresZero(s[1..], m);
      assert forall i :: 1 <= i < |s| ==> s[i] == s[1..][i - 1];
      if s[0] != m {
        SquarePositive(s[0] - m);
      }
    }
  }

  lemma {:induction false} SumConstant(s: seq<real>, c: real)
    requires forall i :: 0 <= i < |s| ==> s[i] == c
    ensures Sum(s) == |s| as real * c
    decreases |s|
  {
    if s != [] {
      SumConstant(s[1..], c);
    }
  }

  /** The mean of a constant sample is that constant. */
  lemma MeanConstant(s: seq<real>, c: real)
    requires |s| > 0
    requires forall i :: 0 <= i < |s| ==> s[i] == c
    ensures Mean(s) == c
  {
    SumConstant(s, c);
    DivideProduct(c, |s| as real);
  }

  lemma DivideProduct(c: real, n: real)
    requires n > 0.0
    ensures (n * c) / n == c
  {
  }

  lemma {:induction false} SumAppend(a: seq<real>, b: seq<real>)
    ensures Sum(a + b) == Sum(a) + Sum(b)
    decreases |a|
  {
    if a != [] {
      SumAppend(a[1..], b);
      assert (a + b)[0] == a[0];
      assert (a + b)[1..] == a[1..] + b;
    } else {
      assert a + b == b;
    }
  }

  /** The spread of a non-empty sample is never negative, and it is zero exactly when the sample is constant. */
  lemma ZeroVarianceIffConstant(s: seq<real>)
    requires |s| > 0
    ensures Variance(s) >= 0.0
    ensures Variance(s) == 0.0 <==> Constant(s)
  {
    var m := Mean(s);
    SumSquaresZero(s, m);
    if Constant(s) {
      SumConstant(s, s[0]);
      assert m == s[0];
    }
    if Variance(s) == 0.0 {
      assert SumSquares(s, m) == 0.0;
    }
  }

  /** The number of values strictly below `current`. */
  function CountLess(s: seq<real>, current: real): (n: nat)
    ensures n <= |s|
    decreases |s|
  {
    if s == [] then 0 else (if s[0] < current then 1 else 0) + CountLess(s[1..], current)
  }

  lemma {:induction false} CountLessAppend(a: seq<real>, b: seq<real>, current: real)
    ensures CountLess(a + b, current) == CountLess(a, current) + CountLess(b, current)
    decreases |a|
  {
    if a != [] {
      var ab := a + b;
      assert ab[0] == a[0];
      assert ab[1..] == a[1..] + b;
      assert CountLess(ab, current) == (if ab[0] < current then 1 else 0) + CountLess(ab[1..], current);
      CountLessAppend(a[1..], b, current);
      assert CountLess(ab[1..], current) == CountLess(a[1..], current) + CountLess(b, current);
      assert CountLess(a, current) == (if a[0] < current then 1 else 0) + CountLess(a[1..], current);
    } else {
      assert a + b == b;
    }
  }

  /** Values equal to `current` are not counted: inserting one changes nothing. */
  lemma TiesNotCounted(a: seq<real>, b: seq<real>, current: real)
    ensures CountLess(a + [current] + b, current) == CountLess(a + b, current)
  {
    CountLessAppend(a + [current], b, current);
    CountLessAppend(a, [current], current);
    CountLessAppend(a, b, current);
  }

  lemma {:induction false} CountLessMonotone(s: seq<real>, c1: real, c2: real)
    requires c1 <= c2
    ensures CountLess(s, c1) <= CountLess(s, c2)
    decreases |s|
  {
    if s != [] {
      CountLessMonotone(s[1..], c1, c2);
    }
  }

  lemma {:induction false} CountLessExtremes(s: seq<real>, current: real)
    ensures CountLess(s, current) == |s| <==> forall i :: 0 <= i < |s| ==> s[i] < current
    ensures CountLess(s, current) == 0 <==> forall i :: 0 <= i < |s| ==> s[i] >= current
    decreases |s|
  {
    if s != [] {
      CountLessExtremes(s[1..], current);
      assert forall i :: 1 <= i < |s| ==> s[i] == s[1..][i - 1];
    }
  }

  /**
   * `_percentile_rank`: no rank for an empty sample; otherwise the share of
   * values strictly below `current`, as a percentage.
   */
  function PercentileRank(values: seq<real>, current: real): (r: Option<real>)
    ensures r.None? <==> values == []
    ensures r.Some? ==> 0.0 <= r.value <= 100.0
    ensures r.Some? ==> r.value * |values| as real == 100.0 * CountLess(values, current) as real
  {
    if values == [] then None
    else
      var n := |values| as real;
      var c := CountLess(values, current) as real;
      assert c / n <= 1.0;
      Some((c / n) * 100.0)
  }

  /** The rank is 100 exactly when every value is below `current`, and 0 exactly when none is. */
  lemma PercentileExtremes(values: seq<real>, current: real)
    requires values != []
    ensures PercentileRank(values, current) == Some(100.0) <==> forall i :: 0 <= i < |values| ==> values[i] < current
    ensures PercentileRank(values, current) == Some(0.0) <==> forall i :: 0 <= i < |values| ==> values[i] >= current
  {
    CountLessExtremes(values, current);
    var n := |values| as real;
    var c := CountLess(values, current) as real;
    var r := PercentileRank(values, current).value;
    assert r == (c / n) * 100.0;
    if c == n {
      assert c / n == 1.0;
    }
    if r == 100.0 {
      assert c / n == 1.0;
      assert c == n;
    }
  }

  /** A higher current value never has a lower rank. */
  lemma PercentileMonotone(values: seq<real>, c1: real, c2: real)
    requires values != []
    requires c1 <= c2
    ensures PercentileRank(values, c1).value <= PercentileRank(values, c2).value
  {
    CountLessMonotone(values, c1, c2);
    var n := |values| as real;
    var k1 := CountLess(values, c1) as real;
    var k2 := CountLess(values, c2) as real;
    DivideMonotone(k1, k2, n);
  }

  lemma DivideMonotone(a: real, b: real, n: real)
    requires a <= b && n > 0.0
    ensures a / n <= b / n
  {
    var q1, q2 := a / n, b / n;
    assert q1 * n == a && q2 * n == b;
  }

}
