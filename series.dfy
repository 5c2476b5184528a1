/**
 Basic statistics over a series of numbers (the `math::series` module of scilib).

 Every `f64` of the library is a `real` here, so the sums, means and scalings
 below are exact; rounding, NaN and infinities are not part of this model.
 */
module Series {

  /* ---------------------------------------------------------------------------
     Facts of real arithmetic used below
     --------------------------------------------------------------------------- */

  lemma MulMono(x: real, y: real, c: real)
    requires x <= y && c >= 0.0
    ensures x * c <= y * c
  {
  }

  lemma MulStrict(x: real, y: real, c: real)
    requires x < y && c > 0.0
    ensures x * c < y * c
  {
  }

  lemma DivNonNeg(x: real, y: real)
    requires x >= 0.0 && y > 0.0
    ensures x / y >= 0.0
  {
  }

  lemma MulDivCancel(x: real, d: real)
    requires d != 0.0
    ensures x * d / d == x
  {
  }

  lemma DivBetween(total: real, n: real, lo: real, hi: real)
    requires n > 0.0 && n * lo <= total <= n * hi
    ensures lo <= total / n <= hi
  {
    DivNonNeg(total - n * lo, n);
    DivNonNeg(n * hi - total, n);
    assert (total - n * lo) / n == total / n - lo;
    assert (n * hi - total) / n == hi - total / n;
  }

  lemma SquareZero(x: real)
    ensures x * x >= 0.0 && (x * x == 0.0 ==> x == 0.0)
  {
    if x != 0.0 { assert x * x / x == x; }
  }

  lemma FractionInUnit(p: real, q: real)
    requires 0.0 <= p <= q && q > 0.0
    ensures 0.0 <= p / q <= 1.0
  {
    var t := p / q;
    assert t * q == p;
    if t > 1.0 {
      MulStrict(1.0, t, q);
    }
  }

  lemma ScaleByUnit(t: real, d: real)
    requires 0.0 <= t <= 1.0
    ensures d >= 0.0 ==> 0.0 <= t * d <= d
    ensures d <= 0.0 ==> d <= t * d <= 0.0
  {
    if d >= 0.0 {
      MulMono(0.0, t, d);
      MulMono(t, 1.0, d);
    } else {
      MulMono(0.0, t, -d);
      MulMono(t, 1.0, -d);
      assert t * d == -(t * -d);
    }
  }

  /* ---------------------------------------------------------------------------
     max_slice / min_slice
     --------------------------------------------------------------------------- */

  /** The position the maximum scan settles on: the scan starts at position 0 and
      moves only when it meets a strictly greater element, so it ends on the
      FIRST position holding the maximum. */
  function MaxIndex(s: seq<real>): (k: nat)
    requires |s| > 0
    ensures k < |s|
    ensures forall j :: 0 <= j < |s| ==> s[j] <= s[k]
    ensures forall j :: 0 <= j < k ==> s[j] < s[k]
  {
    if |s| == 1 then 0
    else
      var k := MaxIndex(s[..|s| - 1]);
      if s[|s| - 1] > s[k] then |s| - 1 else k
  }

  /** The position the minimum scan settles on: the first position holding the minimum. */
  function MinIndex(s: seq<real>): (k: nat)
    requires |s| > 0
    ensures k < |s|
    ensures forall j :: 0 <= j < |s| ==> s[k] <= s[j]
    ensures forall j :: 0 <= j < k ==> s[k] < s[j]
  {
    if |s| == 1 then 0
    else
      var k := MinIndex(s[..|s| - 1]);
      if s[|s| - 1] < s[k] then |s| - 1 else k
  }

  /** The largest element of a non-empty series. */
  function Max(s: seq<real>): (m: real)
    requires |s| > 0
    ensures m in s
    ensures forall j :: 0 <= j < |s| ==> s[j] <= m
  {
    s[MaxIndex(s)]
  }

  /** The smallest element of a non-empty series. */
  function Min(s: seq<real>): (m: real)
    requires |s| > 0
    ensures m in s
    ensures forall j :: 0 <= j < |s| ==> m <= s[j]
  {
    s[MinIndex(s)]
  }

  /** `max_slice`: reads `val[0]` first (so the slice must not be empty), then
      scans every element and replaces the current candidate only on a strict `>`.
      `at` is the position the candidate reference points to. */
  method MaxSlice(val: seq<real>) returns (m: real, ghost at: nat)
    requires |val| > 0
    ensures at < |val| && m == val[at]
    ensures forall j :: 0 <= j < |val| ==> val[j] <= m
    ensures forall j :: 0 <= j < at ==> val[j] < m
    ensures at == MaxIndex(val) && m == Max(val)
  {
    m, at := val[0], 0;
    for i := 0 to |val|
      invariant at < |val| && m == val[at]
      invariant i == 0 ==> at == 0
      invariant 0 < i ==> at == MaxIndex(val[..i])
    {
      assert val[..i + 1][..i] == val[..i];
      if val[i] > m {
        m, at := val[i], i;
      }
    }
    assert val[..|val|] == val;
  }

  /** `min_slice`: as `max_slice`, with a strict `<`. */
  method MinSlice(val: seq<real>) returns (m: real, ghost at: nat)
    requires |val| > 0
    ensures at < |val| && m == val[at]
    ensures forall j :: 0 <= j < |val| ==> m <= val[j]
    ensures forall j :: 0 <= j < at ==> m < val[j]
    ensures at == MinIndex(val) && m == Min(val)
  {
    m, at := val[0], 0;
    for i := 0 to |val|
      invariant at < |val| && m == val[at]
      invariant i == 0 ==> at == 0
      invariant 0 < i ==> at == MinIndex(val[..i])
    {
      assert val[..i + 1][..i] == val[..i];
      if val[i] < m {
        m, at := val[i], i;
      }
    }
    assert val[..|val|] == val;
  }

  /** The documented example of `max_slice`. */
  lemma MaxExample()
    ensures Max([0.0, 1.2, -0.1, 5.2, 0.254, 2.8]) == 5.2
  {
    var s := [0.0, 1.2, -0.1, 5.2, 0.254, 2.8];
    assert s[3] == 5.2;
  }

  /** The documented example of `min_slice`. */
  lemma MinExample()
    ensures Min([0.0, 1.2, -0.1, 5.2, 0.254, 2.8]) == -0.1
  {
    var s := [0.0, 1.2, -0.1, 5.2, 0.254, 2.8];
    assert s[2] == -0.1;
  }

  /* ---------------------------------------------------------------------------
     mean
     --------------------------------------------------------------------------- */

  /** The left fold `fold(0.0, |sum, v| sum + v)`. */
  function Sum(s: seq<real>): real
  {
    if s == [] then 0.0 else Sum(s[..|s| - 1]) + s[|s| - 1]
  }

  /** `mean`: the sum divided by the length. */
  function Mean(val: seq<real>): real
    requires |val| > 0
  {
    Sum(val) / |val| as real
  }

  /** A sum of n terms, each between lo and hi, lies between n * lo and n * hi. */
  lemma {:induction false} SumBounds(s: seq<real>, lo: real, hi: real)
    requires forall i :: 0 <= i < |s| ==> lo <= s[i] <= hi
    ensures |s| as real * lo <= Sum(s) <= |s| as real * hi
  {
    if s != [] {
      SumBounds(s[..|s| - 1], lo, hi);
    }
  }

  /** A sum of n copies of c is n * c. */
  lemma {:induction false} SumConstant(s: seq<real>, c: real)
    requires forall i :: 0 <= i < |s| ==> s[i] == c
    ensures Sum(s) == |s| as real * c
  {
    if s != [] {
      SumConstant(s[..|s| - 1], c);
    }
  }

  /** The mean lies between the smallest and the largest element. */
  lemma MeanBetweenMinMax(val: seq<real>)
    requires |val| > 0
    ensures Min(val) <= Mean(val) <= Max(val)
  {
    SumBounds(val, Min(val), Max(val));
    DivBetween(Sum(val), |val| as real, Min(val), Max(val));
  }

  /** The mean of a constant series is that constant. */
  lemma MeanOfConstant(val: seq<real>, c: real)
    requires |val| > 0
    requires forall i :: 0 <= i < |val| ==> val[i] == c
    ensures Mean(val) == c
  {
    SumConstant(val, c);
  }

  /** The documented example of `mean`: the six points 0, 1, ..., 5 average 2.5. */
  lemma MeanExample()
    ensures Mean([0.0, 1.0, 2.0, 3.0, 4.0, 5.0]) == 2.5
  {
    assert Sum([0.0]) == 0.0;
    assert Sum([0.0, 1.0]) == 1.0 by { assert [0.0, 1.0][..1] == [0.0]; }
    assert Sum([0.0, 1.0, 2.0]) == 3.0 by { assert [0.0, 1.0, 2.0][..2] == [0.0, 1.0]; }
    assert Sum([0.0, 1.0, 2.0, 3.0]) == 6.0 by { assert [0.0, 1.0, 2.0, 3.0][..3] == [0.0, 1.0, 2.0]; }
    assert Sum([0.0, 1.0, 2.0, 3.0, 4.0]) == 10.0 by {
      assert [0.0, 1.0, 2.0, 3.0, 4.0][..4] == [0.0, 1.0, 2.0, 3.0];
    }
    assert Sum([0.0, 1.0, 2.0, 3.0, 4.0, 5.0]) == 15.0 by {
      assert [0.0, 1.0, 2.0, 3.0, 4.0, 5.0][..5] == [0.0, 1.0, 2.0, 3.0, 4.0];
    }
  }

  /* ---------------------------------------------------------------------------
     std_dev, without its final square root
     --------------------------------------------------------------------------- */

  /** The left fold `fold(0.0, |sum, v| sum + (v - m).powi(2))`. */
  function SquaredDeviations(s: seq<real>, m: real): real
  {
    if s == [] then 0.0
    else SquaredDeviations(s[..|s| - 1], m) + (s[|s| - 1] - m) * (s[|s| - 1] - m)
  }

  /** The quantity `std_dev` takes the square root of: the population variance
      (sum of squared deviations from the mean, divided by n). */
  function Variance(val: seq<real>): real
    requires |val| > 0
  {
    SquaredDeviations(val, Mean(val)) / |val| as real
  }

  /** A sum of squares is zero exactly when every term is zero, and never negative. */
  lemma {:induction false} SquaredDeviationsZero(s: seq<real>, m: real)
    ensures SquaredDeviations(s, m) >= 0.0
    ensures SquaredDeviations(s, m) == 0.0 <==> forall i :: 0 <= i < |s| ==> s[i] == m
  {
    if s != [] {
      var init, last := s[..|s| - 1], s[|s| - 1];
      SquaredDeviationsZero(init, m);
      SquareZero(last - m);
      assert forall i :: 0 <= i < |init| ==> init[i] == s[i];
    }
  }

  /** The variance is never negative. */
  lemma VarianceNonNegative(val: seq<real>)
    requires |val| > 0
    ensures Variance(val) >= 0.0
  {
    SquaredDeviationsZero(val, Mean(val));
  }

  /** The variance is zero exactly when every element equals the mean. */
  lemma VarianceZeroIffAllMean(val: seq<real>)
    requires |val| > 0
    ensures Variance(val) == 0.0 <==> forall i :: 0 <= i < |val| ==> val[i] == Mean(val)
  {
    SquaredDeviationsZero(val, Mean(val));
  }

  /** The variance is zero exactly when all elements are equal. */
  lemma VarianceZeroIffConstant(val: seq<real>)
    requires |val| > 0
    ensures Variance(val) == 0.0 <==> forall i, j :: 0 <= i < |val| && 0 <= j < |val| ==> val[i] == val[j]
  {
    VarianceZeroIffAllMean(val);
    if forall i, j :: 0 <= i < |val| && 0 <= j < |val| ==> val[i] == val[j] {
      MeanOfConstant(val, val[0]);
    }
  }

  /* ---------------------------------------------------------------------------
     scale_min_max
     --------------------------------------------------------------------------- */

  /** The scaling of one element, as the closure of `scale_min_max` computes it:
      `a + (x - min) * (b - a) / (max - min)`. */
  function Rescale(x: real, lo: real, hi: real, a: real, b: real): real
    requires lo != hi
  {
    a + (x - lo) * (b - a) / (hi - lo)
  }

  /** y lies in the closed interval with ends a and b, whichever is larger. */
  predicate Between(y: real, a: real, b: real)
  {
    (a <= y <= b) || (b <= y <= a)
  }

  /** `scale_min_max`: every element scaled by `Rescale` with the series' own
      minimum and maximum. The source divides by `max - min`, so a constant series
      is excluded, and reads `val[0]` through `max_slice`, so an empty one is too. */
  function ScaleMinMax(val: seq<real>, a: real, b: real): (r: seq<real>)
    requires |val| > 0 && Max(val) != Min(val)
    ensures |r| == |val|
    ensures forall i :: 0 <= i < |val| ==> r[i] == Rescale(val[i], Min(val), Max(val), a, b)
  {
    seq(|val|, i requires 0 <= i < |val| => Rescale(val[i], Min(val), Max(val), a, b))
  }

  /** The scaled value is a + t * (b - a) with t = (x - lo) / (hi - lo). */
  lemma RescaleAsFraction(x: real, lo: real, hi: real, a: real, b: real)
    requires lo != hi
    ensures Rescale(x, lo, hi, a, b) == a + ((x - lo) / (hi - lo)) * (b - a)
  {
    var t := (x - lo) / (hi - lo);
    assert t * (hi - lo) == x - lo;
    assert (x - lo) * (b - a) == t * (b - a) * (hi - lo);
  }

  /** The ends of the input range go to a and b. */
  lemma RescaleEnds(lo: real, hi: real, a: real, b: real)
    requires lo != hi
    ensures Rescale(lo, lo, hi, a, b) == a && Rescale(hi, lo, hi, a, b) == b
  {
    assert (hi - lo) * (b - a) / (hi - lo) == b - a;
  }

  /** An element between lo and hi is scaled into the interval between a and b. */
  lemma RescaleBetween(x: real, lo: real, hi: real, a: real, b: real)
    requires lo < hi && lo <= x <= hi
    ensures Between(Rescale(x, lo, hi, a, b), a, b)
  {
    FractionInUnit(x - lo, hi - lo);
    ScaleByUnit((x - lo) / (hi - lo), b - a);
    RescaleAsFraction(x, lo, hi, a, b);
  }

  /** Scaling preserves order when a <= b and reverses it when b <= a. */
  lemma RescaleOrder(x: real, y: real, lo: real, hi: real, a: real, b: real)
    requires lo < hi && x <= y
    ensures a <= b ==> Rescale(x, lo, hi, a, b) <= Rescale(y, lo, hi, a, b)
    ensures b <= a ==> Rescale(y, lo, hi, a, b) <= Rescale(x, lo, hi, a, b)
  {
    RescaleAsFraction(x, lo, hi, a, b);
    RescaleAsFraction(y, lo, hi, a, b);
    var tx, ty := (x - lo) / (hi - lo), (y - lo) / (hi - lo);
    DivNonNeg(y - x, hi - lo);
    assert ty - tx == (y - x) / (hi - lo);
    if a <= b {
      MulMono(tx, ty, b - a);
    } else {
      MulMono(tx, ty, a - b);
      assert tx * (b - a) == -(tx * (a - b));
      assert ty * (b - a) == -(ty * (a - b));
    }
  }

  /** The inverse of `Rescale`: from a value in the target range back to the input range. */
  function Unscale(y: real, lo: real, hi: real, a: real, b: real): real
    requires a != b
  {
    lo + (y - a) * (hi - lo) / (b - a)
  }

  /** When a != b, `Unscale` undoes `Rescale`. */
  lemma RescaleInverse(x: real, lo: real, hi: real, a: real, b: real)
    requires lo != hi && a != b
    ensures Unscale(Rescale(x, lo, hi, a, b), lo, hi, a, b) == x
  {
    var t := (x - lo) / (hi - lo);
    RescaleAsFraction(x, lo, hi, a, b);
    assert Rescale(x, lo, hi, a, b) - a == t * (b - a);
    assert t * (b - a) * (hi - lo) == t * (hi - lo) * (b - a);
    MulDivCancel(t * (hi - lo), b - a);
    assert t * (hi - lo) == x - lo;
  }

  /** Rescaling from [a, b] to [a, b] is the identity; from [b, a] to [a, b] it is a reflection. */
  lemma RescaleSameRange(y: real, a: real, b: real)
    requires a != b
    ensures Rescale(y, a, b, a, b) == y && Rescale(y, b, a, a, b) == a + b - y
  {
    MulDivCancel(y - a, b - a);
    assert (y - b) * (b - a) == (b - y) * (a - b);
    MulDivCancel(b - y, a - b);
  }

  /** The minimum is mapped to a, the maximum to b, and every element into the
      interval between a and b. */
  lemma ScaleMinMaxEnds(val: seq<real>, a: real, b: real)
    requires |val| > 0 && Max(val) != Min(val)
    ensures ScaleMinMax(val, a, b)[MinIndex(val)] == a
    ensures ScaleMinMax(val, a, b)[MaxIndex(val)] == b
    ensures forall i :: 0 <= i < |val| ==> Between(ScaleMinMax(val, a, b)[i], a, b)
  {
    var r, lo, hi := ScaleMinMax(val, a, b), Min(val), Max(val);
    assert lo <= val[MaxIndex(val)] == hi;
    RescaleEnds(lo, hi, a, b);
    forall i | 0 <= i < |val| ensures Between(r[i], a, b) {
      RescaleBetween(val[i], lo, hi, a, b);
    }
  }

  /** Scaling keeps the order of any two elements when a <= b, and reverses it when b <= a. */
  lemma ScaleMinMaxOrder(val: seq<real>, a: real, b: real, i: nat, j: nat)
    requires |val| > 0 && Max(val) != Min(val)
    requires i < |val| && j < |val| && val[i] <= val[j]
    ensures a <= b ==> ScaleMinMax(val, a, b)[i] <= ScaleMinMax(val, a, b)[j]
    ensures b <= a ==> ScaleMinMax(val, a, b)[j] <= ScaleMinMax(val, a, b)[i]
  {
    assert Min(val) <= val[MaxIndex(val)] == Max(val);
    RescaleOrder(val[i], val[j], Min(val), Max(val), a, b);
  }

  /** When a != b the scaling is invertible: each input is recovered from its
      scaled value by the inverse affine map. */
  lemma ScaleMinMaxInverse(val: seq<real>, a: real, b: real, i: nat)
    requires |val| > 0 && Max(val) != Min(val) && a != b && i < |val|
    ensures Unscale(ScaleMinMax(val, a, b)[i], Min(val), Max(val), a, b) == val[i]
  {
    RescaleInverse(val[i], Min(val), Max(val), a, b);
  }

  /** The smallest and largest element of a scaled series are min(a, b) and max(a, b). */
  lemma ScaledMinMax(val: seq<real>, a: real, b: real)
    requires |val| > 0 && Max(val) != Min(val)
    ensures var r := ScaleMinMax(val, a, b);
      Min(r) == (if a <= b then a else b) && Max(r) == (if a <= b then b else a)
  {
    var r := ScaleMinMax(val, a, b);
    ScaleMinMaxEnds(val, a, b);
    assert r[MinIndex(val)] == a && r[MaxIndex(val)] == b;
    assert Between(r[MinIndex(r)], a, b) && Between(r[MaxIndex(r)], a, b);
  }

  /** Scaling an already scaled series again with the same a < b changes nothing. */
  lemma ScaleMinMaxIdempotent(val: seq<real>, a: real, b: real)
    requires |val| > 0 && Max(val) != Min(val) && a < b
    ensures var r := ScaleMinMax(val, a, b);
      Max(r) != Min(r) && ScaleMinMax(r, a, b) == r
  {
    var r := ScaleMinMax(val, a, b);
    ScaledMinMax(val, a, b);
    var r2 := ScaleMinMax(r, a, b);
    forall i | 0 <= i < |r| ensures r2[i] == r[i] {
      RescaleSameRange(r[i], a, b);
    }
  }

  /** With a > b a second scaling does not give the series back: it reflects
      every value y to a + b - y. */
  lemma ScaleMinMaxTwiceReflects(val: seq<real>, a: real, b: real)
    requires |val| > 0 && Max(val) != Min(val) && b < a
    ensures var r := ScaleMinMax(val, a, b);
      Max(r) != Min(r) &&
      forall i :: 0 <= i < |r| ==> ScaleMinMax(r, a, b)[i] == a + b - r[i]
  {
    var r := ScaleMinMax(val, a, b);
    ScaledMinMax(val, a, b);
    var r2 := ScaleMinMax(r, a, b);
    forall i | 0 <= i < |r| ensures r2[i] == a + b - r[i] {
      RescaleSameRange(r[i], a, b);
    }
  }

  /** The documented example of `scale_min_max`: seven evenly spaced points from
      1 to 6 scaled to a = 2, b = -1 give 2 first, 0.5 in the middle and -1 last. */
  lemma ScaleMinMaxExample()
    ensures var x := [1.0, 11.0 / 6.0, 16.0 / 6.0, 21.0 / 6.0, 26.0 / 6.0, 31.0 / 6.0, 6.0];
      |x| > 0 && Max(x) != Min(x) &&
      var n := ScaleMinMax(x, 2.0, -1.0);
      n[0] == 2.0 && n[3] == 0.5 && n[6] == -1.0
  {
    var x := [1.0, 11.0 / 6.0, 16.0 / 6.0, 21.0 / 6.0, 26.0 / 6.0, 31.0 / 6.0, 6.0];
    assert Max(x) == 6.0 by {
      assert x[6] == 6.0;
    }
    assert Min(x) == 1.0 by {
      assert x[0] == 1.0;
    }
  }

  /* ---------------------------------------------------------------------------
     The formula in the documentation of scale_min_max
     --------------------------------------------------------------------------- */

  /** The per-element formula as the documentation of `scale_min_max` writes it:
      the whole numerator `a + (x - min)(b - a)` is divided by `max - min`. */
  function DocRescale(x: real, lo: real, hi: real, a: real, b: real): real
    requires lo != hi
  {
    (a + (x - lo) * (b - a)) / (hi - lo)
  }

  /** The documented formula does not map the minimum to a: on the documentation's
      own example (minimum 1, maximum 6, a = 2, b = -1) it sends 1 to 0.4, while the
      example expects 2.0, which is what the code computes. */
  lemma DocRescaleMissesA()
    ensures DocRescale(1.0, 1.0, 6.0, 2.0, -1.0) == 0.4
    ensures Rescale(1.0, 1.0, 6.0, 2.0, -1.0) == 2.0
  {
  }
}
