/** The least-squares slope the soak rig fits to its state samples, over exact reals. */
module Regression {

  function RealSum(xs: seq<real>): real {
    if xs == [] then 0.0 else RealSum(xs[..|xs| - 1]) + xs[|xs| - 1]
  }

  function Mean(xs: seq<real>): real
    requires xs != []
  {
    RealSum(xs) / |xs| as real
  }

  function Times(a: real, b: real): real { a * b }

  /** Sum of the products of the deviations from `mx` and `my`. */
  function Cross(xs: seq<real>, ys: seq<real>, mx: real, my: real): real
    requires |xs| == |ys|
  {
    if xs == [] then 0.0 else
    var n := |xs| - 1;
    Cross(xs[..n], ys[..n], mx, my) + Times(xs[n] - mx, ys[n] - my)
  }

  /** Zero without two samples, or without two different marks. */
  function Slope(xs: seq<real>, ys: seq<real>): real
    requires |xs| == |ys|
  {
    if |xs| < 2 then 0.0 else
    var mx, my := Mean(xs), Mean(ys);
    var denom := Cross(xs, xs, mx, mx);
    if denom == 0.0 then 0.0 else Cross(xs, ys, mx, my) / denom
  }

  lemma {:induction false} AffineSum(xs: seq<real>, ys: seq<real>, e: real, c: real)
    requires |xs| == |ys| && forall i | 0 <= i < |xs| :: ys[i] == e * xs[i] + c
    ensures RealSum(ys) == e * RealSum(xs) + |xs| as real * c
  {
    if xs != [] {
      var n := |xs| - 1;
      AffineSum(xs[..n], ys[..n], e, c);
    }
  }

  lemma AffineMean(xs: seq<real>, ys: seq<real>, e: real, c: real)
    requires xs != [] && |xs| == |ys| && forall i | 0 <= i < |xs| :: ys[i] == e * xs[i] + c
    ensures Mean(ys) == e * Mean(xs) + c
  {
    AffineSum(xs, ys, e, c);
    var n := |xs| as real;
    Divides(RealSum(xs), RealSum(ys), e, c, n);
  }

  lemma Divides(sx: real, sy: real, e: real, c: real, n: real)
    requires n > 0.0 && sy == e * sx + n * c
    ensures sy / n == e * (sx / n) + c
  {
    assert sx / n * n == sx;
    var q := e * (sx / n) + c;
    assert q * n == e * (sx / n * n) + c * n;
    assert q * n == sy;
  }

  lemma {:induction false} AffineCross(xs: seq<real>, ys: seq<real>, mx: real, my: real, e: real, c: real)
    requires |xs| == |ys| && forall i | 0 <= i < |xs| :: ys[i] == e * xs[i] + c
    requires my == e * mx + c
    ensures Cross(xs, ys, mx, my) == Times(e, Cross(xs, xs, mx, mx))
  {
    if xs == [] {
      Zero(e);
    } else {
      var n := |xs| - 1;
      hide Times;
      Rise(xs[n], mx, e, c);
      assert ys[n] - my == (e * xs[n] + c) - (e * mx + c);
      AffineCross(xs[..n], ys[..n], mx, my, e, c);
      Distribute(e, Cross(xs[..n], xs[..n], mx, mx), Times(xs[n] - mx, xs[n] - mx));
    }
  }

  lemma Rise(x: real, mx: real, e: real, c: real)
    ensures Times(x - mx, (e * x + c) - (e * mx + c)) == Times(e, Times(x - mx, x - mx))
  {
    var d := x - mx;
    assert e * x - e * mx == e * d;
    assert d * (e * d) == e * (d * d);
  }

  lemma Squares(d: real)
    ensures Times(d, d) >= 0.0
    ensures d != 0.0 ==> Times(d, d) > 0.0
  {
    if d == 0.0 {
      assert Times(0.0, 0.0) == 0.0;
    } else if d > 0.0 {
      Positive(d, d);
    } else {
      Positive(-d, -d);
      assert Times(d, d) == Times(-d, -d);
    }
  }

  lemma Positive(a: real, b: real)
    requires a > 0.0 && b > 0.0
    ensures Times(a, b) > 0.0
  {}

  lemma {:induction false} SquaresAddUp(xs: seq<real>, mx: real)
    ensures Cross(xs, xs, mx, mx) >= 0.0
    ensures (exists i | 0 <= i < |xs| :: xs[i] != mx) ==> Cross(xs, xs, mx, mx) > 0.0
  {
    if xs != [] {
      var n := |xs| - 1;
      SquaresAddUp(xs[..n], mx);
      CrossStep(xs, mx);
      if exists i | 0 <= i < |xs| :: xs[i] != mx {
        var i :| 0 <= i < |xs| && xs[i] != mx;
        if i < n {
          assert xs[..n][i] != mx;
        }
      }
    }
  }

  lemma CrossStep(xs: seq<real>, mx: real)
    requires xs != []
    ensures var n := |xs| - 1;
            && Cross(xs, xs, mx, mx) >= Cross(xs[..n], xs[..n], mx, mx)
            && (xs[n] != mx ==> Cross(xs, xs, mx, mx) > Cross(xs[..n], xs[..n], mx, mx))
  {
    hide Times;
    Squares(xs[|xs| - 1] - mx);
  }

  lemma ScaledBack(e: real, denom: real)
    requires denom != 0.0
    ensures Times(e, denom) / denom == e
  {}

  /** Samples on a line have its slope; a flat line has slope zero whatever the marks. */
  lemma SlopeOfLine(xs: seq<real>, ys: seq<real>, e: real, c: real)
    requires |xs| == |ys| && forall i | 0 <= i < |xs| :: ys[i] == e * xs[i] + c
    ensures (exists i, j | 0 <= i < j < |xs| :: xs[i] != xs[j]) ==> Slope(xs, ys) == e
    ensures e == 0.0 ==> Slope(xs, ys) == 0.0
  {
    if |xs| >= 2 {
      hide Cross, Mean, RealSum, Times;
      var mx, my := Mean(xs), Mean(ys);
      AffineMean(xs, ys, e, c);
      AffineCross(xs, ys, mx, my, e, c);
      SquaresAddUp(xs, mx);
      var denom := Cross(xs, xs, mx, mx);
      if exists i, j | 0 <= i < j < |xs| :: xs[i] != xs[j] {
        var i, j :| 0 <= i < j < |xs| && xs[i] != xs[j];
        assert xs[i] != mx || xs[j] != mx;
        assert denom > 0.0;
      }
      if denom != 0.0 {
        ScaledBack(e, denom);
      }
    }
  }

  // -- the sign of the slope ------------------------------------------------

  /** Measuring `ys` from elsewhere shifts the cross sum by the total deviation of the marks. */
  lemma {:induction false} CrossShift(xs: seq<real>, ys: seq<real>, mx: real, my: real, c: real)
    requires |xs| == |ys|
    ensures Cross(xs, ys, mx, my) == Cross(xs, ys, mx, c) + Times(c - my, RealSum(xs) - Times(|xs| as real, mx))
  {
    if xs == [] {
      Zero(c - my);
      Zero(mx);
    } else {
      hide Times;
      var n := |xs| - 1;
      CrossShift(xs[..n], ys[..n], mx, my, c);
      Distribute(xs[n] - mx, ys[n] - c, c - my);
      Commute(xs[n] - mx, c - my);
      Commute(|xs| as real, mx);
      Commute(n as real, mx);
      Distribute(mx, n as real, 1.0);
      One(mx);
      Distribute(c - my, RealSum(xs[..n]) - Times(n as real, mx), xs[n] - mx);
      assert |xs| as real == n as real + 1.0;
      assert ys[n] - my == (ys[n] - c) + (c - my);
    }
  }

  lemma Zero(k: real)
    ensures Times(k, 0.0) == 0.0 == Times(0.0, k)
  {}

  lemma One(k: real)
    ensures Times(k, 1.0) == k
  {}

  lemma Commute(a: real, b: real)
    ensures Times(a, b) == Times(b, a)
  {}

  lemma Distribute(k: real, a: real, b: real)
    ensures Times(k, a + b) == Times(k, a) + Times(k, b)
  {}

  lemma {:induction false} AgreeingSignsAddUp(xs: seq<real>, ys: seq<real>, mx: real, c: real)
    requires |xs| == |ys|
    requires forall i | 0 <= i < |xs| :: Times(xs[i] - mx, ys[i] - c) >= 0.0
    ensures Cross(xs, ys, mx, c) >= 0.0
    ensures (exists i | 0 <= i < |xs| :: Times(xs[i] - mx, ys[i] - c) > 0.0) ==> Cross(xs, ys, mx, c) > 0.0
  {
    hide Times;
    if xs != [] {
      var n := |xs| - 1;
      forall i | 0 <= i < n ensures Times(xs[..n][i] - mx, ys[..n][i] - c) >= 0.0 {
        assert Times(xs[i] - mx, ys[i] - c) >= 0.0;
      }
      AgreeingSignsAddUp(xs[..n], ys[..n], mx, c);
      if exists i | 0 <= i < |xs| :: Times(xs[i] - mx, ys[i] - c) > 0.0 {
        var i :| 0 <= i < |xs| && Times(xs[i] - mx, ys[i] - c) > 0.0;
        if i < n {
          assert Times(xs[..n][i] - mx, ys[..n][i] - c) > 0.0;
        }
      }
    }
  }

  lemma {:induction false} SumBetween(xs: seq<real>, lo: real, hi: real)
    requires forall i | 0 <= i < |xs| :: lo <= xs[i] <= hi
    ensures |xs| as real * lo <= RealSum(xs) <= |xs| as real * hi
  {
    if xs != [] {
      SumBetween(xs[..|xs| - 1], lo, hi);
    }
  }

  lemma MeanInside(xs: seq<real>)
    requires |xs| >= 2 && forall i, j | 0 <= i < j < |xs| :: xs[i] < xs[j]
    ensures xs[0] < Mean(xs) < xs[|xs| - 1]
  {
    var n := |xs| - 1;
    var less := xs[..n];
    SumBetween(less, xs[0], xs[n]);
    SumAbove(less, xs[n]);
    var total, count := RealSum(xs), |xs| as real;
    assert total == RealSum(less) + xs[n];
    assert count * xs[0] < total < count * xs[n];
    Quotient(total, count, xs[0], xs[n]);
  }

  lemma {:induction false} SumAbove(xs: seq<real>, hi: real)
    requires xs != [] && forall i | 0 <= i < |xs| :: xs[i] < hi
    ensures RealSum(xs) < |xs| as real * hi
  {
    if |xs| > 1 {
      SumAbove(xs[..|xs| - 1], hi);
    } else {
      assert xs[..0] == [];
    }
  }

  lemma Quotient(total: real, count: real, lo: real, hi: real)
    requires count > 0.0 && count * lo < total < count * hi
    ensures lo < total / count < hi
  {
    var q := total / count;
    assert q * count == total;
    if q <= lo {
      Scale(q, lo, count);
    }
    if q >= hi {
      Scale(hi, q, count);
    }
  }

  lemma Scale(a: real, b: real, count: real)
    requires a <= b && count > 0.0
    ensures a * count <= b * count
  {}

  /** How many leading marks are at or below `m`. */
  function AtOrBelow(xs: seq<real>, m: real): (n: nat)
    ensures n <= |xs|
    ensures forall i | 0 <= i < n :: xs[i] <= m
    ensures n < |xs| ==> xs[n] > m
  {
    if xs == [] || xs[0] > m then 0 else 1 + AtOrBelow(xs[1..], m)
  }

  /** Samples that never fall, at increasing marks: the slope is positive exactly when the
      last is above the first, and it is never negative. */
  lemma RisingExactly(xs: seq<real>, ys: seq<real>)
    requires |xs| == |ys| && |xs| >= 2
    requires forall i, j | 0 <= i < j < |xs| :: xs[i] < xs[j]
    requires forall i, j | 0 <= i < j < |ys| :: ys[i] <= ys[j]
    ensures Slope(xs, ys) >= 0.0
    ensures Slope(xs, ys) > 0.0 <==> ys[|ys| - 1] > ys[0]
  {
    hide Cross, Mean, Slope, RealSum, Times;
    var last := |xs| - 1;
    if ys[last] == ys[0] {
      SlopeOfLine(xs, ys, 0.0, ys[0]);
    } else {
      var mx, my := Mean(xs), Mean(ys);
      MeanInside(xs);
      var p := AtOrBelow(xs, mx) - 1;
      CrossIsPositive(xs, ys, mx, p);
      FromTheMean(xs, ys, my, ys[p]);
      SquaresAddUp(xs, mx);
      assert xs[0] != mx;
      SlopeIsPositive(xs, ys);
    }
  }

  /** Around the mean of the marks, samples may be measured from anywhere. */
  lemma FromTheMean(xs: seq<real>, ys: seq<real>, my: real, c: real)
    requires |xs| == |ys| && xs != []
    ensures Cross(xs, ys, Mean(xs), my) == Cross(xs, ys, Mean(xs), c)
  {
    hide Cross, Times;
    CrossShift(xs, ys, Mean(xs), my, c);
    Cancels(RealSum(xs), |xs| as real);
    Zero(c - my);
  }

  lemma Cancels(total: real, count: real)
    requires count != 0.0
    ensures total - Times(count, total / count) == 0.0
  {}

  lemma SlopeIsPositive(xs: seq<real>, ys: seq<real>)
    requires |xs| == |ys| && |xs| >= 2
    requires Cross(xs, ys, Mean(xs), Mean(ys)) > 0.0 && Cross(xs, xs, Mean(xs), Mean(xs)) > 0.0
    ensures Slope(xs, ys) > 0.0
  {
    hide Cross, Mean;
    PositiveQuotient(Cross(xs, ys, Mean(xs), Mean(ys)), Cross(xs, xs, Mean(xs), Mean(xs)));
  }

  lemma PositiveQuotient(a: real, b: real)
    requires a > 0.0 && b > 0.0
    ensures a / b > 0.0
  {}

  lemma CrossIsPositive(xs: seq<real>, ys: seq<real>, mx: real, p: int)
    requires |xs| == |ys| && |xs| >= 2 && 0 <= p < |xs| - 1
    requires forall i, j | 0 <= i < j < |xs| :: xs[i] < xs[j]
    requires forall i, j | 0 <= i < j < |ys| :: ys[i] <= ys[j]
    requires xs[0] < mx < xs[|xs| - 1] && xs[p] <= mx < xs[p + 1]
    requires ys[0] < ys[|ys| - 1]
    ensures Cross(xs, ys, mx, ys[p]) > 0.0
  {
    forall i | 0 <= i < |xs| ensures Times(xs[i] - mx, ys[i] - ys[p]) >= 0.0 {
      if i <= p {
        assert xs[i] <= xs[p] && ys[i] <= ys[p];
      } else {
        assert xs[p + 1] <= xs[i] && ys[p] <= ys[i];
      }
      SameSign(xs[i] - mx, ys[i] - ys[p]);
    }
    var last := |xs| - 1;
    assert ys[0] <= ys[p] <= ys[last];
    var i := if ys[p] > ys[0] then 0 else last;
    StrictSign(xs[i] - mx, ys[i] - ys[p]);
    AgreeingSignsAddUp(xs, ys, mx, ys[p]);
  }

  lemma SameSign(a: real, b: real)
    requires (a <= 0.0 && b <= 0.0) || (a >= 0.0 && b >= 0.0)
    ensures Times(a, b) >= 0.0
  {
    if a < 0.0 && b < 0.0 {
      StrictSign(a, b);
    } else if a > 0.0 && b > 0.0 {
      Positive(a, b);
    } else {
      assert a == 0.0 || b == 0.0;
    }
  }

  lemma StrictSign(a: real, b: real)
    requires (a < 0.0 && b < 0.0) || (a > 0.0 && b > 0.0)
    ensures Times(a, b) > 0.0
  {
    if a > 0.0 {
      Positive(a, b);
    } else {
      Positive(-a, -b);
      assert Times(a, b) == Times(-a, -b);
    }
  }
}
