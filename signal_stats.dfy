/** Amplitude statistics of `extract_features`: the peak normalisation, the
    mean square under the RMS and the zero-crossing rate. Values are exact
    reals, an idealisation of float64. */
module SignalStats {
  import opened Numeric

  /** The magnitude of every sample (`np.abs(x)`). */
  function Magnitudes(x: seq<real>): (m: seq<real>)
    ensures |m| == |x|
    ensures forall i :: 0 <= i < |x| ==> m[i] == Abs(x[i])
  {
    seq(|x|, i requires 0 <= i < |x| => Abs(x[i]))
  }

  /** Largest magnitude of a non-empty signal (`np.max(np.abs(x))`): it bounds
      every sample's magnitude and is the magnitude of some sample. */
  function MaxAbs(x: seq<real>): (m: real)
    requires |x| > 0
    ensures forall i :: 0 <= i < |x| ==> Abs(x[i]) <= m
    ensures exists i :: 0 <= i < |x| && Abs(x[i]) == m
  {
    MaxOf(Magnitudes(x))
  }

  /** The divisor of the normalisation: the peak magnitude, or 1 for a
      signal that is all zeros. It is never zero. */
  function NormDivisor(x: seq<real>): (d: real)
    requires |x| > 0
    ensures d > 0.0
    ensures (forall i :: 0 <= i < |x| ==> x[i] == 0.0) <==> d == 1.0 && MaxAbs(x) == 0.0
    ensures (exists i :: 0 <= i < |x| && x[i] != 0.0) ==> d == MaxAbs(x)
  {
    var m := MaxAbs(x);
    if m > 0.0 then m else 1.0
  }

  /** The signal divided by its divisor: every sample lands in `[-1, 1]`. */
  function Normalise(x: seq<real>): (y: seq<real>)
    requires |x| > 0
    ensures |y| == |x|
    ensures forall i :: 0 <= i < |y| ==> -1.0 <= y[i] <= 1.0
  {
    var d := NormDivisor(x);
    var y := Scale(x, d);
    assert forall i :: 0 <= i < |y| ==> -1.0 <= y[i] <= 1.0 by {
      forall i | 0 <= i < |y| ensures -1.0 <= y[i] <= 1.0 {
        UnitQuotient(x[i], d);
      }
    }
    y
  }

  lemma UnitQuotient(a: real, d: real)
    requires d > 0.0 && Abs(a) <= d
    ensures -1.0 <= a / d <= 1.0
  {
    assert a / d * d == a;
  }

  /** The mean of the squared samples (`np.mean(x**2)`), whose square root is
      the RMS energy. */
  function MeanSquare(x: seq<real>): (e: real)
    requires |x| > 0
    ensures e >= 0.0
  {
    MeanSquareNonNegative(x);
    Mean(Squares(x))
  }

  /** The mean square of a normalised signal lies in `[0, 1]`. */
  lemma MeanSquareOfNormalised(x: seq<real>)
    requires |x| > 0
    ensures 0.0 <= MeanSquare(Normalise(x)) <= 1.0
  {
    MeanSquareOfUnit(Normalise(x));
  }

  /** Samples in `[-1, 1]` have a mean square in `[0, 1]`. */
  lemma MeanSquareOfUnit(y: seq<real>)
    requires |y| > 0
    requires forall i :: 0 <= i < |y| ==> -1.0 <= y[i] <= 1.0
    ensures 0.0 <= MeanSquare(y) <= 1.0
  {
    var q := Squares(y);
    forall i | 0 <= i < |q| ensures 0.0 <= q[i] <= 1.0 {
      UnitSquare(y[i]);
    }
    MeanBounds(q, 0.0, 1.0);
    assert MeanSquare(y) == Mean(q);
  }

  lemma UnitSquare(a: real)
    requires -1.0 <= a <= 1.0
    ensures 0.0 <= a * a <= 1.0
  {
    var b := Abs(a);
    assert a * a == b * b;
    assert b * b <= b * 1.0;
  }

  /** Two samples lie strictly on opposite sides of zero. */
  predicate OppositeSigns(a: real, b: real)
  {
    (a < 0.0 && b > 0.0) || (a > 0.0 && b < 0.0)
  }

  /** The zero-crossing test of the source, a negative product, is exactly a
      strict sign change: a pair with a zero in it never counts. */
  lemma CrossingIsSignChange(a: real, b: real)
    ensures a * b < 0.0 <==> OppositeSigns(a, b)
    ensures a == 0.0 || b == 0.0 ==> !(a * b < 0.0)
  {
    if a < 0.0 && b < 0.0 {
      assert a * b == (-a) * (-b);
    }
  }

  /** Number of adjacent pairs whose product is negative. */
  function CrossingCount(x: seq<real>): (n: nat)
    ensures n <= if |x| == 0 then 0 else |x| - 1
  {
    if |x| < 2 then 0
    else (if x[0] * x[1] < 0.0 then 1 else 0) + CrossingCount(x[1..])
  }

  /** The zero-crossing rate: the fraction of adjacent pairs that change sign,
      0 for fewer than two samples. */
  function ZeroCrossingRate(x: seq<real>): (z: real)
    ensures 0.0 <= z <= 1.0
    ensures |x| <= 1 ==> z == 0.0
  {
    if |x| > 1 then
      var n := CrossingCount(x);
      var pairs := (|x| - 1) as real;
      assert n as real <= pairs;
      n as real / pairs
    else 0.0
  }

  /** Dividing by a positive number never changes which pairs cross zero. */
  lemma {:induction false} CrossingCountScale(x: seq<real>, d: real)
    requires d > 0.0
    ensures CrossingCount(Scale(x, d)) == CrossingCount(x)
  {
    if |x| >= 2 {
      var y := Scale(x, d);
      assert y[1..] == Scale(x[1..], d);
      CrossingCountScale(x[1..], d);
      CrossingIsSignChange(x[0], x[1]);
      CrossingIsSignChange(y[0], y[1]);
      SignOfQuotient(x[0], d);
      SignOfQuotient(x[1], d);
    }
  }

  lemma SignOfQuotient(a: real, d: real)
    requires d > 0.0
    ensures a / d < 0.0 <==> a < 0.0
    ensures a / d > 0.0 <==> a > 0.0
  {
    assert a / d * d == a;
  }

  /** The normalisation leaves the zero-crossing rate unchanged. */
  lemma ZeroCrossingRateOfNormalised(x: seq<real>)
    requires |x| > 0
    ensures ZeroCrossingRate(Normalise(x)) == ZeroCrossingRate(x)
  {
    CrossingCountScale(x, NormDivisor(x));
  }

  /** A signal that never goes negative has no zero crossing. */
  lemma {:induction false} NoCrossingWhenNonNegative(x: seq<real>)
    requires forall i :: 0 <= i < |x| ==> x[i] >= 0.0
    ensures CrossingCount(x) == 0
  {
    if |x| >= 2 {
      CrossingIsSignChange(x[0], x[1]);
      NoCrossingWhenNonNegative(x[1..]);
    }
  }

  /** Strictly alternating signs cross zero at every pair. */
  lemma {:induction false} AllCrossingWhenAlternating(x: seq<real>)
    requires |x| >= 1
    requires forall i :: 0 <= i < |x| - 1 ==> OppositeSigns(x[i], x[i + 1])
    ensures CrossingCount(x) == |x| - 1
  {
    if |x| >= 2 {
      CrossingIsSignChange(x[0], x[1]);
      AllCrossingWhenAlternating(x[1..]);
    }
  }
}
