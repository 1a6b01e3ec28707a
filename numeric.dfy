/** Exact arithmetic over sequences of reals. Every float64 quantity of the
    feature pipeline is modelled as a Dafny `real`: sums, means and divisions
    are exact here, which idealises numpy's rounding. */
module Numeric {

  function Abs(a: real): (r: real)
    ensures r >= 0.0 && (r == a || r == -a)
  {
    if a < 0.0 then -a else a
  }

  function Max(a: real, b: real): (r: real)
    ensures r >= a && r >= b && (r == a || r == b)
  {
    if a >= b then a else b
  }

  function Min(a: real, b: real): (r: real)
    ensures r <= a && r <= b && (r == a || r == b)
  {
    if a <= b then a else b
  }

  /** Largest element of a non-empty sequence (`np.max`). */
  function MaxOf(s: seq<real>): (m: real)
    requires |s| > 0
    ensures forall i :: 0 <= i < |s| ==> s[i] <= m
    ensures exists i :: 0 <= i < |s| && s[i] == m
  {
    if |s| == 1 then s[0]
    else
      var rest := MaxOf(s[1..]);
      assert forall i :: 1 <= i < |s| ==> s[i] == s[1..][i - 1];
      Max(s[0], rest)
  }

  /** Index of the first occurrence of the largest element (`np.argmax`). */
  function FirstArgMax(s: seq<real>): (k: nat)
    requires |s| > 0
    ensures k < |s|
    ensures forall j :: 0 <= j < |s| ==> s[j] <= s[k]
    ensures forall j :: 0 <= j < k ==> s[j] < s[k]
  {
    if |s| == 1 then 0
    else
      var init := s[..|s| - 1];
      var k := FirstArgMax(init);
      assert forall j :: 0 <= j < |s| - 1 ==> s[j] == init[j];
      if s[|s| - 1] > s[k] then |s| - 1 else k
  }

  /** The first index of the maximum is determined by the two properties
      that define it. */
  lemma ArgMaxUnique(s: seq<real>, k: nat, k': nat)
    requires k < |s| && k' < |s|
    requires forall j :: 0 <= j < |s| ==> s[j] <= s[k] && s[j] <= s[k']
    requires forall j :: 0 <= j < k ==> s[j] < s[k]
    requires forall j :: 0 <= j < k' ==> s[j] < s[k']
    ensures k == k'
  {
    assert s[k] == s[k'];
  }

  /** In a constant sequence the first maximum is the first element. */
  lemma ArgMaxOfConstant(s: seq<real>, c: real)
    requires |s| > 0 && forall i :: 0 <= i < |s| ==> s[i] == c
    ensures FirstArgMax(s) == 0
  {
    var k := FirstArgMax(s);
    assert s[0] == s[k];
  }

  /** Dividing by a positive number keeps the position of the first maximum. */
  lemma ArgMaxScale(s: seq<real>, d: real)
    requires |s| > 0 && d > 0.0
    ensures FirstArgMax(Scale(s, d)) == FirstArgMax(s)
  {
    var t := Scale(s, d);
    var k, k' := FirstArgMax(s), FirstArgMax(t);
    forall i, j | 0 <= i < |s| && 0 <= j < |s|
      ensures s[i] <= s[j] <==> t[i] <= t[j]
      ensures s[i] < s[j] <==> t[i] < t[j]
    {
      QuotientOrder(s[i], s[j], d);
    }
    ArgMaxUnique(s, k, k');
  }

  /** Division by a positive number preserves order. */
  lemma QuotientOrder(a: real, b: real, d: real)
    requires d > 0.0
    ensures a <= b <==> a / d <= b / d
    ensures a < b <==> a / d < b / d
  {
    assert a / d * d == a && b / d * d == b;
  }

  /** Exact sum of `s`, first element first. */
  function Sum(s: seq<real>): real
  {
    if |s| == 0 then 0.0 else s[0] + Sum(s[1..])
  }

  /** Arithmetic mean of a non-empty sequence. */
  function Mean(s: seq<real>): real
    requires |s| > 0
  {
    Sum(s) / |s| as real
  }

  /** Element-wise square, the `x**2` of numpy. */
  function Squares(s: seq<real>): (r: seq<real>)
    ensures |r| == |s|
    ensures forall i :: 0 <= i < |s| ==> r[i] == s[i] * s[i]
  {
    seq(|s|, i requires 0 <= i < |s| => s[i] * s[i])
  }

  /** Divides every element by the positive divisor `d`. */
  function Scale(s: seq<real>, d: real): (r: seq<real>)
    requires d > 0.0
    ensures |r| == |s|
    ensures forall i :: 0 <= i < |s| ==> r[i] == s[i] / d
  {
    seq(|s|, i requires 0 <= i < |s| => s[i] / d)
  }

  /** Subtracts the constant `c` from every element. */
  function Shift(s: seq<real>, c: real): (r: seq<real>)
    ensures |r| == |s|
    ensures forall i :: 0 <= i < |s| ==> r[i] == s[i] - c
  {
    seq(|s|, i requires 0 <= i < |s| => s[i] - c)
  }

  /** A sum of terms that all lie in `[lo, hi]` lies in `[|s|*lo, |s|*hi]`. */
  lemma {:induction false} SumBounds(s: seq<real>, lo: real, hi: real)
    requires forall i :: 0 <= i < |s| ==> lo <= s[i] <= hi
    ensures |s| as real * lo <= Sum(s) <= |s| as real * hi
  {
    if |s| > 0 {
      SumBounds(s[1..], lo, hi);
      assert |s| as real * lo == lo + (|s| - 1) as real * lo;
      assert |s| as real * hi == hi + (|s| - 1) as real * hi;
    }
  }

  /** Shifting every term by `c` shifts the sum by `|s| * c`. */
  lemma {:induction false} SumShift(s: seq<real>, c: real)
    ensures Sum(Shift(s, c)) == Sum(s) - |s| as real * c
  {
    if |s| > 0 {
      assert Shift(s, c)[1..] == Shift(s[1..], c);
      SumShift(s[1..], c);
      assert |s| as real * c == c + (|s| - 1) as real * c;
    }
  }

  /** Subtracting the mean leaves a sequence whose mean is zero. */
  lemma CentredMeanZero(s: seq<real>)
    requires |s| > 0
    ensures Mean(Shift(s, Mean(s))) == 0.0
  {
    var n := |s| as real;
    SumShift(s, Mean(s));
    assert n * (Sum(s) / n) == Sum(s);
  }

  /** The mean of values that all lie in `[lo, hi]` lies in `[lo, hi]`. */
  lemma MeanBounds(s: seq<real>, lo: real, hi: real)
    requires |s| > 0
    requires forall i :: 0 <= i < |s| ==> lo <= s[i] <= hi
    ensures lo <= Mean(s) <= hi
  {
    SumBounds(s, lo, hi);
    var n := |s| as real;
    assert n * lo / n == lo && n * hi / n == hi;
  }

  /** A sum of non-negative terms is non-negative. */
  lemma {:induction false} SumNonNegative(s: seq<real>)
    requires forall i :: 0 <= i < |s| ==> s[i] >= 0.0
    ensures Sum(s) >= 0.0
  {
    if |s| > 0 {
      SumNonNegative(s[1..]);
    }
  }

  lemma SquareNonNegative(a: real)
    ensures a * a >= 0.0
  {
    if a < 0.0 {
      assert a * a == (-a) * (-a);
    }
  }

  /** The mean of squares is never negative (the argument of a square root). */
  lemma MeanSquareNonNegative(s: seq<real>)
    requires |s| > 0
    ensures Mean(Squares(s)) >= 0.0
  {
    var q := Squares(s);
    forall i | 0 <= i < |q| ensures q[i] >= 0.0 {
      SquareNonNegative(s[i]);
    }
    SumNonNegative(q);
  }
}
