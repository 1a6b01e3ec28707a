/** The per-frame pitch pick of `extract_features`: the one-sided
    autocorrelation of a frame (`np.correlate(xi, xi, 'full')[n-1:]`), its
    normalisation by the peak plus a small epsilon, and the first arg-max
    inside the lag window. Sums are exact reals. */
module Autocorrelation {
  import opened Numeric
  import opened Framing

  /** The `1e-9` added to the peak before dividing. */
  const Epsilon: real := 0.000000001

  /** Products of the frame with itself shifted by `k` samples. */
  function LagProducts(xi: seq<real>, k: nat): (p: seq<real>)
    requires k <= |xi|
    ensures |p| == |xi| - k
  {
    seq(|xi| - k, t requires 0 <= t < |xi| - k => xi[t] * xi[t + k])
  }

  /** Autocorrelation of the frame at lag `k`. */
  function Autocorr(xi: seq<real>, k: nat): real
    requires k <= |xi|
  {
    Sum(LagProducts(xi, k))
  }

  /** The autocorrelation at every lag `0 .. |xi|-1` (the non-negative-lag
      half of the full correlation), starting with the frame's energy. */
  function AutocorrSeq(xi: seq<real>): (ac: seq<real>)
    ensures |ac| == |xi|
    ensures |xi| > 0 ==> ac[0] >= 0.0
  {
    EnergyNonNegative(xi);
    seq(|xi|, k requires 0 <= k < |xi| => Autocorr(xi, k))
  }

  /** The autocorrelation at lag 0 is the energy of the frame, never negative. */
  lemma EnergyNonNegative(xi: seq<real>)
    ensures Autocorr(xi, 0) >= 0.0
  {
    var p := LagProducts(xi, 0);
    forall t | 0 <= t < |p| ensures p[t] >= 0.0 {
      SquareNonNegative(xi[t]);
    }
    SumNonNegative(p);
  }

  /** The divisor of the normalisation: the peak autocorrelation plus the
      epsilon. Because the lag-0 value is never negative, it is positive. */
  function PeakDivisor(xi: seq<real>): (d: real)
    requires |xi| > 0
    ensures d > 0.0
    ensures d >= Autocorr(xi, 0) + Epsilon
  {
    var ac := AutocorrSeq(xi);
    EnergyNonNegative(xi);
    MaxOf(ac) + Epsilon
  }

  /** The normalised autocorrelation of a frame: every value lies below 1,
      and the lag-0 value is not negative. */
  function NormalisedAutocorr(xi: seq<real>): (aci: seq<real>)
    requires |xi| > 0
    ensures |aci| == |xi|
    ensures aci[0] >= 0.0
    ensures forall k :: 0 <= k < |aci| ==> aci[k] < 1.0
  {
    var ac := AutocorrSeq(xi);
    var d := PeakDivisor(xi);
    var aci := Scale(ac, d);
    forall k | 0 <= k < |aci| ensures aci[k] < 1.0 {
      BelowPeak(ac[k], MaxOf(ac), d);
    }
    aci
  }

  /** A value no larger than a peak, divided by more than the peak, is below 1. */
  lemma BelowPeak(a: real, peak: real, d: real)
    requires a <= peak < d && d > 0.0
    ensures a / d < 1.0
  {
    assert (a / d) * d == a;
  }

  /** The lag picked in a frame long enough for the window: the first position
      of the maximum of the normalised autocorrelation over the window
      `[MinLag, MaxLag)`, offset by `MinLag`. */
  function PickLag(xi: seq<real>, sr: nat): (lag: nat)
    requires |xi| >= MaxLag(sr) + 1
    ensures MinLag(sr) <= lag < MaxLag(sr)
  {
    var aci := NormalisedAutocorr(xi);
    MinLag(sr) + FirstArgMax(aci[MinLag(sr) .. MaxLag(sr)])
  }

  /** The normalisation does not move the pick: it is the first arg-max of
      the raw autocorrelation over the window. */
  lemma PickLagOfRaw(xi: seq<real>, sr: nat)
    requires |xi| >= MaxLag(sr) + 1
    ensures PickLag(xi, sr) == MinLag(sr) + FirstArgMax(AutocorrSeq(xi)[MinLag(sr) .. MaxLag(sr)])
  {
    var lo, hi := MinLag(sr), MaxLag(sr);
    var ac := AutocorrSeq(xi);
    var d := PeakDivisor(xi);
    assert Scale(ac, d)[lo .. hi] == Scale(ac[lo .. hi], d);
    ArgMaxScale(ac[lo .. hi], d);
  }

  /** The picked lag has the largest autocorrelation in the window, and every
      earlier lag of the window has a strictly smaller one. */
  lemma PickLagIsWindowArgMax(xi: seq<real>, sr: nat)
    requires |xi| >= MaxLag(sr) + 1
    ensures forall j :: MinLag(sr) <= j < MaxLag(sr) ==> Autocorr(xi, j) <= Autocorr(xi, PickLag(xi, sr))
    ensures forall j :: MinLag(sr) <= j < PickLag(xi, sr) ==> Autocorr(xi, j) < Autocorr(xi, PickLag(xi, sr))
  {
    var ac := AutocorrSeq(xi);
    var lo, hi, lag := MinLag(sr), MaxLag(sr), PickLag(xi, sr);
    PickLagOfRaw(xi, sr);
    OffsetArgMax(ac, lo, hi);
    assert lag == lo + FirstArgMax(ac[lo .. hi]);
    var top := ac[lag];
    assert top == Autocorr(xi, lag);
    forall j | lo <= j < hi ensures Autocorr(xi, j) <= Autocorr(xi, lag) {
      assert ac[j] <= top;
      assert ac[j] == Autocorr(xi, j);
    }
    forall j | lo <= j < lag ensures Autocorr(xi, j) < Autocorr(xi, lag) {
      assert ac[j] < top;
      assert ac[j] == Autocorr(xi, j);
    }
  }

  /** The first arg-max of a slice, shifted back to positions of the whole
      sequence. */
  lemma OffsetArgMax(ac: seq<real>, lo: nat, hi: nat)
    requires lo < hi <= |ac|
    ensures forall j :: lo <= j < hi ==> ac[j] <= ac[lo + FirstArgMax(ac[lo .. hi])]
    ensures forall j :: lo <= j < lo + FirstArgMax(ac[lo .. hi]) ==> ac[j] < ac[lo + FirstArgMax(ac[lo .. hi])]
  {
    var window := ac[lo .. hi];
    var k := FirstArgMax(window);
    forall j | lo <= j < hi ensures ac[j] <= ac[lo + k] {
      assert window[j - lo] <= window[k];
    }
    forall j | lo <= j < lo + k ensures ac[j] < ac[lo + k] {
      assert window[j - lo] < window[k];
    }
  }
}
