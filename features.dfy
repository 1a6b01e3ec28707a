/** `extract_features`: RMS energy, zero-crossing rate and pitch variance of
    a mono signal. The signal and every intermediate value are exact reals (an
    idealisation of float64); the square root under the RMS is a parameter. */
module Features {
  import opened Numeric
  import opened SignalStats
  import opened Framing
  import opened PitchTrack
  import opened Autocorrelation

  /** The three features reported for a signal. */
  datatype FeatureSet = FeatureSet(rms: real, zcr: real, pitchVar: real)

  /** The signal centred on its mean (`x - np.mean(x)`): its mean is zero. */
  function Demean(y: seq<real>): (x0: seq<real>)
    requires |y| > 0
    ensures |x0| == |y|
    ensures Mean(x0) == 0.0
  {
    CentredMeanZero(y);
    Shift(y, Mean(y))
  }

  /** The features of a signal sampled at `sr` Hz. An empty signal has all
      three features zero. Otherwise the signal is divided by its peak
      magnitude (by 1 when it is silent); the RMS is the root of the mean
      square of the result; the zero-crossing rate, which the division does
      not change, is that of the signal; and a signal longer than the lag
      window plus one gets the pitch variance of the lag track of its
      centred form, a shorter one gets 0. */
  method ExtractFeatures(x: seq<real>, sr: nat, sqrt: real -> real) returns (f: FeatureSet)
    ensures |x| == 0 ==> f == FeatureSet(0.0, 0.0, 0.0)
    ensures |x| > 0 ==> f.rms == sqrt(MeanSquare(Normalise(x)))
    ensures f.zcr == ZeroCrossingRate(x)
    ensures 0.0 <= f.zcr <= 1.0
    ensures |x| <= MaxLag(sr) + 1 ==> f.pitchVar == 0.0
    ensures |x| > MaxLag(sr) + 1 ==> f.pitchVar == PitchVariance(Lags(Demean(Normalise(x)), sr), sr)
    ensures f.pitchVar >= 0.0
  {
    if |x| == 0 {
      return FeatureSet(0.0, 0.0, 0.0);
    }
    var y := Scale(x, NormDivisor(x));
    assert y == Normalise(x);
    var rms := sqrt(MeanSquare(y));
    var zcr := ZeroCrossingRate(y);
    ZeroCrossingRateOfNormalised(x);
    var pitchVar;
    if |y| > MaxLag(sr) + 1 {
      var x0 := Shift(y, Mean(y));
      assert x0 == Demean(y);
      var lags := FrameLags(x0, sr);
      pitchVar := PitchVariance(lags, sr);
    } else {
      pitchVar := 0.0;
    }
    f := FeatureSet(rms, zcr, pitchVar);
  }

  /** A silent frame peaks at the start of the lag window: every
      autocorrelation value is 0, and the first maximum of a constant window
      is its first position. */
  lemma SilentFrameLag(xi: seq<real>, sr: nat)
    requires |xi| >= MaxLag(sr) + 1
    requires forall t :: 0 <= t < |xi| ==> xi[t] == 0.0
    ensures PickLag(xi, sr) == MinLag(sr)
  {
    var lo, hi := MinLag(sr), MaxLag(sr);
    var window := AutocorrSeq(xi)[lo .. hi];
    SilentAutocorr(xi);
    ArgMaxOfConstant(window, 0.0);
    PickLagOfRaw(xi, sr);
  }

  /** The autocorrelation of a silent frame is 0 at every lag. */
  lemma SilentAutocorr(xi: seq<real>)
    requires forall t :: 0 <= t < |xi| ==> xi[t] == 0.0
    ensures forall k :: 0 <= k < |xi| ==> AutocorrSeq(xi)[k] == 0.0
  {
    forall k | 0 <= k < |xi| ensures AutocorrSeq(xi)[k] == 0.0 {
      var p := LagProducts(xi, k);
      assert forall t :: 0 <= t < |p| ==> p[t] == 0.0;
      SumBounds(p, 0.0, 0.0);
    }
  }

  /** Every lag of the track of a silent signal is the start of the lag window. */
  lemma SilentLags(x0: seq<real>, sr: nat)
    requires forall t :: 0 <= t < |x0| ==> x0[t] == 0.0
    ensures forall k :: 0 <= k < |Lags(x0, sr)| ==> Lags(x0, sr)[k] == MinLag(sr)
  {
    var cs := Contributions(x0, sr);
    var lo := MinLag(sr);
    forall i, k | 0 <= i < |cs| && 0 <= k < |cs[i]| ensures lo <= cs[i][k] < lo + 1 {
      var xi := Segment(x0, sr, i);
      SegmentBounds(|x0|, FrameLen(sr), i);
      assert forall t :: 0 <= t < |xi| ==> xi[t] == x0[SegStart(i, FrameLen(sr)) + t];
      FrameLagKept(x0, sr, i);
      SilentFrameLag(xi, sr);
      assert cs[i] == FrameLag(x0, sr, i) == [PickLag(xi, sr)];
    }
    FlattenRange(cs, lo, lo + 1);
  }

  /** A track whose lags are all one positive value has zero pitch variance. */
  lemma ConstantTrackVariance(lags: seq<nat>, sr: nat, c: nat)
    requires c >= 1
    requires forall k :: 0 <= k < |lags| ==> lags[k] == c
    ensures PitchVariance(lags, sr) == 0.0
  {
    PitchHzOfPositive(lags, sr);
    var hz := PitchHz(lags, sr);
    if |hz| > 0 {
      VarianceOfConstant(hz, sr as real / c as real);
    }
  }

  /** A silent, non-empty signal has zero pitch variance. Together with
      `SilentNormalised` (zero mean square) and `NoCrossingWhenNonNegative`
      (zero crossing rate), the silent clip scores from the formula alone. */
  lemma SilenceFeatures(x: seq<real>, sr: nat)
    requires |x| > 0
    requires forall t :: 0 <= t < |x| ==> x[t] == 0.0
    ensures PitchVariance(Lags(Demean(Normalise(x)), sr), sr) == 0.0
  {
    SilentNormalised(x);
    SilentPitch(Normalise(x), sr);
  }

  /** Normalising silence leaves silence, whose mean square is 0. */
  lemma SilentNormalised(x: seq<real>)
    requires |x| > 0
    requires forall t :: 0 <= t < |x| ==> x[t] == 0.0
    ensures forall t :: 0 <= t < |x| ==> Normalise(x)[t] == 0.0
    ensures MeanSquare(Normalise(x)) == 0.0
  {
    var y := Normalise(x);
    assert forall t :: 0 <= t < |y| ==> y[t] == 0.0;
    MeanBounds(Squares(y), 0.0, 0.0);
  }

  /** The centred form of silence is silence, so its track is constant. */
  lemma SilentPitch(y: seq<real>, sr: nat)
    requires |y| > 0
    requires forall t :: 0 <= t < |y| ==> y[t] == 0.0
    ensures PitchVariance(Lags(Demean(y), sr), sr) == 0.0
  {
    MeanBounds(y, 0.0, 0.0);
    var x0 := Demean(y);
    assert forall t :: 0 <= t < |x0| ==> x0[t] == 0.0;
    SilentLags(x0, sr);
    ConstantTrackVariance(Lags(x0, sr), sr, MinLag(sr));
  }
}
