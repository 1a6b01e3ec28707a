/** The crude pitch track of `extract_features`: the centred signal is cut
    into frames, frames too short for the lag window are skipped, every other
    frame contributes the lag of its autocorrelation peak, and the pitch
    variance is the population variance of `sr / lag` over those lags. */
module PitchTrack {
  import opened Numeric
  import opened Framing
  import opened Autocorrelation
  import opened SignalStats

  /** Frame `i` of the signal: samples `[i*frame, min(N, i*frame + frame))`. */
  function Segment(x0: seq<real>, sr: nat, i: nat): (xi: seq<real>)
    requires i < Steps(|x0|, FrameLen(sr))
    ensures |xi| == SegEnd(|x0|, i, FrameLen(sr)) - SegStart(i, FrameLen(sr))
    ensures forall t :: 0 <= t < |xi| ==> xi[t] == x0[SegStart(i, FrameLen(sr)) + t]
  {
    var frame := FrameLen(sr);
    SegmentBounds(|x0|, frame, i);
    x0[SegStart(i, frame) .. SegEnd(|x0|, i, frame)]
  }

  /** Whether frame `i` holds enough samples for the lag window. */
  predicate LongEnough(xi: seq<real>, sr: nat)
  {
    |xi| >= MaxLag(sr) + 1
  }

  /** What frame `i` contributes to the track: the lag picked in it when it
      is long enough for the lag window, nothing when it is shorter. */
  function FrameLag(x0: seq<real>, sr: nat, i: nat): (r: seq<nat>)
    requires i < Steps(|x0|, FrameLen(sr))
    ensures |r| <= 1
    ensures |r| == 1 ==> MinLag(sr) <= r[0] < MaxLag(sr)
  {
    var xi := Segment(x0, sr, i);
    if LongEnough(xi, sr) then [PickLag(xi, sr)] else []
  }

  /** The per-frame contributions joined in order (`lags.append` frame by
      frame). */
  function Flatten(cs: seq<seq<nat>>): (r: seq<nat>)
  {
    if |cs| == 0 then [] else Flatten(cs[..|cs| - 1]) + cs[|cs| - 1]
  }

  /** Joining one more contribution appends it. */
  lemma FlattenSnoc(cs: seq<seq<nat>>, i: nat)
    requires i < |cs|
    ensures Flatten(cs[..i + 1]) == Flatten(cs[..i]) + cs[i]
  {
    assert cs[..i + 1][..i] == cs[..i];
  }

  /** Contributions of at most one element each give at most one element per
      contribution, and exactly one each when none is empty. */
  lemma {:induction false} FlattenLength(cs: seq<seq<nat>>)
    requires forall i :: 0 <= i < |cs| ==> |cs[i]| <= 1
    ensures |Flatten(cs)| <= |cs|
    ensures (forall i :: 0 <= i < |cs| ==> |cs[i]| == 1) ==> |Flatten(cs)| == |cs|
  {
    if |cs| > 0 {
      FlattenLength(cs[..|cs| - 1]);
    }
  }

  /** Joining keeps every element inside a range that holds all contributions. */
  lemma {:induction false} FlattenRange(cs: seq<seq<nat>>, lo: nat, hi: nat)
    requires forall i, k :: 0 <= i < |cs| && 0 <= k < |cs[i]| ==> lo <= cs[i][k] < hi
    ensures forall k :: 0 <= k < |Flatten(cs)| ==> lo <= Flatten(cs)[k] < hi
  {
    if |cs| > 0 {
      var init, last := cs[..|cs| - 1], cs[|cs| - 1];
      FlattenRange(init, lo, hi);
      var r := Flatten(init) + last;
      assert Flatten(cs) == r;
      forall k | 0 <= k < |r| ensures lo <= r[k] < hi {
        if k >= |Flatten(init)| {
          assert r[k] == last[k - |Flatten(init)|];
        }
      }
    }
  }

  /** The contribution of every visited frame, in frame order: at most one
      lag per frame, inside the lag window. */
  function Contributions(x0: seq<real>, sr: nat): (cs: seq<seq<nat>>)
    ensures |cs| == Steps(|x0|, FrameLen(sr))
    ensures forall i :: 0 <= i < |cs| ==> |cs[i]| <= 1
    ensures forall i, k :: 0 <= i < |cs| && 0 <= k < |cs[i]| ==> MinLag(sr) <= cs[i][k] < MaxLag(sr)
  {
    seq(Steps(|x0|, FrameLen(sr)), i requires 0 <= i < Steps(|x0|, FrameLen(sr)) => FrameLag(x0, sr, i))
  }

  /** The pitch track: the lags of the long-enough frames, in frame order. It
      holds at most one lag per visited frame, and every lag lies in the lag
      window. */
  function Lags(x0: seq<real>, sr: nat): (lags: seq<nat>)
    ensures |lags| <= Steps(|x0|, FrameLen(sr))
    ensures forall k :: 0 <= k < |lags| ==> MinLag(sr) <= lags[k] < MaxLag(sr)
  {
    var cs := Contributions(x0, sr);
    FlattenLength(cs);
    FlattenRange(cs, MinLag(sr), MaxLag(sr));
    Flatten(cs)
  }

  /** When a frame is longer than the lag window and the signal holds at
      least one frame, no frame is skipped: exactly one lag per visited frame. */
  lemma LagsCount(x0: seq<real>, sr: nat)
    requires FrameLen(sr) > MaxLag(sr) && |x0| >= FrameLen(sr)
    ensures |Lags(x0, sr)| == Steps(|x0|, FrameLen(sr))
  {
    var cs := Contributions(x0, sr);
    forall i | 0 <= i < |cs| ensures |cs[i]| == 1 {
      SegmentBounds(|x0|, FrameLen(sr), i);
      FrameLagKept(x0, sr, i);
      assert cs[i] == FrameLag(x0, sr, i);
    }
    FlattenLength(cs);
  }

  /** A frame contributes a lag exactly when it is long enough. */
  lemma FrameLagKept(x0: seq<real>, sr: nat, i: nat)
    requires i < Steps(|x0|, FrameLen(sr))
    ensures |FrameLag(x0, sr, i)| == 1 <==> LongEnough(Segment(x0, sr, i), sr)
  {
  }

  /** The frame loop: visits frames `0 .. steps-1`, skips those shorter than
      `MaxLag + 1` and appends the picked lag of each other frame. */
  method FrameLags(x0: seq<real>, sr: nat) returns (lags: seq<nat>)
    ensures lags == Lags(x0, sr)
    ensures |lags| <= Steps(|x0|, FrameLen(sr))
    ensures forall k :: 0 <= k < |lags| ==> MinLag(sr) <= lags[k] < MaxLag(sr)
  {
    var frame := FrameLen(sr);
    var steps := Steps(|x0|, frame);
    ghost var cs := Contributions(x0, sr);
    lags := [];
    var i := 0;
    while i < steps
      invariant 0 <= i <= steps
      invariant lags == Flatten(cs[..i])
    {
      var s := i * frame;
      var e := if |x0| < s + frame then |x0| else s + frame;
      SegmentBounds(|x0|, frame, i);
      var xi := x0[s .. e];
      assert xi == Segment(x0, sr, i);
      FlattenSnoc(cs, i);
      assert cs[i] == FrameLag(x0, sr, i);
      if |xi| >= MaxLag(sr) + 1 {
        var lag := PickLag(xi, sr);
        lags := lags + [lag];
      }
      i := i + 1;
    }
    assert cs[..i] == cs;
  }

  /** `[sr / lag for lag in lags if lag > 0]`: one frequency per positive
      lag, never above the sample rate. */
  function PitchHz(lags: seq<nat>, sr: nat): (hz: seq<real>)
    ensures |hz| <= |lags|
    ensures forall j :: 0 <= j < |hz| ==> 0.0 <= hz[j] <= sr as real
  {
    if |lags| == 0 then []
    else
      var head := if lags[0] > 0 then [FrequencyOf(sr, lags[0])] else [];
      head + PitchHz(lags[1..], sr)
  }

  /** The frequency of a positive lag: `sr / lag`, at most `sr`. */
  function FrequencyOf(sr: nat, lag: nat): (f: real)
    requires lag >= 1
    ensures 0.0 <= f <= sr as real
  {
    assert sr as real <= sr as real * lag as real;
    sr as real / lag as real
  }

  /** Lags drawn from the window are all positive, so the filter keeps every
      one of them: one frequency per lag, in the same order. */
  lemma {:induction false} PitchHzOfPositive(lags: seq<nat>, sr: nat)
    requires forall k :: 0 <= k < |lags| ==> lags[k] >= 1
    ensures |PitchHz(lags, sr)| == |lags|
    ensures forall k :: 0 <= k < |lags| ==> PitchHz(lags, sr)[k] == sr as real / lags[k] as real
  {
    if |lags| > 0 {
      PitchHzOfPositive(lags[1..], sr);
    }
  }

  /** Population variance (`np.var`): the mean square of the deviations from
      the mean. */
  function Variance(s: seq<real>): (v: real)
    requires |s| > 0
    ensures v >= 0.0
  {
    MeanSquare(Shift(s, Mean(s)))
  }

  /** A constant sequence has zero variance. */
  lemma VarianceOfConstant(s: seq<real>, c: real)
    requires |s| > 0
    requires forall i :: 0 <= i < |s| ==> s[i] == c
    ensures Variance(s) == 0.0
  {
    MeanBounds(s, c, c);
    var q := Squares(Shift(s, Mean(s)));
    MeanBounds(q, 0.0, 0.0);
  }

  /** The pitch variance of a lag track: the variance of its frequencies, or 0
      when there are none. */
  function PitchVariance(lags: seq<nat>, sr: nat): (pv: real)
    ensures pv >= 0.0
    ensures |PitchHz(lags, sr)| == 0 ==> pv == 0.0
  {
    var hz := PitchHz(lags, sr);
    if |hz| > 0 then Variance(hz) else 0.0
  }
}
