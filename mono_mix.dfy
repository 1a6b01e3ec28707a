/** `mono_signal`: interleaved multi-channel samples are mixed down to one
    channel by averaging each frame (one sample per channel). Averages are
    exact `real` means, an idealisation of numpy's float64 `mean`. */
module Mixer {
  import opened Outcomes
  import opened Numeric
  import opened DivMod
  import opened Rows

  /** numpy's `reshape(-1, n_channels)` fails when the sample count is not a
      multiple of the channel count. */
  datatype MixError = FramesNotWhole

  /** The decoded integer samples as float64 values. */
  function ToReal(data: seq<int>): (r: seq<real>)
    ensures |r| == |data|
    ensures forall i :: 0 <= i < |data| ==> r[i] == data[i] as real
  {
    seq(|data|, i requires 0 <= i < |data| => data[i] as real)
  }

  /** One output sample per frame of `c` interleaved samples, in frame order:
      `c` times an output is the total of its frame's channel samples. */
  function MixFrames(data: seq<real>, c: nat): (m: seq<real>)
    requires 1 <= c && |data| % c == 0
    ensures |m| == |data| / c
    ensures forall i :: 0 <= i < |m| ==> m[i] * (c as real) == Sum(Row(data, c, i))
  {
    seq(|data| / c, i requires 0 <= i < |data| / c => Mean(Row(data, c, i)))
  }

  /** `mono_signal`: with more than one channel, the frame means (or the
      reshape error); with one channel or fewer, the samples unchanged. The
      result is given as reals since the feature extractor converts it to
      float64 first thing. */
  function MonoSignal(data: seq<int>, channels: int): (r: Result<seq<real>, MixError>)
    ensures channels <= 1 ==> r == Success(ToReal(data))
    ensures channels > 1 ==> (r.Failure? <==> |data| % channels != 0)
    ensures channels > 1 && r.Success? ==>
              && |r.value| == |data| / channels
              && forall i :: 0 <= i < |r.value| ==>
                   r.value[i] == Mean(Row(ToReal(data), channels, i))
  {
    if channels > 1 then
      if |data| % channels != 0 then Failure(FramesNotWhole)
      else Success(MixFrames(ToReal(data), channels))
    else
      Success(ToReal(data))
  }

  /** Each sample repeated `c` times in a row: a mono stream written as `c`
      identical channels. */
  function Repeat(s: seq<real>, c: nat): (r: seq<real>)
    requires c >= 1
    ensures |r| == |s| * c
  {
    seq(|s| * c, k requires 0 <= k < |s| * c => s[k / c])
  }

  /** Mixing inverts duplication: a stream copied onto `c` identical channels
      mixes back down to itself. */
  lemma MixRepeat(s: seq<real>, c: nat)
    requires c >= 1
    ensures |Repeat(s, c)| % c == 0
    ensures MixFrames(Repeat(s, c), c) == s
  {
    var r := Repeat(s, c);
    UniqueDivMod(|r|, c, |s|, 0);
    var m := MixFrames(r, c);
    forall i | 0 <= i < |s| ensures m[i] == s[i] {
      var row := Row(r, c, i);
      forall k | 0 <= k < c ensures row[k] == s[i] {
        UniqueDivMod(i * c + k, c, i, k);
      }
      MeanBounds(row, s[i], s[i]);
    }
  }

  /** Mixing never leaves the range of its input: every frame mean lies
      between the smallest and largest sample. */
  lemma MixRange(data: seq<real>, c: nat, lo: real, hi: real)
    requires 1 <= c && |data| % c == 0
    requires forall k :: 0 <= k < |data| ==> lo <= data[k] <= hi
    ensures forall i :: 0 <= i < |data| / c ==> lo <= MixFrames(data, c)[i] <= hi
  {
    forall i | 0 <= i < |data| / c ensures lo <= MixFrames(data, c)[i] <= hi {
      IndexFits(|data|, c, i);
      MeanBounds(Row(data, c, i), lo, hi);
    }
  }

  /** Frames are mixed in order: `[1, 3, 5, 7]` on two channels gives `[2, 6]`. */
  lemma MixExample()
    ensures MonoSignal([1, 3, 5, 7], 2) == Success([2.0, 6.0])
  {
    var m := MixFrames(ToReal([1, 3, 5, 7]), 2);
    assert Row(ToReal([1, 3, 5, 7]), 2, 0) == [1.0, 3.0];
    assert Row(ToReal([1, 3, 5, 7]), 2, 1) == [5.0, 7.0];
    assert m == [2.0, 6.0];
  }
}
