/** The `/predict` handler without its HTTP plumbing: filter the file name,
    decode the payload, mix to mono, extract the features, score and label.
    What the WAV reader returns for the upload (payload bytes, frame rate,
    channel count, sample width) is an input. */
module Service {
  import opened Outcomes
  import opened WavDecode
  import opened Mixer
  import opened SignalStats
  import opened Features
  import opened Scorer
  import opened UploadFilter
  import opened Framing
  import opened PitchTrack

  /** Why a request is refused. */
  datatype PredictError =
    | NotWavName              // the 400 response for a name not ending in `.wav`
    | Undecodable(DecodeError) // the payload cannot be decoded at its sample width
    | Unmixable(MixError)      // the samples do not split into whole frames

  /** The response body: label, score and features. */
  datatype Prediction = Prediction(verdict: Label, score: real, features: FeatureSet)

  method Predict(filename: string, frames: seq<bv8>, frameRate: nat, channels: nat, sampleWidth: int,
                 sqrt: real -> real)
    returns (r: Result<Prediction, PredictError>)
    ensures !IsWavName(filename) ==> r == Failure(NotWavName)
    ensures IsWavName(filename) && ReadWavBytes(frames, frameRate, channels, sampleWidth).Failure? ==>
              r == Failure(Undecodable(ReadWavBytes(frames, frameRate, channels, sampleWidth).error))
    ensures r.Success? ==>
              && IsWavName(filename)
              && 0.0 <= r.value.score <= 1.0
              && r.value.score == Score(r.value.features.rms, r.value.features.zcr, r.value.features.pitchVar)
              && r.value.verdict == LabelOf(r.value.score)
              && 0.0 <= r.value.features.zcr <= 1.0
              && r.value.features.pitchVar >= 0.0
    ensures IsWavName(filename) && ReadWavBytes(frames, frameRate, channels, sampleWidth).Success? ==>
              var pcm := ReadWavBytes(frames, frameRate, channels, sampleWidth).value;
              var mono := MonoSignal(pcm.samples, pcm.channels);
              && (r.Failure? <==> mono.Failure?)
              && (mono.Failure? ==> r == Failure(Unmixable(mono.error)))
              && (mono.Success? ==>
                    && r.value.features.zcr == ZeroCrossingRate(mono.value)
                    && (|mono.value| == 0 ==> r.value.features == FeatureSet(0.0, 0.0, 0.0))
                    && (|mono.value| > 0 ==> r.value.features.rms == sqrt(MeanSquare(Normalise(mono.value))))
                    && r.value.features.pitchVar
                       == (if |mono.value| > MaxLag(frameRate) + 1
                           then PitchVariance(Lags(Demean(Normalise(mono.value)), frameRate), frameRate)
                           else 0.0))
  {
    if !IsWavName(filename) {
      return Failure(NotWavName);
    }
    var decoded := ReadWavBytes(frames, frameRate, channels, sampleWidth);
    if decoded.Failure? {
      return Failure(Undecodable(decoded.error));
    }
    var pcm := decoded.value;
    var mono := MonoSignal(pcm.samples, pcm.channels);
    if mono.Failure? {
      return Failure(Unmixable(mono.error));
    }
    var feats := ExtractFeatures(mono.value, pcm.frameRate, sqrt);
    var score := Score(feats.rms, feats.zcr, feats.pitchVar);
    var verdict := LabelOf(score);
    r := Success(Prediction(verdict, score, feats));
  }

  /** 8-bit samples are unsigned and never re-centred, so the mono signal of
      8-bit audio never goes negative and its zero-crossing rate is always 0,
      whatever the sound. */
  lemma EightBitNeverCrosses(frames: seq<bv8>, frameRate: nat, channels: nat)
    ensures ReadWavBytes(frames, frameRate, channels, 1).Success?
    ensures var mono := MonoSignal(ReadWavBytes(frames, frameRate, channels, 1).value.samples, channels);
            mono.Success? ==> ZeroCrossingRate(mono.value) == 0.0
  {
    var samples := EightBitSamples(frames, frameRate, channels);
    var flat := ToReal(samples);
    assert forall k :: 0 <= k < |flat| ==> 0.0 <= flat[k] <= 255.0;
    var mono := MonoSignal(samples, channels);
    if mono.Success? {
      if channels > 1 {
        MixRange(flat, channels, 0.0, 255.0);
      }
      NoCrossingWhenNonNegative(mono.value);
    }
  }

  /** 8-bit decoding always succeeds and yields samples in `[0, 256)`. */
  lemma EightBitSamples(frames: seq<bv8>, frameRate: nat, channels: nat) returns (samples: seq<int>)
    ensures ReadWavBytes(frames, frameRate, channels, 1).Success?
    ensures samples == ReadWavBytes(frames, frameRate, channels, 1).value.samples
    ensures forall k :: 0 <= k < |samples| ==> 0 <= samples[k] < 256
  {
    samples := ReadWavBytes(frames, frameRate, channels, 1).value.samples;
  }
}
