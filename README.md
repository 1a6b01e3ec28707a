# Voice PD Detector: a verified model of the analysis core

This project models, in Dafny, the analysis core of a small web service (`backend/app.py`). The service takes an uploaded WAV clip and does the following:

- decodes its PCM payload by sample width (`read_wav_bytes`);
- mixes the channels down to mono (`mono_signal`);
- extracts three features: RMS energy, zero-crossing rate, and the variance of a crude frame-wise autocorrelation pitch track (`extract_features`);
- combines them into a heuristic score in `[0, 1]` and a two-way label (`simple_pd_score` and the label rule of the `/predict` handler);
- accepts only file names that end in `.wav`, in any letter case.

The stages are modelled as follows.

- **Decoding.** Payload bytes are `bv8` and samples are `int`.
  - Widths 1, 2 and 4 are the unsigned, signed 16-bit and signed 32-bit little-endian readings of numpy's buffer view.
  - Width 3 is computed with the source's own bitwise steps on a 32-bit word: assemble, test bit 23, set the high byte, read as int32.
  - Every width is proved equal to one reference value: the two's-complement reading of the little-endian bytes (the unsigned reading for width 1).
  - Decoding and encoding are proved to be mutual inverses.
- **Numbers.** Every float64 quantity is an exact Dafny `real`. Sums, means, divisions and variances are therefore exact.
- **Frame loop.** The loop of `extract_features` is a method with a `while` loop. It is proved against the specification function `Lags`: the contributions of the visited frames, joined in frame order.
- **Composition.** `Service.Predict` composes the stages as the handler does.

Modules: `Outcomes`, `Numeric`, `DivMod`, `ByteConv`, `ByteOrder` and `Rows` are shared helpers. `WavDecode`, `Mixer`, `SignalStats`, `Framing`, `Autocorrelation`, `PitchTrack`, `Features`, `Scorer`, `UploadFilter` and `Service` model the source.

## Model

| member | source | states |
|---|---|---|
| WavDecode.Int16LE | backend/app.py:29-30 | a 2-byte sample is the two's-complement reading of its little-endian value modulo 2^16 |
| WavDecode.Int32LE | backend/app.py:43-44 | a 4-byte sample is the two's-complement reading of its little-endian value modulo 2^32 |
| WavDecode.Assemble24 | backend/app.py:36-38 | the OR of the shifted bytes is the unsigned little-endian value of the three bytes; bit 23 is set exactly when the last byte is at least 0x80 |
| WavDecode.SignExtend24 | backend/app.py:40 | a word with bit 23 clear is unchanged. One with bit 23 set becomes negative as an int32, and a 24-bit word gains exactly `0xFF000000` |
| WavDecode.Int24LE | backend/app.py:33-41 | the bitwise 24-bit assembly with sign correction equals the two's-complement reading of `b0 + 256*b1 + 65536*b2` modulo 2^24 |
| WavDecode.DecodeSample | backend/app.py:27-47 | every supported width decodes a sample to the value its bytes stand for, within the width's range (0..255 for 8-bit, no re-centring) |
| WavDecode.SampleValueRange | backend/app.py:27-44 | the decoded value lies in `[SampleLow, SampleHigh)` of its width and its remainder modulo 256^width is the unsigned little-endian value, i.e. it is the unique such value |
| WavDecode.DecodeAll | backend/app.py:47 | the buffer view yields one sample per whole sample of bytes, each in the width's range |
| WavDecode.ReadWavBytes | backend/app.py:27-48 | an unsupported width (not 1-4) fails with its own error. A payload that is not a whole number of samples fails, at the buffer view for widths 2/4 and at the reshape for width 3. Otherwise rate and channels pass through, there are `|frames|/width` samples, and sample `i` decodes bytes `[i*w, i*w+w)`. 8-bit bytes pass through unchanged |
| WavDecode.DecodeEncode | backend/app.py:27-47 | decoding the little-endian encoding of any in-range value gives the value back (e.g. -1000 at 24 bits) |
| WavDecode.EncodeDecode | backend/app.py:27-47 | encoding a decoded sample gives the original bytes back |
| WavDecode.Int24Examples | backend/app.py:33-41 | `FF FF 7F` decodes to 8388607, `00 00 80` to -8388608, and the 24-bit bytes of -1000 decode to -1000 |
| WavDecode.TwosComplementRange | backend/app.py:36-40 | the two's-complement reading lies in `[-m/2, m/2)` and is congruent to the unsigned value |
| WavDecode.TwosComplementOfRemainder | backend/app.py:36-40 | reading the remainder of a value of `[-m/2, m/2)` gives the value back |
| ByteOrder.LittleEndianOfLeBytes | backend/app.py:36-38 | reading back the `n` little-endian bytes of `u` gives `u mod 256^n` |
| ByteOrder.LeBytesOfLittleEndian | backend/app.py:36-38 | re-encoding the little-endian value of a byte string reproduces the string |
| Rows.Row | backend/app.py:34 | row `i` of `reshape(-1, w)` is the `w` elements starting at `i*w`, inside the buffer |
| Mixer.MonoSignal | backend/app.py:53-56 | one channel or fewer: the samples unchanged (as reals). More channels: a reshape error unless the count is a multiple of the channel count, else `|data|/c` outputs, output `i` being the mean of frame `i` |
| Mixer.MixFrames | backend/app.py:55 | one output per frame, in frame order; `c` times an output is the total of the frame's `c` channel samples |
| Mixer.MixRepeat | backend/app.py:55 | mixing a stream copied onto `c` identical channels gives the stream back (order preserved) |
| Mixer.MixRange | backend/app.py:55 | every mixed sample lies within the range of the input samples |
| Mixer.MixExample | backend/app.py:53-56 | `[1, 3, 5, 7]` on two channels mixes to `[2, 6]` |
| SignalStats.MaxAbs | backend/app.py:65 | the peak magnitude bounds every sample's magnitude and is attained by some sample |
| SignalStats.NormDivisor | backend/app.py:65 | the divisor is never zero. It is 1 with a zero peak exactly for an all-zero signal, and the peak magnitude otherwise |
| SignalStats.Normalise | backend/app.py:66 | after the division every sample lies in `[-1, 1]` |
| SignalStats.MeanSquare | backend/app.py:69 | the mean of squares under the square root is never negative |
| SignalStats.MeanSquareOfNormalised | backend/app.py:66-69 | the mean square of the normalised signal lies in `[0, 1]` |
| SignalStats.CrossingIsSignChange | backend/app.py:72 | a negative product is exactly a strict sign change; a pair with a zero never counts |
| SignalStats.CrossingCount | backend/app.py:72 | at most `N-1` crossings among `N` samples |
| SignalStats.ZeroCrossingRate | backend/app.py:72 | the rate lies in `[0, 1]` and is 0 for fewer than two samples |
| SignalStats.CrossingCountScale | backend/app.py:72 | dividing by a positive number does not change the crossing count |
| SignalStats.ZeroCrossingRateOfNormalised | backend/app.py:65-72 | the normalisation does not change the zero-crossing rate |
| SignalStats.NoCrossingWhenNonNegative | backend/app.py:72 | a signal that never goes negative has no crossing |
| SignalStats.AllCrossingWhenAlternating | backend/app.py:72 | strictly alternating signs cross at every adjacent pair |
| Numeric.MaxOf | backend/app.py:95 | `np.max` bounds every element and is attained |
| Numeric.FirstArgMax | backend/app.py:97 | `np.argmax` is an index of a maximum with every earlier element strictly smaller |
| Numeric.ArgMaxScale | backend/app.py:95-97 | dividing by a positive number keeps the first arg-max |
| Numeric.ArgMaxOfConstant | backend/app.py:97 | the first arg-max of a constant sequence is 0 |
| Numeric.MeanBounds | backend/app.py:55 | a mean lies between the smallest and largest element |
| Numeric.CentredMeanZero | backend/app.py:79 | subtracting the mean leaves a zero-mean signal |
| Framing.MinLag | backend/app.py:76 | the shortest lag is at least 1 and at least `sr/350` |
| Framing.MaxLag | backend/app.py:77 | `1 <= MinLag < MaxLag` for every rate |
| Framing.LagWindowExamples | backend/app.py:76-77 | the window is `[45, 266)` at 16 kHz and `[22, 133)` at 8 kHz |
| Framing.FrameLen | backend/app.py:85 | the frame length is at least 1 and at least `sr // 50` |
| Framing.Steps | backend/app.py:86 | at least one frame is visited, even for a signal shorter than a frame |
| Framing.SegStart | backend/app.py:89 | frame `i` starts on a whole multiple of the frame length, `i` frames in |
| Framing.SegEnd | backend/app.py:90 | a frame ends at the earlier of the frame's end and the signal's end |
| Framing.StepsBounds | backend/app.py:86 | with at least one frame of signal, `steps` whole frames fit and a further one does not; otherwise one step |
| Framing.SegmentBounds | backend/app.py:88-91 | every visited segment lies inside `[0, N)` and is a full frame whenever `N >= frame` |
| Framing.SegmentsOrdered | backend/app.py:88-91 | segments are visited in increasing order and never overlap |
| Framing.FramesCover | backend/app.py:85-91 | for every signal, the visited frames leave less than one frame of it unvisited; a signal shorter than a frame is visited whole |
| Autocorrelation.AutocorrSeq | backend/app.py:94 | one value per lag `0 .. N-1`, the lag-0 value (the energy) never negative |
| Autocorrelation.NormalisedAutocorr | backend/app.py:94-95 | after the division by `max + 1e-9` every value lies below 1 and the lag-0 value is not negative |
| Autocorrelation.EnergyNonNegative | backend/app.py:94 | the lag-0 autocorrelation is never negative |
| Autocorrelation.PeakDivisor | backend/app.py:95 | `max(aci) + 1e-9` is positive |
| Autocorrelation.PickLag | backend/app.py:94-97 | the picked lag lies in `[MinLag, MaxLag)` |
| Autocorrelation.PickLagOfRaw | backend/app.py:95-97 | the normalisation does not move the pick: it is the first arg-max of the raw autocorrelation over the window |
| Autocorrelation.PickLagIsWindowArgMax | backend/app.py:94-97 | the picked lag has the largest autocorrelation of the window; every earlier lag of the window has a strictly smaller one |
| PitchTrack.FrameLag | backend/app.py:92-97 | a frame contributes at most one lag, inside the window |
| PitchTrack.FrameLagKept | backend/app.py:92-93 | a frame contributes exactly when it holds at least `MaxLag + 1` samples |
| PitchTrack.FrameLags | backend/app.py:85-97 | the loop returns the track `Lags`: at most `steps` lags, each in the window |
| PitchTrack.Segment | backend/app.py:89-91 | frame `i` is the `SegEnd - SegStart` samples of the signal starting at `SegStart`, in order |
| PitchTrack.Contributions | backend/app.py:87-97 | one contribution per visited frame, each of at most one lag inside the window |
| PitchTrack.Lags | backend/app.py:87-97 | the track has at most one lag per visited frame and every lag lies in the window |
| PitchTrack.LagsCount | backend/app.py:85-97 | when a frame is longer than the window and the signal holds a frame, no frame is skipped |
| PitchTrack.PitchHz | backend/app.py:98 | at most one frequency per lag, none of them negative or above the sample rate |
| PitchTrack.FrequencyOf | backend/app.py:98 | the frequency `sr / lag` of a positive lag lies in `[0, sr]` |
| PitchTrack.PitchHzOfPositive | backend/app.py:98 | the `lag > 0` filter keeps every lag of the track, one frequency `sr/lag` per lag, in order |
| PitchTrack.Variance | backend/app.py:99 | the population variance is never negative |
| PitchTrack.VarianceOfConstant | backend/app.py:99 | a constant sequence has zero variance |
| PitchTrack.PitchVariance | backend/app.py:98-99 | the pitch variance is never negative and is 0 when no frequency is left |
| Features.Demean | backend/app.py:79 | the centred signal has mean zero |
| Features.ExtractFeatures | backend/app.py:59-103 | empty input gives all zeros. RMS is the root of the normalised mean square. The zero-crossing rate is that of the raw signal, in `[0, 1]`. A signal no longer than `MaxLag + 1` gets pitch variance 0, a longer one the variance of the track of its centred normalised form. The pitch variance is never negative |
| Features.SilenceFeatures | backend/app.py:59-103 | a silent signal has zero pitch variance (all its lags are `MinLag`) |
| Features.SilentNormalised | backend/app.py:65-69 | normalising silence gives silence with zero mean square |
| Scorer.Clip | backend/app.py:115 | `np.clip` lands in `[lo, hi]` and leaves in-range values alone |
| Scorer.PitchTerm | backend/app.py:113 | the pitch-variance term contributes at most 0.5, exactly 0.5 from a variance of 1000 up |
| Scorer.RawScore | backend/app.py:110-114 | the unclipped score is the zero-crossing and energy terms plus a pitch term between 0 and 0.5 (for a non-negative variance) |
| Scorer.Score | backend/app.py:106-115 | the score always lies in `[0, 1]` |
| Scorer.ScoreMonotone | backend/app.py:106-115 | more zero crossings or pitch variance never lower the score; more energy never raises it |
| Scorer.ScoreExamples | backend/app.py:106-115 | `(rms 0.05, zcr 0.2, pv 400)` scores 0.515; silence scores 0.03; `zcr = 1` saturates at 1 |
| Scorer.LabelOf | backend/app.py:127 | the positive label is given exactly when the score exceeds 0.5 |
| Scorer.LabelMonotone | backend/app.py:127 | raising the score never turns a positive label negative |
| Scorer.LabelText | backend/app.py:127 | the response text names the verdict: `possible_parkinson_signal` exactly for the positive label, `non_parkinson_like` exactly for the other |
| Scorer.LabelExamples | backend/app.py:127 | the 0.515 example is labelled positive, silence negative |
| UploadFilter.Lower | backend/app.py:120 | lower-casing keeps the length and lower-cases each letter |
| UploadFilter.IsWavName | backend/app.py:120 | a name is accepted exactly when its last four characters are `.`, `w`/`W`, `a`/`A`, `v`/`V` |
| UploadFilter.WavNameExamples | backend/app.py:120 | `voice.WAV` and `.wav` are accepted; `voice.mp3` and `wav` are not |
| Service.Predict | backend/app.py:118-131 | a bad name is refused before decoding. A decoding error is reported as such. After a good decode, the request fails exactly when the mixdown fails, with that error. Otherwise the prediction's features are those of the mixed signal (zero-crossing rate, RMS and pitch variance as `extract_features` computes them at the file's rate). Its score lies in `[0, 1]` and is computed from those features, and its label is the label of that score |
| Service.EightBitNeverCrosses | backend/app.py:27-28 | 8-bit audio always decodes. Since it is not re-centred, its mono signal never goes negative and its zero-crossing rate is always 0 |

## Left out

- Container parsing is left out. The header, chunks and frame count are read by Python's `wave` module, which is not part of this model. Its results (payload bytes, frame rate, channel count, sample width) are inputs. So is the 400 response for an invalid WAV file.
- The code checks no minimum size, RIFF/WAVE signature, sample-rate range or channel-count range of its own. Whatever `wave` rejects is left out with it, and the model adds no such checks.
- HTTP plumbing is left out: the FastAPI app, CORS, `JSONResponse`, the async handler, `round(score, 3)` and the `/` route. `Service.Predict` keeps only the data flow of the handler.
- Floating point: every value is an exact real.
  - Rounding in `np.mean`, `np.correlate` and `np.var` is not modelled.
  - Float64 division in `int(sr / 350)` and `int(sr / 60)` is modelled as exact floor division of the natural sample rate.
- Features.ExtractFeatures: the square root under the RMS is a parameter, and nothing is proved about the RMS beyond the mean square it is applied to.
- The whole-signal autocorrelation and `peak_lag` of `extract_features` are computed but never used, so they are not modelled.
- Mixer.MonoSignal: the result is given as reals in both branches. The source returns the integer array unchanged for one channel, and the next stage converts it to float64 before any use.
- WavDecode: numpy's `int16` and `int32` views are modelled for a little-endian host.
- UploadFilter.Lower: lower-cases ASCII letters only. No other character lower-cases to `.`, `w`, `a` or `v`, so acceptance is the same as with Python's full `str.lower`.
