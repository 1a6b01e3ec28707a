/** The integer skeleton of the pitch tracker of `extract_features`: the lag
    window derived from the sample rate and the cutting of the signal into
    consecutive frames. The sample rate is a natural number, so the source's
    `int(sr / 350)` and `int(sr / 60)` are floor divisions. */
module Framing {
  import opened DivMod

  /** Shortest lag examined: the period of a 350 Hz voice, at least 1. */
  function MinLag(sr: nat): (l: nat)
    ensures l >= 1
    ensures l >= sr / 350
  {
    if sr / 350 > 1 then sr / 350 else 1
  }

  /** End (exclusive) of the lag window: the period of a 60 Hz voice, and
      always beyond the shortest lag. */
  function MaxLag(sr: nat): (l: nat)
    ensures 1 <= MinLag(sr) < l
    ensures l >= sr / 60
  {
    if sr / 60 > MinLag(sr) + 1 then sr / 60 else MinLag(sr) + 1
  }

  /** The window at 16 kHz is `[45, 266)`; at 8 kHz it is `[22, 133)`. */
  lemma LagWindowExamples()
    ensures MinLag(16000) == 45 && MaxLag(16000) == 266
    ensures MinLag(8000) == 22 && MaxLag(8000) == 133
  {
  }

  /** Frame length: 20 ms of samples (`sr // 50`), at least one sample. */
  function FrameLen(sr: nat): (f: nat)
    ensures f >= 1
    ensures f >= sr / 50
  {
    if sr / 50 > 1 then sr / 50 else 1
  }

  /** Number of frames visited: as many whole frames as fit, at least one. */
  function Steps(n: nat, frame: nat): (k: nat)
    requires frame >= 1
    ensures k >= 1
  {
    if n / frame >= 1 then n / frame else 1
  }

  /** With at least one frame of signal, the visited frames are exactly the
      whole frames that fit; otherwise a single, partial frame is visited. */
  lemma StepsBounds(n: nat, frame: nat)
    requires frame >= 1
    ensures n >= frame ==> Steps(n, frame) * frame <= n < Steps(n, frame) * frame + frame
    ensures n < frame ==> Steps(n, frame) == 1
  {
    if n >= frame {
      DivMulBounds(n, frame);
      assert n / frame >= 1 by {
        MulMono(1, n / frame + 1, frame);
      }
    }
  }

  /** First sample of frame `i`: frames start on whole multiples of the
      frame length, so the frame index is recovered by division. */
  function SegStart(i: nat, frame: nat): (s: nat)
    requires frame >= 1
    ensures s % frame == 0 && s / frame == i
  {
    UniqueDivMod(i * frame, frame, i, 0);
    i * frame
  }

  /** One past the last sample of frame `i`, cut off at the end of the signal:
      the earlier of the signal's end and the frame's end. */
  function SegEnd(n: nat, i: nat, frame: nat): (e: nat)
    ensures e <= n && e <= i * frame + frame
    ensures e == n || e == i * frame + frame
  {
    if n < i * frame + frame then n else i * frame + frame
  }

  /** Every visited frame lies inside the signal, and it is a full frame
      whenever the signal holds at least one frame. */
  lemma SegmentBounds(n: nat, frame: nat, i: nat)
    requires frame >= 1 && i < Steps(n, frame)
    ensures SegStart(i, frame) <= SegEnd(n, i, frame) <= n
    ensures n >= frame ==> SegEnd(n, i, frame) - SegStart(i, frame) == frame
  {
    var k := Steps(n, frame);
    StepsBounds(n, frame);
    if n >= frame {
      MulMono(i + 1, k, frame);
      assert (i + 1) * frame == i * frame + frame;
    }
  }

  /** Frames are visited in increasing order and never overlap: frame `i`
      ends where or before frame `j` starts. */
  lemma SegmentsOrdered(n: nat, frame: nat, i: nat, j: nat)
    requires frame >= 1 && i < j
    ensures SegEnd(n, i, frame) <= SegStart(j, frame)
  {
    MulMono(i + 1, j, frame);
    assert (i + 1) * frame == i * frame + frame;
  }

  /** The visited frames cover the signal except for a tail shorter than a
      frame; a signal shorter than a frame is visited whole. */
  lemma FramesCover(n: nat, frame: nat)
    requires frame >= 1
    ensures n - SegEnd(n, Steps(n, frame) - 1, frame) < frame
    ensures n < frame ==> SegEnd(n, Steps(n, frame) - 1, frame) == n
  {
    var k := Steps(n, frame);
    StepsBounds(n, frame);
    if n >= frame {
      assert (k - 1) * frame + frame == k * frame;
    }
  }

  lemma MulMono(a: nat, b: nat, m: nat)
    requires a <= b
    ensures a * m <= b * m
  {
  }

  lemma DivMulBounds(n: nat, m: nat)
    requires m >= 1
    ensures (n / m) * m <= n < (n / m) * m + m
  {
    UniqueDivMod(n, m, n / m, n % m);
  }
}
