/** `simple_pd_score` and the label rule: a heuristic, clipped linear
    combination of the three features, and a threshold on it. Exact reals. */
module Scorer {
  import opened Numeric

  /** `np.clip`: `v` limited to `[lo, hi]`. */
  function Clip(v: real, lo: real, hi: real): (r: real)
    requires lo <= hi
    ensures lo <= r <= hi
    ensures lo <= v <= hi ==> r == v
  {
    if v < lo then lo else if v > hi then hi else v
  }

  /** Clipping never reverses the order of two values. */
  lemma ClipMonotone(v: real, w: real, lo: real, hi: real)
    requires lo <= hi && v <= w
    ensures Clip(v, lo, hi) <= Clip(w, lo, hi)
  {
  }

  /** The pitch-variance term, `0.5 * min(pv / 1000, 1)`. */
  function PitchTerm(pitchVar: real): (t: real)
    ensures t <= 0.5
    ensures pitchVar >= 0.0 ==> t >= 0.0
    ensures pitchVar >= 1000.0 ==> t == 0.5
  {
    0.5 * Min(pitchVar / 1000.0, 1.0)
  }

  /** The score before clipping: the zero-crossing, pitch and energy terms
      added to 0 in turn. The pitch term adds at most 0.5, and nothing is
      taken away by it for a non-negative variance. */
  function RawScore(rms: real, zcr: real, pitchVar: real): (raw: real)
    ensures raw <= 1.5 * zcr + 0.3 * (0.1 - rms) + 0.5
    ensures pitchVar >= 0.0 ==> raw >= 1.5 * zcr + 0.3 * (0.1 - rms)
  {
    1.5 * zcr + PitchTerm(pitchVar) + 0.3 * (0.1 - rms)
  }

  /** The score of a feature set, always in `[0, 1]`. */
  function Score(rms: real, zcr: real, pitchVar: real): (s: real)
    ensures 0.0 <= s <= 1.0
  {
    Clip(RawScore(rms, zcr, pitchVar), 0.0, 1.0)
  }

  /** More zero crossings or more pitch variance never lower the score, more
      energy never raises it. */
  lemma ScoreMonotone(rms: real, zcr: real, pitchVar: real, rms': real, zcr': real, pitchVar': real)
    requires rms' <= rms && zcr <= zcr' && pitchVar <= pitchVar'
    ensures Score(rms, zcr, pitchVar) <= Score(rms', zcr', pitchVar')
  {
    assert PitchTerm(pitchVar) <= PitchTerm(pitchVar');
    ClipMonotone(RawScore(rms, zcr, pitchVar), RawScore(rms', zcr', pitchVar'), 0.0, 1.0);
  }

  /** Worked values: a quiet, rough voice scores 0.515, silence scores 0.03,
      and a signal crossing zero at every other sample saturates at 1. */
  lemma ScoreExamples()
    ensures Score(0.05, 0.2, 400.0) == 0.515
    ensures Score(0.0, 0.0, 0.0) == 0.03
    ensures Score(0.0, 1.0, 0.0) == 1.0
  {
    assert PitchTerm(400.0) == 0.2;
    assert PitchTerm(0.0) == 0.0;
    assert RawScore(0.05, 0.2, 400.0) == 0.515;
    assert RawScore(0.0, 0.0, 0.0) == 0.03;
    assert RawScore(0.0, 1.0, 0.0) == 1.53;
  }

  /** The two verdicts the service reports. */
  datatype Label = PossibleParkinsonSignal | NonParkinsonLike

  /** The label of a score: the positive verdict exactly above 0.5. */
  function LabelOf(score: real): (l: Label)
    ensures l == PossibleParkinsonSignal <==> score > 0.5
  {
    if score > 0.5 then PossibleParkinsonSignal else NonParkinsonLike
  }

  /** The label's text in the response: the two verdicts have different
      texts, so the text tells which verdict was given. */
  function LabelText(l: Label): (t: string)
    ensures t == "possible_parkinson_signal" <==> l == PossibleParkinsonSignal
    ensures t == "non_parkinson_like" <==> l == NonParkinsonLike
  {
    match l
    case PossibleParkinsonSignal => "possible_parkinson_signal"
    case NonParkinsonLike => "non_parkinson_like"
  }

  /** A higher score never turns the positive verdict into the negative one. */
  lemma LabelMonotone(s: real, s': real)
    requires s <= s'
    ensures LabelOf(s) == PossibleParkinsonSignal ==> LabelOf(s') == PossibleParkinsonSignal
  {
  }

  /** The worked values above: 0.515 is labelled positive, 0.03 negative. */
  lemma LabelExamples()
    ensures LabelOf(Score(0.05, 0.2, 400.0)) == PossibleParkinsonSignal
    ensures LabelOf(Score(0.0, 0.0, 0.0)) == NonParkinsonLike
  {
    ScoreExamples();
  }
}
