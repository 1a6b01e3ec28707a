/** The upload filter of the `/predict` endpoint: only a file whose lower-cased
    name ends in `.wav` is accepted. Lower-casing is modelled on ASCII letters;
    no other character lower-cases to `.`, `w`, `a` or `v`, so the verdict is
    the same as with full Unicode lower-casing. */
module UploadFilter {

  /** ASCII lower-casing of one character. */
  function LowerChar(c: char): (l: char)
    ensures 'A' <= c <= 'Z' ==> l as int == c as int + 32
    ensures !('A' <= c <= 'Z') ==> l == c
  {
    if 'A' <= c <= 'Z' then (c as int + 32) as char else c
  }

  /** `str.lower()` on ASCII letters. */
  function Lower(s: string): (r: string)
    ensures |r| == |s|
    ensures forall i :: 0 <= i < |s| ==> r[i] == LowerChar(s[i])
  {
    seq(|s|, i requires 0 <= i < |s| => LowerChar(s[i]))
  }

  /** `str.endswith`. */
  predicate EndsWith(s: string, suffix: string)
  {
    |suffix| <= |s| && s[|s| - |suffix|..] == suffix
  }

  /** The accepted upload names: those whose lower-cased form ends in `.wav`,
      which are exactly the names whose last four characters are `.`, then
      `w`, `a`, `v` in either case. */
  function IsWavName(name: string): (ok: bool)
    ensures ok <==>
              && |name| >= 4
              && name[|name| - 4] == '.'
              && (name[|name| - 3] == 'w' || name[|name| - 3] == 'W')
              && (name[|name| - 2] == 'a' || name[|name| - 2] == 'A')
              && (name[|name| - 1] == 'v' || name[|name| - 1] == 'V')
  {
    WavSuffixChars(name);
    EndsWith(Lower(name), ".wav")
  }

  /** A character lower-cases to a given lower-case letter exactly when it is
      that letter in either case. */
  lemma LowerCharIs(c: char, lower: char, upper: char)
    requires 'a' <= lower <= 'z' && upper as int == lower as int - 32
    ensures LowerChar(c) == lower <==> c == lower || c == upper
  {
  }

  /** The lower-cased name ends in `.wav` exactly when the last four
      characters are `.`, `w`, `a`, `v` in either case. */
  lemma WavSuffixChars(name: string)
    ensures EndsWith(Lower(name), ".wav") <==>
              && |name| >= 4
              && name[|name| - 4] == '.'
              && (name[|name| - 3] == 'w' || name[|name| - 3] == 'W')
              && (name[|name| - 2] == 'a' || name[|name| - 2] == 'A')
              && (name[|name| - 1] == 'v' || name[|name| - 1] == 'V')
  {
    if |name| >= 4 {
      var n := |name|;
      var tail := Lower(name)[n - 4..];
      LowerCharIs(name[n - 3], 'w', 'W');
      LowerCharIs(name[n - 2], 'a', 'A');
      LowerCharIs(name[n - 1], 'v', 'V');
      assert tail == [LowerChar(name[n - 4]), LowerChar(name[n - 3]), LowerChar(name[n - 2]), LowerChar(name[n - 1])];
      assert LowerChar(name[n - 4]) == '.' <==> name[n - 4] == '.';
    }
  }

  /** Upper-case extensions are accepted, other extensions and a bare `wav`
      are not. */
  lemma WavNameExamples()
    ensures IsWavName("voice.WAV")
    ensures IsWavName(".wav")
    ensures !IsWavName("voice.mp3")
    ensures !IsWavName("wav")
  {
  }
}
