/** numpy's `reshape(-1, width)` of a flat sequence whose length is a
    multiple of `width`: row `i` holds elements `[i*width, i*width + width)`. */
module Rows {
  import opened DivMod

  /** Row `i` of the reshaped sequence. */
  function Row<T>(s: seq<T>, width: nat, i: nat): (r: seq<T>)
    requires 1 <= width && |s| % width == 0 && i < |s| / width
    ensures |r| == width
    ensures i * width + width <= |s|
    ensures forall k :: 0 <= k < width ==> r[k] == s[i * width + k]
  {
    var start := i * width;
    IndexFits(|s|, width, i);
    var r := s[start .. start + width];
    r
  }
}
