/** Facts about Euclidean division and remainder used by the byte-order and
    sample-decoding proofs. */
module DivMod {

  /** Quotient and remainder are unique. */
  lemma UniqueDivMod(u: int, m: int, q: int, r: int)
    requires m > 0 && u == m * q + r && 0 <= r < m
    ensures u % m == r && u / m == q
  {
    var q', r' := u / m, u % m;
    assert m * (q' - q) == r - r';
    if q' > q {
      MulAtLeast(m, q' - q);
    } else if q' < q {
      MulAtLeast(m, q - q');
    }
  }

  lemma MulAtLeast(m: int, k: int)
    requires m > 0 && k >= 1
    ensures m * k >= m
  {
  }

  /** `u % (256*m) == u % 256 + 256 * ((u / 256) % m)`. */
  lemma DivModNested(u: nat, m: nat)
    requires m >= 1
    ensures u % (256 * m) == u % 256 + 256 * ((u / 256) % m)
  {
    var q := u / 256;
    var r := u % 256;
    var q2 := q / m;
    var r2 := q % m;
    assert u == 256 * m * q2 + (256 * r2 + r);
    assert 0 <= 256 * r2 + r < 256 * m;
    UniqueDivMod(u, 256 * m, q2, 256 * r2 + r);
  }

  /** Sample `i` of a whole number of samples lies inside the buffer. */
  lemma IndexFits(n: int, w: int, i: int)
    requires w > 0 && n >= 0 && n % w == 0 && 0 <= i < n / w
    ensures i * w + w <= n
  {
    assert n == w * (n / w);
    MulAtLeast(w, n / w - i);
    assert w * (n / w - i) == n - i * w;
  }
}
