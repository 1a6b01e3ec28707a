/** Conversion between small naturals and bytes. */
module ByteConv {

  /** A natural below 256 survives the round trip through a byte. */
  lemma ByteValue(x: int)
    requires 0 <= x < 256
    ensures (x as bv8) as int == x
  {
  }

  /** A byte survives the round trip through its natural value. */
  lemma ByteOfValue(b: bv8)
    ensures (b as int) as bv8 == b
  {
  }
}
