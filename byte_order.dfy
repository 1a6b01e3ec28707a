/** Little-endian byte order: the unsigned value of a byte string and the
    byte string of a value. */
module ByteOrder {
  import opened DivMod
  import opened ByteConv

  /** 256 to the power `n`: the number of values of an `n`-byte word. */
  function Pow256(n: nat): (p: nat)
    ensures p >= 1
  {
    if n == 0 then 1 else 256 * Pow256(n - 1)
  }

  lemma Pow256Values()
    ensures Pow256(1) == 0x100 && Pow256(2) == 0x1_0000
    ensures Pow256(3) == 0x100_0000 && Pow256(4) == 0x1_0000_0000
  {
  }

  /** Unsigned little-endian value of a byte string (first byte least significant). */
  function LittleEndian(bs: seq<bv8>): (u: nat)
    ensures u < Pow256(|bs|)
  {
    if |bs| == 0 then 0 else bs[0] as nat + 256 * LittleEndian(bs[1..])
  }

  lemma LittleEndian1(b0: bv8)
    ensures LittleEndian([b0]) == b0 as int
  {
    assert [b0][1..] == [];
  }

  lemma LittleEndian2(b0: bv8, b1: bv8)
    ensures LittleEndian([b0, b1]) == b0 as int + 0x100 * (b1 as int)
  {
    assert [b0, b1][1..] == [b1];
    LittleEndian1(b1);
  }

  lemma LittleEndian3(b0: bv8, b1: bv8, b2: bv8)
    ensures LittleEndian([b0, b1, b2]) == b0 as int + 0x100 * (b1 as int) + 0x1_0000 * (b2 as int)
  {
    assert [b0, b1, b2][1..] == [b1, b2];
    LittleEndian2(b1, b2);
  }

  lemma LittleEndian4(b0: bv8, b1: bv8, b2: bv8, b3: bv8)
    ensures LittleEndian([b0, b1, b2, b3])
         == b0 as int + 0x100 * (b1 as int) + 0x1_0000 * (b2 as int) + 0x100_0000 * (b3 as int)
  {
    assert [b0, b1, b2, b3][1..] == [b1, b2, b3];
    LittleEndian3(b1, b2, b3);
  }

  /** The `n` little-endian bytes of `u` modulo `256^n`: the encoder that
      inverts the decoding. */
  function LeBytes(u: nat, n: nat): (bs: seq<bv8>)
    ensures |bs| == n
  {
    if n == 0 then [] else [(u % 256) as bv8] + LeBytes(u / 256, n - 1)
  }

  lemma {:induction false} LittleEndianOfLeBytes(u: nat, n: nat)
    ensures LittleEndian(LeBytes(u, n)) == u % Pow256(n)
  {
    if n > 0 {
      var bs := LeBytes(u, n);
      var p := Pow256(n - 1);
      assert bs[1..] == LeBytes(u / 256, n - 1);
      LittleEndianOfLeBytes(u / 256, n - 1);
      ByteValue(u % 256);
      assert LittleEndian(bs) == u % 256 + 256 * ((u / 256) % p);
      DivModNested(u, p);
      assert Pow256(n) == 256 * p;
    }
  }

  lemma {:induction false} LeBytesOfLittleEndian(bs: seq<bv8>)
    ensures LeBytes(LittleEndian(bs), |bs|) == bs
  {
    if |bs| > 0 {
      var u := LittleEndian(bs);
      UniqueDivMod(u, 256, LittleEndian(bs[1..]), bs[0] as int);
      ByteOfValue(bs[0]);
      LeBytesOfLittleEndian(bs[1..]);
      assert LeBytes(u, |bs|) == [bs[0]] + bs[1..];
    }
  }
}
