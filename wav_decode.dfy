/** Decoding of the PCM payload of a WAV file into integer samples, by sample
    width. The container itself (header, chunks, frame count) is read by
    Python's `wave` module, which is not part of this model: what it returns
    (the payload bytes, the frame rate, the channel count and the sample
    width) are the inputs here. Bytes are `bv8`; decoded samples are `int`. */
module WavDecode {
  import opened Outcomes
  import opened DivMod
  import opened ByteOrder
  import opened Rows

  /** Why a payload could not be decoded. */
  datatype DecodeError =
    | UnsupportedSampleWidth   // a sample width other than 1, 2, 3 or 4 bytes
    | BufferNotWholeSamples    // widths 2 and 4: numpy refuses a buffer that is not a whole number of elements
    | TripletReshapeFailed     // width 3: the payload cannot be cut into rows of three bytes

  /** A decoded stream: interleaved samples, frame rate (Hz) and channel count. */
  datatype Pcm = Pcm(samples: seq<int>, frameRate: nat, channels: nat)

  /** Smallest sample value of a width: 8-bit PCM is unsigned, wider PCM is
      two's complement. */
  function SampleLow(width: nat): int
    requires 1 <= width <= 4
  {
    if width == 1 then 0 else -(Pow256(width) / 2)
  }

  /** Largest sample value of a width, plus one. */
  function SampleHigh(width: nat): int
    requires 1 <= width <= 4
  {
    if width == 1 then 256 else Pow256(width) / 2
  }

  /** Reads the bits of a 32-bit word as a signed (two's-complement) int32. */
  function Int32Of(w: bv32): int
  {
    var n := w as int;
    if n < 0x8000_0000 then n else n - 0x1_0000_0000
  }

  /** Two's-complement reading of an unsigned value `u` of a word with `m`
      values: the upper half of the unsigned range stands for negatives. */
  function TwosComplement(u: int, m: nat): int
    requires m >= 2
  {
    if u < m / 2 then u else u - m
  }

  /** The two's-complement reading lies in `[-m/2, m/2)` and is congruent to
      the unsigned value modulo `m`. */
  lemma TwosComplementRange(u: int, m: nat)
    requires m >= 2 && m % 2 == 0 && 0 <= u < m
    ensures -(m / 2) <= TwosComplement(u, m) < m / 2
    ensures TwosComplement(u, m) % m == u
  {
    if u < m / 2 {
      UniqueDivMod(u, m, 0, u);
    } else {
      UniqueDivMod(u - m, m, -1, u);
    }
  }

  /** Reading the remainder of a value of `[-m/2, m/2)` in two's complement
      gives the value back. */
  lemma TwosComplementOfRemainder(v: int, m: nat)
    requires m >= 2 && m % 2 == 0 && -(m / 2) <= v < m / 2
    ensures TwosComplement(v % m, m) == v
  {
    if v >= 0 {
      UniqueDivMod(v, m, 0, v);
    } else {
      UniqueDivMod(v, m, -1, v + m);
    }
  }

  /** The value a sample's bytes stand for, stated independently of how each
      width is decoded: the unsigned little-endian value for one byte, its
      two's-complement reading for two to four bytes. */
  function SampleValue(chunk: seq<bv8>): int
    requires 1 <= |chunk| <= 4
  {
    if |chunk| == 1 then LittleEndian(chunk)
    else TwosComplement(LittleEndian(chunk), Pow256(|chunk|))
  }

  /** Signed little-endian 16-bit sample (numpy's `int16` on a little-endian host). */
  function Int16LE(b0: bv8, b1: bv8): (v: int)
    ensures v == TwosComplement(LittleEndian([b0, b1]), 0x1_0000)
  {
    LittleEndian2(b0, b1);
    var u := b0 as int + 0x100 * (b1 as int);
    if u < 0x8000 then u else u - 0x1_0000
  }

  /** Signed little-endian 32-bit sample (numpy's `int32` on a little-endian host). */
  function Int32LE(b0: bv8, b1: bv8, b2: bv8, b3: bv8): (v: int)
    ensures v == TwosComplement(LittleEndian([b0, b1, b2, b3]), 0x1_0000_0000)
  {
    LittleEndian4(b0, b1, b2, b3);
    var u := b0 as int + 0x100 * (b1 as int) + 0x1_0000 * (b2 as int) + 0x100_0000 * (b3 as int);
    if u < 0x8000_0000 then u else u - 0x1_0000_0000
  }

  /** The three bytes of a 24-bit sample combined as `b0 | b1 << 8 | b2 << 16`
      in a 32-bit integer: the unsigned little-endian value of the bytes, with
      bit 23 set exactly when the last byte has its top bit set. */
  function Assemble24(b0: bv8, b1: bv8, b2: bv8): (w: bv32)
    ensures w as int == LittleEndian([b0, b1, b2])
    ensures w & 0x80_0000 != 0 <==> b2 >= 0x80
  {
    LittleEndian3(b0, b1, b2);
    AssembledValue(b0, b1, b2);
    (b0 as bv32) | ((b1 as bv32) << 8) | ((b2 as bv32) << 16)
  }

  /** Sign correction of a 24-bit value held in 32 bits (`w | ~0xFFFFFF` when
      bit 23 is set): a word with bit 23 clear is left alone; one with bit 23
      set becomes negative as an int32 and, when it held only 24 bits, gains
      exactly `0xFF00_0000`. */
  function SignExtend24(w: bv32): (r: bv32)
    ensures w & 0x80_0000 == 0 ==> r == w
    ensures w & 0x80_0000 != 0 ==> r >= 0xFF80_0000
    ensures w < 0x100_0000 && w & 0x80_0000 != 0 ==> r == w + 0xFF00_0000
  {
    if w & 0x80_0000 != 0 then w | !0xFF_FFFF else w
  }

  /** Setting the high byte of the assembled word. */
  lemma Assemble24HighByte(b0: bv8, b1: bv8, b2: bv8)
    ensures Assemble24(b0, b1, b2) | !0xFF_FFFF
         == (b0 as bv32) | ((b1 as bv32) << 8) | ((b2 as bv32) << 16) | 0xFF00_0000
  {
  }

  lemma AssembledValue(b0: bv8, b1: bv8, b2: bv8)
    ensures ((b0 as bv32) | ((b1 as bv32) << 8) | ((b2 as bv32) << 16)) as int
         == b0 as int + 0x100 * (b1 as int) + 0x1_0000 * (b2 as int)
  {
  }

  lemma SignExtendedValue(b0: bv8, b1: bv8, b2: bv8)
    ensures ((b0 as bv32) | ((b1 as bv32) << 8) | ((b2 as bv32) << 16) | 0xFF00_0000) as int
         == b0 as int + 0x100 * (b1 as int) + 0x1_0000 * (b2 as int) + 0xFF00_0000
  {
  }

  /** With bit 23 set, the sign correction subtracts `2^24`. */
  lemma Int24Negative(b0: bv8, b1: bv8, b2: bv8)
    requires b2 >= 0x80
    ensures Int32Of(SignExtend24(Assemble24(b0, b1, b2))) == LittleEndian([b0, b1, b2]) - 0x100_0000
  {
    var x := (b0 as bv32) | ((b1 as bv32) << 8) | ((b2 as bv32) << 16) | 0xFF00_0000;
    Assemble24HighByte(b0, b1, b2);
    assert SignExtend24(Assemble24(b0, b1, b2)) == x;
    SignExtendedValue(b0, b1, b2);
    LittleEndian3(b0, b1, b2);
  }

  /** With bit 23 clear, the assembled value is the sample. */
  lemma Int24NonNegative(b0: bv8, b1: bv8, b2: bv8)
    requires b2 < 0x80
    ensures Int32Of(SignExtend24(Assemble24(b0, b1, b2))) == LittleEndian([b0, b1, b2])
  {
    assert SignExtend24(Assemble24(b0, b1, b2)) == Assemble24(b0, b1, b2);
    LittleEndian3(b0, b1, b2);
  }

  lemma Int24Value(b0: bv8, b1: bv8, b2: bv8)
    ensures Int32Of(SignExtend24(Assemble24(b0, b1, b2)))
         == if b2 >= 0x80 then LittleEndian([b0, b1, b2]) - 0x100_0000 else LittleEndian([b0, b1, b2])
  {
    if b2 >= 0x80 {
      Int24Negative(b0, b1, b2);
    } else {
      Int24NonNegative(b0, b1, b2);
    }
  }

  /** The 24-bit sample of three little-endian bytes, computed with the
      source's bitwise operations (assemble, test bit 23, set the high byte,
      read as int32): it is the two's-complement reading of the 24-bit
      little-endian value. */
  function Int24LE(b0: bv8, b1: bv8, b2: bv8): (v: int)
    ensures v == TwosComplement(LittleEndian([b0, b1, b2]), 0x100_0000)
  {
    Int24Value(b0, b1, b2);
    LittleEndian3(b0, b1, b2);
    Int32Of(SignExtend24(Assemble24(b0, b1, b2)))
  }

  /** One sample of `width == |chunk|` bytes, dispatched on the width as the
      source does: 1 byte unsigned, 2 and 4 bytes through numpy's signed
      types, 3 bytes by hand. Every width decodes to the value its bytes
      stand for. */
  function DecodeSample(chunk: seq<bv8>): (v: int)
    requires 1 <= |chunk| <= 4
    ensures v == SampleValue(chunk)
    ensures SampleLow(|chunk|) <= v < SampleHigh(|chunk|)
  {
    SampleValueRange(chunk);
    Pow256Values();
    if |chunk| == 1 then
      assert chunk == [chunk[0]];
      LittleEndian1(chunk[0]);
      chunk[0] as int
    else if |chunk| == 2 then
      assert chunk == [chunk[0], chunk[1]];
      Int16LE(chunk[0], chunk[1])
    else if |chunk| == 3 then
      assert chunk == [chunk[0], chunk[1], chunk[2]];
      Int24LE(chunk[0], chunk[1], chunk[2])
    else
      assert chunk == [chunk[0], chunk[1], chunk[2], chunk[3]];
      Int32LE(chunk[0], chunk[1], chunk[2], chunk[3])
  }

  /** The value of a sample lies in its width's range (8-bit samples are not
      re-centred around zero) and is congruent to the unsigned little-endian
      value: its remainder modulo `256^width` is that value. */
  lemma SampleValueRange(chunk: seq<bv8>)
    requires 1 <= |chunk| <= 4
    ensures SampleLow(|chunk|) <= SampleValue(chunk) < SampleHigh(|chunk|)
    ensures SampleValue(chunk) % Pow256(|chunk|) == LittleEndian(chunk)
  {
    var m := Pow256(|chunk|);
    var u := LittleEndian(chunk);
    Pow256Values();
    if |chunk| == 1 {
      UniqueDivMod(u, m, 0, u);
    } else {
      TwosComplementRange(u, m);
    }
  }

  /** Decodes a payload that is a whole number of `width`-byte samples: sample
      `i` is the decoding of the bytes of sample `i`, in order, with nothing
      skipped (numpy's element-wise view of the buffer). */
  function DecodeAll(frames: seq<bv8>, width: nat): (samples: seq<int>)
    requires 1 <= width <= 4 && |frames| % width == 0
    ensures |samples| == |frames| / width
    ensures forall i :: 0 <= i < |samples| ==> SampleLow(width) <= samples[i] < SampleHigh(width)
  {
    seq(|frames| / width, i requires 0 <= i < |frames| / width => DecodeSample(Row(frames, width, i)))
  }

  /** The payload decoding of `read_wav_bytes`: dispatch on the sample width,
      then numpy's buffer conversion (widths 1, 2, 4) or the hand-made 24-bit
      conversion (width 3). The frame rate and channel count pass through.
      The outcome depends only on the width and on whether the payload is a
      whole number of samples; each sample is decoded from its own bytes. */
  function ReadWavBytes(frames: seq<bv8>, frameRate: nat, channels: nat, sampleWidth: int)
    : (r: Result<Pcm, DecodeError>)
    ensures r.Failure? && r.error == UnsupportedSampleWidth <==> !(1 <= sampleWidth <= 4)
    ensures r.Failure? <==> !(1 <= sampleWidth <= 4) || |frames| % sampleWidth != 0
    ensures r.Failure? && r.error == TripletReshapeFailed <==> sampleWidth == 3 && |frames| % 3 != 0
    ensures r.Success? ==>
              && r.value.frameRate == frameRate && r.value.channels == channels
              && |r.value.samples| == |frames| / sampleWidth
              && (forall i :: 0 <= i < |r.value.samples| ==>
                    && SampleLow(sampleWidth) <= r.value.samples[i] < SampleHigh(sampleWidth)
                    && r.value.samples[i] == DecodeSample(Row(frames, sampleWidth, i)))
    ensures r.Success? && sampleWidth == 1 ==>
              forall i :: 0 <= i < |frames| ==> r.value.samples[i] == frames[i] as int
  {
    if sampleWidth == 1 then
      Success(Pcm(DecodeAll(frames, 1), frameRate, channels))
    else if sampleWidth == 2 || sampleWidth == 4 then
      if |frames| % sampleWidth != 0 then Failure(BufferNotWholeSamples)
      else Success(Pcm(DecodeAll(frames, sampleWidth), frameRate, channels))
    else if sampleWidth == 3 then
      if |frames| % 3 != 0 then Failure(TripletReshapeFailed)
      else Success(Pcm(DecodeAll(frames, 3), frameRate, channels))
    else
      Failure(UnsupportedSampleWidth)
  }

  /** Encodes a sample value of a width as the bytes a little-endian writer
      produces (two's complement for widths 2 to 4). */
  function EncodeSample(v: int, width: nat): (bs: seq<bv8>)
    requires 1 <= width <= 4
    ensures |bs| == width
  {
    LeBytes(v % Pow256(width), width)
  }

  /** Decoding inverts encoding for every value in the width's range. */
  lemma DecodeEncode(v: int, width: nat)
    requires 1 <= width <= 4
    requires SampleLow(width) <= v < SampleHigh(width)
    ensures DecodeSample(EncodeSample(v, width)) == v
  {
    var m := Pow256(width);
    var bs := EncodeSample(v, width);
    var r := v % m;
    LittleEndianOfLeBytes(r, width);
    assert LittleEndian(bs) == r by {
      Pow256Values();
      UniqueDivMod(r, m, 0, r);
    }
    if width == 1 {
      Pow256Values();
      UniqueDivMod(v, m, 0, v);
    } else {
      Pow256Values();
      TwosComplementOfRemainder(v, m);
    }
    assert DecodeSample(bs) == SampleValue(bs);
  }

  /** Encoding inverts decoding: every byte string of a supported width is the
      encoding of the sample it decodes to. */
  lemma EncodeDecode(chunk: seq<bv8>)
    requires 1 <= |chunk| <= 4
    ensures EncodeSample(DecodeSample(chunk), |chunk|) == chunk
  {
    SampleValueRange(chunk);
    LeBytesOfLittleEndian(chunk);
  }

  /** The boundary values of the 24-bit conversion and the round trip of
      -1000: 0x7FFFFF is the largest sample, 0x800000 the most negative one,
      and 0xFFFC18 (little-endian 18 FC FF) is -1000 modulo 2^24. */
  lemma Int24Examples()
    ensures DecodeSample([0xFF, 0xFF, 0x7F]) == 8388607
    ensures DecodeSample([0x00, 0x00, 0x80]) == -8388608
    ensures LittleEndian([0x18, 0xFC, 0xFF]) == -1000 % 0x100_0000
    ensures DecodeSample([0x18, 0xFC, 0xFF]) == -1000
  {
    LittleEndian3(0xFF, 0xFF, 0x7F);
    LittleEndian3(0x00, 0x00, 0x80);
    LittleEndian3(0x18, 0xFC, 0xFF);
  }
}
