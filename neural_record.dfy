/** The fixed sample record shared by the firmware and the host tools:
    16 unsigned 16-bit channel words followed by an unsigned 32-bit
    millisecond timestamp, 36 bytes in all, stored little-endian on the
    ARM target. */
module NeuralRecord {

  type byte = x: int | 0 <= x < 0x100
  type u16 = x: int | 0 <= x < 0x1_0000
  type u32 = x: int | 0 <= x < 0x1_0000_0000

  const MAX_CHANNELS: nat := 16
  /** sizeof(NeuralData): 16 * 2 bytes of channels + 4 bytes of timestamp, no padding. */
  const RECORD_SIZE: nat := 36

  /** uint16_t channelData[MAX_CHANNELS]: exactly 16 words. */
  type Channels = s: seq<u16> | |s| == MAX_CHANNELS witness seq(MAX_CHANNELS, _ => 0)

  datatype NeuralData = NeuralData(channelData: Channels, timestamp: u32)

  // ---------------------------------------------------------------------
  // Little-endian scalars

  function Le16(v: u16): (b: seq<byte>)
    ensures |b| == 2 && (b[0] as int) + 0x100 * (b[1] as int) == v
  {
    [v % 0x100, v / 0x100]
  }

  function Le32(v: u32): (b: seq<byte>)
    ensures |b| == 4
    ensures (b[0] as int) + 0x100 * (b[1] as int) + 0x1_0000 * (b[2] as int) + 0x100_0000 * (b[3] as int) == v
  {
    Le32Digits(v);
    [v % 0x100, (v / 0x100) % 0x100, (v / 0x1_0000) % 0x100, v / 0x100_0000]
  }

  /** The four base-256 digits of a 32-bit value, least significant first,
      spell the value back. */
  lemma Le32Digits(v: u32)
    ensures v / 0x100_0000 < 0x100
    ensures v % 0x100 + 0x100 * ((v / 0x100) % 0x100) + 0x1_0000 * ((v / 0x1_0000) % 0x100) + 0x100_0000 * (v / 0x100_0000) == v
  {
    var r0, q1 := v % 0x100, v / 0x100;
    var r1, q2 := q1 % 0x100, q1 / 0x100;
    var r2, q3 := q2 % 0x100, q2 / 0x100;
    assert v == 0x100 * q1 + r0 && q1 == 0x100 * q2 + r1 && q2 == 0x100 * q3 + r2;
    DivModUnique(v, 0x1_0000, q2, r0 + 0x100 * r1);
    DivModUnique(v, 0x100_0000, q3, r0 + 0x100 * r1 + 0x1_0000 * r2);
  }

  /** struct.unpack('<H') / a uint16_t load at offset i. */
  function U16At(b: seq<byte>, i: nat): (v: u16)
    requires i + 2 <= |b|
  {
    (b[i] as int) + 0x100 * (b[i + 1] as int)
  }

  /** struct.unpack('<I') / a uint32_t load at offset i. */
  function U32At(b: seq<byte>, i: nat): (v: u32)
    requires i + 4 <= |b|
  {
    (b[i] as int) + 0x100 * (b[i + 1] as int) + 0x1_0000 * (b[i + 2] as int) + 0x100_0000 * (b[i + 3] as int)
  }

  /** Two's-complement reading of a 16-bit word, as struct's 'h' format does. */
  function AsSigned16(v: u16): (s: int)
    ensures -0x8000 <= s < 0x8000
    ensures (s + 0x1_0000) % 0x1_0000 == v
  {
    if v < 0x8000 then v else v - 0x1_0000
  }

  lemma MulStep(a: int, b: int, d: int)
    ensures a >= b + 1 && d > 0 ==> a * d >= b * d + d
  {
    if a >= b + 1 && d > 0 {
      var k := a - b - 1;
      assert a * d == b * d + d + k * d;
    }
  }

  /** Euclidean division is determined by quotient and remainder. */
  lemma DivModUnique(v: int, d: int, q: int, r: int)
    requires d > 0 && 0 <= r < d && v == q * d + r
    ensures v / d == q && v % d == r
  {
    var q', r' := v / d, v % d;
    MulStep(q', q, d);
    MulStep(q, q', d);
    if q' != q {
      assert false;
    }
  }

  lemma Le16Inverse(b: seq<byte>, i: nat)
    requires i + 2 <= |b|
    ensures Le16(U16At(b, i)) == b[i..i + 2]
  {
    DivModUnique(U16At(b, i), 0x100, b[i + 1], b[i]);
  }

  lemma Le32Inverse(b: seq<byte>, i: nat)
    requires i + 4 <= |b|
    ensures Le32(U32At(b, i)) == b[i..i + 4]
  {
    var v := U32At(b, i);
    var b0, b1, b2, b3 := b[i] as int, b[i + 1] as int, b[i + 2] as int, b[i + 3] as int;
    var q1 := b1 + 0x100 * b2 + 0x1_0000 * b3;
    DivModUnique(v, 0x100, q1, b0);
    DivModUnique(q1, 0x100, b2 + 0x100 * b3, b1);
    DivModUnique(v, 0x1_0000, b2 + 0x100 * b3, b0 + 0x100 * b1);
    DivModUnique(b2 + 0x100 * b3, 0x100, b3, b2);
    DivModUnique(v, 0x100_0000, b3, b0 + 0x100 * b1 + 0x1_0000 * b2);
    assert Le32(v) == [b0, b1, b2, b3];
  }

  // ---------------------------------------------------------------------
  // Whole records

  function EncodeChannels(cs: seq<u16>): (b: seq<byte>)
    ensures |b| == 2 * |cs|
  {
    if cs == [] then [] else Le16(cs[0]) + EncodeChannels(cs[1..])
  }

  lemma {:induction false} EncodeChannelsAt(cs: seq<u16>, k: nat)
    requires k < |cs|
    ensures U16At(EncodeChannels(cs), 2 * k) == cs[k]
  {
    var b := EncodeChannels(cs);
    if k == 0 {
      assert b[0..2] == Le16(cs[0]);
    } else {
      EncodeChannelsAt(cs[1..], k - 1);
      var rest := EncodeChannels(cs[1..]);
      assert b == Le16(cs[0]) + rest;
      assert b[2 * k] == rest[2 * (k - 1)] && b[2 * k + 1] == rest[2 * (k - 1) + 1];
    }
  }

  /** The memory image of a NeuralData on the little-endian target. */
  function Encode(r: NeuralData): (b: seq<byte>)
    ensures |b| == RECORD_SIZE
  {
    EncodeChannels(r.channelData) + Le32(r.timestamp)
  }

  /** Reads 16 unsigned channel words and the timestamp out of a 36-byte
      record ('<16H' then '<I'). */
  function Decode(b: seq<byte>): (r: NeuralData)
    requires |b| == RECORD_SIZE
  {
    NeuralData(seq(MAX_CHANNELS, k requires 0 <= k < MAX_CHANNELS => U16At(b, 2 * k)), U32At(b, 32))
  }

  /** Same record read with '<16h': channels as signed 16-bit values. */
  function DecodeSignedChannels(b: seq<byte>): (cs: seq<int>)
    requires |b| >= 2 * MAX_CHANNELS
    ensures |cs| == MAX_CHANNELS
    ensures forall k :: 0 <= k < MAX_CHANNELS ==> -0x8000 <= cs[k] < 0x8000
  {
    seq(MAX_CHANNELS, k requires 0 <= k < MAX_CHANNELS => AsSigned16(U16At(b, 2 * k)))
  }

  /** Decoding the image of a record gives the record back. */
  lemma DecodeEncode(r: NeuralData)
    ensures Decode(Encode(r)) == r
  {
    var b := Encode(r);
    var d := Decode(b);
    assert b[..32] == EncodeChannels(r.channelData);
    forall k | 0 <= k < MAX_CHANNELS
      ensures d.channelData[k] == r.channelData[k]
    {
      EncodeChannelsAt(r.channelData, k);
      assert U16At(b, 2 * k) == U16At(b[..32], 2 * k);
    }
    assert b[32..] == Le32(r.timestamp);
  }

  lemma {:induction false} EncodeChannelsOfWords(b: seq<byte>, n: nat)
    requires 2 * n <= |b|
    ensures EncodeChannels(seq(n, k requires 0 <= k < n => U16At(b, 2 * k))) == b[..2 * n]
  {
    var cs := seq(n, k requires 0 <= k < n => U16At(b, 2 * k));
    if n > 0 {
      EncodeChannelsOfWords(b, n - 1);
      var init := seq(n - 1, k requires 0 <= k < n - 1 => U16At(b, 2 * k));
      assert cs == init + [U16At(b, 2 * (n - 1))];
      EncodeChannelsAppend(init, U16At(b, 2 * (n - 1)));
      Le16Inverse(b, 2 * (n - 1));
      assert b[..2 * n] == b[..2 * (n - 1)] + b[2 * (n - 1)..2 * n];
    }
  }

  lemma {:induction false} EncodeChannelsAppend(cs: seq<u16>, v: u16)
    ensures EncodeChannels(cs + [v]) == EncodeChannels(cs) + Le16(v)
  {
    if cs == [] {
      assert cs + [v] == [v];
    } else {
      assert (cs + [v])[1..] == cs[1..] + [v];
      EncodeChannelsAppend(cs[1..], v);
    }
  }

  /** Every 36-byte image is the image of the record it decodes to. */
  lemma EncodeDecode(b: seq<byte>)
    requires |b| == RECORD_SIZE
    ensures Encode(Decode(b)) == b
  {
    EncodeChannelsOfWords(b, MAX_CHANNELS);
    Le32Inverse(b, 32);
    assert b == b[..32] + b[32..36];
  }

  // ---------------------------------------------------------------------
  // Streams of records (segment files are raw concatenations)

  function EncodeAll(rs: seq<NeuralData>): (b: seq<byte>)
    ensures |b| == RECORD_SIZE * |rs|
  {
    if rs == [] then [] else Encode(rs[0]) + EncodeAll(rs[1..])
  }

  lemma {:induction false} EncodeAllAppend(rs: seq<NeuralData>, ss: seq<NeuralData>)
    ensures EncodeAll(rs + ss) == EncodeAll(rs) + EncodeAll(ss)
  {
    if rs != [] {
      assert (rs + ss)[1..] == rs[1..] + ss;
      EncodeAllAppend(rs[1..], ss);
    } else {
      assert rs + ss == ss;
    }
  }

  /** The k-th 36-byte slice of a concatenation is the k-th record's image. */
  lemma {:induction false} EncodeAllSlice(rs: seq<NeuralData>, k: nat)
    requires k < |rs|
    ensures EncodeAll(rs)[RECORD_SIZE * k..RECORD_SIZE * (k + 1)] == Encode(rs[k])
  {
    if k > 0 {
      EncodeAllSlice(rs[1..], k - 1);
      var tail := EncodeAll(rs[1..]);
      assert EncodeAll(rs)[RECORD_SIZE * k..RECORD_SIZE * (k + 1)]
          == tail[RECORD_SIZE * (k - 1)..RECORD_SIZE * k];
    }
  }
}
