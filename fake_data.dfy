/** The synthetic-sample thread of src/fakedata_module.c: per-channel
    counters reported modulo 1000, a timestamp relative to the thread's
    start, and the sample's bytes rendered as upper-case hexadecimal text.
    neural_data_t and NUM_CHANNELS are declared in no header of the
    repository, so the channel count is a parameter and the sample's
    memory image is an input of the encoder. */
module FakeData {
  import opened NeuralRecord
  import opened HexText

  const VALUE_MODULUS: nat := 1000
  /** uint16_t counters wrap at 2^16. */
  const COUNTER_WRAP: nat := 0x1_0000

  class Generator {
    /** uint16_t counter[NUM_CHANNELS] */
    const counter: array<u16>
    /** data.data[]: the values of the latest sample. */
    const values: array<int>
    /** data.timestamp */
    var timestamp: int
    /** start_time, read once before the loop. */
    const startTime: int
    /** Completed passes of the loop. */
    ghost var iterations: nat

    /** All counters started at 0 and move together. */
    ghost predicate Valid()
      reads this, counter
    {
      counter.Length == values.Length &&
      forall i :: 0 <= i < counter.Length ==> counter[i] == iterations % COUNTER_WRAP
    }

    constructor (numChannels: nat, uptimeMs: int)
      ensures Valid() && iterations == 0 && startTime == uptimeMs
      ensures counter.Length == numChannels
    {
      counter := new u16[numChannels](_ => 0);
      values := new int[numChannels];
      startTime := uptimeMs;
      timestamp := 0;
      iterations := 0;
    }

    /** One sample: the time since start, and each channel's counter modulo
        1000, the counter then advanced. Every channel gets the same value. */
    method Generate(uptimeMs: int)
      requires Valid()
      modifies counter, values, this`timestamp, this`iterations
      ensures Valid() && iterations == old(iterations) + 1
      ensures timestamp == uptimeMs - startTime
      ensures forall i :: 0 <= i < values.Length ==>
        values[i] == (old(iterations) % COUNTER_WRAP) % VALUE_MODULUS && 0 <= values[i] < VALUE_MODULUS
    {
      timestamp := uptimeMs - startTime;
      var i := 0;
      while i < counter.Length
        modifies counter, values
        invariant 0 <= i <= counter.Length
        invariant forall k :: 0 <= k < i ==>
          values[k] == (iterations % COUNTER_WRAP) % VALUE_MODULUS && counter[k] == (iterations + 1) % COUNTER_WRAP
        invariant forall k :: i <= k < counter.Length ==> counter[k] == iterations % COUNTER_WRAP
      {
        values[i] := counter[i] % VALUE_MODULUS;
        counter[i] := (counter[i] + 1) % COUNTER_WRAP;
        i := i + 1;
      }
      WrapStep(iterations);
      iterations := iterations + 1;
    }
  }

  /** Adding one to the count and reducing is adding one to the reduced count. */
  lemma WrapStep(n: nat)
    ensures (n % COUNTER_WRAP + 1) % COUNTER_WRAP == (n + 1) % COUNTER_WRAP
  {
    var q, r := n / COUNTER_WRAP, n % COUNTER_WRAP;
    if r + 1 == COUNTER_WRAP {
      DivModUnique(n + 1, COUNTER_WRAP, q + 1, 0);
    } else {
      DivModUnique(n + 1, COUNTER_WRAP, q, r + 1);
    }
  }

  /** The hexadecimal rendering into a buffer of 2 * size + 1 characters:
      each sprintf("%02X") writes two digits and its terminator and moves
      the pointer on by two; the final NUL ends the text. The text is the
      image in upper-case hexadecimal, in memory order, so strlen of it is
      twice the image's size. */
  method HexEncode(image: seq<byte>) returns (str: array<char>)
    ensures str.Length == 2 * |image| + 1
    ensures str[..2 * |image|] == Hex(image) && str[2 * |image|] == '\0'
    ensures forall k :: 0 <= k < 2 * |image| ==> str[k] != '\0'
  {
    str := new char[2 * |image| + 1];
    var ptr := 0;
    var i := 0;
    while i < |image|
      invariant 0 <= i <= |image| && ptr == 2 * i
      invariant str[..ptr] == Hex(image[..i])
      invariant forall k :: 0 <= k < ptr ==> str[k] != '\0'
    {
      var digits := HexByte(image[i]);
      assert digits[0] != '\0' && digits[1] != '\0';
      str[ptr] := digits[0];
      str[ptr + 1] := digits[1];
      str[ptr + 2] := '\0';
      HexAppend(image[..i], image[i]);
      assert image[..i + 1] == image[..i] + [image[i]];
      ptr := ptr + 2;
      i := i + 1;
    }
    str[ptr] := '\0';
    assert image[..i] == image;
  }
}
