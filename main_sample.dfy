/** The on-board stand-in sample of src/main.c: a 12-hour wrap-around
    millisecond clock and a per-byte counter that every update advances
    modulo 200. The sample struct main.c uses (channels[i].data[j]) is
    declared in no header of the repository, so the number of bytes per
    channel is a parameter and each byte is taken to be a uint8_t. */
module MainSample {
  import opened NeuralRecord

  /** 12 * 60 * 60 * 1000 */
  const TWELVE_HOURS_MS: nat := 43_200_000
  /** The value at which a byte goes back to 0. */
  const BYTE_WRAP: nat := 200

  /** get_current_timestamp: the uptime, which is never negative, reduced
      modulo 12 hours; the uint32_t cast keeps it as it is. */
  function CurrentTimestamp(uptimeMs: nat): (t: u32)
    ensures t < TWELVE_HOURS_MS
    ensures (uptimeMs - t) % TWELVE_HOURS_MS == 0
  {
    var t := uptimeMs % TWELVE_HOURS_MS;
    assert uptimeMs - t == TWELVE_HOURS_MS * (uptimeMs / TWELVE_HOURS_MS);
    t
  }

  /** One byte after data[j]++ (a uint8_t wraps at 256) and the reset at 200. */
  function Bump(v: byte): (w: byte)
    ensures w < BYTE_WRAP || (v >= BYTE_WRAP && w == (v + 1) % 0x100)
    ensures v < BYTE_WRAP ==> w == (v + 1) % BYTE_WRAP
  {
    var x := (v + 1) % 0x100;
    if x == BYTE_WRAP then 0 else x
  }

  /** A byte after n updates from v. */
  function Bumped(v: byte, n: nat): byte {
    if n == 0 then v else Bump(Bumped(v, n - 1))
  }

  /** Advancing the count modulo 200 is what Bump does to it. */
  lemma BumpStep(n: nat)
    ensures Bump(n % BYTE_WRAP) == (n + 1) % BYTE_WRAP
  {
    var q, r := n / BYTE_WRAP, n % BYTE_WRAP;
    if r + 1 == BYTE_WRAP {
      DivModUnique(n + 1, BYTE_WRAP, q + 1, 0);
    } else {
      DivModUnique(n + 1, BYTE_WRAP, q, r + 1);
    }
  }

  /** From 0, a byte holds n mod 200 after n updates. */
  lemma {:induction false} BumpedFromZero(n: nat)
    ensures Bumped(0, n) == n % BYTE_WRAP
  {
    if n > 0 {
      BumpedFromZero(n - 1);
      BumpStep(n - 1);
    }
  }

  class Sample {
    /** latest_neural_data.channels[i].data[j] */
    const channels: array2<byte>
    /** latest_neural_data.timestamp */
    var timestamp: u32
    /** How many times update_neural_data has run. */
    ghost var updates: nat

    /** Every byte of every channel holds the update count modulo 200, so
        all bytes are equal and below 200. */
    ghost predicate Valid()
      reads this, channels
    {
      channels.Length0 == MAX_CHANNELS &&
      forall i, j :: 0 <= i < channels.Length0 && 0 <= j < channels.Length1 ==> channels[i, j] == updates % BYTE_WRAP
    }

    /** The all-zero initial value. */
    constructor (bytesPerChannel: nat)
      ensures Valid() && fresh(channels) && channels.Length1 == bytesPerChannel
      ensures timestamp == 0 && updates == 0
    {
      channels := new byte[MAX_CHANNELS, bytesPerChannel]((i, j) => 0);
      timestamp := 0;
      updates := 0;
    }

    /** update_neural_data: every byte of every channel advances by one, the
        timestamp is the current one, nothing else changes. */
    method Update(uptimeMs: nat)
      requires Valid()
      modifies channels, this`timestamp, this`updates
      ensures Valid() && updates == old(updates) + 1
      ensures forall i, j :: 0 <= i < channels.Length0 && 0 <= j < channels.Length1 ==>
        channels[i, j] == Bump(old(channels[i, j]))
      ensures timestamp == CurrentTimestamp(uptimeMs)
    {
      var i := 0;
      while i < channels.Length0
        modifies channels
        invariant 0 <= i <= channels.Length0
        invariant forall a, b :: 0 <= a < channels.Length0 && 0 <= b < channels.Length1 ==>
          channels[a, b] == if a < i then Bump(old(channels[a, b])) else old(channels[a, b])
      {
        var j := 0;
        while j < channels.Length1
          modifies channels
          invariant 0 <= j <= channels.Length1
          invariant forall a, b :: 0 <= a < channels.Length0 && 0 <= b < channels.Length1 ==>
            channels[a, b] == if a < i || (a == i && b < j) then Bump(old(channels[a, b])) else old(channels[a, b])
        {
          var x := (channels[i, j] + 1) % 0x100;
          channels[i, j] := x;
          if channels[i, j] == BYTE_WRAP {
            channels[i, j] := 0;
          }
          j := j + 1;
        }
        i := i + 1;
      }
      BumpStep(updates);
      timestamp := CurrentTimestamp(uptimeMs);
      updates := updates + 1;
    }
  }
}
