/** The earlier storage writer (_oldsrc/sd_card_.c): one record at a time
    out of the ring buffer, serialised into a static byte buffer, the
    buffer handed to sd_card_write once it is full. sd_card_write is not
    part of this model; its result is only logged, so the model records
    what each call is handed. */
module OldSdWriter {
  import opened NeuralRecord
  import opened FifoBuffer

  /** SD_WRITE_BUFFER_SIZE: 4096 bytes, not a whole number of records. */
  const WRITE_BUFFER_SIZE: nat := 4096

  /** The bytes handed to sd_card_write, call after call. */
  function Concat(ws: seq<seq<byte>>): seq<byte> {
    if ws == [] then [] else Concat(ws[..|ws| - 1]) + ws[|ws| - 1]
  }

  /** The index after one more record, as the source moves it: advance by
      sizeof(NeuralData), back to 0 once it reaches the buffer size. */
  function NextIndexAsWritten(index: nat): (i: nat)
    ensures i == 0 || i == index + RECORD_SIZE
  {
    if index + RECORD_SIZE >= WRITE_BUFFER_SIZE then 0 else index + RECORD_SIZE
  }

  /** The index after n records from the initial 0, as written. */
  function IndexAsWritten(n: nat): nat {
    if n == 0 then 0 else NextIndexAsWritten(IndexAsWritten(n - 1))
  }

  /** Until the first flush the index is n records' worth of bytes. */
  lemma {:induction false} IndexAsWrittenLinear(n: nat)
    requires RECORD_SIZE * n < WRITE_BUFFER_SIZE
    ensures IndexAsWritten(n) == RECORD_SIZE * n
  {
    if n > 0 {
      IndexAsWrittenLinear(n - 1);
    }
  }

  /** After 113 records the index is 4068, below the flush threshold, so
      the 114th memcpy is made at 4068 and its 36 bytes run 8 bytes past
      the end of the 4096-byte buffer. */
  lemma OverflowAfter113Records()
    ensures IndexAsWritten(113) == 4068
    ensures IndexAsWritten(113) + RECORD_SIZE == WRITE_BUFFER_SIZE + 8
  {
    IndexAsWrittenLinear(113);
  }

  /** The index after one more record in the corrected writer: it flushes
      as soon as another record would not fit. */
  function NextIndex(index: nat): (i: nat)
    requires index + RECORD_SIZE <= WRITE_BUFFER_SIZE
    ensures i + RECORD_SIZE <= WRITE_BUFFER_SIZE
  {
    if index + 2 * RECORD_SIZE > WRITE_BUFFER_SIZE then 0 else index + RECORD_SIZE
  }

  /** Every index the corrected writer reaches leaves room for one more
      record and is a whole number of records. */
  lemma NextIndexInBounds(index: nat)
    requires index % RECORD_SIZE == 0 && index + RECORD_SIZE <= WRITE_BUFFER_SIZE
    ensures NextIndex(index) % RECORD_SIZE == 0
    ensures NextIndex(index) == 0 <==> index == RECORD_SIZE * 112
  {
    if index + 2 * RECORD_SIZE > WRITE_BUFFER_SIZE {
      var k := index / RECORD_SIZE;
      assert index == RECORD_SIZE * k;
      assert k == 112;
    } else {
      var k := index / RECORD_SIZE;
      assert index == RECORD_SIZE * k;
      assert index + RECORD_SIZE == RECORD_SIZE * (k + 1);
    }
  }

  class ByteWriter {
    /** sd_write_buffer */
    const buffer: array<byte>
    /** sd_write_buffer_index */
    var index: nat
    /** Every record read out of the ring buffer so far, oldest first. */
    ghost var taken: seq<NeuralData>
    /** What each sd_card_write call was handed, oldest first. */
    ghost var writes: seq<seq<byte>>

    /** The index is a whole number of records with room for one more, and
        the bytes written plus the bytes held are the images of the records
        taken, in order. */
    ghost predicate Valid()
      reads this, buffer
    {
      buffer.Length == WRITE_BUFFER_SIZE &&
      index % RECORD_SIZE == 0 && index + RECORD_SIZE <= WRITE_BUFFER_SIZE &&
      Concat(writes) + buffer[..index] == EncodeAll(taken)
    }

    constructor ()
      ensures Valid() && fresh(buffer) && index == 0 && taken == [] && writes == []
    {
      buffer := new byte[WRITE_BUFFER_SIZE];
      index := 0;
      taken := [];
      writes := [];
    }

    /** memcpy(&sd_write_buffer[index], &data, sizeof(NeuralData)) and the
        index advance: needs the whole record to fit. */
    method Store(r: NeuralData)
      requires buffer.Length == WRITE_BUFFER_SIZE && index + RECORD_SIZE <= WRITE_BUFFER_SIZE
      modifies buffer, this`index
      ensures index == old(index) + RECORD_SIZE
      ensures buffer[..index] == old(buffer[..index]) + Encode(r)
    {
      var bytes := Encode(r);
      forall k | 0 <= k < RECORD_SIZE {
        buffer[index + k] := bytes[k];
      }
      assert buffer[..index + RECORD_SIZE] == old(buffer[..index]) + bytes;
      index := index + RECORD_SIZE;
    }

    /** One pass of the loop as written: read one record; when one came,
        store it and flush all 4096 bytes once the index reaches 4096. The
        memcpy needs the record to fit, which the reachable index 4068
        does not give (see OverflowAfter113Records). */
    method StepAsWritten(fifo: Fifo, slot: array<NeuralData>)
      requires fifo.Valid() && slot.Length == 1 && slot != fifo.buffer
      requires buffer.Length == WRITE_BUFFER_SIZE
      requires fifo.size > 0 ==> index + RECORD_SIZE <= WRITE_BUFFER_SIZE
      modifies this`index, this`writes, buffer, fifo, slot
      ensures fifo.Valid() && fifo.Contents() == old(fifo.Contents())[Min(1, old(fifo.size))..]
      ensures old(fifo.size) == 0 ==> index == old(index) && writes == old(writes) && buffer[..] == old(buffer[..])
      ensures old(fifo.size) > 0 ==> index == NextIndexAsWritten(old(index))
      ensures old(fifo.size) > 0 ==>
        buffer[..old(index) + RECORD_SIZE] == old(buffer[..index]) + Encode(old(fifo.Contents())[0])
      ensures old(fifo.size) > 0 && old(index) + RECORD_SIZE < WRITE_BUFFER_SIZE ==> writes == old(writes)
      ensures old(fifo.size) > 0 && old(index) + RECORD_SIZE >= WRITE_BUFFER_SIZE ==>
        writes == old(writes) + [buffer[..WRITE_BUFFER_SIZE]]
    {
      ghost var queue := fifo.Contents();
      var got := fifo.Read(slot, 0, 1);
      if got == 1 {
        assert slot[0] == queue[0];
        Store(slot[0]);
        if index >= WRITE_BUFFER_SIZE {
          writes := writes + [buffer[..WRITE_BUFFER_SIZE]];
          index := 0;
        }
      }
    }

    /** One pass of the corrected loop: read one record and, when one
        came, accept it. */
    method Step(fifo: Fifo, slot: array<NeuralData>)
      requires Valid() && fifo.Valid() && slot.Length == 1 && slot != fifo.buffer
      modifies this`index, this`taken, this`writes, buffer, fifo, slot
      ensures Valid() && fifo.Valid() && fifo.buffer == old(fifo.buffer)
      ensures fifo.Contents() == old(fifo.Contents())[Min(1, old(fifo.size))..]
      ensures taken == old(taken) + old(fifo.Contents())[..Min(1, old(fifo.size))]
      ensures old(fifo.size) == 0 ==> index == old(index) && writes == old(writes)
      ensures old(fifo.size) > 0 ==> index == NextIndex(old(index))
      ensures |writes| == |old(writes)| || (|writes| == |old(writes)| + 1 && |writes[|writes| - 1]| == RECORD_SIZE * 113)
    {
      ghost var queue := fifo.Contents();
      var got := fifo.Read(slot, 0, 1);
      if got == 1 {
        assert queue[..1] == [slot[0]];
        Accept(slot[0]);
      }
    }

    /** Stores one record and, once another record would not fit, hands the
        bytes held to sd_card_write and starts again at 0, whatever it
        returns. No record is lost, split or reordered on its way to the
        card, and every write is 113 whole records. */
    method Accept(r: NeuralData)
      requires Valid()
      modifies this`index, this`taken, this`writes, buffer
      ensures Valid() && taken == old(taken) + [r] && index == NextIndex(old(index))
      ensures writes == old(writes) || (|writes| == |old(writes)| + 1 && |writes[|writes| - 1]| == RECORD_SIZE * 113)
    {
      NextIndexInBounds(index);
      Store(r);
      EncodeAllAppend(taken, [r]);
      assert EncodeAll([r]) == Encode(r);
      taken := taken + [r];
      if index + RECORD_SIZE > WRITE_BUFFER_SIZE {
        writes := writes + [buffer[..index]];
        assert writes[..|writes| - 1] == old(writes);
        assert buffer[..0] == [];
        index := 0;
      }
    }
  }
}
