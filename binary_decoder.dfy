/** scripts/binarydecoder.py: a segment file read back as 36-byte records,
    each written as a CSV row of the timestamp and the 16 channel words
    read unsigned ('<16H', '<I'). Also the record stream every host-side
    decoder walks. */
module BinaryDecoder {
  import opened NeuralRecord
  import opened Text

  /** The whole records of a byte stream, in file order; a trailing partial
      record is not one. */
  function Records(data: seq<byte>): seq<NeuralData>
    decreases |data|
  {
    if |data| < RECORD_SIZE then []
    else [Decode(data[..RECORD_SIZE])] + Records(data[RECORD_SIZE..])
  }

  /** One record per whole 36 bytes. */
  lemma {:induction false} RecordsLength(data: seq<byte>)
    ensures |Records(data)| == |data| / RECORD_SIZE
    decreases |data|
  {
    if |data| >= RECORD_SIZE {
      var rest := data[RECORD_SIZE..];
      RecordsLength(rest);
      DivModUnique(|data|, RECORD_SIZE, |rest| / RECORD_SIZE + 1, |rest| % RECORD_SIZE);
    }
  }

  /** The k-th record is the one decoded from the k-th 36-byte slice,
      whenever that slice lies inside the stream. */
  lemma {:induction false} RecordOfSlice(data: seq<byte>, k: nat)
    requires RECORD_SIZE * (k + 1) <= |data|
    ensures k < |Records(data)|
    ensures Records(data)[k] == Decode(data[RECORD_SIZE * k..RECORD_SIZE * (k + 1)])
    decreases k
  {
    var rest := data[RECORD_SIZE..];
    if k == 0 {
      assert data[RECORD_SIZE * k..RECORD_SIZE * (k + 1)] == data[..RECORD_SIZE];
    } else {
      RecordOfSlice(rest, k - 1);
      assert rest[RECORD_SIZE * (k - 1)..RECORD_SIZE * k] == data[RECORD_SIZE * k..RECORD_SIZE * (k + 1)];
    }
  }

  /** The k-th record is the one decoded from the k-th 36-byte slice. */
  lemma RecordsAt(data: seq<byte>, k: nat)
    requires k < |data| / RECORD_SIZE
    ensures RECORD_SIZE * (k + 1) <= |data| && |Records(data)| == |data| / RECORD_SIZE
    ensures Records(data)[k] == Decode(data[RECORD_SIZE * k..RECORD_SIZE * (k + 1)])
  {
    RecordsLength(data);
    MulStep(|data| / RECORD_SIZE, k, RECORD_SIZE);
    RecordOfSlice(data, k);
  }

  lemma {:induction false} RecordsOfEncodeAll(rs: seq<NeuralData>, tail: seq<byte>)
    requires |tail| < RECORD_SIZE
    ensures Records(EncodeAll(rs) + tail) == rs
  {
    var data := EncodeAll(rs) + tail;
    var got := Records(data);
    RecordsLength(data);
    DivModUnique(|data|, RECORD_SIZE, |rs|, |tail|);
    forall k | 0 <= k < |rs|
      ensures got[k] == rs[k]
    {
      EncodeAllSlice(rs, k);
      RecordsAt(data, k);
      assert data[RECORD_SIZE * k..RECORD_SIZE * (k + 1)] == EncodeAll(rs)[RECORD_SIZE * k..RECORD_SIZE * (k + 1)];
      DecodeEncode(rs[k]);
    }
  }

  /** The records read from a stream re-encode to the stream minus its
      trailing partial record: nothing is lost or reordered. */
  lemma {:induction false} EncodeAllOfRecords(data: seq<byte>)
    ensures EncodeAll(Records(data)) == data[..RECORD_SIZE * (|data| / RECORD_SIZE)]
    decreases |data|
  {
    if |data| >= RECORD_SIZE {
      var rest := data[RECORD_SIZE..];
      EncodeAllOfRecords(rest);
      var rs := Records(data);
      assert rs[1..] == Records(rest);
      EncodeDecode(data[..RECORD_SIZE]);
      DivModUnique(|data|, RECORD_SIZE, |rest| / RECORD_SIZE + 1, |rest| % RECORD_SIZE);
      assert data[..RECORD_SIZE * (|data| / RECORD_SIZE)]
          == data[..RECORD_SIZE] + rest[..RECORD_SIZE * (|rest| / RECORD_SIZE)];
    }
  }

  /** A stream cut at a record boundary reads as the records of its two
      parts. */
  lemma {:induction false} RecordsAppend(a: seq<byte>, b: seq<byte>)
    requires |a| % RECORD_SIZE == 0
    ensures Records(a + b) == Records(a) + Records(b)
    decreases |a|
  {
    if a != [] {
      assert |a| >= RECORD_SIZE;
      assert (a + b)[RECORD_SIZE..] == a[RECORD_SIZE..] + b;
      assert (a + b)[..RECORD_SIZE] == a[..RECORD_SIZE];
      RecordsAppend(a[RECORD_SIZE..], b);
    } else {
      assert a + b == b;
    }
  }

  /** Reading one more whole record: the records of the first k + 1
      records' bytes are those of the first k and the next one. */
  lemma RecordsExtend(data: seq<byte>, k: nat)
    requires RECORD_SIZE * (k + 1) <= |data|
    ensures Records(data[..RECORD_SIZE * (k + 1)])
      == Records(data[..RECORD_SIZE * k]) + [Decode(data[RECORD_SIZE * k..RECORD_SIZE * (k + 1)])]
  {
    var pos := RECORD_SIZE * k;
    var chunk := data[pos..pos + RECORD_SIZE];
    DivModUnique(pos, RECORD_SIZE, k, 0);
    assert data[..pos + RECORD_SIZE] == data[..pos] + chunk;
    RecordsAppend(data[..pos], chunk);
    assert chunk[RECORD_SIZE..] == [] && chunk[..RECORD_SIZE] == chunk;
  }

  /** A short read after k records: the records read so far are all of
      them. */
  lemma RecordsUpTo(data: seq<byte>, k: nat)
    requires RECORD_SIZE * k <= |data| < RECORD_SIZE * (k + 1)
    ensures Records(data[..RECORD_SIZE * k]) == Records(data)
  {
    var pos := RECORD_SIZE * k;
    DivModUnique(pos, RECORD_SIZE, k, 0);
    assert data == data[..pos] + data[pos..];
    RecordsAppend(data[..pos], data[pos..]);
  }

  /** A CSV row: the timestamp, then ch1..ch16 as unsigned words. */
  function Row(r: NeuralData): (row: seq<int>)
    ensures |row| == 1 + MAX_CHANNELS && row[0] == r.timestamp
    ensures row[1..] == r.channelData
  {
    [r.timestamp as int] + r.channelData
  }

  /** The header row: "timestamp", then "ch1" .. "ch16". */
  function Header(): (h: seq<string>)
    ensures |h| == 1 + MAX_CHANNELS && h[0] == "timestamp"
    ensures forall k :: 1 <= k <= MAX_CHANNELS ==> h[k] == "ch" + Decimal(k)
  {
    ["timestamp"] + seq(MAX_CHANNELS, i requires 0 <= i < MAX_CHANNELS => "ch" + Decimal(i + 1))
  }

  /** decode_binary_file: the header, then one row per whole record in file
      order; a trailing partial record stops the loop with a warning. */
  method DecodeBinaryFile(data: seq<byte>) returns (header: seq<string>, rows: seq<seq<int>>, warned: bool)
    ensures header == Header()
    ensures |rows| == |Records(data)| == |data| / RECORD_SIZE
    ensures forall k :: 0 <= k < |rows| ==> rows[k] == Row(Records(data)[k])
    ensures warned <==> |data| % RECORD_SIZE != 0
  {
    header := Header();
    rows := [];
    warned := false;
    var pos := 0;
    while true
      invariant pos == RECORD_SIZE * |rows| <= |data| && !warned
      invariant forall k :: 0 <= k < |rows| ==> rows[k] == Row(Decode(data[RECORD_SIZE * k..RECORD_SIZE * (k + 1)]))
      decreases |data| - pos
    {
      var chunk := data[pos..if pos + RECORD_SIZE <= |data| then pos + RECORD_SIZE else |data|];
      if chunk == [] {
        break;
      }
      if |chunk| != RECORD_SIZE {
        warned := true;
        break;
      }
      rows := rows + [Row(Decode(chunk))];
      pos := pos + RECORD_SIZE;
    }
    DivModUnique(|data|, RECORD_SIZE, |rows|, |data| - pos);
    RecordsLength(data);
    forall k | 0 <= k < |rows|
      ensures rows[k] == Row(Records(data)[k])
    {
      RecordsAt(data, k);
    }
  }
}
