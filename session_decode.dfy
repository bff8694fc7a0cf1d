/** decode_binary_files of scripts/process_neural_data.py (v1) and
    scripts/process_neural_data2.py (v2): a session folder's segment files,
    taken in the order of their numeric suffix, read as one stream of
    36-byte records ('<16h' channels, '<I' millisecond timestamp) and
    gathered into rows. v2 also unwraps timestamps that go backwards after
    a device reset. The rows are those before the seconds-based snippet is
    cut from them; glob's result and each file's bytes are inputs. */
module SessionDecode {
  import opened NeuralRecord
  import opened BinaryDecoder
  import opened SegmentOrder
  import opened Text

  /** What decode_binary_files leaves behind: the placeholder CSV of
      create_failed_csv, or the table of rows. */
  datatype Output = FailedCsv | Table(rows: seq<seq<int>>)

  /** The channels of a record read with '<16h'. */
  function SignedChannels(r: NeuralData): (cs: seq<int>)
    ensures |cs| == MAX_CHANNELS
    ensures forall k :: 0 <= k < MAX_CHANNELS ==> cs[k] == AsSigned16(r.channelData[k])
  {
    seq(MAX_CHANNELS, k requires 0 <= k < MAX_CHANNELS => AsSigned16(r.channelData[k]))
  }

  /** Every path glob reported could be opened. */
  predicate AllReadable(paths: seq<string>, contents: map<string, seq<byte>>) {
    forall p :: p in paths ==> p in contents
  }

  /** The records of the files, file after file, each file's in its order. */
  function SessionRecords(files: seq<string>, contents: map<string, seq<byte>>): seq<NeuralData>
    requires AllReadable(files, contents)
  {
    if files == [] then []
    else SessionRecords(files[..|files| - 1], contents) + Records(contents[files[|files| - 1]])
  }

  lemma SessionRecordsStep(files: seq<string>, contents: map<string, seq<byte>>, f: nat)
    requires f < |files| && AllReadable(files[..f + 1], contents)
    ensures AllReadable(files[..f], contents)
    ensures SessionRecords(files[..f + 1], contents) == SessionRecords(files[..f], contents) + Records(contents[files[f]])
  {
    assert files[..f + 1][..f] == files[..f];
  }

  /** The files read so far, one more, all readable. */
  lemma ReadableStep(files: seq<string>, contents: map<string, seq<byte>>, f: nat)
    requires f < |files| && AllReadable(files[..f], contents) && files[f] in contents
    ensures AllReadable(files[..f + 1], contents)
  {
    assert forall p :: p in files[..f + 1] ==> p in files[..f] || p == files[f];
  }

  // ---------------------------------------------------------------------
  // v1: raw timestamps

  /** A v1 row: the raw timestamp, then the signed channels. */
  function RowV1(r: NeuralData): (row: seq<int>)
    ensures |row| == 1 + MAX_CHANNELS && row[0] == r.timestamp && row[1..] == SignedChannels(r)
  {
    [r.timestamp as int] + SignedChannels(r)
  }

  /** What v1 produces: a failed CSV when a file cannot be read or no
      record was found, otherwise one row per record in session order. */
  function DecodedV1(paths: seq<string>, contents: map<string, seq<byte>>): Output {
    var files := SortByKey(paths);
    if !AllReadable(files, contents) then FailedCsv
    else
      var rs := SessionRecords(files, contents);
      if rs == [] then FailedCsv else Table(seq(|rs|, i requires 0 <= i < |rs| => RowV1(rs[i])))
  }

  /** The records of a run of batches, batch after batch. */
  function Joined(batches: seq<seq<NeuralData>>): seq<NeuralData> {
    if batches == [] then [] else Joined(batches[..|batches| - 1]) + batches[|batches| - 1]
  }

  /** Each named file holds the images of its batch, as the firmware
      writer leaves them. */
  predicate HoldsBatches(contents: map<string, seq<byte>>, names: seq<string>, batches: seq<seq<NeuralData>>)
    requires |names| == |batches|
  {
    forall k :: 0 <= k < |batches| ==> names[k] in contents && contents[names[k]] == EncodeAll(batches[k])
  }

  /** Files holding batch images read back, file after file, as the
      batches' records. */
  lemma {:induction false} SessionRecordsOfBatches(names: seq<string>, batches: seq<seq<NeuralData>>, contents: map<string, seq<byte>>)
    requires |names| == |batches| && HoldsBatches(contents, names, batches)
    ensures AllReadable(names, contents)
    ensures SessionRecords(names, contents) == Joined(batches)
  {
    if batches != [] {
      var m := |batches| - 1;
      assert HoldsBatches(contents, names[..m], batches[..m]);
      SessionRecordsOfBatches(names[..m], batches[..m], contents);
      assert forall p :: p in names ==> p in names[..m] || p == names[m];
      assert EncodeAll(batches[m]) + [] == EncodeAll(batches[m]);
      RecordsOfEncodeAll(batches[m], []);
    }
  }

  /** End to end: a session folder holding the writer's data_0.bin ..
      data_<n - 1>.bin, each with the images of one batch, decodes in v1,
      however glob lists the files, to one row per record of all batches
      in counter order; a folder without records gives the failed CSV. */
  lemma DecodedV1OfSession(folder: string, batches: seq<seq<NeuralData>>, paths: seq<string>, contents: map<string, seq<byte>>)
    requires forall i :: 0 <= i < |folder| ==> !OccursAt(folder + PREFIX, PREFIX, i)
    requires multiset(paths) == multiset(SegmentPaths(folder, |batches|))
    requires HoldsBatches(contents, SegmentPaths(folder, |batches|), batches)
    ensures Joined(batches) == [] ==> DecodedV1(paths, contents) == FailedCsv
    ensures Joined(batches) != [] ==>
      DecodedV1(paths, contents).Table? &&
      |DecodedV1(paths, contents).rows| == |Joined(batches)| &&
      forall i :: 0 <= i < |Joined(batches)| ==> DecodedV1(paths, contents).rows[i] == RowV1(Joined(batches)[i])
  {
    SortSegmentPaths(folder, |batches|, paths);
    SessionRecordsOfBatches(SegmentPaths(folder, |batches|), batches, contents);
  }

  /** One file of v1's outer loop: 36-byte reads until one comes back
      short, each record appended as a row. */
  method AppendFileV1(data: seq<byte>, rows0: seq<seq<int>>, ghost recs0: seq<NeuralData>) returns (rows: seq<seq<int>>, ghost recs: seq<NeuralData>)
    requires |rows0| == |recs0| && forall i :: 0 <= i < |rows0| ==> rows0[i] == RowV1(recs0[i])
    ensures recs == recs0 + Records(data)
    ensures |rows| == |recs| && forall i :: 0 <= i < |rows| ==> rows[i] == RowV1(recs[i])
  {
    rows, recs := rows0, recs0;
    var pos := 0;
    ghost var k := 0;
    assert data[..0] == [];
    while true
      invariant pos == RECORD_SIZE * k <= |data|
      invariant recs == recs0 + Records(data[..pos])
      invariant |rows| == |recs| && forall i :: 0 <= i < |rows| ==> rows[i] == RowV1(recs[i])
      decreases |data| - pos
    {
      var chunk := data[pos..if pos + RECORD_SIZE <= |data| then pos + RECORD_SIZE else |data|];
      if chunk == [] || |chunk| != RECORD_SIZE {
        RecordsUpTo(data, k);
        break;
      }
      var r := Decode(chunk);
      ReadOneMore(data, k, recs0, recs);
      rows := rows + [RowV1(r)];
      recs := recs + [r];
      pos := pos + RECORD_SIZE;
      k := k + 1;
    }
  }

  /** decode_binary_files, v1. */
  method DecodeBinaryFilesV1(paths: seq<string>, contents: map<string, seq<byte>>) returns (out: Output)
    ensures out == DecodedV1(paths, contents)
  {
    var files := SortByKey(paths);
    var rows: seq<seq<int>> := [];
    ghost var recs: seq<NeuralData> := [];
    var f := 0;
    while f < |files|
      invariant 0 <= f <= |files| && AllReadable(files[..f], contents)
      invariant recs == SessionRecords(files[..f], contents)
      invariant |rows| == |recs| && forall i :: 0 <= i < |rows| ==> rows[i] == RowV1(recs[i])
    {
      if files[f] !in contents {
        assert files[f] in files;
        return FailedCsv;
      }
      ReadableStep(files, contents, f);
      SessionRecordsStep(files, contents, f);
      rows, recs := AppendFileV1(contents[files[f]], rows, recs);
      f := f + 1;
    }
    assert files[..f] == files;
    if rows == [] {
      return FailedCsv;
    }
    out := Table(rows);
  }

  // ---------------------------------------------------------------------
  // v2: timestamp unwrapping as written

  /** base_timestamp_ms and last_timestamp_ms. */
  datatype Clock = Clock(base: int, last: int)

  /** One record's update as written: a raw value below the last
      unwrapped total counts as a reset and adds that total to the base;
      the new total is raw + base. */
  function Tick(c: Clock, raw: int): (d: Clock)
    ensures d.last == raw + d.base
  {
    var base := if raw < c.last then c.base + c.last else c.base;
    Clock(base, raw + base)
  }

  /** The clock after the raw values, starting from (0, 0). */
  function ClockAfter(raws: seq<int>): Clock {
    if raws == [] then Clock(0, 0) else Tick(ClockAfter(raws[..|raws| - 1]), raws[|raws| - 1])
  }

  /** timestamp_total_ms of each record. */
  function Unwrapped(raws: seq<int>): (ts: seq<int>)
    ensures |ts| == |raws|
    ensures raws != [] ==> ts[|raws| - 1] == ClockAfter(raws).last
  {
    if raws == [] then [] else Unwrapped(raws[..|raws| - 1]) + [ClockAfter(raws).last]
  }

  lemma {:induction false} UnwrappedPrefix(raws: seq<int>, n: nat)
    requires n <= |raws|
    ensures Unwrapped(raws[..n]) == Unwrapped(raws)[..n]
    decreases |raws|
  {
    if n < |raws| {
      UnwrappedPrefix(raws[..|raws| - 1], n);
      assert raws[..|raws| - 1][..n] == raws[..n];
    } else {
      assert raws[..n] == raws;
    }
  }

  predicate NonNegative(raws: seq<int>) {
    forall i :: 0 <= i < |raws| ==> raws[i] >= 0
  }

  /** With non-negative raw values the base never goes negative and the
      total never falls below the latest raw value. */
  lemma {:induction false} ClockBounds(raws: seq<int>)
    requires NonNegative(raws)
    ensures ClockAfter(raws).base >= 0 && ClockAfter(raws).last >= 0
    ensures raws != [] ==> ClockAfter(raws).last >= raws[|raws| - 1]
  {
    if raws != [] {
      ClockBounds(raws[..|raws| - 1]);
    }
  }

  /** The first record keeps its raw timestamp. */
  lemma UnwrappedFirst(raws: seq<int>)
    requires raws != [] && raws[0] >= 0
    ensures Unwrapped(raws)[0] == raws[0]
  {
    UnwrappedPrefix(raws, 1);
    var one := raws[..1];
    assert one[..0] == [];
    assert ClockAfter(one) == Tick(Clock(0, 0), raws[0]);
  }

  /** Each total is at least the one before. */
  lemma {:induction false} UnwrappedStep(raws: seq<int>, k: nat)
    requires NonNegative(raws) && k + 1 < |raws|
    ensures Unwrapped(raws)[k] <= Unwrapped(raws)[k + 1]
  {
    var pre := raws[..k + 1];
    ClockBounds(pre);
    UnwrappedPrefix(raws, k + 1);
    UnwrappedPrefix(raws, k + 2);
    assert raws[..k + 2][..k + 1] == pre;
  }

  /** Unwrapped timestamps never decrease across the whole session. */
  lemma {:induction false} UnwrappedMonotone(raws: seq<int>, i: nat, j: nat)
    requires NonNegative(raws) && i <= j < |raws|
    ensures Unwrapped(raws)[i] <= Unwrapped(raws)[j]
    decreases j - i
  {
    if i < j {
      UnwrappedStep(raws, i);
      UnwrappedMonotone(raws, i + 1, j);
    }
  }

  /** Finding, as written: once a reset has been seen every later record
      counts as another one, because the raw value is compared with the
      unwrapped total. Raw 100, 50, 60 comes out 100, 150, 310, not 160. */
  lemma UnwrapAsWrittenDrifts()
    ensures Unwrapped([100, 50, 60]) == [100, 150, 310]
  {
    var raws := [100, 50, 60];
    assert raws[..2] == [100, 50] && raws[..2][..1] == [100] && [100][..0] == [];
  }

  // ---------------------------------------------------------------------
  // v2: timestamp unwrapping as evidently intended

  /** The base, and the last raw value. */
  datatype RawClock = RawClock(base: int, lastRaw: int)

  /** A reset is a raw value below the previous raw value; the total then
      continues from the previous total. */
  function FixedTick(c: RawClock, raw: int): RawClock {
    RawClock(if raw < c.lastRaw then c.base + c.lastRaw else c.base, raw)
  }

  function FixedClockAfter(raws: seq<int>): RawClock {
    if raws == [] then RawClock(0, 0) else FixedTick(FixedClockAfter(raws[..|raws| - 1]), raws[|raws| - 1])
  }

  function UnwrappedFixed(raws: seq<int>): (ts: seq<int>)
    ensures |ts| == |raws|
    ensures raws != [] ==> ts[|raws| - 1] == raws[|raws| - 1] + FixedClockAfter(raws).base
  {
    if raws == [] then [] else UnwrappedFixed(raws[..|raws| - 1]) + [raws[|raws| - 1] + FixedClockAfter(raws).base]
  }

  lemma {:induction false} UnwrappedFixedPrefix(raws: seq<int>, n: nat)
    requires n <= |raws|
    ensures UnwrappedFixed(raws[..n]) == UnwrappedFixed(raws)[..n]
    decreases |raws|
  {
    if n < |raws| {
      UnwrappedFixedPrefix(raws[..|raws| - 1], n);
      assert raws[..|raws| - 1][..n] == raws[..n];
    } else {
      assert raws[..n] == raws;
    }
  }

  lemma {:induction false} FixedClockLast(raws: seq<int>)
    requires NonNegative(raws)
    ensures FixedClockAfter(raws).base >= 0
    ensures FixedClockAfter(raws).lastRaw == if raws == [] then 0 else raws[|raws| - 1]
  {
    if raws != [] {
      FixedClockLast(raws[..|raws| - 1]);
    }
  }

  /** Between consecutive records the corrected total moves by the raw
      difference when there is no reset, and by the new raw value (time
      since the restart) when there is one; either way it does not fall. */
  lemma {:induction false} UnwrappedFixedStep(raws: seq<int>, k: nat)
    requires NonNegative(raws) && k + 1 < |raws|
    ensures raws[k] <= raws[k + 1] ==> UnwrappedFixed(raws)[k + 1] - UnwrappedFixed(raws)[k] == raws[k + 1] - raws[k]
    ensures raws[k + 1] < raws[k] ==> UnwrappedFixed(raws)[k + 1] == UnwrappedFixed(raws)[k] + raws[k + 1]
    ensures UnwrappedFixed(raws)[k] <= UnwrappedFixed(raws)[k + 1]
  {
    var pre := raws[..k + 1];
    FixedClockLast(pre);
    UnwrappedFixedPrefix(raws, k + 1);
    UnwrappedFixedPrefix(raws, k + 2);
    assert raws[..k + 2][..k + 1] == pre;
  }

  /** The corrected unwrap turns raw 100, 50, 60 into 100, 150, 160. */
  lemma UnwrapFixedExample()
    ensures UnwrappedFixed([100, 50, 60]) == [100, 150, 160]
  {
    var raws := [100, 50, 60];
    assert raws[..2] == [100, 50] && raws[..2][..1] == [100] && [100][..0] == [];
  }

  /** Records whose raw timestamps never go backwards. */
  predicate NoReset(raws: seq<int>) {
    forall i, j :: 0 <= i < j < |raws| ==> raws[i] <= raws[j]
  }

  lemma DropLastKeeps(raws: seq<int>)
    requires raws != [] && NonNegative(raws) && NoReset(raws)
    ensures NonNegative(raws[..|raws| - 1]) && NoReset(raws[..|raws| - 1])
  {
    var init := raws[..|raws| - 1];
    forall i, j | 0 <= i < j < |init|
      ensures init[i] <= init[j]
    {
      assert init[i] == raws[i] && init[j] == raws[j];
    }
  }

  /** Without a reset the as-written unwrap leaves the timestamps as they are. */
  lemma {:induction false} UnwrapWithoutReset(raws: seq<int>)
    requires NonNegative(raws) && NoReset(raws)
    ensures Unwrapped(raws) == raws
    ensures ClockAfter(raws) == Clock(0, if raws == [] then 0 else raws[|raws| - 1])
  {
    if raws != [] {
      var init := raws[..|raws| - 1];
      var last := raws[|raws| - 1];
      DropLastKeeps(raws);
      UnwrapWithoutReset(init);
      assert ClockAfter(raws) == Tick(ClockAfter(init), last) == Clock(0, last);
      assert Unwrapped(raws) == init + [last];
      assert init + [last] == raws;
    }
  }

  lemma {:induction false} FixedBaseWithoutReset(raws: seq<int>)
    requires NonNegative(raws) && NoReset(raws)
    ensures FixedClockAfter(raws).base == 0
  {
    if raws != [] {
      var init := raws[..|raws| - 1];
      DropLastKeeps(raws);
      FixedBaseWithoutReset(init);
      FixedClockLast(init);
      if init != [] {
        assert init[|init| - 1] == raws[|init| - 1] <= raws[|raws| - 1];
      }
    }
  }

  lemma FixedSnocZeroBase(raws: seq<int>, init: seq<int>, last: int)
    requires raws == init + [last] && FixedClockAfter(raws).base == 0
    requires UnwrappedFixed(init) == init
    ensures UnwrappedFixed(raws) == raws
  {
    assert raws[..|raws| - 1] == init;
  }

  /** So does the corrected one. */
  lemma {:induction false} UnwrapFixedWithoutReset(raws: seq<int>)
    requires NonNegative(raws) && NoReset(raws)
    ensures UnwrappedFixed(raws) == raws
  {
    if raws != [] {
      var init := raws[..|raws| - 1];
      DropLastKeeps(raws);
      var last := raws[|raws| - 1];
      UnwrapFixedWithoutReset(init);
      FixedBaseWithoutReset(raws);
      FixedSnocZeroBase(raws, init, last);
    }
  }

  // ---------------------------------------------------------------------
  // v2 decoding

  function Raws(rs: seq<NeuralData>): (raws: seq<int>)
    ensures |raws| == |rs| && NonNegative(raws)
  {
    seq(|rs|, i requires 0 <= i < |rs| => rs[i].timestamp as int)
  }

  /** A v2 row: the unwrapped millisecond total, then the signed channels. */
  function RowV2(total: int, r: NeuralData): (row: seq<int>)
    ensures |row| == 1 + MAX_CHANNELS && row[0] == total && row[1..] == SignedChannels(r)
  {
    [total] + SignedChannels(r)
  }

  /** The clock after the records, as the loop carries it. */
  function ClockOf(recs: seq<NeuralData>): Clock {
    if recs == [] then Clock(0, 0) else Tick(ClockOf(recs[..|recs| - 1]), recs[|recs| - 1].timestamp)
  }

  /** v2's rows for the records: each with the total its record's tick
      gives. */
  function RowsV2(recs: seq<NeuralData>): (rows: seq<seq<int>>)
    ensures |rows| == |recs|
    ensures forall i :: 0 <= i < |rows| ==> |rows[i]| == 1 + MAX_CHANNELS
  {
    if recs == [] then []
    else RowsV2(recs[..|recs| - 1]) + [RowV2(ClockOf(recs).last, recs[|recs| - 1])]
  }

  /** One record further on: its tick, and its row with the new total. */
  lemma RowsV2Extend(rows: seq<seq<int>>, recs: seq<NeuralData>, c: Clock, r: NeuralData)
    requires rows == RowsV2(recs) && c == ClockOf(recs)
    ensures ClockOf(recs + [r]) == Tick(c, r.timestamp)
    ensures RowsV2(recs + [r]) == rows + [RowV2(Tick(c, r.timestamp).last, r)]
  {
    assert (recs + [r])[..|recs|] == recs;
  }

  lemma {:induction false} ClockOfRaws(recs: seq<NeuralData>)
    ensures ClockOf(recs) == ClockAfter(Raws(recs))
  {
    if recs != [] {
      var init := recs[..|recs| - 1];
      ClockOfRaws(init);
      assert Raws(recs)[..|init|] == Raws(init);
    }
  }

  /** Row i of v2 is the i-th unwrapped total and record i's channels. */
  lemma {:induction false} RowsV2At(recs: seq<NeuralData>, i: nat)
    requires i < |recs|
    ensures RowsV2(recs)[i] == RowV2(Unwrapped(Raws(recs))[i], recs[i])
    decreases |recs|
  {
    var n := |recs| - 1;
    var init := recs[..n];
    UnwrappedPrefix(Raws(recs), n);
    assert Raws(recs)[..n] == Raws(init);
    if i < n {
      RowsV2At(init, i);
    } else {
      ClockOfRaws(recs);
    }
  }

  /** What v2 produces, before its snippet: rows as in v1 but with the
      as-written unwrapped totals. */
  function DecodedV2(paths: seq<string>, contents: map<string, seq<byte>>): Output {
    var files := SortByKey(paths);
    if !AllReadable(files, contents) then FailedCsv
    else
      var rs := SessionRecords(files, contents);
      if rs == [] then FailedCsv else Table(RowsV2(rs))
  }

  /** The records read so far, one record further on. */
  lemma ReadOneMore(data: seq<byte>, k: nat, recs0: seq<NeuralData>, recs: seq<NeuralData>)
    requires RECORD_SIZE * (k + 1) <= |data|
    requires recs == recs0 + Records(data[..RECORD_SIZE * k])
    ensures recs + [Decode(data[RECORD_SIZE * k..RECORD_SIZE * (k + 1)])] == recs0 + Records(data[..RECORD_SIZE * (k + 1)])
  {
    RecordsExtend(data, k);
  }

  /** One file of v2's outer loop. */
  method AppendFileV2(data: seq<byte>, rows0: seq<seq<int>>, ghost recs0: seq<NeuralData>, c0: Clock)
    returns (rows: seq<seq<int>>, ghost recs: seq<NeuralData>, c: Clock)
    requires rows0 == RowsV2(recs0) && c0 == ClockOf(recs0)
    ensures recs == recs0 + Records(data) && rows == RowsV2(recs) && c == ClockOf(recs)
  {
    rows, recs := rows0, recs0;
    var base, last := c0.base, c0.last;
    var pos := 0;
    ghost var k := 0;
    assert data[..0] == [];
    while true
      invariant pos == RECORD_SIZE * k <= |data|
      invariant recs == recs0 + Records(data[..pos])
      invariant rows == RowsV2(recs) && Clock(base, last) == ClockOf(recs)
      decreases |data| - pos
    {
      var chunk := data[pos..if pos + RECORD_SIZE <= |data| then pos + RECORD_SIZE else |data|];
      if chunk == [] || |chunk| != RECORD_SIZE {
        RecordsUpTo(data, k);
        break;
      }
      var r := Decode(chunk);
      ghost var before := Clock(base, last);
      RowsV2Extend(rows, recs, before, r);
      var timestamp := r.timestamp as int;
      base := if timestamp < last then base + last else base;
      var total := timestamp + base;
      last := total;
      assert Clock(base, last) == Tick(before, r.timestamp);
      ReadOneMore(data, k, recs0, recs);
      rows := rows + [RowV2(total, r)];
      recs := recs + [r];
      pos := pos + RECORD_SIZE;
      k := k + 1;
    }
    c := Clock(base, last);
  }

  /** decode_binary_files, v2. */
  method DecodeBinaryFilesV2(paths: seq<string>, contents: map<string, seq<byte>>) returns (out: Output)
    ensures out == DecodedV2(paths, contents)
  {
    var files := SortByKey(paths);
    var rows: seq<seq<int>> := [];
    ghost var recs: seq<NeuralData> := [];
    var clock := Clock(0, 0);
    var f := 0;
    while f < |files|
      invariant 0 <= f <= |files| && AllReadable(files[..f], contents)
      invariant recs == SessionRecords(files[..f], contents)
      invariant rows == RowsV2(recs) && clock == ClockOf(recs)
    {
      if files[f] !in contents {
        assert files[f] in files;
        return FailedCsv;
      }
      ReadableStep(files, contents, f);
      SessionRecordsStep(files, contents, f);
      rows, recs, clock := AppendFileV2(contents[files[f]], rows, recs, clock);
      f := f + 1;
    }
    assert files[..f] == files;
    if rows == [] {
      return FailedCsv;
    }
    out := Table(rows);
  }

  /** v2's time column never decreases. */
  lemma DecodedV2Monotone(paths: seq<string>, contents: map<string, seq<byte>>, i: nat, j: nat)
    requires DecodedV2(paths, contents).Table?
    requires i <= j < |DecodedV2(paths, contents).rows|
    ensures DecodedV2(paths, contents).rows[i][0] <= DecodedV2(paths, contents).rows[j][0]
  {
    var rs := SessionRecords(SortByKey(paths), contents);
    RowsV2At(rs, i);
    RowsV2At(rs, j);
    UnwrappedMonotone(Raws(rs), i, j);
  }
}
