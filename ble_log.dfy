/** decode_ble_log, in its three versions (scripts/test_ble_log_decoding.py,
    scripts/process_neural_data.py, scripts/process_neural_data2.py): the
    lines of a BLE logger's text file that carry a notification of handle
    0x12, the hyphenated hexadecimal payload turned back into bytes, and
    each 36-byte payload unpacked as 16 signed channel words and the raw
    millisecond timestamp. Lines are taken without their terminator, as
    iterating over the file and the regular expression's '.' see them. */
module BleLog {
  import opened NeuralRecord
  import opened Text
  import opened Optional
  import opened HexText
  import opened LogTime

  /** What the pattern requires after the stamp. */
  const MARKER: string := "handle: 0x12, value (0x): "

  /** The last position from `from` on at which MARKER occurs: the greedy
      '.*' before it gives back characters from the end of the line. */
  function LastMarker(line: string, from: nat): (j: Option<nat>)
    ensures j.Some? ==> from <= j.value && OccursAt(line, MARKER, j.value)
    ensures j.Some? ==> forall k :: j.value < k ==> !OccursAt(line, MARKER, k)
    ensures j.None? ==> forall k :: from <= k ==> !OccursAt(line, MARKER, k)
    decreases |line| - from
  {
    if from + |MARKER| > |line| then None
    else match LastMarker(line, from + 1)
      case Some(j) => Some(j)
      case None => if OccursAt(line, MARKER, from) then Some(from) else None
  }

  /** The pattern matches from position i: a stamp there, MARKER after it. */
  predicate MatchesAt(line: string, i: nat) {
    IsoAt(line, i) && LastMarker(line, i + ISO_LENGTH).Some?
  }

  /** re.search tries every start from i on and takes the first that
      matches. */
  function Search(line: string, i: nat): (m: Option<nat>)
    ensures m.Some? ==> i <= m.value && MatchesAt(line, m.value)
    ensures forall k :: i <= k && (m.None? || k < m.value) ==> !MatchesAt(line, k)
    decreases |line| - i
  {
    if i + ISO_LENGTH > |line| then None
    else if MatchesAt(line, i) then Some(i)
    else Search(line, i + 1)
  }

  /** A matching line: where its stamp starts and the payload text, the
      rest of the line after the last MARKER. */
  datatype Hit = Hit(stamp: nat, payload: string)

  function Match(line: string): (h: Option<Hit>)
    ensures h.Some? ==> IsoAt(line, h.value.stamp)
  {
    match Search(line, 0)
    case None => None
    case Some(i) =>
      var j := LastMarker(line, i + ISO_LENGTH).value;
      Some(Hit(i, line[j + |MARKER|..]))
  }

  /** The payload's bytes: hyphens removed, then bytes.fromhex. */
  function PayloadBytes(payload: string): Option<seq<byte>> {
    FromHex(Remove(payload, '-'))
  }

  /** One output row: the raw millisecond timestamp, then the 16 channels
      read as signed words ('<16h'). The 0.195 scaling is not modelled. */
  function SignedRow(b: seq<byte>): (row: seq<int>)
    requires |b| == RECORD_SIZE
    ensures |row| == 1 + MAX_CHANNELS && row[0] == U32At(b, 32)
    ensures forall k :: 0 <= k < MAX_CHANNELS ==> row[1 + k] == AsSigned16(Decode(b).channelData[k])
  {
    [U32At(b, 32) as int] + DecodeSignedChannels(b)
  }

  /** The three versions of the loop. */
  datatype Version =
    | TestScript   // test_ble_log_decoding.py: stamps parsed, length must be 36, errors re-raised
    | First        // process_neural_data.py: length below 36 skipped, above 36 fails the file
    | Second       // process_neural_data2.py: length must be 36, errors fail the file

  /** What one line contributes. */
  datatype LineOutcome = Skip | Emit(row: seq<int>) | Raise

  function Outcome(line: string, v: Version): (o: LineOutcome)
    ensures o.Emit? ==> |o.row| == 1 + MAX_CHANNELS
  {
    match Match(line)
    case None => Skip
    case Some(h) =>
      if v == TestScript && Strptime(line, h.stamp).None? then Raise
      else match PayloadBytes(h.payload)
        case None => Raise
        case Some(b) =>
          if |b| == RECORD_SIZE then Emit(SignedRow(b))
          else if v == First && |b| > RECORD_SIZE then Raise
          else Skip
  }

  /** What each line contributes, line by line. */
  function Outcomes(lines: seq<string>, v: Version): (os: seq<LineOutcome>)
    ensures |os| == |lines| && forall k :: 0 <= k < |lines| ==> os[k] == Outcome(lines[k], v)
  {
    seq(|lines|, k requires 0 <= k < |lines| => Outcome(lines[k], v))
  }

  /** The rows in order, or None once a line raises. */
  function Gather(os: seq<LineOutcome>): Option<seq<seq<int>>> {
    if os == [] then Some([])
    else match Gather(os[..|os| - 1])
      case None => None
      case Some(rows) =>
        match os[|os| - 1]
        case Raise => None
        case Skip => Some(rows)
        case Emit(row) => Some(rows + [row])
  }

  /** What the function leaves behind: a CSV of rows, a failed CSV, or an
      exception out of the test script. */
  datatype Decoded = Written(rows: seq<seq<int>>) | FailedCsv | Raised

  function Decoding(lines: seq<string>, v: Version): Decoded {
    match Gather(Outcomes(lines, v))
    case None => if v == TestScript then Raised else FailedCsv
    case Some(rows) => if rows == [] && v != TestScript then FailedCsv else Written(rows)
  }

  /** Once a line has raised, no later line brings the rows back. */
  lemma {:induction false} GatherRaised(os: seq<LineOutcome>, n: nat)
    requires n <= |os| && Gather(os[..n]).None?
    ensures Gather(os).None?
    decreases |os| - n
  {
    if n < |os| {
      assert os[..n + 1][..n] == os[..n];
      GatherRaised(os, n + 1);
    } else {
      assert os[..n] == os;
    }
  }

  /** decode_ble_log: the per-line loop, stopping at the first exception. */
  method DecodeBleLog(lines: seq<string>, v: Version) returns (out: Decoded)
    ensures out == Decoding(lines, v)
  {
    ghost var os := Outcomes(lines, v);
    var rows: seq<seq<int>> := [];
    var n := 0;
    while n < |lines|
      invariant 0 <= n <= |lines| && Gather(os[..n]) == Some(rows)
    {
      var o := Outcome(lines[n], v);
      assert os[..n + 1][..n] == os[..n] && os[n] == o;
      if o.Raise? {
        GatherRaised(os, n + 1);
        return if v == TestScript then Raised else FailedCsv;
      }
      if o.Emit? {
        rows := rows + [o.row];
      }
      n := n + 1;
    }
    assert os[..n] == os;
    out := if rows == [] && v != TestScript then FailedCsv else Written(rows);
  }

  // ---------------------------------------------------------------------
  // The logger's side

  /** A notification line as the logger prints it for one record. */
  function LoggerLine(dt: DateTime, r: NeuralData): string
    requires Printable(dt)
  {
    Format(dt) + NOTICE + MARKER + Hyphenated(Encode(r))
  }

  /** What the logger prints between the stamp and MARKER. */
  const NOTICE: string := " INFO Attribute value changed, "

  function LoggerLines(stamps: seq<DateTime>, rs: seq<NeuralData>): (lines: seq<string>)
    requires |stamps| == |rs| && forall k :: 0 <= k < |stamps| ==> Printable(stamps[k])
    ensures |lines| == |rs|
    ensures forall k :: 0 <= k < |rs| ==> lines[k] == LoggerLine(stamps[k], rs[k])
  {
    seq(|rs|, k requires 0 <= k < |rs| => LoggerLine(stamps[k], rs[k]))
  }

  /** The row a record is meant to give. */
  function RecordRow(r: NeuralData): (row: seq<int>)
    ensures |row| == 1 + MAX_CHANNELS && row[0] == r.timestamp
  {
    [r.timestamp as int] + seq(MAX_CHANNELS, k requires 0 <= k < MAX_CHANNELS => AsSigned16(r.channelData[k]))
  }

  /** A stamp keeps its meaning whatever follows it. */
  lemma IsoPrefix(s: string, t: string)
    requires IsoAt(s, 0)
    ensures IsoAt(s + t, 0) && Fields(s + t, 0) == Fields(s, 0)
  {
    var u := s + t;
    assert u[0..4] == s[0..4] && u[5..7] == s[5..7] && u[8..10] == s[8..10];
    assert u[11..13] == s[11..13] && u[14..16] == s[14..16] && u[17..19] == s[17..19] && u[20..23] == s[20..23];
  }

  /** The hyphenated digits never hold MARKER: MARKER ends in a space. */
  lemma NoMarkerIn(head: string, payload: string, k: nat)
    requires forall i :: 0 <= i < |payload| ==> payload[i] == '-' || HexValue(payload[i]).Some?
    requires |head| < k + |MARKER|
    ensures !OccursAt(head + payload, MARKER, k)
  {
    var line := head + payload;
    var e := k + |MARKER| - 1;
    if e < |line| {
      assert line[e] == payload[e - |head|];
      assert MARKER[|MARKER| - 1] == ' ';
    }
  }

  lemma HyphenatedChars(bs: seq<byte>)
    ensures forall i :: 0 <= i < |Hyphenated(bs)| ==> Hyphenated(bs)[i] == '-' || HexValue(Hyphenated(bs)[i]).Some?
  {
    if |bs| > 1 {
      HyphenatedChars(bs[1..]);
    }
  }

  /** The greedy search settles on the one MARKER after which none occurs. */
  lemma LastMarkerIs(line: string, from: nat, j0: nat)
    requires from <= j0 && OccursAt(line, MARKER, j0)
    requires forall k :: j0 < k ==> !OccursAt(line, MARKER, k)
    ensures LastMarker(line, from) == Some(j0)
  {
  }

  /** In a line of a stamp, any text, MARKER and a payload of digits and
      hyphens, the pattern matches at the stamp and the payload is what
      follows MARKER. */
  lemma MatchOfParts(stamp: string, mid: string, payload: string)
    requires IsoAt(stamp, 0) && |stamp| == ISO_LENGTH
    requires forall i :: 0 <= i < |payload| ==> payload[i] == '-' || HexValue(payload[i]).Some?
    ensures IsoAt(stamp + mid + MARKER + payload, 0)
    ensures Match(stamp + mid + MARKER + payload) == Some(Hit(0, payload))
    ensures Fields(stamp + mid + MARKER + payload, 0) == Fields(stamp, 0)
  {
    var head := stamp + mid + MARKER;
    var line := head + payload;
    assert line == stamp + (mid + MARKER + payload);
    IsoPrefix(stamp, mid + MARKER + payload);
    var j0 := |stamp| + |mid|;
    assert OccursAt(line, MARKER, j0) by {
      assert line[j0..j0 + |MARKER|] == MARKER;
    }
    forall k | j0 < k
      ensures !OccursAt(line, MARKER, k)
    {
      NoMarkerIn(head, payload, k);
    }
    LastMarkerIs(line, ISO_LENGTH, j0);
    assert line[j0 + |MARKER|..] == payload;
  }

  /** The pattern finds a logger line's stamp at its start and its payload
      after MARKER. */
  lemma MatchOfLoggerLine(dt: DateTime, r: NeuralData)
    requires Printable(dt)
    ensures Match(LoggerLine(dt, r)) == Some(Hit(0, Hyphenated(Encode(r))))
    ensures Strptime(LoggerLine(dt, r), 0) == Some(dt)
  {
    StrptimeOfFormat(dt);
    HyphenatedChars(Encode(r));
    MatchOfParts(Format(dt), NOTICE, Hyphenated(Encode(r)));
  }

  /** Every version reads a logger line back as the record's row. */
  lemma OutcomeOfLoggerLine(dt: DateTime, r: NeuralData, v: Version)
    requires Printable(dt)
    ensures Outcome(LoggerLine(dt, r), v) == Emit(RecordRow(r))
  {
    MatchOfLoggerLine(dt, r);
    RemoveHyphens(Encode(r));
    FromHexOfHex(Encode(r));
    DecodeEncode(r);
    assert SignedRow(Encode(r)) == RecordRow(r);
  }

  function RecordRows(rs: seq<NeuralData>): (rows: seq<seq<int>>)
    ensures |rows| == |rs| && forall k :: 0 <= k < |rs| ==> rows[k] == RecordRow(rs[k])
  {
    seq(|rs|, k requires 0 <= k < |rs| => RecordRow(rs[k]))
  }

  /** Lines that each give a row give all their rows, in order. */
  lemma {:induction false} GatherAllEmit(os: seq<LineOutcome>, rows: seq<seq<int>>)
    requires |os| == |rows| && forall k :: 0 <= k < |os| ==> os[k] == Emit(rows[k])
    ensures Gather(os) == Some(rows)
  {
    if os != [] {
      var n := |os| - 1;
      GatherAllEmit(os[..n], rows[..n]);
      assert rows == rows[..n] + [rows[n]];
    }
  }

  /** A log of notification lines gives one row per record, in order. */
  lemma GatherLoggerLines(stamps: seq<DateTime>, rs: seq<NeuralData>, v: Version)
    requires |stamps| == |rs| && forall k :: 0 <= k < |stamps| ==> Printable(stamps[k])
    ensures Gather(Outcomes(LoggerLines(stamps, rs), v)) == Some(RecordRows(rs))
  {
    var lines := LoggerLines(stamps, rs);
    var os := Outcomes(lines, v);
    forall k | 0 <= k < |lines|
      ensures os[k] == Emit(RecordRows(rs)[k])
    {
      OutcomeOfLoggerLine(stamps[k], rs[k], v);
    }
    GatherAllEmit(os, RecordRows(rs));
  }

  /** Every version writes back the records of a logger's log; the two
      analysis versions fail an empty one. */
  lemma DecodingOfLoggerLines(stamps: seq<DateTime>, rs: seq<NeuralData>, v: Version)
    requires |stamps| == |rs| && forall k :: 0 <= k < |stamps| ==> Printable(stamps[k])
    ensures Decoding(LoggerLines(stamps, rs), v) ==
      if rs == [] && v != TestScript then FailedCsv else Written(RecordRows(rs))
  {
    GatherLoggerLines(stamps, rs, v);
  }
}
