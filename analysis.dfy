/** The integer bookkeeping of the host analysis scripts
    (process_neural_data.py, process_neural_data2.py and
    plot_attribute_deviation.py): packet loss from a decoded CSV, the
    highest stable sampling frequency of a configuration, the output file
    name of a (frequency, configuration) pair, and the counters and lists
    process_files keeps while it walks its file mapping. The file system is
    an oracle: the kind of each input path, whether its decoder raises, and
    the lines of each log file. Output paths are given relative to the
    output folder. */
module Analysis {
  import opened Text
  import opened Optional
  import AttributeLog

  // ---------------------------------------------------------------------
  // calculate_packet_loss

  /** What pd.read_csv makes of an output CSV. */
  datatype CsvTable = FileMissing | ReadError | NoTimestampColumn | Rows(count: nat)

  /** calculate_packet_loss: the samples missing from the table, never
      negative; every way of not having a timestamp column counts all
      expected samples as lost. */
  function PacketLoss(csv: CsvTable, expected: int): (lost: int)
    ensures !csv.Rows? ==> lost == expected
    ensures csv.Rows? ==> lost >= 0 && (lost == 0 <==> csv.count >= expected)
    ensures csv.Rows? && lost > 0 ==> lost + csv.count == expected
  {
    match csv
    case FileMissing => expected
    case ReadError => expected
    case NoTimestampColumn => expected
    case Rows(n) =>
      var lost := expected - n;
      if lost >= 0 then lost else 0
  }

  /** create_failed_csv writes a single "status" column, so a failed case
      reads back without timestamps. */
  const FAILED_CSV: CsvTable := NoTimestampColumn

  /** More rows never mean more loss, and a failed CSV loses everything. */
  lemma PacketLossMonotone(n1: nat, n2: nat, expected: int)
    requires n1 <= n2
    ensures PacketLoss(Rows(n2), expected) <= PacketLoss(Rows(n1), expected)
    ensures expected >= 0 ==> PacketLoss(Rows(n1), expected) <= PacketLoss(FAILED_CSV, expected)
  {
  }

  // ---------------------------------------------------------------------
  // analyze_stability

  /** analyze_stability's default threshold in process_neural_data.py. */
  const DEFAULT_MAX_ALLOWED_PACKET_LOSS: int := 10
  /** MAX_ALLOWED_PACKET_LOSS of process_neural_data2.py. */
  const MAX_ALLOWED_PACKET_LOSS: int := 100

  /** max of the frequencies whose loss is within the threshold, or None
      when there are none. losses holds the (frequency, loss) items of one
      configuration in dictionary order. */
  function HighestStable(losses: seq<(int, int)>, maxLoss: int): (h: Option<int>)
    ensures h.None? <==> forall i :: 0 <= i < |losses| ==> losses[i].1 > maxLoss
    ensures h.Some? ==> exists i :: 0 <= i < |losses| && losses[i].1 <= maxLoss && losses[i].0 == h.value
    ensures h.Some? ==> forall i :: 0 <= i < |losses| && losses[i].1 <= maxLoss ==> losses[i].0 <= h.value
  {
    if losses == [] then None
    else
      var rest := HighestStable(losses[..|losses| - 1], maxLoss);
      var last := losses[|losses| - 1];
      if last.1 > maxLoss then rest
      else if rest.Some? && last.0 <= rest.value then rest
      else Some(last.0)
  }

  /** analyze_stability over all configurations. */
  function Stability(data: map<string, seq<(int, int)>>, maxLoss: int): (m: map<string, Option<int>>)
    ensures m.Keys == data.Keys
  {
    map c | c in data :: HighestStable(data[c], maxLoss)
  }

  /** Allowing more loss never lowers the highest stable frequency. */
  lemma HighestStableMonotone(losses: seq<(int, int)>, t1: int, t2: int)
    requires t1 <= t2 && HighestStable(losses, t1).Some?
    ensures HighestStable(losses, t2).Some?
    ensures HighestStable(losses, t1).value <= HighestStable(losses, t2).value
  {
    var h1 := HighestStable(losses, t1);
    var i :| 0 <= i < |losses| && losses[i].1 <= t1 && losses[i].0 == h1.value;
    assert losses[i].1 <= t2;
  }
  /** Raising the threshold from the first script's default (10) to the
      second script's MAX_ALLOWED_PACKET_LOSS (100) keeps every stable
      configuration stable and never lowers its highest stable frequency. */
  lemma RaisedThreshold(data: map<string, seq<(int, int)>>, c: string)
    requires c in data && Stability(data, DEFAULT_MAX_ALLOWED_PACKET_LOSS)[c].Some?
    ensures Stability(data, MAX_ALLOWED_PACKET_LOSS)[c].Some?
    ensures Stability(data, DEFAULT_MAX_ALLOWED_PACKET_LOSS)[c].value <= Stability(data, MAX_ALLOWED_PACKET_LOSS)[c].value
  {
    HighestStableMonotone(data[c], DEFAULT_MAX_ALLOWED_PACKET_LOSS, MAX_ALLOWED_PACKET_LOSS);
  }


  // ---------------------------------------------------------------------
  // Output names

  /** str.replace(c, t) for one character c. */
  function Replace(s: string, c: char, t: string): (r: string)
    ensures c !in t ==> forall i :: 0 <= i < |r| ==> r[i] != c
  {
    if s == [] then [] else (if s[0] == c then t else [s[0]]) + Replace(s[1..], c, t)
  }

  lemma {:induction false} ReplaceAppend(s: string, u: string, c: char, t: string)
    ensures Replace(s + u, c, t) == Replace(s, c, t) + Replace(u, c, t)
  {
    if s == [] {
      assert s + u == u;
    } else {
      assert (s + u)[1..] == s[1..] + u;
      ReplaceAppend(s[1..], u, c, t);
    }
  }

  /** config.replace(' ', '_').replace('(', '').replace(')', '').replace('+', 'plus') */
  function Sanitised(config: string): string {
    Replace(Remove(Remove(Replace(config, ' ', "_"), '('), ')'), '+', "plus")
  }

  /** What one character of a configuration name becomes. */
  function SanitisedChar(c: char): string {
    if c == ' ' then "_"
    else if c == '(' || c == ')' then ""
    else if c == '+' then "plus"
    else [c]
  }

  /** The same mapping applied character by character. */
  function SanitisedByChar(config: string): (r: string)
    ensures forall i :: 0 <= i < |r| ==> r[i] != ' ' && r[i] != '(' && r[i] != ')' && r[i] != '+'
  {
    if config == [] then [] else SanitisedChar(config[0]) + SanitisedByChar(config[1..])
  }

  lemma SanitisedAppend(s: string, u: string)
    ensures Sanitised(s + u) == Sanitised(s) + Sanitised(u)
  {
    var a := Replace(s, ' ', "_");
    var b := Replace(u, ' ', "_");
    ReplaceAppend(s, u, ' ', "_");
    RemoveAppend(a, b, '(');
    var a2 := Remove(a, '(');
    var b2 := Remove(b, '(');
    RemoveAppend(a2, b2, ')');
    ReplaceAppend(Remove(a2, ')'), Remove(b2, ')'), '+', "plus");
  }

  lemma ReplaceOne(x: char, c: char, t: string)
    ensures Replace([x], c, t) == if x == c then t else [x]
  {
    assert [x][1..] == [];
  }

  lemma RemoveOne(x: char, c: char)
    ensures Remove([x], c) == if x == c then [] else [x]
  {
    assert [x][1..] == [];
  }

  lemma SanitisedOneChar(c: char)
    ensures Sanitised([c]) == SanitisedChar(c)
  {
    ReplaceOne(c, ' ', "_");
    if c == ' ' {
      RemoveOne('_', '(');
      RemoveOne('_', ')');
      ReplaceOne('_', '+', "plus");
    } else {
      RemoveOne(c, '(');
      if c != '(' {
        RemoveOne(c, ')');
        if c != ')' {
          ReplaceOne(c, '+', "plus");
        }
      }
    }
  }

  /** The four chained replacements act character by character, because
      no replacement text holds a character a later one looks for: the
      result has no blank, no parenthesis and no '+' left. */
  lemma {:induction false} SanitisedIsByChar(config: string)
    ensures Sanitised(config) == SanitisedByChar(config)
  {
    if config != [] {
      assert config == [config[0]] + config[1..];
      SanitisedAppend([config[0]], config[1..]);
      SanitisedOneChar(config[0]);
      SanitisedIsByChar(config[1..]);
    }
  }

  /** f"{freq}_{sanitized_config}.csv" */
  function OutputName(freq: nat, config: string): string {
    Decimal(freq) + "_" + Sanitised(config) + ".csv"
  }

  /** The frequency reads back from the front of the name. */
  lemma OutputNameFrequency(freq: nat, config: string)
    ensures DigitsValue(DigitPrefix(OutputName(freq, config))) == freq
  {
    var rest := "_" + Sanitised(config) + ".csv";
    assert OutputName(freq, config) == Decimal(freq) + rest;
    DigitPrefixOfDigits(Decimal(freq), rest);
    DigitsValueOfDecimal(freq);
  }

  /** A word of a configuration name: no blank, parenthesis or '+'. */
  predicate PlainWord(w: string) {
    forall i :: 0 <= i < |w| ==> w[i] != ' ' && w[i] != '(' && w[i] != ')' && w[i] != '+'
  }

  lemma {:induction false} SanitisedPlain(w: string)
    requires PlainWord(w)
    ensures SanitisedByChar(w) == w
  {
    if w != [] {
      SanitisedPlain(w[1..]);
    }
  }

  /** A word without blank, parenthesis or '+' is left as it is. */
  lemma SanitisedWord(w: string)
    requires PlainWord(w)
    ensures Sanitised(w) == w
  {
    SanitisedIsByChar(w);
    SanitisedPlain(w);
  }

  /** Sanitising is done piece by piece. */
  lemma SanitisedExtend(x: string, y: string, u: string, v: string)
    requires Sanitised(x) == y && Sanitised(u) == v
    ensures Sanitised(x + u) == y + v
  {
    SanitisedAppend(x, u);
  }

  /** The separators of the configuration names. */
  lemma SanitisedPlus()
    ensures Sanitised("+") == "plus"
  {
    SanitisedOneChar('+');
  }

  lemma SanitisedClose()
    ensures Sanitised(")") == ""
  {
    SanitisedOneChar(')');
  }

  lemma SanitisedOpening()
    ensures Sanitised(" (") == "_"
  {
    SanitisedIsByChar(" (");
  }

  lemma SanitisedClosing()
    ensures Sanitised(") ") == "_"
  {
    SanitisedIsByChar(") ");
  }

  /** The combined configurations "A+B (C) D", such as "BLE+SD (Intan) SD",
      are written as "AplusB_C_D" ("BLEplusSD_Intan_SD"), the spelling
      process_neural_data.py's main uses to find them again. */
  lemma SanitisedCombined(a: string, b: string, c: string, d: string)
    requires PlainWord(a) && PlainWord(b) && PlainWord(c) && PlainWord(d)
    ensures Sanitised(a + "+" + b + " (" + c + ") " + d) == a + "plus" + b + "_" + c + "_" + d
  {
    SanitisedWord(a);
    SanitisedWord(b);
    SanitisedWord(c);
    SanitisedWord(d);
    SanitisedPlus();
    SanitisedOpening();
    SanitisedClosing();
    SanitisedExtend(a, a, "+", "plus");
    SanitisedExtend(a + "+", a + "plus", b, b);
    SanitisedExtend(a + "+" + b, a + "plus" + b, " (", "_");
    SanitisedExtend(a + "+" + b + " (", a + "plus" + b + "_", c, c);
    SanitisedExtend(a + "+" + b + " (" + c, a + "plus" + b + "_" + c, ") ", "_");
    SanitisedExtend(a + "+" + b + " (" + c + ") ", a + "plus" + b + "_" + c + "_", d, d);
  }

  /** The single-link configurations "A (C)", such as "BLE (Intan)", are
      written as "A_C" ("BLE_Intan"). */
  lemma SanitisedSingle(a: string, c: string)
    requires PlainWord(a) && PlainWord(c)
    ensures Sanitised(a + " (" + c + ")") == a + "_" + c
  {
    SanitisedWord(a);
    SanitisedWord(c);
    SanitisedOpening();
    SanitisedClose();
    SanitisedExtend(a, a, " (", "_");
    SanitisedExtend(a + " (", a + "_", c, c);
    SanitisedExtend(a + " (" + c, a + "_" + c, ")", "");
    assert a + "_" + c + "" == a + "_" + c;
  }

  // ---------------------------------------------------------------------
  // process_files

  /** What os.path.exists, os.path.isdir and os.path.isfile say of an
      input path. */
  datatype PathKind = Absent | Directory | RegularFile | OtherKind

  datatype ConfigFile = ConfigFile(config: string, filename: string)
  /** One frequency of file_mapping with its configurations, in
      dictionary order. */
  datatype FrequencyFiles = FrequencyFiles(freq: nat, files: seq<ConfigFile>)
  /** One (frequency, configuration, file name) visit of the nested loop. */
  datatype Entry = Entry(freq: nat, config: string, filename: string)

  function EntriesOf(ff: FrequencyFiles): (es: seq<Entry>)
    ensures |es| == |ff.files|
  {
    seq(|ff.files|, i requires 0 <= i < |ff.files| => Entry(ff.freq, ff.files[i].config, ff.files[i].filename))
  }

  /** The visits of the nested loop over the mapping, in order. */
  function Entries(mapping: seq<FrequencyFiles>): seq<Entry> {
    if mapping == [] then [] else Entries(mapping[..|mapping| - 1]) + EntriesOf(mapping[|mapping| - 1])
  }

  lemma EntriesStep(mapping: seq<FrequencyFiles>, i: nat)
    requires i < |mapping|
    ensures Entries(mapping[..i + 1]) == Entries(mapping[..i]) + EntriesOf(mapping[i])
  {
    assert mapping[..i + 1][..i] == mapping[..i];
  }

  /** Which counter an entry increments in process_neural_data.py and
      process_neural_data2.py. */
  datatype Outcome = ExpectedFailure | Processed | UnexpectedFailure

  /** A listed failed case gets its failed CSV without looking at the
      input; otherwise a folder is decoded as a session and a file as a
      BLE log, and a missing path, another kind of path or a decoder that
      raises gives an unexpected failed CSV. */
  function EntryOutcome(e: Entry, failedCases: seq<(nat, string)>, kind: string -> PathKind, raises: string -> bool): Outcome {
    if (e.freq, e.config) in failedCases then ExpectedFailure
    else
      match kind(e.filename)
      case Absent => UnexpectedFailure
      case OtherKind => UnexpectedFailure
      case Directory => if raises(e.filename) then UnexpectedFailure else Processed
      case RegularFile => if raises(e.filename) then UnexpectedFailure else Processed
  }

  function Outcomes(es: seq<Entry>, failedCases: seq<(nat, string)>, kind: string -> PathKind, raises: string -> bool): (os: seq<Outcome>)
    ensures |os| == |es|
  {
    seq(|es|, i requires 0 <= i < |es| => EntryOutcome(es[i], failedCases, kind, raises))
  }

  /** The output CSV of each entry, in order. */
  function OutputNames(es: seq<Entry>): (names: seq<string>)
    ensures |names| == |es|
  {
    seq(|es|, i requires 0 <= i < |es| => OutputName(es[i].freq, es[i].config))
  }

  function Count(os: seq<Outcome>, o: Outcome): (n: nat)
    ensures n <= |os|
  {
    if os == [] then 0 else Count(os[..|os| - 1], o) + (if os[|os| - 1] == o then 1 else 0)
  }

  lemma {:induction false} CountAppend(xs: seq<Outcome>, ys: seq<Outcome>, o: Outcome)
    ensures Count(xs + ys, o) == Count(xs, o) + Count(ys, o)
    decreases |ys|
  {
    if ys == [] {
      assert xs + ys == xs;
    } else {
      var n := |ys| - 1;
      assert (xs + ys)[..|xs + ys| - 1] == xs + ys[..n];
      CountAppend(xs, ys[..n], o);
    }
  }

  /** Every entry increments exactly one of the three counters. */
  lemma {:induction false} CountPartition(os: seq<Outcome>)
    ensures Count(os, Processed) + Count(os, ExpectedFailure) + Count(os, UnexpectedFailure) == |os|
  {
    if os != [] {
      CountPartition(os[..|os| - 1]);
    }
  }

  lemma CountStep(os: seq<Outcome>, j: nat, o: Outcome)
    requires j < |os|
    ensures Count(os[..j + 1], o) == Count(os[..j], o) + (if os[j] == o then 1 else 0)
  {
    assert os[..j + 1][..j] == os[..j];
  }

  /** The outcomes and names of the mapping so far grow by those of the
      next frequency. */
  lemma ProcessStep(mapping: seq<FrequencyFiles>, i: nat, failedCases: seq<(nat, string)>, kind: string -> PathKind, raises: string -> bool)
    requires i < |mapping|
    ensures var before := Outcomes(Entries(mapping[..i]), failedCases, kind, raises);
      var next := Outcomes(EntriesOf(mapping[i]), failedCases, kind, raises);
      var after := Outcomes(Entries(mapping[..i + 1]), failedCases, kind, raises);
      && Count(after, Processed) == Count(before, Processed) + Count(next, Processed)
      && Count(after, ExpectedFailure) == Count(before, ExpectedFailure) + Count(next, ExpectedFailure)
      && Count(after, UnexpectedFailure) == Count(before, UnexpectedFailure) + Count(next, UnexpectedFailure)
    ensures OutputNames(Entries(mapping[..i + 1])) == OutputNames(Entries(mapping[..i])) + OutputNames(EntriesOf(mapping[i]))
  {
    EntriesStep(mapping, i);
    var es := Entries(mapping[..i]);
    var fs := EntriesOf(mapping[i]);
    assert Outcomes(es + fs, failedCases, kind, raises) == Outcomes(es, failedCases, kind, raises) + Outcomes(fs, failedCases, kind, raises);
    CountAppend(Outcomes(es, failedCases, kind, raises), Outcomes(fs, failedCases, kind, raises), Processed);
    CountAppend(Outcomes(es, failedCases, kind, raises), Outcomes(fs, failedCases, kind, raises), ExpectedFailure);
    CountAppend(Outcomes(es, failedCases, kind, raises), Outcomes(fs, failedCases, kind, raises), UnexpectedFailure);
    assert OutputNames(es + fs) == OutputNames(es) + OutputNames(fs);
  }

  /** The body of the inner loop: the branches of process_files for one
      entry, ending in the counter it increments. A decoder that raises is
      caught and turned into a failed CSV. */
  method ProcessEntry(freq: nat, config: string, filename: string, failedCases: seq<(nat, string)>,
                      kind: string -> PathKind, raises: string -> bool)
    returns (outcome: Outcome)
    ensures outcome == EntryOutcome(Entry(freq, config, filename), failedCases, kind, raises)
  {
    if (freq, config) in failedCases {
      outcome := ExpectedFailure;
    } else if kind(filename) != Absent {
      if kind(filename) == Directory {
        outcome := if raises(filename) then UnexpectedFailure else Processed;
      } else if kind(filename) == RegularFile {
        outcome := if raises(filename) then UnexpectedFailure else Processed;
      } else {
        outcome := UnexpectedFailure;
      }
    } else {
      outcome := UnexpectedFailure;
    }
  }

  lemma FrequencyStep(ff: FrequencyFiles, j: nat, failedCases: seq<(nat, string)>, kind: string -> PathKind, raises: string -> bool)
    requires j < |ff.files|
    ensures var os := Outcomes(EntriesOf(ff), failedCases, kind, raises);
      var o := EntryOutcome(Entry(ff.freq, ff.files[j].config, ff.files[j].filename), failedCases, kind, raises);
      && Count(os[..j + 1], Processed) == Count(os[..j], Processed) + (if o == Processed then 1 else 0)
      && Count(os[..j + 1], ExpectedFailure) == Count(os[..j], ExpectedFailure) + (if o == ExpectedFailure then 1 else 0)
      && Count(os[..j + 1], UnexpectedFailure) == Count(os[..j], UnexpectedFailure) + (if o == UnexpectedFailure then 1 else 0)
    ensures var names := OutputNames(EntriesOf(ff));
      names[..j + 1] == names[..j] + [OutputName(ff.freq, ff.files[j].config)]
  {
    var os := Outcomes(EntriesOf(ff), failedCases, kind, raises);
    CountStep(os, j, Processed);
    CountStep(os, j, ExpectedFailure);
    CountStep(os, j, UnexpectedFailure);
    var names := OutputNames(EntriesOf(ff));
    assert names[..j + 1] == names[..j] + [names[j]];
  }

  /** The inner loop of process_files over the configurations of one
      frequency: how much it adds to each counter, and the CSVs it
      writes. */
  method ProcessFrequency(ff: FrequencyFiles, failedCases: seq<(nat, string)>, kind: string -> PathKind, raises: string -> bool)
    returns (processed: nat, expected: nat, unexpected: nat, written: seq<string>)
    ensures var os := Outcomes(EntriesOf(ff), failedCases, kind, raises);
      && processed == Count(os, Processed)
      && expected == Count(os, ExpectedFailure)
      && unexpected == Count(os, UnexpectedFailure)
    ensures written == OutputNames(EntriesOf(ff))
  {
    ghost var es := EntriesOf(ff);
    ghost var os := Outcomes(es, failedCases, kind, raises);
    processed, expected, unexpected, written := 0, 0, 0, [];
    var j := 0;
    while j < |ff.files|
      invariant 0 <= j <= |ff.files|
      invariant processed == Count(os[..j], Processed)
      invariant expected == Count(os[..j], ExpectedFailure)
      invariant unexpected == Count(os[..j], UnexpectedFailure)
      invariant written == OutputNames(es)[..j]
    {
      var config, filename := ff.files[j].config, ff.files[j].filename;
      var outputPath := OutputName(ff.freq, config);
      FrequencyStep(ff, j, failedCases, kind, raises);
      var outcome := ProcessEntry(ff.freq, config, filename, failedCases, kind, raises);
      match outcome {
        case ExpectedFailure => expected := expected + 1;
        case Processed => processed := processed + 1;
        case UnexpectedFailure => unexpected := unexpected + 1;
      }
      written := written + [outputPath];
      j := j + 1;
    }
    assert os[..j] == os;
    assert OutputNames(es)[..j] == OutputNames(es);
  }

  /** process_files of process_neural_data.py and process_neural_data2.py:
      the five numbers it returns, and the output CSV every entry leaves
      behind. */
  method ProcessFiles(mapping: seq<FrequencyFiles>, failedCases: seq<(nat, string)>, kind: string -> PathKind, raises: string -> bool)
    returns (filesProcessed: nat, totalExpectedFiles: nat, expectedFailedCreated: nat, totalExpectedFailed: nat,
             unexpectedFailedFiles: nat, written: seq<string>)
    ensures totalExpectedFiles == |Entries(mapping)| && totalExpectedFailed == |failedCases|
    ensures var os := Outcomes(Entries(mapping), failedCases, kind, raises);
      && filesProcessed == Count(os, Processed)
      && expectedFailedCreated == Count(os, ExpectedFailure)
      && unexpectedFailedFiles == Count(os, UnexpectedFailure)
    ensures filesProcessed + expectedFailedCreated + unexpectedFailedFiles == totalExpectedFiles
    ensures written == OutputNames(Entries(mapping))
  {
    totalExpectedFiles := 0;
    var k := 0;
    while k < |mapping|
      invariant 0 <= k <= |mapping| && totalExpectedFiles == |Entries(mapping[..k])|
    {
      EntriesStep(mapping, k);
      totalExpectedFiles := totalExpectedFiles + |mapping[k].files|;
      k := k + 1;
    }
    assert mapping[..k] == mapping;
    totalExpectedFailed := |failedCases|;
    filesProcessed, expectedFailedCreated, unexpectedFailedFiles, written := 0, 0, 0, [];
    var i := 0;
    while i < |mapping|
      invariant 0 <= i <= |mapping|
      invariant var os := Outcomes(Entries(mapping[..i]), failedCases, kind, raises);
        && filesProcessed == Count(os, Processed)
        && expectedFailedCreated == Count(os, ExpectedFailure)
        && unexpectedFailedFiles == Count(os, UnexpectedFailure)
      invariant written == OutputNames(Entries(mapping[..i]))
    {
      ProcessStep(mapping, i, failedCases, kind, raises);
      var processed, expected, unexpected, names := ProcessFrequency(mapping[i], failedCases, kind, raises);
      filesProcessed, expectedFailedCreated, unexpectedFailedFiles := filesProcessed + processed, expectedFailedCreated + expected, unexpectedFailedFiles + unexpected;
      written := written + names;
      i := i + 1;
    }
    assert mapping[..i] == mapping;
    CountPartition(Outcomes(Entries(mapping), failedCases, kind, raises));
  }

  // ---------------------------------------------------------------------
  // process_files of plot_attribute_deviation.py

  /** The CSV written for an entry: a failed one, or the snippet's
      timestamps. */
  datatype AttributeCsv = FailedAttributeCsv | TimestampCsv(timestamps: seq<int>)

  /** A missing path and a path that is not a file get a failed CSV; a
      log file gets its snippet, or a failed CSV when the snippet is
      empty. */
  function LogOutput(filename: string, kind: string -> PathKind, lines: string -> seq<string>): AttributeCsv {
    if kind(filename) != RegularFile then FailedAttributeCsv
    else
      var ts := AttributeLog.Snippet(AttributeLog.Events(lines(filename)), AttributeLog.SNIPPET_DURATION_SECONDS);
      if ts != [] then TimestampCsv(ts) else FailedAttributeCsv
  }

  /** A failed case gets its failed CSV without looking at the input. */
  function AttributeOutput(e: Entry, failedCases: seq<(nat, string)>, kind: string -> PathKind,
                           lines: string -> seq<string>): AttributeCsv
  {
    if (e.freq, e.config) in failedCases then FailedAttributeCsv else LogOutput(e.filename, kind, lines)
  }

  function AttributeOutputs(es: seq<Entry>, failedCases: seq<(nat, string)>, kind: string -> PathKind,
                            lines: string -> seq<string>): (csvs: seq<(string, AttributeCsv)>)
    ensures |csvs| == |es|
  {
    seq(|es|, i requires 0 <= i < |es| => (OutputName(es[i].freq, es[i].config), AttributeOutput(es[i], failedCases, kind, lines)))
  }

  /** processed_files: the entries that are not failed cases, with their
      output CSV, in order. */
  function Appended(es: seq<Entry>, failedCases: seq<(nat, string)>): (r: seq<(nat, string, string)>)
    ensures |r| <= |es|
  {
    if es == [] then []
    else
      var e := es[|es| - 1];
      Appended(es[..|es| - 1], failedCases)
        + (if (e.freq, e.config) in failedCases then [] else [(e.freq, e.config, OutputName(e.freq, e.config))])
  }

  lemma AppendedStep(es: seq<Entry>, j: nat, failedCases: seq<(nat, string)>)
    requires j < |es|
    ensures Appended(es[..j + 1], failedCases) == Appended(es[..j], failedCases)
      + (if (es[j].freq, es[j].config) in failedCases then [] else [(es[j].freq, es[j].config, OutputName(es[j].freq, es[j].config))])
  {
    assert es[..j + 1][..j] == es[..j];
  }

  lemma {:induction false} AppendedAppend(xs: seq<Entry>, ys: seq<Entry>, failedCases: seq<(nat, string)>)
    ensures Appended(xs + ys, failedCases) == Appended(xs, failedCases) + Appended(ys, failedCases)
    decreases |ys|
  {
    if ys == [] {
      assert xs + ys == xs;
    } else {
      var n := |ys| - 1;
      assert (xs + ys)[..|xs + ys| - 1] == xs + ys[..n];
      AppendedAppend(xs, ys[..n], failedCases);
    }
  }

  /** With no entry among the failed cases, every entry is appended, in
      order. */
  lemma {:induction false} AllAppended(es: seq<Entry>, failedCases: seq<(nat, string)>)
    requires forall k :: 0 <= k < |es| ==> (es[k].freq, es[k].config) !in failedCases
    ensures |Appended(es, failedCases)| == |es|
    ensures forall k :: 0 <= k < |es| ==>
      Appended(es, failedCases)[k] == (es[k].freq, es[k].config, OutputName(es[k].freq, es[k].config))
  {
    if es != [] {
      var n := |es| - 1;
      var init := es[..n];
      assert forall k :: 0 <= k < n ==> init[k] == es[k];
      AllAppended(init, failedCases);
      var e := es[n];
      assert (e.freq, e.config) !in failedCases;
      var r := Appended(es, failedCases);
      assert r == Appended(init, failedCases) + [(e.freq, e.config, OutputName(e.freq, e.config))];
      forall k | 0 <= k < |es|
        ensures r[k] == (es[k].freq, es[k].config, OutputName(es[k].freq, es[k].config))
      {
        if k < n {
          assert r[k] == Appended(init, failedCases)[k];
        }
      }
    }
  }

  lemma AttributeStep(mapping: seq<FrequencyFiles>, i: nat, failedCases: seq<(nat, string)>, kind: string -> PathKind,
                      lines: string -> seq<string>)
    requires i < |mapping|
    ensures Appended(Entries(mapping[..i + 1]), failedCases)
      == Appended(Entries(mapping[..i]), failedCases) + Appended(EntriesOf(mapping[i]), failedCases)
    ensures AttributeOutputs(Entries(mapping[..i + 1]), failedCases, kind, lines)
      == AttributeOutputs(Entries(mapping[..i]), failedCases, kind, lines) + AttributeOutputs(EntriesOf(mapping[i]), failedCases, kind, lines)
  {
    EntriesStep(mapping, i);
    var es := Entries(mapping[..i]);
    var fs := EntriesOf(mapping[i]);
    AppendedAppend(es, fs, failedCases);
    AttributeOutputsAppend(es, fs, failedCases, kind, lines);
  }

  lemma AttributeOutputsAppend(xs: seq<Entry>, ys: seq<Entry>, failedCases: seq<(nat, string)>, kind: string -> PathKind,
                               lines: string -> seq<string>)
    ensures AttributeOutputs(xs + ys, failedCases, kind, lines)
      == AttributeOutputs(xs, failedCases, kind, lines) + AttributeOutputs(ys, failedCases, kind, lines)
  {
    var l := AttributeOutputs(xs + ys, failedCases, kind, lines);
    var r := AttributeOutputs(xs, failedCases, kind, lines) + AttributeOutputs(ys, failedCases, kind, lines);
    forall k | 0 <= k < |l|
      ensures l[k] == r[k]
    {
      if k < |xs| {
        assert (xs + ys)[k] == xs[k];
      } else {
        assert (xs + ys)[k] == ys[k - |xs|];
      }
    }
  }

  /** The CSV for an entry that is not a failed case. */
  method ProcessLogEntry(filename: string, kind: string -> PathKind, lines: string -> seq<string>) returns (csv: AttributeCsv)
    ensures csv == LogOutput(filename, kind, lines)
  {
    csv := FailedAttributeCsv;
    if kind(filename) != Absent {
      if kind(filename) == RegularFile {
        var timestamps := AttributeLog.ParseLogFile(Some(lines(filename)), AttributeLog.SNIPPET_DURATION_SECONDS);
        if timestamps != [] {
          csv := TimestampCsv(timestamps);
        }
      }
    }
  }

  lemma AppendedFrequencyStep(ff: FrequencyFiles, j: nat, failedCases: seq<(nat, string)>)
    requires j < |ff.files|
    ensures var c := ff.files[j].config;
      Appended(EntriesOf(ff)[..j + 1], failedCases) == Appended(EntriesOf(ff)[..j], failedCases)
        + (if (ff.freq, c) in failedCases then [] else [(ff.freq, c, OutputName(ff.freq, c))])
  {
    AppendedStep(EntriesOf(ff), j, failedCases);
  }

  lemma AttributeFrequencyStep(ff: FrequencyFiles, j: nat, failedCases: seq<(nat, string)>, kind: string -> PathKind,
                               lines: string -> seq<string>)
    requires j < |ff.files|
    ensures var c := ff.files[j].config;
      var outs := AttributeOutputs(EntriesOf(ff), failedCases, kind, lines);
      outs[..j + 1] == outs[..j] + [(OutputName(ff.freq, c), AttributeOutput(Entry(ff.freq, c, ff.files[j].filename), failedCases, kind, lines))]
  {
    var outs := AttributeOutputs(EntriesOf(ff), failedCases, kind, lines);
    assert outs[..j + 1] == outs[..j] + [outs[j]];
  }

  /** The inner loop for one frequency: what it appends to
      processed_files and the CSVs it writes. */
  method ProcessAttributeFrequency(ff: FrequencyFiles, failedCases: seq<(nat, string)>, kind: string -> PathKind,
                                   lines: string -> seq<string>)
    returns (processed: seq<(nat, string, string)>, csvs: seq<(string, AttributeCsv)>)
    ensures processed == Appended(EntriesOf(ff), failedCases)
    ensures csvs == AttributeOutputs(EntriesOf(ff), failedCases, kind, lines)
  {
    ghost var es := EntriesOf(ff);
    ghost var outs := AttributeOutputs(es, failedCases, kind, lines);
    processed, csvs := [], [];
    var j := 0;
    while j < |ff.files|
      invariant 0 <= j <= |ff.files|
      invariant processed == Appended(es[..j], failedCases)
      invariant csvs == outs[..j]
    {
      var config, filename := ff.files[j].config, ff.files[j].filename;
      var outputCsv := OutputName(ff.freq, config);
      AppendedFrequencyStep(ff, j, failedCases);
      AttributeFrequencyStep(ff, j, failedCases, kind, lines);
      if (ff.freq, config) in failedCases {
        csvs := csvs + [(outputCsv, FailedAttributeCsv)];
        j := j + 1;
        continue;
      }
      var csv := ProcessLogEntry(filename, kind, lines);
      csvs := csvs + [(outputCsv, csv)];
      processed := processed + [(ff.freq, config, outputCsv)];
      j := j + 1;
    }
    assert es[..j] == es;
    assert outs[..j] == outs;
  }

  /** process_files of plot_attribute_deviation.py: the list it returns
      and the CSV each entry leaves behind. */
  method ProcessAttributeFiles(mapping: seq<FrequencyFiles>, failedCases: seq<(nat, string)>, kind: string -> PathKind,
                               lines: string -> seq<string>)
    returns (processedFiles: seq<(nat, string, string)>, csvs: seq<(string, AttributeCsv)>)
    ensures processedFiles == Appended(Entries(mapping), failedCases)
    ensures csvs == AttributeOutputs(Entries(mapping), failedCases, kind, lines)
  {
    processedFiles, csvs := [], [];
    var i := 0;
    while i < |mapping|
      invariant 0 <= i <= |mapping|
      invariant processedFiles == Appended(Entries(mapping[..i]), failedCases)
      invariant csvs == AttributeOutputs(Entries(mapping[..i]), failedCases, kind, lines)
    {
      AttributeStep(mapping, i, failedCases, kind, lines);
      var processed, written := ProcessAttributeFrequency(mapping[i], failedCases, kind, lines);
      processedFiles, csvs := processedFiles + processed, csvs + written;
      i := i + 1;
    }
    assert mapping[..i] == mapping;
  }

  /** The Intan configurations up to 1200 Hz that plot_attribute_deviation.py
      maps, each frequency with the same four configurations. */
  function AttributeFiles(freq: nat, sdSession: string, bleSd: string, ble: string, sdOnly: string): FrequencyFiles {
    FrequencyFiles(freq, [ConfigFile("BLE+SD (Intan) SD", sdSession), ConfigFile("BLE+SD (Intan) BLE", bleSd),
                          ConfigFile("BLE (Intan)", ble), ConfigFile("SD (Intan)", sdOnly)])
  }

  const ATTRIBUTE_MAPPING: seq<FrequencyFiles> := [
    AttributeFiles(100, "session_1", "b1.txt", "b10.txt", "session_17"),
    AttributeFiles(250, "session_2", "b2.txt", "b11.txt", "session_18"),
    AttributeFiles(500, "session_3", "b3.txt", "b12.txt", "session_19"),
    AttributeFiles(750, "session_4", "b4.txt", "b13.txt", "session_20"),
    AttributeFiles(1000, "session_5", "b5.txt", "b14.txt", "session_21"),
    AttributeFiles(1200, "session_6", "b6.txt", "b15.txt", "session_22")
  ]

  /** The failed cases: the four Intan configurations at 1500, 2000 and
      2500 Hz (the same list in all three scripts). */
  const FAILED_CASES: seq<(nat, string)> := [
    (1500, "BLE+SD (Intan) SD"), (1500, "BLE+SD (Intan) BLE"), (1500, "BLE (Intan)"), (1500, "SD (Intan)"),
    (2000, "BLE+SD (Intan) SD"), (2000, "BLE+SD (Intan) BLE"), (2000, "BLE (Intan)"), (2000, "SD (Intan)"),
    (2500, "BLE+SD (Intan) SD"), (2500, "BLE+SD (Intan) BLE"), (2500, "BLE (Intan)"), (2500, "SD (Intan)")
  ]

  /** With n configurations per frequency there are n entries per
      frequency. */
  lemma {:induction false} EntriesLength(mapping: seq<FrequencyFiles>, n: nat)
    requires forall i :: 0 <= i < |mapping| ==> |mapping[i].files| == n
    ensures |Entries(mapping)| == n * |mapping|
  {
    if mapping != [] {
      var m := |mapping| - 1;
      EntriesLength(mapping[..m], n);
      assert n * |mapping| == n * m + n;
    }
  }

  /** Every entry's frequency is one of the mapping's. */
  lemma {:induction false} EntriesFrequencies(mapping: seq<FrequencyFiles>, maxFreq: nat)
    requires forall i :: 0 <= i < |mapping| ==> mapping[i].freq <= maxFreq
    ensures forall k :: 0 <= k < |Entries(mapping)| ==> Entries(mapping)[k].freq <= maxFreq
  {
    if mapping != [] {
      var m := |mapping| - 1;
      EntriesFrequencies(mapping[..m], maxFreq);
      var es: seq<Entry> := Entries(mapping[..m]);
      var fs: seq<Entry> := EntriesOf(mapping[m]);
      assert Entries(mapping) == es + fs;
      forall k | 0 <= k < |es + fs|
        ensures (es + fs)[k].freq <= maxFreq
      {
        if k >= |es| {
          assert (es + fs)[k] == fs[k - |es|];
        }
      }
    }
  }

  /** No failed case is a frequency of the mapping (all of which are at
      most 1200 Hz), so all 24 entries are appended to processed_files,
      each with its output CSV. */
  lemma AttributeAllProcessed()
    ensures |Appended(Entries(ATTRIBUTE_MAPPING), FAILED_CASES)| == |Entries(ATTRIBUTE_MAPPING)| == 24
  {
    var es := Entries(ATTRIBUTE_MAPPING);
    EntriesLength(ATTRIBUTE_MAPPING, 4);
    EntriesFrequencies(ATTRIBUTE_MAPPING, 1200);
    assert forall c :: c in FAILED_CASES ==> c.0 >= 1500;
    AllAppended(es, FAILED_CASES);
  }
}
