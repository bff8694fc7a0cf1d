/** The wall-clock stamps of BLE logger lines, as the host scripts read
    them: the regular expression
    \d{4}-\d{2}-\d{2}T\d{2}:\d{2}:\d{2}\.\d{3}Z, then
    datetime.strptime(.., '%Y-%m-%dT%H:%M:%S.%fZ'), then datetime
    arithmetic. A datetime is placed on a line of integer microseconds by
    the proleptic Gregorian ordinal datetime uses, so differences and
    comparisons are exact. */
module LogTime {
  import opened Text
  import opened Optional
  import NeuralRecord

  /** Length of "2024-09-14T21:29:24.282Z". */
  const ISO_LENGTH: nat := 24

  /** The stamp pattern matches s at position i (digits are ASCII). */
  predicate IsoAt(s: string, i: nat) {
    i + ISO_LENGTH <= |s| &&
    AllDigits(s[i..i + 4]) && s[i + 4] == '-' &&
    AllDigits(s[i + 5..i + 7]) && s[i + 7] == '-' &&
    AllDigits(s[i + 8..i + 10]) && s[i + 10] == 'T' &&
    AllDigits(s[i + 11..i + 13]) && s[i + 13] == ':' &&
    AllDigits(s[i + 14..i + 16]) && s[i + 16] == ':' &&
    AllDigits(s[i + 17..i + 19]) && s[i + 19] == '.' &&
    AllDigits(s[i + 20..i + 23]) && s[i + 23] == 'Z'
  }

  /** A naive datetime, field by field. */
  datatype DateTime = DateTime(year: nat, month: nat, day: nat, hour: nat, minute: nat, second: nat, micro: nat)

  predicate IsLeap(y: nat) {
    y % 4 == 0 && (y % 100 != 0 || y % 400 == 0)
  }

  function DaysInMonth(y: nat, m: nat): (n: nat)
    requires 1 <= m <= 12
    ensures 28 <= n <= 31
  {
    if m == 2 && IsLeap(y) then 29 else [0, 31, 28, 31, 30, 31, 30, 31, 31, 30, 31, 30, 31][m]
  }

  /** What the datetime constructor accepts after strptime has split the
      fields: year from 1 (MINYEAR), a real day of the month, second at
      most 59 (the pattern's 60 and 61 are refused here). */
  predicate Valid(dt: DateTime) {
    1 <= dt.year && 1 <= dt.month <= 12 && 1 <= dt.day <= DaysInMonth(dt.year, dt.month) &&
    dt.hour < 24 && dt.minute < 60 && dt.second < 60 && dt.micro < 1_000_000
  }

  function Field(s: string, i: nat, n: nat): nat
    requires i + n <= |s| && AllDigits(s[i..i + n])
  {
    DigitsValue(s[i..i + n])
  }

  /** The fields of a matched stamp; '%f' pads three digits to
      microseconds. */
  function Fields(s: string, i: nat): DateTime
    requires IsoAt(s, i)
  {
    DateTime(Field(s, i, 4), Field(s, i + 5, 2), Field(s, i + 8, 2), Field(s, i + 11, 2),
             Field(s, i + 14, 2), Field(s, i + 17, 2), 1000 * Field(s, i + 20, 3))
  }

  /** datetime.strptime on the stamp matched at i: the datetime, or None
      where it raises ValueError. */
  function Strptime(s: string, i: nat): (r: Option<DateTime>)
    requires IsoAt(s, i)
  {
    var dt := Fields(s, i);
    if Valid(dt) then Some(dt) else None
  }

  // ---------------------------------------------------------------------
  // Printing a stamp (the logger's side)

  /** n in exactly w digits, zero-padded on the left. */
  function Padded(n: nat, w: nat): (s: string)
    requires n < Pow10(w)
    ensures |s| == w && AllDigits(s) && DigitsValue(s) == n
  {
    if w == 0 then []
    else
      var s := Padded(n / 10, w - 1) + [DigitChar(n % 10)];
      assert s[..w - 1] == Padded(n / 10, w - 1);
      s
  }

  /** A run of w digits is the padded spelling of its own value. */
  lemma {:induction false} PaddedOfDigits(d: string)
    requires AllDigits(d)
    ensures DigitsValue(d) < Pow10(|d|)
    ensures Padded(DigitsValue(d), |d|) == d
  {
    if d != [] {
      var init := d[..|d| - 1];
      PaddedOfDigits(init);
      var v := DigitsValue(d);
      NeuralRecord.DivModUnique(v, 10, DigitsValue(init), DigitValue(d[|d| - 1]));
    }
  }

  predicate Printable(dt: DateTime) {
    Valid(dt) && dt.year < 10000 && dt.micro % 1000 == 0
  }

  /** "%Y-%m-%d" */
  function DatePart(dt: DateTime): (s: string)
    requires Printable(dt)
    ensures |s| == 10 && s[4] == '-' && s[7] == '-'
    ensures s[0..4] == Padded(dt.year, 4) && s[5..7] == Padded(dt.month, 2) && s[8..10] == Padded(dt.day, 2)
  {
    Padded(dt.year, 4) + "-" + Padded(dt.month, 2) + "-" + Padded(dt.day, 2)
  }

  /** "%H:%M:%S.%fZ" with the fraction cut to milliseconds. */
  function TimePart(dt: DateTime): (s: string)
    requires Printable(dt)
    ensures |s| == 13 && s[2] == ':' && s[5] == ':' && s[8] == '.' && s[12] == 'Z'
    ensures s[0..2] == Padded(dt.hour, 2) && s[3..5] == Padded(dt.minute, 2)
    ensures s[6..8] == Padded(dt.second, 2) && s[9..12] == Padded(dt.micro / 1000, 3)
  {
    Padded(dt.hour, 2) + ":" + Padded(dt.minute, 2) + ":" + Padded(dt.second, 2) + "." +
    Padded(dt.micro / 1000, 3) + "Z"
  }

  /** The stamp of a datetime with whole milliseconds and a four-digit year. */
  function Format(dt: DateTime): (s: string)
    requires Printable(dt)
    ensures |s| == ISO_LENGTH
  {
    DatePart(dt) + "T" + TimePart(dt)
  }

  /** Where the fields of a stamp sit. */
  lemma FormatSlices(dt: DateTime)
    requires Printable(dt)
    ensures Format(dt)[..10] == DatePart(dt) && Format(dt)[10] == 'T' && Format(dt)[11..] == TimePart(dt)
  {
  }

  /** strptime reads back every printed stamp. */
  lemma StrptimeOfFormat(dt: DateTime)
    requires Printable(dt)
    ensures IsoAt(Format(dt), 0) && Strptime(Format(dt), 0) == Some(dt)
  {
    var s, d, t := Format(dt), DatePart(dt), TimePart(dt);
    FormatSlices(dt);
    assert s[0..4] == d[0..4] && s[5..7] == d[5..7] && s[8..10] == d[8..10];
    assert s[11..13] == t[0..2] && s[14..16] == t[3..5] && s[17..19] == t[6..8] && s[20..23] == t[9..12];
  }

  /** Every stamp strptime accepts is the printed form of what it read. */
  lemma FormatOfStrptime(s: string)
    requires IsoAt(s, 0) && Strptime(s, 0).Some?
    ensures Printable(Strptime(s, 0).value) && Format(Strptime(s, 0).value) == s[..ISO_LENGTH]
  {
    var dt := Strptime(s, 0).value;
    PaddedOfDigits(s[0..4]);
    assert Pow10(4) == 10000;
    NeuralRecord.DivModUnique(dt.micro, 1000, Field(s, 20, 3), 0);
    DatePartOf(s, dt);
    TimePartOf(s, dt);
    assert s[..ISO_LENGTH] == s[..10] + "T" + s[11..ISO_LENGTH];
  }

  lemma DatePartOf(s: string, dt: DateTime)
    requires IsoAt(s, 0) && Printable(dt) && dt == Fields(s, 0)
    ensures DatePart(dt) == s[..10]
  {
    PaddedOfDigits(s[0..4]);
    PaddedOfDigits(s[5..7]);
    PaddedOfDigits(s[8..10]);
    var d := DatePart(dt);
    assert d == d[0..4] + [d[4]] + d[5..7] + [d[7]] + d[8..10];
    assert s[..10] == s[0..4] + [s[4]] + s[5..7] + [s[7]] + s[8..10];
  }

  lemma TimePartOf(s: string, dt: DateTime)
    requires IsoAt(s, 0) && Printable(dt) && dt == Fields(s, 0)
    ensures TimePart(dt) == s[11..ISO_LENGTH]
  {
    PaddedOfDigits(s[11..13]);
    PaddedOfDigits(s[14..16]);
    PaddedOfDigits(s[17..19]);
    PaddedOfDigits(s[20..23]);
    NeuralRecord.DivModUnique(dt.micro, 1000, Field(s, 20, 3), 0);
    var t := TimePart(dt);
    assert t == t[0..2] + [t[2]] + t[3..5] + [t[5]] + t[6..8] + [t[8]] + t[9..12] + [t[12]];
    assert s[11..ISO_LENGTH] == s[11..13] + [s[13]] + s[14..16] + [s[16]] + s[17..19] + [s[19]] + s[20..23] + [s[23]];
  }

  // ---------------------------------------------------------------------
  // The microsecond line

  /** CPython's _days_before_year. */
  function DaysBeforeYear(y: nat): int
    requires y >= 1
  {
    var z := y - 1;
    365 * z + z / 4 - z / 100 + z / 400
  }

  /** CPython's _days_before_month. */
  function DaysBeforeMonth(y: nat, m: nat): (n: nat)
    requires 1 <= m <= 12
  {
    [0, 0, 31, 59, 90, 120, 151, 181, 212, 243, 273, 304, 334][m] + (if m > 2 && IsLeap(y) then 1 else 0)
  }

  /** date.toordinal: 1 for 0001-01-01. */
  function Ordinal(dt: DateTime): int
    requires Valid(dt)
  {
    DaysBeforeYear(dt.year) + DaysBeforeMonth(dt.year, dt.month) + dt.day
  }

  const DAY_US: nat := 86_400_000_000

  function DayMicros(dt: DateTime): (t: nat)
    requires Valid(dt)
    ensures t < DAY_US
  {
    ((dt.hour * 60 + dt.minute) * 60 + dt.second) * 1_000_000 + dt.micro
  }

  /** A datetime as microseconds on the ordinal line: what datetime
      subtraction takes differences of. */
  function Micros(dt: DateTime): int
    requires Valid(dt)
  {
    Ordinal(dt) * DAY_US + DayMicros(dt)
  }

  /** datetime's comparison: field by field, year first. */
  predicate Before(a: DateTime, b: DateTime) {
    a.year < b.year || (a.year == b.year &&
    (a.month < b.month || (a.month == b.month &&
    (a.day < b.day || (a.day == b.day &&
    (a.hour < b.hour || (a.hour == b.hour &&
    (a.minute < b.minute || (a.minute == b.minute &&
    (a.second < b.second || (a.second == b.second && a.micro < b.micro)))))))))))
  }

  lemma DivStep(z: nat, d: nat)
    requires d > 0
    ensures (z + 1) / d == z / d + (if (z + 1) % d == 0 then 1 else 0)
  {
    var q, r := z / d, z % d;
    if r + 1 == d {
      NeuralRecord.DivModUnique(z + 1, d, q + 1, 0);
    } else {
      NeuralRecord.DivModUnique(z + 1, d, q, r + 1);
    }
  }

  /** A year has 366 days when it is a leap year and 365 otherwise. */
  lemma YearStep(y: nat)
    requires y >= 1
    ensures DaysBeforeYear(y + 1) == DaysBeforeYear(y) + (if IsLeap(y) then 366 else 365)
  {
    var z := y - 1;
    DivStep(z, 4);
    DivStep(z, 100);
    DivStep(z, 400);
    if y % 100 == 0 {
      NeuralRecord.DivModUnique(y, 4, 25 * (y / 100), 0);
    }
    if y % 400 == 0 {
      NeuralRecord.DivModUnique(y, 100, 4 * (y / 400), 0);
    }
  }

  lemma {:induction false} DaysBeforeYearMono(y: nat, y': nat)
    requires 1 <= y <= y'
    ensures DaysBeforeYear(y) <= DaysBeforeYear(y')
    decreases y' - y
  {
    if y < y' {
      YearStep(y);
      DaysBeforeYearMono(y + 1, y');
    }
  }

  /** A month ends no later than any later month begins, and the last
      ends with the year. */
  lemma MonthEnd(y: nat, m: nat, m': nat)
    requires 1 <= m < m' <= 12
    ensures DaysBeforeMonth(y, m) + DaysInMonth(y, m) <= DaysBeforeMonth(y, m')
  {
  }

  lemma YearEnd(y: nat, m: nat)
    requires 1 <= m <= 12
    ensures DaysBeforeMonth(y, m) + DaysInMonth(y, m) <= if IsLeap(y) then 366 else 365
  {
  }

  /** Dates in datetime's order have increasing ordinals. */
  lemma OrdinalOrder(a: DateTime, b: DateTime)
    requires Valid(a) && Valid(b)
    requires a.year < b.year || (a.year == b.year && (a.month < b.month || (a.month == b.month && a.day < b.day)))
    ensures Ordinal(a) < Ordinal(b)
  {
    if a.year < b.year {
      YearEnd(a.year, a.month);
      YearStep(a.year);
      DaysBeforeYearMono(a.year + 1, b.year);
    } else if a.month < b.month {
      MonthEnd(a.year, a.month, b.month);
    }
  }

  /** Comparing microseconds is comparing datetimes. */
  lemma MicrosOrder(a: DateTime, b: DateTime)
    requires Valid(a) && Valid(b)
    ensures Before(a, b) <==> Micros(a) < Micros(b)
    ensures a == b <==> Micros(a) == Micros(b)
  {
    if a.year != b.year || a.month != b.month || a.day != b.day {
      if Before(a, b) {
        OrdinalOrder(a, b);
      } else {
        OrdinalOrder(b, a);
      }
    }
  }
}
