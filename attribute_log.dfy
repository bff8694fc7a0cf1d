/** parse_log_file of scripts/plot_attribute_deviation.py: the times of the
    "Attribute value changed" notifications in a BLE logger's text file,
    cut down to a snippet of a few seconds from the middle of the log.
    Times are microseconds on the ordinal line of LogTime, which orders
    and subtracts exactly as the script's datetimes do; the logger prints
    whole milliseconds, so every difference is a multiple of 1000. */
module AttributeLog {
  import opened Text
  import opened Optional
  import opened LogTime

  const EVENT_TEXT: string := "INFO Attribute value changed"
  /** SNIPPET_DURATION_SECONDS, parse_log_file's default. */
  const SNIPPET_DURATION_SECONDS: nat := 10
  const SECOND_US: nat := 1_000_000

  /** w occurs in s at some position from `from` on. */
  function OccursFrom(s: string, w: string, from: nat): (b: bool)
    ensures b <==> exists k :: from <= k && OccursAt(s, w, k)
    decreases |s| - from
  {
    if from + |w| > |s| then false
    else OccursAt(s, w, from) || OccursFrom(s, w, from + 1)
  }

  /** The pattern ^STAMP.*INFO Attribute value changed: a stamp at the
      start of the line and the text somewhere after it. */
  predicate IsEvent(line: string) {
    IsoAt(line, 0) && OccursFrom(line, EVENT_TEXT, ISO_LENGTH)
  }

  /** The event a line contributes: its time when it matches and strptime
      accepts its stamp, nothing otherwise. */
  function LineEvent(line: string): (e: seq<int>)
    ensures |e| <= 1
  {
    if IsEvent(line) && Strptime(line, 0).Some? then [Micros(Strptime(line, 0).value)] else []
  }

  /** The event times of the lines, in file order. */
  function Events(lines: seq<string>): seq<int> {
    if lines == [] then []
    else Events(lines[..|lines| - 1]) + LineEvent(lines[|lines| - 1])
  }

  /** The times in [lo, hi], in their order. */
  function Within(ts: seq<int>, lo: int, hi: int): (w: seq<int>)
    ensures |w| <= |ts|
    ensures forall x :: x in w <==> x in ts && lo <= x <= hi
  {
    if ts == [] then []
    else Within(ts[..|ts| - 1], lo, hi) + (if lo <= ts[|ts| - 1] <= hi then [ts[|ts| - 1]] else [])
  }

  /** Selection keeps order: the selection of a concatenation is the
      concatenation of the selections. */
  lemma {:induction false} WithinAppend(xs: seq<int>, ys: seq<int>, lo: int, hi: int)
    ensures Within(xs + ys, lo, hi) == Within(xs, lo, hi) + Within(ys, lo, hi)
    decreases |ys|
  {
    if ys == [] {
      assert xs + ys == xs;
    } else {
      var n := |ys| - 1;
      assert (xs + ys)[..|xs + ys| - 1] == xs + ys[..n];
      WithinAppend(xs, ys[..n], lo, hi);
    }
  }

  /** Where the snippet starts: half the span in, less half the duration. */
  function SnippetStart(events: seq<int>, d: nat): int
    requires events != []
  {
    events[0] + (events[|events| - 1] - events[0]) / 2 - d * (SECOND_US / 2)
  }

  /** What parse_log_file returns for the events of a file: nothing for no
      events; all of them when the first and last (in file order) are at
      most d seconds apart; otherwise those in the d-second window centred
      on the middle of that span, ends included. */
  function Snippet(events: seq<int>, d: nat): seq<int> {
    if events == [] then []
    else if events[|events| - 1] - events[0] <= d * SECOND_US then events
    else
      var start := SnippetStart(events, d);
      Within(events, start, start + d * SECOND_US)
  }

  /** The window lies between the first and the last event. */
  lemma SnippetInsideLog(events: seq<int>, d: nat)
    requires events != [] && events[|events| - 1] - events[0] > d * SECOND_US
    ensures events[0] <= SnippetStart(events, d)
    ensures SnippetStart(events, d) + d * SECOND_US <= events[|events| - 1]
  {
  }

  /** A snippet is a selection of the events, in their order: every event
      it holds is one of them, and within the window no event is dropped. */
  lemma SnippetSelects(events: seq<int>, d: nat)
    ensures forall x :: x in Snippet(events, d) ==> x in events
    ensures events != [] && events[|events| - 1] - events[0] > d * SECOND_US ==>
      forall x :: x in events && SnippetStart(events, d) <= x <= SnippetStart(events, d) + d * SECOND_US ==>
        x in Snippet(events, d)
  {
  }

  lemma EventsStep(lines: seq<string>, i: nat)
    requires i < |lines|
    ensures Events(lines[..i + 1]) == Events(lines[..i]) + LineEvent(lines[i])
  {
    assert lines[..i + 1][..i] == lines[..i];
  }

  /** The first half of parse_log_file: the matching lines' times in
      file order, a line strptime refuses skipped. */
  method CollectEvents(lines: seq<string>) returns (events: seq<int>)
    ensures events == Events(lines)
  {
    events := [];
    var i := 0;
    while i < |lines|
      invariant 0 <= i <= |lines| && events == Events(lines[..i])
    {
      var line := lines[i];
      EventsStep(lines, i);
      if IsEvent(line) {
        var parsed := Strptime(line, 0);
        if parsed.Some? {
          events := events + [Micros(parsed.value)];
        } else {
          assert LineEvent(line) == [];
        }
      } else {
        assert LineEvent(line) == [];
      }
      i := i + 1;
    }
    assert lines[..i] == lines;
  }

  /** The second half: the times in [start, end], in order. */
  method SelectWindow(events: seq<int>, start: int, end: int) returns (selected: seq<int>)
    ensures selected == Within(events, start, end)
  {
    selected := [];
    var j := 0;
    while j < |events|
      invariant 0 <= j <= |events| && selected == Within(events[..j], start, end)
    {
      assert events[..j + 1][..j] == events[..j];
      if start <= events[j] <= end {
        selected := selected + [events[j]];
      }
      j := j + 1;
    }
    assert events[..j] == events;
  }

  /** parse_log_file on the lines of a file, or on a missing one (None). */
  method ParseLogFile(file: Option<seq<string>>, d: nat) returns (timestamps: seq<int>)
    ensures file.None? ==> timestamps == []
    ensures file.Some? ==> timestamps == Snippet(Events(file.value), d)
  {
    if file.None? {
      return [];
    }
    var all := CollectEvents(file.value);
    if all == [] {
      return [];
    }
    var span := all[|all| - 1] - all[0];
    if span <= d * SECOND_US {
      return all;
    }
    var start := all[0] + span / 2 - d * (SECOND_US / 2);
    timestamps := SelectWindow(all, start, start + d * SECOND_US);
  }
}
