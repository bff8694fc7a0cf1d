/** The order in which the host decoders read a session's segment files:
    sorted(paths, key=...) where the key is the number that
    re.search(r'data_(\d+).bin', path) captures, or 0 when nothing
    matches. The search is modelled as the regular-expression engine runs
    it: the leftmost start position wins, and from there \d+ takes the
    longest run of digits that still leaves one character other than a
    newline followed by "bin". Python's sort is stable, so it is specified
    here by a stable insertion sort. */
module SegmentOrder {
  import opened Text
  import opened Optional

  const PREFIX: string := "data_"

  /** The length of the run of digits that starts at s[i]. */
  function DigitRun(s: string, i: nat): (n: nat)
    requires i <= |s|
    ensures i + n <= |s| && AllDigits(s[i..i + n])
    ensures i + n < |s| ==> !IsDigit(s[i + n])
    decreases |s| - i
  {
    if i < |s| && IsDigit(s[i]) then
      var n := DigitRun(s, i + 1);
      assert s[i..i + 1 + n] == [s[i]] + s[i + 1..i + 1 + n];
      1 + n
    else 0
  }

  /** ".bin" in the pattern: any character but a newline at s[j], then "bin". */
  predicate BinAt(s: string, j: nat) {
    j + 4 <= |s| && s[j] != '\n' && s[j + 1..j + 4] == "bin"
  }

  /** How many digits the group takes, backtracking from the longest run
      (l digits) down to one. */
  function GroupLength(s: string, start: nat, l: nat): (g: Option<nat>)
    ensures g.Some? ==> 1 <= g.value <= l && BinAt(s, start + g.value)
    ensures g.Some? ==> forall j :: start + g.value < j <= start + l ==> !BinAt(s, j)
    ensures g.None? ==> forall j :: start < j <= start + l ==> !BinAt(s, j)
  {
    if l == 0 then None
    else if BinAt(s, start + l) then Some(l)
    else GroupLength(s, start, l - 1)
  }

  /** The captured number of the leftmost match at or after position p. */
  function KeyFrom(s: string, p: nat): Option<nat>
    decreases |s| - p
  {
    if p + |PREFIX| > |s| then None
    else
      var start := p + |PREFIX|;
      var run := DigitRun(s, start);
      var g := GroupLength(s, start, run);
      if OccursAt(s, PREFIX, p) && g.Some? then
        assert AllDigits(s[start..start + g.value]) by {
          var sub, whole := s[start..start + g.value], s[start..start + run];
          forall i | 0 <= i < |sub|
            ensures IsDigit(sub[i])
          {
            assert sub[i] == whole[i];
          }
        }
        Some(DigitsValue(s[start..start + g.value]))
      else KeyFrom(s, p + 1)
  }

  /** The sort key of a path. */
  function SortKey(path: string): nat {
    match KeyFrom(path, 0)
    case Some(k) => k
    case None => 0
  }

  /** No match starts before position q. */
  lemma {:induction false} KeyFromSkips(s: string, p: nat, q: nat)
    requires p <= q <= |s|
    requires forall i :: p <= i < q ==> !OccursAt(s, PREFIX, i)
    ensures KeyFrom(s, p) == KeyFrom(s, q)
    decreases q - p
  {
    if p < q {
      KeyFromSkips(s, p + 1, q);
    }
  }

  /** A run of digits followed by a non-digit is the whole run. */
  lemma DigitRunIs(s: string, i: nat, d: string)
    requires AllDigits(d) && i + |d| < |s| && s[i..i + |d|] == d && !IsDigit(s[i + |d|])
    ensures DigitRun(s, i) == |d|
  {
  }

  /** A match at p whose digits are d and whose ".bin" directly follows
      them captures d. */
  lemma KeyAt(s: string, p: nat, d: string)
    requires OccursAt(s, PREFIX, p) && d != [] && AllDigits(d)
    requires var start := p + |PREFIX|;
      start + |d| < |s| && s[start..start + |d|] == d && !IsDigit(s[start + |d|]) && BinAt(s, start + |d|)
    ensures KeyFrom(s, p) == Some(DigitsValue(d))
  {
    DigitRunIs(s, p + |PREFIX|, d);
  }

  /** In the writer's name the first match starts after the folder and
      captures the counter's digits. */
  lemma KeyOfSegmentName(folder: string, d: string)
    requires forall i :: 0 <= i < |folder| ==> !OccursAt(folder + PREFIX, PREFIX, i)
    requires d != [] && AllDigits(d)
    ensures KeyFrom(folder + PREFIX + d + ".bin", |folder|) == Some(DigitsValue(d))
  {
    var t := folder + PREFIX;
    var s := t + d + ".bin";
    var start := |t|;
    assert s[|folder|..start] == PREFIX;
    assert s[start..start + |d|] == d;
    var e := start + |d|;
    assert s[e..] == ".bin";
    assert s[e] == '.';
    assert s[e + 1..e + 4] == "bin";
    KeyAt(s, |folder|, d);
  }

  lemma NoMatchInFolder(folder: string, rest: string)
    requires forall i :: 0 <= i < |folder| ==> !OccursAt(folder + PREFIX, PREFIX, i)
    ensures forall i :: 0 <= i < |folder| ==> !OccursAt(folder + PREFIX + rest, PREFIX, i)
  {
    var t := folder + PREFIX;
    forall i | 0 <= i < |folder|
      ensures !OccursAt(t + rest, PREFIX, i)
    {
      assert !OccursAt(t, PREFIX, i);
      assert (t + rest)[i..i + |PREFIX|] == t[i..i + |PREFIX|];
    }
  }

  /** The key of the writer's segment name "data_<n>.bin" under a folder
      path in which the pattern's "data_" does not start is n. */
  lemma SortKeyOfSegmentName(folder: string, n: nat)
    requires forall i :: 0 <= i < |folder| ==> !OccursAt(folder + PREFIX, PREFIX, i)
    ensures SortKey(folder + PREFIX + Decimal(n) + ".bin") == n
  {
    var d := Decimal(n);
    var s := folder + PREFIX + d + ".bin";
    assert s == folder + PREFIX + (d + ".bin");
    NoMatchInFolder(folder, d + ".bin");
    KeyFromSkips(s, 0, |folder|);
    KeyOfSegmentName(folder, d);
    DigitsValueOfDecimal(n);
  }

  /** Ordered by key; paths with equal keys may be in any order. */
  predicate SortedByKey(ps: seq<string>) {
    forall i, j :: 0 <= i < j < |ps| ==> SortKey(ps[i]) <= SortKey(ps[j])
  }

  /** Puts x after every path whose key is at most x's. */
  function InsertByKey(x: string, ps: seq<string>): (r: seq<string>)
    ensures multiset(r) == multiset(ps) + multiset{x}
    ensures forall y :: y in r <==> y == x || y in ps
  {
    if ps == [] then [x]
    else if SortKey(ps[|ps| - 1]) <= SortKey(x) then ps + [x]
    else
      assert ps == ps[..|ps| - 1] + [ps[|ps| - 1]];
      InsertByKey(x, ps[..|ps| - 1]) + [ps[|ps| - 1]]
  }

  /** sorted(paths, key=SortKey): a permutation of the paths. */
  function SortByKey(ps: seq<string>): (r: seq<string>)
    ensures multiset(r) == multiset(ps)
  {
    if ps == [] then []
    else
      assert ps == ps[..|ps| - 1] + [ps[|ps| - 1]];
      InsertByKey(ps[|ps| - 1], SortByKey(ps[..|ps| - 1]))
  }

  /** The paths of the list with key k, in their order there. */
  function WithKey(ps: seq<string>, k: nat): (r: seq<string>)
    ensures forall x :: x in r <==> x in ps && SortKey(x) == k
  {
    if ps == [] then []
    else WithKey(ps[..|ps| - 1], k) + (if SortKey(ps[|ps| - 1]) == k then [ps[|ps| - 1]] else [])
  }

  lemma {:induction false} InsertSorted(x: string, ps: seq<string>)
    requires SortedByKey(ps)
    ensures SortedByKey(InsertByKey(x, ps))
    decreases |ps|
  {
    if ps != [] && SortKey(ps[|ps| - 1]) > SortKey(x) {
      var init := ps[..|ps| - 1];
      InsertSorted(x, init);
      var r := InsertByKey(x, init);
      forall y | y in r
        ensures SortKey(y) <= SortKey(ps[|ps| - 1])
      {
        if y != x {
          assert y in init;
        }
      }
    }
  }

  /** The result is ordered by key. */
  lemma {:induction false} SortByKeySorted(ps: seq<string>)
    ensures SortedByKey(SortByKey(ps))
  {
    if ps != [] {
      SortByKeySorted(ps[..|ps| - 1]);
      InsertSorted(ps[|ps| - 1], SortByKey(ps[..|ps| - 1]));
    }
  }

  lemma {:induction false} InsertStable(x: string, ps: seq<string>, k: nat)
    requires SortedByKey(ps)
    ensures WithKey(InsertByKey(x, ps), k) == WithKey(ps, k) + (if SortKey(x) == k then [x] else [])
    decreases |ps|
  {
    if ps == [] {
    } else if SortKey(ps[|ps| - 1]) <= SortKey(x) {
      assert (ps + [x])[..|ps|] == ps;
    } else {
      var init := ps[..|ps| - 1];
      var y := ps[|ps| - 1];
      InsertStable(x, init, k);
      var r := InsertByKey(x, init);
      assert (r + [y])[..|r|] == r;
    }
  }

  /** The sort is stable: the paths with any one key keep their order. */
  lemma {:induction false} SortByKeyStable(ps: seq<string>, k: nat)
    ensures WithKey(SortByKey(ps), k) == WithKey(ps, k)
  {
    if ps != [] {
      SortByKeyStable(ps[..|ps| - 1], k);
      SortByKeySorted(ps[..|ps| - 1]);
      InsertStable(ps[|ps| - 1], SortByKey(ps[..|ps| - 1]), k);
    }
  }
  // ---------------------------------------------------------------------
  // A session folder as the firmware writer leaves it

  /** The writer's segment names data_0.bin .. data_<n - 1>.bin under a
      folder, in counter order. */
  function SegmentPaths(folder: string, n: nat): (ps: seq<string>)
    ensures |ps| == n
    ensures forall k :: 0 <= k < n ==> ps[k] == folder + PREFIX + Decimal(k) + ".bin"
  {
    if n == 0 then [] else SegmentPaths(folder, n - 1) + [folder + PREFIX + Decimal(n - 1) + ".bin"]
  }

  /** No path occurs twice. */
  predicate Distinct(ps: seq<string>) {
    forall i, j :: 0 <= i < j < |ps| ==> ps[i] != ps[j]
  }

  /** A path of a list without repeats occurs in it at most once. */
  lemma {:induction false} DistinctCount(ps: seq<string>, x: string)
    requires Distinct(ps)
    ensures multiset(ps)[x] <= 1
  {
    if ps != [] {
      var init := ps[..|ps| - 1];
      assert ps == init + [ps[|ps| - 1]];
      DistinctCount(init, x);
      if x == ps[|ps| - 1] {
        assert x !in init;
      }
    }
  }

  /** A path found at two positions occurs at least twice. */
  lemma TwiceCount(ps: seq<string>, i: nat, j: nat)
    requires i < j < |ps| && ps[i] == ps[j]
    ensures multiset(ps)[ps[i]] >= 2
  {
    assert ps == ps[..j] + [ps[j]] + ps[j + 1..];
    assert ps[i] in ps[..j];
  }

  /** Strictly increasing numbers, n of them, all below n, are 0 .. n - 1. */
  lemma {:induction false} IncreasingBelowLength(ks: seq<nat>, i: nat)
    requires forall a, b :: 0 <= a < b < |ks| ==> ks[a] < ks[b]
    requires forall a :: 0 <= a < |ks| ==> ks[a] < |ks|
    requires i < |ks|
    ensures ks[i] == i
  {
    AtLeastIndex(ks, i);
    AtMostIndex(ks, i);
  }

  lemma {:induction false} AtLeastIndex(ks: seq<nat>, i: nat)
    requires forall a, b :: 0 <= a < b < |ks| ==> ks[a] < ks[b]
    requires i < |ks|
    ensures ks[i] >= i
  {
    if i > 0 {
      AtLeastIndex(ks, i - 1);
    }
  }

  lemma {:induction false} AtMostIndex(ks: seq<nat>, i: nat)
    requires forall a, b :: 0 <= a < b < |ks| ==> ks[a] < ks[b]
    requires forall a :: 0 <= a < |ks| ==> ks[a] < |ks|
    requires i < |ks|
    ensures ks[i] <= i
    decreases |ks| - i
  {
    if i < |ks| - 1 {
      AtMostIndex(ks, i + 1);
    }
  }

  /** The k-th segment name's key is k. */
  lemma SegmentPathKeys(folder: string, n: nat)
    requires forall i :: 0 <= i < |folder| ==> !OccursAt(folder + PREFIX, PREFIX, i)
    ensures forall k :: 0 <= k < n ==> SortKey(SegmentPaths(folder, n)[k]) == k
  {
    forall k | 0 <= k < n
      ensures SortKey(SegmentPaths(folder, n)[k]) == k
    {
      SortKeyOfSegmentName(folder, k);
    }
  }

  /** Lists with the same multiset have the same length and members. */
  lemma SameMembers(r: seq<string>, names: seq<string>)
    requires multiset(r) == multiset(names)
    ensures |r| == |names|
    ensures forall x :: x in r <==> x in names
  {
    assert |multiset(r)| == |multiset(names)|;
    forall x ensures x in r <==> x in names {
      assert x in r <==> multiset(r)[x] > 0;
      assert x in names <==> multiset(names)[x] > 0;
    }
  }

  /** A key-sorted permutation of a list whose k-th path has key k is that
      list: with no two keys equal the sort has only one answer. */
  lemma {:induction false} SortedIsKeyOrder(r: seq<string>, names: seq<string>)
    requires SortedByKey(r) && multiset(r) == multiset(names)
    requires forall k :: 0 <= k < |names| ==> SortKey(names[k]) == k
    ensures r == names
  {
    SameMembers(r, names);
    var n := |names|;
    assert Distinct(names);
    var ks := seq(n, i requires 0 <= i < n => SortKey(r[i]));
    forall a | 0 <= a < n
      ensures ks[a] < n && r[a] == names[ks[a]]
    {
      assert r[a] in names;
      var j :| 0 <= j < n && names[j] == r[a];
    }
    forall a, b | 0 <= a < b < n
      ensures ks[a] < ks[b]
    {
      if ks[a] == ks[b] {
        TwiceCount(r, a, b);
        DistinctCount(names, r[a]);
      }
    }
    forall i | 0 <= i < n
      ensures r[i] == names[i]
    {
      IncreasingBelowLength(ks, i);
    }
  }

  /** However glob lists a folder's segment files, sorting them by key
      gives them in counter order. */
  lemma SortSegmentPaths(folder: string, n: nat, paths: seq<string>)
    requires forall i :: 0 <= i < |folder| ==> !OccursAt(folder + PREFIX, PREFIX, i)
    requires multiset(paths) == multiset(SegmentPaths(folder, n))
    ensures SortByKey(paths) == SegmentPaths(folder, n)
  {
    SegmentPathKeys(folder, n);
    SortByKeySorted(paths);
    SortedIsKeyOrder(SortByKey(paths), SegmentPaths(folder, n));
  }
}
