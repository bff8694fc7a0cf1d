/** Hexadecimal text for byte strings: the firmware's "%02X" per byte and
    Python's bytes.fromhex, which the host scripts use on BLE payloads. */
module HexText {
  import opened NeuralRecord
  import opened Optional
  import opened Text

  /** The value of a hexadecimal digit in either case, as CPython's digit
      table gives it, or None for any other character. */
  function HexValue(c: char): (v: Option<nat>)
    ensures v.Some? ==> v.value < 16
  {
    if '0' <= c <= '9' then Some((c as int) - ('0' as int))
    else if 'a' <= c <= 'f' then Some((c as int) - ('a' as int) + 10)
    else if 'A' <= c <= 'F' then Some((c as int) - ('A' as int) + 10)
    else None
  }

  /** The upper-case digit "%X" prints for d. */
  function HexDigit(d: nat): (c: char)
    requires d < 16
    ensures HexValue(c) == Some(d)
    ensures '0' <= c <= '9' || 'A' <= c <= 'F'
  {
    if d < 10 then (('0' as int) + d) as char else (('A' as int) + d - 10) as char
  }

  /** "%02X" of one byte: high digit first. */
  function HexByte(b: byte): (s: string)
    ensures |s| == 2
  {
    [HexDigit(b / 16), HexDigit(b % 16)]
  }

  /** Every byte as two upper-case digits, in order. */
  function Hex(bs: seq<byte>): (s: string)
    ensures |s| == 2 * |bs|
  {
    if bs == [] then [] else HexByte(bs[0]) + Hex(bs[1..])
  }

  lemma {:induction false} HexAppend(bs: seq<byte>, b: byte)
    ensures Hex(bs + [b]) == Hex(bs) + HexByte(b)
  {
    if bs == [] {
      assert bs + [b] == [b];
    } else {
      assert (bs + [b])[1..] == bs[1..] + [b];
      HexAppend(bs[1..], b);
    }
  }

  /** bytes.fromhex: white space may come before any pair of digits; a pair
      must be two hexadecimal digits; anything else raises ValueError (None). */
  function FromHex(s: string): Option<seq<byte>>
    decreases |s|
  {
    var t := SkipSpaces(s);
    if t == [] then Some([])
    else if |t| < 2 || HexValue(t[0]).None? || HexValue(t[1]).None? then None
    else Prefixed(PairValue(t[0], t[1]), FromHex(t[2..]))
  }

  /** The byte a pair of hexadecimal digits spells, high digit first. */
  function PairValue(hi: char, lo: char): byte
    requires HexValue(hi).Some? && HexValue(lo).Some?
  {
    16 * HexValue(hi).value + HexValue(lo).value
  }

  /** b in front of the bytes of the rest, or the rest's error. */
  function Prefixed(b: byte, rest: Option<seq<byte>>): Option<seq<byte>> {
    if rest.None? then None else Some([b] + rest.value)
  }

  /** fromhex reads back what "%02X" printed. */
  lemma {:induction false} FromHexOfHex(bs: seq<byte>)
    ensures FromHex(Hex(bs)) == Some(bs)
  {
    if bs != [] {
      FromHexOfHex(bs[1..]);
      FromHexOfHexCons(bs);
    }
  }

  /** The step of the round trip: one more byte in front. */
  lemma FromHexOfHexCons(bs: seq<byte>)
    requires bs != [] && FromHex(Hex(bs[1..])) == Some(bs[1..])
    ensures FromHex(Hex(bs)) == Some(bs)
  {
    var s := Hex(bs);
    HexHead(bs);
    FromHexPair(s, bs[1..]);
    PairOfHexByte(s[0], s[1], bs[0]);
    assert [bs[0]] + bs[1..] == bs;
  }

  /** The two digits of a byte's "%02X" read back as the byte. */
  lemma PairOfHexByte(hi: char, lo: char, b: byte)
    requires HexValue(hi) == Some(b / 16) && HexValue(lo) == Some(b % 16)
    ensures PairValue(hi, lo) == b
  {
  }

  /** One step of fromhex: a pair of digits with no white space before it. */
  lemma FromHexPair(s: string, rest: seq<byte>)
    requires |s| >= 2 && !IsSpace(s[0])
    requires HexValue(s[0]).Some? && HexValue(s[1]).Some? && FromHex(s[2..]) == Some(rest)
    ensures FromHex(s) == Some([PairValue(s[0], s[1])] + rest)
  {
    SkipNoSpaces(s);
  }

  /** The first pair of digits in "%02X" text is the first byte's, and no
      white space comes before it. */
  lemma HexHead(bs: seq<byte>)
    requires bs != []
    ensures var s := Hex(bs);
      !IsSpace(s[0]) && HexValue(s[0]) == Some(bs[0] / 16) && HexValue(s[1]) == Some(bs[0] % 16) && s[2..] == Hex(bs[1..])
  {
    var s, h, t := Hex(bs), HexByte(bs[0]), Hex(bs[1..]);
    assert s == h + t;
    assert s[0] == h[0] == HexDigit(bs[0] / 16);
    assert s[1] == h[1] == HexDigit(bs[0] % 16);
    assert !IsSpace(s[0]);
    assert s[2..] == t;
  }

  /** A byte string as a BLE logger shows it: pairs of upper-case digits
      joined by hyphens, "0A-1B-2C". */
  function Hyphenated(bs: seq<byte>): string {
    if bs == [] then []
    else if |bs| == 1 then HexByte(bs[0])
    else HexByte(bs[0]) + "-" + Hyphenated(bs[1..])
  }

  /** Removing the hyphens leaves the plain digits. */
  lemma {:induction false} RemoveHyphens(bs: seq<byte>)
    ensures Remove(Hyphenated(bs), '-') == Hex(bs)
  {
    if |bs| == 1 {
      RemoveAbsent(HexByte(bs[0]), '-');
      assert Hex(bs) == HexByte(bs[0]) + Hex([]);
    } else if |bs| > 1 {
      RemoveHyphens(bs[1..]);
      RemoveAppend(HexByte(bs[0]) + "-", Hyphenated(bs[1..]), '-');
      RemoveAppend(HexByte(bs[0]), "-", '-');
      RemoveAbsent(HexByte(bs[0]), '-');
    }
  }
}
