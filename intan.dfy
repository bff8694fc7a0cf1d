/** The RHD2216 front end driver (src/intan.c): the chip's 16-bit SPI
    command words, the start-up sequence with its pass/fail decision, and
    the periodic sampling round. The SPI peripheral is replaced by the
    sequence of replies the bus will give. */
module Intan {
  import opened NeuralRecord

  /** What one spi_transceive call gives: the word clocked in, or an error. */
  datatype Reply = Received(word: u16) | Failed(code: int)

  /** spi_trans's result: the received word, or (u16_t)-1 on an error. */
  function Word(r: Reply): (w: u16)
    ensures r.Failed? ==> w == 0xFFFF
    ensures r.Received? ==> w == r.word
  {
    match r
    case Received(w) => w
    case Failed(_) => 0xFFFF
  }

  function Words(rs: seq<Reply>): (ws: seq<u16>)
  {
    seq(|rs|, k requires 0 <= k < |rs| => Word(rs[k]))
  }

  /** Register0 .. Register17: WRITE(reg, value) is 0x80 | reg in the upper
      byte and the value in the lower. */
  const REGISTER_CONFIG: seq<u16> := [
    0x80DE, 0x8120, 0x8228, 0x8302, 0x84B0, 0x8500, 0x8600, 0x8700,
    0x882C, 0x8911, 0x8a08, 0x8b15, 0x8c36, 0x8d00, 0x8eff, 0x8fff,
    0x90ff, 0x91ff]

  /** RHD_CONVERT: CONVERT(channel) is the channel in the upper byte. */
  const RHD_CONVERT: seq<u16> := [
    0x0000, 0x0100, 0x0200, 0x0300, 0x0400, 0x0500, 0x0600, 0x0700,
    0x0800, 0x0900, 0x0a00, 0x0b00, 0x0c00, 0x0d00, 0x0e00, 0x0f00,
    0xFF00, 0xFF00, 0xFF00]

  const CALIBRATE: u16 := 0x5500
  /** Each of the nine NINE_DUMMPY words that clock the calibration. */
  const DUMMY: u16 := 0xbf00
  const CALIBRATION_DUMMIES: nat := 9

  /** The k-th register command is a WRITE to register k. */
  function RegisterCommand(k: nat): (c: u16)
    requires k < |REGISTER_CONFIG|
    ensures c / 0x100 == 0x80 + k
    ensures c == 0x8000 + 0x100 * k + c % 0x100
  {
    REGISTER_CONFIG[k]
  }

  /** The i-th command of a sampling round converts channel i, for the 16
      channels in order; the last three are 0xFF00 dummies. */
  function ConvertCommand(i: nat): (c: u16)
    requires i < |RHD_CONVERT|
    ensures i < MAX_CHANNELS ==> c == 0x100 * i
    ensures i >= MAX_CHANNELS ==> c == 0xFF00
  {
    RHD_CONVERT[i]
  }

  /** The 28 words RHD2216_init sends: the 18 register writes, CALIBRATE,
      then nine dummies. */
  function InitCommands(): (cs: seq<u16>)
    ensures |cs| == 28
    ensures cs[..18] == REGISTER_CONFIG && cs[18] == CALIBRATE
    ensures forall k :: 19 <= k < 28 ==> cs[k] == DUMMY
  {
    REGISTER_CONFIG + [CALIBRATE] + seq(CALIBRATION_DUMMIES, _ => DUMMY)
  }

  /** The start-up check: the reply to the ninth dummy is 0xbf00 and every
      register write was echoed back unchanged. */
  predicate InitPasses(replies: seq<Reply>)
    requires |replies| >= 28
  {
    Word(replies[27]) == DUMMY &&
    forall j :: 0 <= j < |REGISTER_CONFIG| ==> Word(replies[j]) == REGISTER_CONFIG[j]
  }

  /** n copies of a round, one after another. */
  function Rounds(round: seq<u16>, n: nat): seq<u16> {
    if n == 0 then [] else Rounds(round, n - 1) + round
  }

  /** RHD_SAMPLE after n transactions that started from b. */
  function Flipped(b: bool, n: nat): bool {
    if n == 0 then b else !Flipped(b, n - 1)
  }

  /** An even number of transactions leaves RHD_SAMPLE as it was, an odd
      number inverts it. */
  lemma {:induction false} FlippedParity(b: bool, n: nat)
    ensures Flipped(b, n) == (b == (n % 2 == 0))
  {
    if n > 0 {
      FlippedParity(b, n - 1);
    }
  }

  class Chip {
    /** RHD_SAMPLE: flipped by every transaction. */
    var sample: bool
    /** The words sent on the bus so far, oldest first. */
    var sent: seq<u16>
    /** The replies the bus will give to the coming transactions. */
    var replies: seq<Reply>
    /** RHD2216_init's static result[18]. */
    const result: array<u16>
    /** T_result[19]: the replies of the latest sampling pass. */
    const tResult: array<u16>
    var timerStarted: bool

    ghost predicate Valid()
      reads this
    {
      result.Length == |REGISTER_CONFIG| && tResult.Length == |RHD_CONVERT| && result != tResult
    }

    constructor (bus: seq<Reply>)
      ensures Valid() && fresh(result) && fresh(tResult)
      ensures sample && sent == [] && replies == bus && !timerStarted
    {
      sample := true;
      sent := [];
      replies := bus;
      result := new u16[|REGISTER_CONFIG|];
      tResult := new u16[|RHD_CONVERT|];
      timerStarted := false;
    }

    /** spi_trans: one transaction. */
    method Trans(command: u16) returns (w: u16)
      requires replies != []
      modifies this`sample, this`sent, this`replies
      ensures sent == old(sent) + [command] && replies == old(replies)[1..]
      ensures w == Word(old(replies)[0])
      ensures sample == !old(sample)
    {
      sent := sent + [command];
      var reply := replies[0];
      replies := replies[1..];
      sample := !sample;
      match reply
      case Received(word) => w := word;
      case Failed(_) => w := 0xFFFF;
    }

    /** RHD2216_init: the 28 transactions in order, then 1 unless the ninth
        dummy's reply is 0xbf00 and then 1 unless every register echo
        matches; 0 otherwise. */
    method Init() returns (err: int)
      requires Valid() && |replies| >= 28
      modifies this`sample, this`sent, this`replies, result
      ensures Valid()
      ensures sent == old(sent) + InitCommands() && replies == old(replies)[28..]
      ensures result[..] == Words(old(replies)[..18])
      ensures err == 0 <==> InitPasses(old(replies))
      ensures err == 0 || err == 1
      ensures sample == old(sample)
    {
      ghost var bus := replies;
      Transfer(REGISTER_CONFIG, result);
      FlippedParity(old(sample), |REGISTER_CONFIG|);
      var calibrateErr := Calibrate();
      assert bus[18..][9] == bus[27];
      if calibrateErr != DUMMY {
        return 1;
      }
      var echoed := EchoesMatch(result[..]);
      err := if echoed then 0 else 1;
    }

    /** A run of transactions, the reply to each kept in dst: the first
        loop of RHD2216_init and each pass of RHD_handler. */
    method Transfer(commands: seq<u16>, dst: array<u16>)
      requires dst.Length == |commands| <= |replies|
      modifies this`sample, this`sent, this`replies, dst
      ensures sent == old(sent) + commands && replies == old(replies)[|commands|..]
      ensures dst[..] == Words(old(replies)[..|commands|])
      ensures sample == Flipped(old(sample), |commands|)
    {
      ghost var bus := replies;
      var i := 0;
      while i < |commands|
        invariant 0 <= i <= |commands|
        invariant sent == old(sent) + commands[..i] && replies == bus[i..]
        invariant forall k :: 0 <= k < i ==> dst[k] == Word(bus[k])
        invariant sample == Flipped(old(sample), i)
      {
        dst[i] := Trans(commands[i]);
        i := i + 1;
      }
      assert commands[..i] == commands;
      assert dst[..] == Words(bus[..i]);
    }

    /** CALIBRATE and the nine dummies; the result is the reply to the last
        dummy, the only one checked. */
    method Calibrate() returns (calibrateErr: u16)
      requires |replies| >= 1 + CALIBRATION_DUMMIES
      modifies this`sample, this`sent, this`replies
      ensures sent == old(sent) + [CALIBRATE] + seq(CALIBRATION_DUMMIES, _ => DUMMY)
      ensures replies == old(replies)[1 + CALIBRATION_DUMMIES..]
      ensures calibrateErr == Word(old(replies)[CALIBRATION_DUMMIES])
      ensures sample == old(sample)
    {
      ghost var bus := replies;
      calibrateErr := Trans(CALIBRATE);
      var j := 0;
      while j < CALIBRATION_DUMMIES
        invariant 0 <= j <= CALIBRATION_DUMMIES
        invariant sent == old(sent) + [CALIBRATE] + seq(j, _ => DUMMY)
        invariant replies == bus[1 + j..]
        invariant calibrateErr == Word(bus[j])
        invariant sample == Flipped(!old(sample), j)
      {
        calibrateErr := Trans(DUMMY);
        assert seq(j + 1, _ => DUMMY) == seq(j, _ => DUMMY) + [DUMMY];
        j := j + 1;
      }
      FlippedParity(!old(sample), j);
    }

    /** One pass of RHD_handler's loop: the 19 round commands, replies into
        T_result. */
    method ConvertPass()
      requires Valid() && |replies| >= 19
      modifies this`sample, this`sent, this`replies, tResult
      ensures sent == old(sent) + RHD_CONVERT && replies == old(replies)[19..]
      ensures tResult[..] == Words(old(replies)[..19])
      ensures sample == !old(sample)
    {
      Transfer(RHD_CONVERT, tResult);
      FlippedParity(old(sample), |RHD_CONVERT|);
    }

    /** RHD_handler: ten passes of the 19 round commands; T_result is left
        holding the replies of the last pass. */
    method Handler()
      requires Valid() && |replies| >= 190
      modifies this`sample, this`sent, this`replies, tResult
      ensures Valid()
      ensures sent == old(sent) + Rounds(RHD_CONVERT, 10) && replies == old(replies)[190..]
      ensures tResult[..] == Words(old(replies)[171..190])
      ensures sample == old(sample)
    {
      ghost var bus := replies;
      ghost var round := RHD_CONVERT;
      var j := 0;
      ghost var pos := 0;
      while j < 10
        invariant 0 <= j <= 10 && pos == 19 * j
        invariant sent == old(sent) + Rounds(round, j) && replies == bus[pos..]
        invariant j > 0 ==> tResult[..] == Words(bus[pos - 19..pos])
        invariant sample == Flipped(old(sample), j)
      {
        ghost var sentBefore := sent;
        ConvertPass();
        assert sent == old(sent) + Rounds(round, j + 1) by {
          assert sentBefore + round == old(sent) + (Rounds(round, j) + round);
        }
        assert bus[pos..][..19] == bus[pos..pos + 19];
        assert bus[pos..][19..] == bus[pos + 19..];
        j, pos := j + 1, pos + 19;
      }
      FlippedParity(old(sample), j);
    }
    /** The start of main: the sampling timer runs only when RHD2216_init
        returned 0, after one more CONVERT(0). */
    method Boot() returns (rhdErr: int)
      requires Valid() && |replies| >= 29
      modifies this`sample, this`sent, this`replies, this`timerStarted, result
      ensures Valid()
      ensures timerStarted == (old(timerStarted) || InitPasses(old(replies)))
      ensures sent == old(sent) + InitCommands() + (if InitPasses(old(replies)) then [ConvertCommand(0)] else [])
      ensures !InitPasses(old(replies)) ==> rhdErr == 1
      ensures InitPasses(old(replies)) ==> rhdErr == Word(old(replies)[28])
    {
      rhdErr := Init();
      if rhdErr == 0 {
        var w := Trans(RHD_CONVERT[0]);
        rhdErr := w;
        timerStarted := true;
      }
    }
  }

  /** The last loop of RHD2216_init: does every reply equal the command it
      answered? Stops at the first mismatch. */
  method EchoesMatch(got: seq<u16>) returns (ok: bool)
    requires |got| == |REGISTER_CONFIG|
    ensures ok <==> got == REGISTER_CONFIG
  {
    var j := 0;
    while j < |REGISTER_CONFIG|
      invariant 0 <= j <= |REGISTER_CONFIG|
      invariant got[..j] == REGISTER_CONFIG[..j]
    {
      if got[j] != REGISTER_CONFIG[j] {
        return false;
      }
      j := j + 1;
    }
    assert got == got[..j];
    return true;
  }
}
