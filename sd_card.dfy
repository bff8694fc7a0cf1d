/** The storage side of the firmware (src/sd_card.c): choosing the session
    folder from the root listing, the storage lock that serialises card
    operations, the text listing of a directory, and the writer that drains
    the ring buffer into numbered segment files. The card, the FAT driver
    and the Zephyr file-system calls are oracle inputs: each call's result is
    a parameter. */
module SdCard {
  import opened NeuralRecord
  import opened Text
  import opened Optional
  import opened Errno
  import opened FifoBuffer

  const SD_ROOT_PATH: string := "/SD:/"
  const PATH_MAX_LEN: nat := 260
  const MAX_NEURAL_DATA_PER_WRITE: nat := 100
  const SESSION_PREFIX: string := "session_"

  /** A non-zero result of a file-system call. */
  type ErrCode = x: int | x != 0 witness -1

  datatype EntryType = File | Dir
  datatype DirEntry = DirEntry(kind: EntryType, name: string)

  /** One fs_readdir call: an entry (an empty name marks the end of the
      directory) or a failure. */
  datatype ReadDirResult = Got(entry: DirEntry) | ReadFailed(code: ErrCode)

  // ---------------------------------------------------------------------
  // Session numbering (find_highest_session_number, sd_card_init)

  /** The entries a readdir loop sees before the end marker or the first
      failure; an exhausted stream counts as the end. */
  function Scanned(stream: seq<ReadDirResult>): (es: seq<DirEntry>)
    ensures |es| <= |stream|
    ensures forall k :: 0 <= k < |es| ==> es[k].name != [] && stream[k] == Got(es[k])
  {
    if stream == [] then []
    else match stream[0]
      case ReadFailed(_) => []
      case Got(e) => if e.name == [] then [] else [e] + Scanned(stream[1..])
  }

  predicate IsSessionDir(e: DirEntry) {
    e.kind == Dir && StartsWith(e.name, SESSION_PREFIX)
  }

  /** atoi of the name after "session_". */
  function SessionNumber(e: DirEntry): int
    requires IsSessionDir(e)
  {
    Atoi(e.name[|SESSION_PREFIX|..])
  }

  /** The scan of find_highest_session_number from a running maximum. */
  function HighestFrom(stream: seq<ReadDirResult>, highest: int): int {
    if stream == [] then highest
    else match stream[0]
      case ReadFailed(_) => highest
      case Got(e) =>
        if e.name == [] then highest
        else if IsSessionDir(e) && SessionNumber(e) > highest then HighestFrom(stream[1..], SessionNumber(e))
        else HighestFrom(stream[1..], highest)
  }

  /** The scan's result is at least its start, bounds every session folder it
      passes, and is either its start or one of those folders' numbers. */
  lemma {:induction false} HighestFromBounds(stream: seq<ReadDirResult>, highest: int)
    ensures HighestFrom(stream, highest) >= highest
    ensures forall e :: e in Scanned(stream) && IsSessionDir(e) ==> SessionNumber(e) <= HighestFrom(stream, highest)
    ensures HighestFrom(stream, highest) == highest ||
            exists e :: e in Scanned(stream) && IsSessionDir(e) && SessionNumber(e) == HighestFrom(stream, highest)
  {
    if stream != [] && stream[0].Got? && stream[0].entry.name != [] {
      var e := stream[0].entry;
      var next := if IsSessionDir(e) && SessionNumber(e) > highest then SessionNumber(e) else highest;
      HighestFromBounds(stream[1..], next);
      assert Scanned(stream) == [e] + Scanned(stream[1..]);
    }
  }

  /** find_highest_session_number: -1 when the root cannot be opened;
      otherwise the largest atoi suffix among "session_" directories met
      before the end of the listing or the first read error, and 0 if none
      is larger. */
  method FindHighestSessionNumber(opendirResult: int, stream: seq<ReadDirResult>) returns (highest: int)
    ensures opendirResult != 0 ==> highest == -1
    ensures opendirResult == 0 ==> highest == HighestFrom(stream, 0)
  {
    if opendirResult != 0 {
      return -1;
    }
    highest := 0;
    var i := 0;
    while i < |stream|
      invariant i <= |stream|
      invariant HighestFrom(stream[i..], highest) == HighestFrom(stream, 0)
    {
      match stream[i]
      case ReadFailed(_) =>
        break;
      case Got(e) =>
        if e.name == [] {
          break;
        }
        if e.kind == Dir && StartsWith(e.name, SESSION_PREFIX) {
          var sessionNum := Atoi(e.name[|SESSION_PREFIX|..]);
          if sessionNum > highest {
            highest := sessionNum;
          }
        }
      assert stream[i..][1..] == stream[i + 1..];
      i := i + 1;
    }
  }

  /** The spelling sd_card_init gives a session folder under the root. */
  function SessionFolderName(n: nat): string {
    SESSION_PREFIX + Decimal(n)
  }

  /** A folder named by SessionFolderName reads back as its number. */
  lemma SessionNumberOfName(n: nat)
    ensures IsSessionDir(DirEntry(Dir, SessionFolderName(n)))
    ensures SessionNumber(DirEntry(Dir, SessionFolderName(n))) == n
  {
    var name := SessionFolderName(n);
    assert name[|SESSION_PREFIX|..] == Decimal(n) + [];
    AtoiDecimal(n, []);
  }

  /** sd_card_init's next session: one past the highest, a failed scan (-1)
      counting as 0. */
  function NewSessionNumber(highest: int): (n: nat)
    ensures n >= 1 && n > highest
    ensures highest <= 0 ==> n == 1
  {
    (if highest < 0 then 0 else highest) + 1
  }

  /** "%s/session_%u" over the root: the folder path sd_card_init creates. */
  function SessionPath(n: nat): (p: string)
    ensures p == "/SD://session_" + Decimal(n)
  {
    SD_ROOT_PATH + "/" + SessionFolderName(n)
  }

  /** A card whose root listing shows the folder of session n gets a new
      session above n at the next start, so session folders never repeat. */
  lemma NextSessionAbove(stream: seq<ReadDirResult>, n: nat)
    requires DirEntry(Dir, SessionFolderName(n)) in Scanned(stream)
    ensures NewSessionNumber(HighestFrom(stream, 0)) > n
  {
    SessionNumberOfName(n);
    HighestFromBounds(stream, 0);
  }

  /** An empty card (or one without session folders) starts at session 1. */
  lemma FirstSessionIsOne(stream: seq<ReadDirResult>)
    requires forall e :: e in Scanned(stream) ==> !IsSessionDir(e)
    ensures NewSessionNumber(HighestFrom(stream, 0)) == 1
  {
    HighestFromBounds(stream, 0);
  }

  // ---------------------------------------------------------------------
  // Directory listing text (sd_card_list_files)

  function Tag(kind: EntryType): string {
    if kind == Dir then "DIR " else "FILE"
  }

  /** "[%s]\t%s\n" for one entry. */
  function Line(e: DirEntry): (l: string)
    ensures |l| == |e.name| + 8
  {
    "[" + Tag(e.kind) + "]\t" + e.name + "\n"
  }

  /** The listing text of some entries, one line each, in order. */
  function ListText(es: seq<DirEntry>): string {
    if es == [] then [] else ListText(es[..|es| - 1]) + Line(es[|es| - 1])
  }

  lemma ListTextAppend(es: seq<DirEntry>, e: DirEntry)
    ensures ListText(es + [e]) == ListText(es) + Line(e)
  {
    assert (es + [e])[..|es|] == es;
  }

  /** The listing of e followed by more entries starts with e's line. */
  lemma {:induction false} ListTextCons(e: DirEntry, es: seq<DirEntry>)
    ensures ListText([e] + es) == Line(e) + ListText(es)
  {
    if es == [] {
      assert [e] + es == [] + [e];
    } else {
      var init, last := es[..|es| - 1], es[|es| - 1];
      ListTextCons(e, init);
      assert ([e] + es)[..|es|] == [e] + init;
      assert ListText([e] + es) == ListText([e] + init) + Line(last);
      assert ListText(es) == ListText(init) + Line(last);
    }
  }

  /** How the listing loop ends: normally, with the text of the lines
      listed, or with an error code. */
  datatype ListEnd = Ended(text: string) | Stopped(code: ErrCode)

  /** The listing loop of sd_card_list_files from a point where text has
      been listed. Lines that go into a buffer of cap characters must leave
      room for the NUL: the first that does not stops the loop with -EINVAL. */
  function ListRun(stream: seq<ReadDirResult>, withBuf: bool, cap: nat, text: string): ListEnd {
    if stream == [] then Ended(text)
    else match stream[0]
      case ReadFailed(c) => Stopped(c)
      case Got(e) =>
        if e.name == [] then Ended(text)
        else if withBuf && |Line(e)| >= cap - |text| then Stopped(-EINVAL)
        else ListRun(stream[1..], withBuf, cap, text + Line(e))
  }

  /** The directory reads to its end: no fs_readdir fails before the end
      marker (or the end of the stream). */
  predicate ReadsToEnd(stream: seq<ReadDirResult>) {
    |Scanned(stream)| == |stream| || stream[|Scanned(stream)|].Got?
  }

  lemma ScannedCons(stream: seq<ReadDirResult>, e: DirEntry)
    requires stream != [] && stream[0] == Got(e) && e.name != []
    ensures Scanned(stream) == [e] + Scanned(stream[1..])
    ensures ReadsToEnd(stream) == ReadsToEnd(stream[1..])
  {
  }

  /** The listing ends normally exactly when the directory reads to its end
      and, with a buffer, the whole text fits with its NUL. */
  lemma {:induction false} ListRunSucceeds(stream: seq<ReadDirResult>, withBuf: bool, cap: nat, text: string)
    ensures ListRun(stream, withBuf, cap, text).Ended? <==>
      ReadsToEnd(stream) && (!withBuf || Scanned(stream) == [] || |text| + |ListText(Scanned(stream))| < cap)
  {
    if stream != [] && stream[0].Got? && stream[0].entry.name != [] {
      var e := stream[0].entry;
      var rest := Scanned(stream[1..]);
      ScannedCons(stream, e);
      ListTextCons(e, rest);
      ListRunSucceeds(stream[1..], withBuf, cap, text + Line(e));
      if rest == [] {
        assert Scanned(stream) == [e] && ListText([e]) == Line(e);
      }
    }
  }

  /** A listing that ends normally has built the text of exactly the
      entries scanned. */
  lemma {:induction false} ListRunText(stream: seq<ReadDirResult>, withBuf: bool, cap: nat, text: string)
    requires ListRun(stream, withBuf, cap, text).Ended?
    ensures ListRun(stream, withBuf, cap, text).text == text + ListText(Scanned(stream))
  {
    if stream != [] && stream[0].Got? && stream[0].entry.name != [] {
      var e := stream[0].entry;
      var rest := Scanned(stream[1..]);
      ScannedCons(stream, e);
      ListTextCons(e, rest);
      assert ListRun(stream, withBuf, cap, text) == ListRun(stream[1..], withBuf, cap, text + Line(e));
      ListRunText(stream[1..], withBuf, cap, text + Line(e));
      assert (text + Line(e)) + ListText(rest) == text + (Line(e) + ListText(rest));
    }
  }

  /** A listing whose text does not fit fails with -EINVAL, whatever the
      directory holds after the entry that overflows. */
  lemma {:induction false} ListRunOverflow(stream: seq<ReadDirResult>, cap: nat, text: string)
    requires Scanned(stream) != [] && |text| + |ListText(Scanned(stream))| >= cap
    ensures ListRun(stream, true, cap, text) == Stopped(-EINVAL)
  {
    var e := Scanned(stream)[0];
    assert stream[0] == Got(e) && e.name != [];
    if |Line(e)| < cap - |text| {
      var rest := Scanned(stream[1..]);
      ScannedCons(stream, e);
      ListTextCons(e, rest);
      if rest == [] {
        assert false;
      }
      ListRunOverflow(stream[1..], cap, text + Line(e));
    }
  }

  // ---------------------------------------------------------------------
  // The card and its storage lock

  /** The card's files by absolute path, as far as this module writes them. */
  type Files = map<string, seq<byte>>

  /** fs_open with FS_O_CREATE | FS_O_APPEND followed by fs_write: bytes go
      at the end of the file, which is created empty when absent. */
  function Appended(files: Files, name: string, bytes: seq<byte>): Files {
    files[name := (if name in files then files[name] else []) + bytes]
  }

  lemma AppendedTwice(files: Files, name: string, a: seq<byte>, b: seq<byte>)
    ensures Appended(Appended(files, name, a), name, b) == Appended(files, name, a + b)
  {
    var old_ := if name in files then files[name] else [];
    assert (old_ + a) + b == old_ + (a + b);
  }

  /** Results of the four file-system calls sd_card_open_write_close makes. */
  datatype WriteCalls = WriteCalls(open: int, seek: int, write: int, close: int)

  /** The card as sd_card_open_write_close leaves it: the file is created
      once fs_open succeeds, and receives what fs_write reports written. */
  function AfterWrite(files: Files, ready: bool, name: string, data: seq<byte>, calls: WriteCalls): Files
    requires calls.write <= |data|
  {
    if !ready || |name| > PATH_MAX_LEN || calls.open != 0 then files
    else if calls.seek != 0 || calls.write < 0 then Appended(files, name, [])
    else Appended(files, name, data[..calls.write])
  }

  /** snprintk(dst + at, room, "%s", text): writes what fits of text and a
      terminating NUL when room > 0, touches nothing else, and returns the
      length of the whole text. */
  method Snprintk(dst: array<char>, at: nat, room: nat, text: string) returns (len: nat)
    requires at + room <= dst.Length
    modifies dst
    ensures len == |text|
    ensures len < room ==> dst[..] == old(dst[..at]) + text + ['\0'] + old(dst[at + len + 1..])
    ensures 0 < room <= len ==> dst[..] == old(dst[..at]) + text[..room - 1] + ['\0'] + old(dst[at + room..])
    ensures room == 0 ==> dst[..] == old(dst[..])
  {
    len := |text|;
    if room == 0 {
      return;
    }
    var k := if len < room then len else room - 1;
    forall i | at <= i < at + k {
      dst[i] := text[i - at];
    }
    dst[at + k] := '\0';
    assert dst[..] == old(dst[..at]) + text[..k] + ['\0'] + old(dst[at + k + 1..]);
    assert len < room ==> text[..k] == text;
  }

  /** A line written with its NUL right after a prefix extends the prefix. */
  lemma Spliced(before: seq<char>, after: seq<char>, at: nat, text: string, line: string)
    requires at + |line| < |before| && before[..at] == text
    requires after == before[..at] + line + ['\0'] + before[at + |line| + 1..]
    ensures after[..at + |line|] == text + line && after[at + |line|] == '\0'
  {
    assert after[..at + |line|] == (before[..at] + line + ['\0'] + before[at + |line| + 1..])[..at + |line|];
  }

  /** One entry's snprintk in the listing loop: after the text so far, the
      line and its NUL when they fit in what is left of the buffer. */
  method PutLine(buf: array<char>, bufSize: nat, used: nat, ghost text: string, line: string) returns (len: nat)
    requires bufSize <= buf.Length && used <= bufSize && buf[..used] == text
    modifies buf
    ensures len == |line|
    ensures len < bufSize - used ==> buf[..used + len] == text + line && buf[used + len] == '\0'
  {
    ghost var before := buf[..];
    len := Snprintk(buf, used, bufSize - used, line);
    if len < bufSize - used {
      Spliced(before, buf[..], used, text, line);
    }
  }

  /** The readdir loop of sd_card_list_files over an open directory: with a
      buffer, each entry's line goes after the previous ones while it fits
      with its NUL. The code is 0, the first read failure, or -EINVAL for a
      line that does not fit; used counts the characters listed. */
  method ListEntries(buf: array?<char>, bufSize: nat, stream: seq<ReadDirResult>) returns (code: int, used: nat)
    requires buf != null ==> bufSize <= buf.Length
    modifies buf
    ensures used <= bufSize
    ensures code == 0 <==> ListRun(stream, buf != null, bufSize, []).Ended?
    ensures code == match ListRun(stream, buf != null, bufSize, [])
                    case Stopped(c) => c
                    case Ended(_) => 0
    ensures code == 0 ==> used == if buf == null then 0 else |ListRun(stream, buf != null, bufSize, []).text|
    ensures code == 0 && buf != null ==> buf[..used] == ListRun(stream, buf != null, bufSize, []).text
    ensures code == 0 && buf != null && used > 0 ==> used < bufSize && buf[used] == '\0'
  {
    code, used := 0, 0;
    var i := 0;
    ghost var text: string := [];
    while i < |stream|
      invariant i <= |stream| && used <= bufSize
      invariant ListRun(stream[i..], buf != null, bufSize, text) == ListRun(stream, buf != null, bufSize, [])
      invariant used == if buf == null then 0 else |text|
      invariant buf != null ==> buf[..used] == text
      invariant buf != null && used > 0 ==> used < bufSize && buf[used] == '\0'
    {
      if stream[i].ReadFailed? {
        code := stream[i].code;
        break;
      }
      var e := stream[i].entry;
      if e.name == [] {
        break;
      }
      if buf != null {
        var remaining := bufSize - used;
        var len := PutLine(buf, bufSize, used, text, Line(e));
        if len >= remaining {
          code := -EINVAL;
          break;
        }
        used := used + len;
      }
      assert stream[i..][1..] == stream[i + 1..];
      text := text + Line(e);
      i := i + 1;
    }
  }

  /** The listing's path test: no path means the root; a given path is
      joined under the root and may have at most maxLfn characters. */
  predicate ListablePath(path: Option<string>, maxLfn: nat) {
    path.None? || |path.value| <= maxLfn
  }

  class Card {
    /** Count of m_sem_sd_oper_ongoing (initial 1, limit 1): 1 while no
        card operation is under way. */
    var semCount: nat
    var initSuccess: bool
    var currentDataFolder: string
    var files: Files
    /** Files this module has opened and not closed. */
    ghost var openFiles: nat
    /** CONFIG_FS_FATFS_MAX_LFN, the FAT long-file-name limit: a build
        setting, not fixed by the source. */
    const maxLfn: nat

    ghost predicate Valid()
      reads this
    {
      semCount <= 1
    }

    /** The state at boot, over a card already holding some files. */
    constructor (existing: Files, lfnLimit: nat)
      ensures Valid() && semCount == 1 && !initSuccess && currentDataFolder == []
      ensures files == existing && openFiles == 0 && maxLfn == lfnLimit
    {
      maxLfn := lfnLimit;
      semCount := 1;
      initSuccess := false;
      currentDataFolder := [];
      files := existing;
      openFiles := 0;
    }

    /** k_sem_take with a timeout. Nothing else runs in a sequential model,
        so the wait ends in -EAGAIN exactly when the lock is already held;
        either way the lock is held afterwards. */
    method TakeLock() returns (ret: int)
      requires Valid()
      modifies this`semCount
      ensures Valid() && semCount == 0
      ensures ret == 0 <==> old(semCount) == 1
      ensures ret != 0 ==> ret == -EAGAIN
    {
      if semCount > 0 {
        semCount := semCount - 1;
        ret := 0;
      } else {
        ret := -EAGAIN;
      }
    }

    /** k_sem_give: the count rises by one up to the limit 1. */
    method GiveLock()
      requires Valid()
      modifies this`semCount
      ensures Valid() && semCount == 1
    {
      if semCount < 1 {
        semCount := semCount + 1;
      }
    }

    /** The prologue every locked operation shares: take the lock, and give
        it back with -ENODEV when the card was never initialised. */
    method Enter() returns (ret: int)
      requires Valid()
      modifies this`semCount
      ensures Valid()
      ensures ret == 0 <==> old(semCount) == 1 && initSuccess
      ensures ret == 0 ==> semCount == 0
      ensures ret != 0 ==> semCount == old(semCount)
      ensures old(semCount) == 0 ==> ret == -EAGAIN
      ensures old(semCount) == 1 && !initSuccess ==> ret == -ENODEV
    {
      ret := TakeLock();
      if ret != 0 {
        return;
      }
      if !initSuccess {
        GiveLock();
        return -ENODEV;
      }
    }

    /** sd_card_init from the point the card is mounted (prepResult is 0, or
        the first failing result among the device, disk-access, mount and
        statvfs calls): picks the session after the highest one on the card,
        a failed scan counting as none, records its folder and creates it.
        Any mkdir result but 0, -EEXIST included, is the result and leaves
        the card uninitialised. */
    method Init(prepResult: int, opendirResult: int, stream: seq<ReadDirResult>, mkdirResult: int) returns (ret: int)
      modifies this`initSuccess, this`currentDataFolder
      ensures prepResult != 0 ==> ret == prepResult && currentDataFolder == old(currentDataFolder)
      ensures prepResult == 0 ==> ret == mkdirResult
      ensures prepResult == 0 ==>
        currentDataFolder == Truncated(SessionPath(NewSessionNumber(if opendirResult != 0 then -1 else HighestFrom(stream, 0))), PATH_MAX_LEN)
      ensures initSuccess == (old(initSuccess) || (ret == 0 && prepResult == 0))
    {
      if prepResult != 0 {
        return prepResult;
      }
      var highest := FindHighestSessionNumber(opendirResult, stream);
      if highest < 0 {
        highest := 0;
      }
      var newSession := highest + 1;
      assert newSession == NewSessionNumber(if opendirResult != 0 then -1 else HighestFrom(stream, 0));
      currentDataFolder := Truncated(SessionPath(newSession), PATH_MAX_LEN);
      ret := CreateDirectory(mkdirResult);
      if ret != 0 {
        return;
      }
      initSuccess := true;
    }

    /** sd_card_open_write_close: appends size bytes of data to the file at
        filename (an absolute path, at most PATH_MAX_LEN characters) and
        sets size to the count fs_write reports. A failing seek or write
        still closes the file; every path gives the lock back. */
    method OpenWriteClose(filename: string, data: seq<byte>, size: nat, calls: WriteCalls) returns (ret: int, newSize: nat)
      requires Valid()
      requires size <= |data| && calls.write <= size
      modifies this`semCount, this`files
      ensures Valid() && semCount == old(semCount)
      ensures files == AfterWrite(old(files), old(semCount) == 1 && initSuccess, filename, data[..size], calls)
      ensures old(semCount) == 0 ==> ret == -EAGAIN
      ensures old(semCount) == 1 && !initSuccess ==> ret == -ENODEV
      ensures old(semCount) == 1 && initSuccess ==>
        ret == (if |filename| > PATH_MAX_LEN then -ENAMETOOLONG
                else if calls.open != 0 then calls.open
                else if calls.seek != 0 then calls.seek
                else if calls.write < 0 then calls.write
                else calls.close)
      ensures newSize == if old(semCount) == 1 && initSuccess && |filename| <= PATH_MAX_LEN && calls.open == 0 &&
                            calls.seek == 0 && calls.write >= 0 then calls.write else size
    {
      newSize := size;
      ret := Enter();
      if ret != 0 {
        return;
      }
      if |filename| > PATH_MAX_LEN {
        GiveLock();
        return -ENAMETOOLONG, newSize;
      }
      if calls.open != 0 {
        GiveLock();
        return calls.open, newSize;
      }
      files := Appended(files, filename, []);
      if calls.seek != 0 {
        GiveLock();
        return calls.seek, newSize;
      }
      if calls.write < 0 {
        GiveLock();
        return calls.write, newSize;
      }
      AppendedTwice(old(files), filename, [], data[..calls.write]);
      assert [] + data[..calls.write] == data[..size][..calls.write];
      files := Appended(files, filename, data[..calls.write]);
      newSize := calls.write;
      ret := calls.close;
      GiveLock();
    }

    /** sd_card_open_read_close: reads up to size bytes of the file named
        under the root and sets size to the count read. A failing read
        returns without closing the file, so it stays open. */
    method OpenReadClose(filename: string, size: nat, openResult: int, readResult: int, closeResult: int)
      returns (ret: int, newSize: nat)
      requires Valid()
      requires readResult <= size
      modifies this`semCount, this`openFiles
      ensures Valid() && semCount == old(semCount)
      ensures old(semCount) == 0 ==> ret == -EAGAIN
      ensures old(semCount) == 1 && !initSuccess ==> ret == -ENODEV
      ensures old(semCount) == 1 && initSuccess ==>
        ret == (if |filename| > maxLfn then -FR_INVALID_NAME
                else if openResult != 0 then openResult
                else if readResult < 0 then readResult
                else closeResult)
      ensures newSize == if old(semCount) == 1 && initSuccess && |filename| <= maxLfn && openResult == 0 &&
                            readResult >= 0 then readResult else size
      ensures openFiles == old(openFiles) +
        (if old(semCount) == 1 && initSuccess && |filename| <= maxLfn && openResult == 0 && readResult < 0 then 1 else 0)
    {
      newSize := size;
      ret := Enter();
      if ret != 0 {
        return;
      }
      if |filename| > maxLfn {
        GiveLock();
        return -FR_INVALID_NAME, newSize;
      }
      if openResult != 0 {
        GiveLock();
        return openResult, newSize;
      }
      openFiles := openFiles + 1;
      if readResult < 0 {
        GiveLock();
        return readResult, newSize;
      }
      newSize := readResult;
      openFiles := openFiles - 1;
      ret := closeResult;
      GiveLock();
    }

    /** sd_card_open: opens a file named under the root for segment reads and,
        on success, KEEPS the lock for the sd_card_read / sd_card_close calls
        that follow. A name within the long-file-name limit may still make
        the joined path longer than PATH_MAX_LEN, which is -EINVAL; with
        the FAT default limit of 255 that cannot happen. */
    method Open(filename: string, openResult: int) returns (ret: int)
      requires Valid()
      modifies this`semCount, this`openFiles
      ensures Valid()
      ensures semCount == if ret == 0 then 0 else old(semCount)
      ensures old(semCount) == 0 ==> ret == -EAGAIN
      ensures old(semCount) == 1 && !initSuccess ==> ret == -ENODEV
      ensures old(semCount) == 1 && initSuccess ==>
        ret == (if |filename| > maxLfn then -ENAMETOOLONG
                else if |SD_ROOT_PATH| + |filename| > PATH_MAX_LEN then -EINVAL
                else openResult)
      ensures openFiles == old(openFiles) + (if ret == 0 then 1 else 0)
    {
      ret := Enter();
      if ret != 0 {
        return;
      }
      if |filename| > maxLfn {
        GiveLock();
        return -ENAMETOOLONG;
      }
      if |SD_ROOT_PATH| + |filename| > PATH_MAX_LEN {
        GiveLock();
        return -EINVAL;
      }
      if openResult != 0 {
        GiveLock();
        return openResult;
      }
      openFiles := openFiles + 1;
    }

    /** sd_card_read: only while the lock is held (after sd_card_open);
        otherwise -EPERM. A failing read gives the lock back. */
    method Read(size: nat, readResult: int) returns (ret: int, newSize: nat)
      requires Valid()
      requires readResult <= size
      modifies this`semCount
      ensures Valid()
      ensures old(semCount) > 0 ==> ret == -EPERM && semCount == old(semCount) && newSize == size
      ensures old(semCount) == 0 ==> ret == (if readResult < 0 then readResult else 0)
      ensures old(semCount) == 0 ==> semCount == (if readResult < 0 then 1 else 0)
      ensures old(semCount) == 0 ==> newSize == (if readResult < 0 then size else readResult)
    {
      newSize := size;
      if semCount > 0 {
        return -EPERM, newSize;
      }
      if readResult < 0 {
        GiveLock();
        return readResult, newSize;
      }
      newSize := readResult;
      ret := 0;
    }

    /** sd_card_close: only while the lock is held; closes the file and gives
        the lock back whatever fs_close returns. */
    method Close(closeResult: int) returns (ret: int)
      requires Valid()
      modifies this`semCount, this`openFiles
      ensures Valid()
      ensures old(semCount) != 0 ==> ret == -EPERM && semCount == old(semCount) && openFiles == old(openFiles)
      ensures old(semCount) == 0 ==> ret == closeResult && semCount == 1
      ensures old(semCount) == 0 ==> openFiles == if old(openFiles) > 0 then old(openFiles) - 1 else 0
    {
      if semCount != 0 {
        return -EPERM;
      }
      if openFiles > 0 {
        openFiles := openFiles - 1;
      }
      ret := closeResult;
      GiveLock();
    }

    /** sd_card_list_files: lists the directory at path (the root when none
        is given) into buf, one "[DIR ]\t<name>\n" or "[FILE]\t<name>\n" line
        per entry, stopping with -EINVAL at the first line that does not fit
        with its NUL, and on success sets the buffer size to the characters
        used. Without a buffer it only walks the directory. */
    method ListFiles(path: Option<string>, buf: array?<char>, bufSize: nat, opendirResult: int,
                     stream: seq<ReadDirResult>, closedirResult: int) returns (ret: int, newBufSize: nat)
      requires Valid()
      requires buf != null ==> bufSize <= buf.Length
      modifies this`semCount, buf
      ensures Valid() && semCount == old(semCount)
      ensures old(semCount) == 0 ==> ret == -EAGAIN
      ensures old(semCount) == 1 && !initSuccess ==> ret == -ENODEV
      ensures old(semCount) == 1 && initSuccess && !ListablePath(path, maxLfn) ==> ret == -FR_INVALID_NAME
      ensures old(semCount) == 1 && initSuccess && ListablePath(path, maxLfn) && opendirResult != 0 ==> ret == opendirResult
      ensures old(semCount) == 1 && initSuccess && ListablePath(path, maxLfn) && opendirResult == 0 ==>
        ret == match ListRun(stream, buf != null, bufSize, [])
               case Stopped(c) => c
               case Ended(_) => closedirResult
      ensures ret == 0 <==>
        old(semCount) == 1 && initSuccess && ListablePath(path, maxLfn) && opendirResult == 0 && ReadsToEnd(stream) &&
        (buf == null || Scanned(stream) == [] || |ListText(Scanned(stream))| < bufSize) && closedirResult == 0
      ensures (old(semCount) == 1 && initSuccess && ListablePath(path, maxLfn) && opendirResult == 0 &&
               buf != null && Scanned(stream) != [] && |ListText(Scanned(stream))| >= bufSize) ==> ret == -EINVAL
      ensures ret != 0 ==> newBufSize == bufSize
      ensures ret == 0 ==> newBufSize == if buf == null then 0 else |ListText(Scanned(stream))|
      ensures ret == 0 && buf != null ==> buf[..newBufSize] == ListText(Scanned(stream))
      ensures ret == 0 && buf != null && Scanned(stream) != [] ==> newBufSize < bufSize && buf[newBufSize] == '\0'
    {
      newBufSize := bufSize;
      ret := Enter();
      if ret != 0 {
        return;
      }
      if !ListablePath(path, maxLfn) {
        ret := -FR_INVALID_NAME;
      } else if opendirResult != 0 {
        ret := opendirResult;
      } else {
        ListRunSucceeds(stream, buf != null, bufSize, []);
        if buf != null && Scanned(stream) != [] && |ListText(Scanned(stream))| >= bufSize {
          ListRunOverflow(stream, bufSize, []);
        }
        var used;
        ret, used := ListEntries(buf, bufSize, stream);
        if ret == 0 {
          ListRunText(stream, buf != null, bufSize, []);
          assert [] + ListText(Scanned(stream)) == ListText(Scanned(stream));
          ret := closedirResult;
          if ret == 0 {
            newBufSize := used;
          }
        }
      }
      GiveLock();
    }
  }

  /** create_directory: fs_mkdir's result, -EEXIST passed through as a failure. */
  function CreateDirectory(mkdirResult: int): (r: int)
    ensures r == 0 <==> mkdirResult == 0
    ensures mkdirResult == -EEXIST ==> r == -EEXIST
  {
    if mkdirResult == 0 then 0
    else if mkdirResult == -EEXIST then -EEXIST
    else mkdirResult
  }

  // ---------------------------------------------------------------------
  // The writer thread

  /** The segment file of one flush: "%s/data_%u.bin" under the session
      folder, cut to the PATH_MAX_LEN - 1 characters snprintf keeps. */
  function SegmentName(folder: string, counter: u32): string {
    Truncated(folder + "/data_" + Decimal(counter) + ".bin", PATH_MAX_LEN - 1)
  }

  /** A 32-bit counter never needs more than 10 decimal digits. */
  lemma {:induction false} DecimalLength(n: nat, k: nat)
    requires n < Pow10(k)
    ensures |Decimal(n)| <= if k == 0 then 1 else k
  {
    if n >= 10 {
      DecimalLength(n / 10, k - 1);
    }
  }

  /** Under a session folder short enough that nothing is cut off, every
      value of the file counter names a different segment file. */
  lemma SegmentNamesDiffer(folder: string, a: u32, b: u32)
    requires |folder| <= PATH_MAX_LEN - 1 - 20
    requires a != b
    ensures SegmentName(folder, a) != SegmentName(folder, b)
  {
    assert Pow10(10) == 10_000_000_000;
    DecimalLength(a, 10);
    DecimalLength(b, 10);
    var da, db := Decimal(a), Decimal(b);
    var na, nb := folder + "/data_" + da + ".bin", folder + "/data_" + db + ".bin";
    if SegmentName(folder, a) == SegmentName(folder, b) {
      assert na == nb;
      var at := |folder| + 6;
      assert na[at..at + |da|] == da;
      assert nb[at..at + |db|] == db;
      DigitsValueOfDecimal(a);
      DigitsValueOfDecimal(b);
    }
  }

  /** One flush: the segment file named and the records handed over. */
  datatype Flush = Flush(name: string, records: seq<NeuralData>)

  /** The records of a run of flushes, in order. */
  function Flushed(fs: seq<Flush>): seq<NeuralData> {
    if fs == [] then [] else Flushed(fs[..|fs| - 1]) + fs[|fs| - 1].records
  }

  /** The storage side of sd_card_writer_thread: the static data_buffer and
      file_counter and the data_count local, which lives as long as the
      thread. */
  class Writer {
    const dataBuffer: array<NeuralData>
    var dataCount: nat
    var fileCounter: u32
    /** Every record read out of the ring buffer so far, oldest first. */
    ghost var taken: seq<NeuralData>
    /** Every flush so far, oldest first. */
    ghost var flushes: seq<Flush>

    /** data_count stays within the buffer, and each record read has either
        been flushed, in order, or waits in the buffer. */
    ghost predicate Valid()
      reads this, dataBuffer
    {
      dataBuffer.Length == MAX_NEURAL_DATA_PER_WRITE &&
      dataCount <= MAX_NEURAL_DATA_PER_WRITE &&
      taken == Flushed(flushes) + dataBuffer[..dataCount]
    }

    constructor ()
      ensures Valid() && fresh(dataBuffer)
      ensures dataCount == 0 && fileCounter == 0 && taken == [] && flushes == []
    {
      dataBuffer := new NeuralData[MAX_NEURAL_DATA_PER_WRITE];
      dataCount := 0;
      fileCounter := 0;
      taken := [];
      flushes := [];
    }

    /** One pass of the thread's loop once the card is initialised: wait for
        data_available, read as many records as the buffer has room for, and
        flush when the buffer is full or a read found nothing while records
        wait. A flush writes data_count records to the next data_<n>.bin,
        advances the counter (wrapping at 2^32 as a uint32_t does) and
        empties the buffer whether or not the write succeeded. */
    method Step(fifo: Fifo, card: Card, calls: WriteCalls)
      requires Valid() && fifo.Valid() && card.Valid() && card.initSuccess
      requires fifo.buffer != dataBuffer
      requires calls.write <= RECORD_SIZE * (dataCount + Min(MAX_NEURAL_DATA_PER_WRITE - dataCount, fifo.size))
      modifies this, dataBuffer, fifo, card`semCount, card`files
      ensures Valid() && fifo.Valid() && card.Valid() && fifo.buffer == old(fifo.buffer)
      ensures card.semCount == old(card.semCount) && fifo.dataAvailable == 0
      ensures old(fifo.dataAvailable) == 0 ==>
        fifo.Contents() == old(fifo.Contents()) && card.files == old(card.files) &&
        dataCount == old(dataCount) && fileCounter == old(fileCounter) &&
        taken == old(taken) && flushes == old(flushes)
      ensures old(fifo.dataAvailable) > 0 ==>
        var n := Min(MAX_NEURAL_DATA_PER_WRITE - old(dataCount), old(fifo.size));
        var batch := old(dataBuffer[..dataCount]) + old(fifo.Contents())[..n];
        var name := SegmentName(card.currentDataFolder, old(fileCounter));
        fifo.Contents() == old(fifo.Contents())[n..] &&
        taken == old(taken) + old(fifo.Contents())[..n] &&
        if |batch| == MAX_NEURAL_DATA_PER_WRITE || (n == 0 && |batch| > 0) then
          flushes == old(flushes) + [Flush(name, batch)] &&
          dataCount == 0 && fileCounter == (old(fileCounter) + 1) % 0x1_0000_0000 &&
          card.files == AfterWrite(old(card.files), old(card.semCount) == 1, name, EncodeAll(batch), calls)
        else
          flushes == old(flushes) && dataCount == |batch| && dataBuffer[..dataCount] == batch &&
          fileCounter == old(fileCounter) && card.files == old(card.files)
    {
      ghost var held, queue := dataBuffer[..dataCount], fifo.Contents();
      var ret := fifo.TakeDataAvailable();
      if ret != 0 {
        return;
      }
      assert fifo.size == old(fifo.size) && fifo.Contents() == queue;
      var readCount := Fill(fifo);
      ghost var batch := held + queue[..readCount];
      assert dataBuffer[..dataCount] == batch && |batch| == dataCount;
      if dataCount == MAX_NEURAL_DATA_PER_WRITE || (readCount == 0 && dataCount > 0) {
        FlushBatch(card, calls);
        assert flushes == old(flushes) + [Flush(SegmentName(card.currentDataFolder, old(fileCounter)), batch)];
      }
    }

    /** read_from_fifo_buffer into the free end of data_buffer. */
    method Fill(fifo: Fifo) returns (readCount: nat)
      requires Valid() && fifo.Valid() && fifo.buffer != dataBuffer
      modifies this`dataCount, this`taken, dataBuffer, fifo
      ensures Valid() && fifo.Valid() && fifo.buffer == old(fifo.buffer)
      ensures fifo.dataAvailable == old(fifo.dataAvailable)
      ensures readCount == Min(MAX_NEURAL_DATA_PER_WRITE - old(dataCount), old(fifo.size))
      ensures dataCount == old(dataCount) + readCount
      ensures dataBuffer[..dataCount] == old(dataBuffer[..dataCount]) + old(fifo.Contents())[..readCount]
      ensures fifo.Contents() == old(fifo.Contents())[readCount..]
      ensures taken == old(taken) + old(fifo.Contents())[..readCount]
    {
      ghost var queue, held := fifo.Contents(), dataBuffer[..dataCount];
      readCount := ReadAfterHeld(fifo);
      ghost var got := queue[..readCount];
      assert dataBuffer[..dataCount + readCount] == held + got;
      dataCount := dataCount + readCount;
      taken := taken + got;
      assert taken == Flushed(flushes) + (held + got);
    }

    /** The copy itself: the records read land right after the held ones,
        which stay as they were. */
    method ReadAfterHeld(fifo: Fifo) returns (readCount: nat)
      requires Valid() && fifo.Valid() && fifo.buffer != dataBuffer
      modifies dataBuffer, fifo
      ensures fifo.Valid() && fifo.buffer == old(fifo.buffer)
      ensures fifo.dataAvailable == old(fifo.dataAvailable)
      ensures readCount == Min(MAX_NEURAL_DATA_PER_WRITE - dataCount, old(fifo.size))
      ensures dataBuffer[..dataCount + readCount] == old(dataBuffer[..dataCount]) + old(fifo.Contents())[..readCount]
      ensures fifo.Contents() == old(fifo.Contents())[readCount..]
    {
      ghost var queue, held := fifo.Contents(), dataBuffer[..dataCount];
      readCount := fifo.Read(dataBuffer, dataCount, MAX_NEURAL_DATA_PER_WRITE - dataCount);
      forall i | 0 <= i < dataCount + readCount
        ensures dataBuffer[i] == (held + queue[..readCount])[i]
      {
        if i >= dataCount {
          assert dataBuffer[i] == queue[i - dataCount];
        } else {
          assert dataBuffer[i] == old(dataBuffer[i]) == held[i];
        }
      }
    }

    /** Writes the buffered records to the next segment file and empties the
        buffer, whatever the write returned. */
    method FlushBatch(card: Card, calls: WriteCalls)
      requires Valid() && card.Valid() && calls.write <= RECORD_SIZE * dataCount
      modifies this`dataCount, this`fileCounter, this`flushes, card`semCount, card`files
      ensures Valid() && card.Valid() && card.semCount == old(card.semCount)
      ensures dataCount == 0 && fileCounter == (old(fileCounter) + 1) % 0x1_0000_0000
      ensures flushes == old(flushes) + [Flush(SegmentName(card.currentDataFolder, old(fileCounter)), old(dataBuffer[..dataCount]))]
      ensures card.files == AfterWrite(old(card.files), old(card.semCount) == 1 && card.initSuccess,
                                       SegmentName(card.currentDataFolder, old(fileCounter)),
                                       EncodeAll(old(dataBuffer[..dataCount])), calls)
    {
      var filename := SegmentName(card.currentDataFolder, fileCounter);
      fileCounter := (fileCounter + 1) % 0x1_0000_0000;
      var batch := dataBuffer[..dataCount];
      var bytes := EncodeAll(batch);
      assert |bytes| == RECORD_SIZE * dataCount;
      ghost var before := flushes;
      assert Flushed(before + [Flush(filename, batch)]) == Flushed(before) + batch by {
        assert (before + [Flush(filename, batch)])[..|before|] == before;
      }
      var _, _ := card.OpenWriteClose(filename, bytes, |bytes|, calls);
      assert bytes[..|bytes|] == bytes;
      assert filename == SegmentName(card.currentDataFolder, old(fileCounter));
      assert flushes == before && taken == old(taken) && batch == old(dataBuffer[..dataCount]);
      flushes := flushes + [Flush(filename, batch)];
      dataCount := 0;
      assert dataBuffer[..dataCount] == [];
      assert taken == Flushed(flushes) + dataBuffer[..dataCount];
    }
  }
}
