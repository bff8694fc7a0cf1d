# Neural data acquisition: a verified model of the record path

This project models the sample path of a small neural-recording system.
Firmware on a Zephyr board samples an RHD2216 amplifier over SPI, or
generates stand-in samples. It queues the samples in a ring buffer and
writes them in batches to numbered segment files on an SD card. Host
scripts read those files and BLE logger captures back into tables, and
then compute packet loss and stability figures.

Everything revolves around one fixed 36-byte record: sixteen little-endian
16-bit channel words followed by a little-endian 32-bit millisecond
timestamp (`NeuralRecord`).

| module (file) | models |
|---|---|
| `NeuralRecord` (neural_record.dfy) | the record, its memory image and its decoding |
| `Text`, `Optional`, `Errno` | shared helpers: decimal text, C `atoi`, `str.replace`, the Zephyr error numbers |
| `FifoBuffer` (fifo_buffer.dfy) | the 300-slot ring buffer as a class over an array; its contents are a ghost sequence |
| `SdCard` (sd_card.dfy) | session selection, the storage lock, the directory listing, the batching writer |
| `OldSdWriter` (old_sd_writer.dfy) | the earlier byte-buffer writer, as written and corrected |
| `Intan` (intan.dfy) | the RHD2216 command tables, `spi_trans`, the start-up check, the sampling round, the init-gated timer |
| `MainSample` (main_sample.dfy) | the 12-hour clock and the modulo-200 stand-in sample |
| `FakeData`, `HexText` | the fake-data thread; `%02X` hex text and `bytes.fromhex` |
| `BinaryDecoder` (binary_decoder.dfy) | `decode_binary_file` |
| `LogTime`, `BleLog` | BLE logger time stamps and `decode_ble_log` in its three versions |
| `SegmentOrder` (segment_order.dfy) | the numeric ordering of segment files |
| `SessionDecode` (session_decode.dfy) | `decode_binary_files`, v1 and v2, with v2's timestamp unwrapping |
| `AttributeLog` (attribute_log.dfy) | `parse_log_file`'s event filter and middle snippet |
| `Analysis` (analysis.dfy) | packet loss, highest stable frequency, configuration-name sanitising, `process_files` bookkeeping |

Imperative code keeps its form:

- loops become methods with invariants;
- objects updated in place become classes with `modifies` frames;
- arrays stay arrays.

Every such method is proved against a specification function, and the
lemmas state the properties of that function. The hardware, the file
system, the clock and the operating system's answers are inputs:

- a sequence of SPI replies;
- a stream of `fs_readdir` results;
- each file-system call's result;
- the uptime;
- the bytes of each file;
- `os.path` answers keyed by file name.

Seconds-based and other floating-point work is left out; the list is below.

## Model

| member | source | states |
|---|---|---|
| NeuralRecord.Le16 | inc/neural_data.h:13 | a channel word is stored as two bytes, low first, that recompose to the word |
| NeuralRecord.Le32 | inc/neural_data.h:14 | the timestamp is stored as four bytes, least significant first, that recompose to it |
| NeuralRecord.AsSigned16 | scripts/test_ble_log_decoding.py:53 | struct's `h` reading of a word is the unique value in [-32768, 32767] congruent to it modulo 2^16 |
| NeuralRecord.Le16Inverse | scripts/binarydecoder.py:29 | a `<H` load at any offset re-encodes to the two bytes it read |
| NeuralRecord.Le32Inverse | scripts/binarydecoder.py:30 | a `<I` load at any offset re-encodes to the four bytes it read |
| NeuralRecord.EncodeChannelsAt | inc/neural_data.h:13 | channel k of the image is the word at byte 2k |
| NeuralRecord.Encode | inc/neural_data.h:10-15 | the memory image of a record is exactly 36 bytes |
| NeuralRecord.DecodeSignedChannels | scripts/test_ble_log_decoding.py:53 | `<16h` gives sixteen values, each within the signed 16-bit range |
| NeuralRecord.DecodeEncode | scripts/binarydecoder.py:29-30 | decoding a record's image gives the record back |
| NeuralRecord.EncodeDecode | scripts/binarydecoder.py:20-30 | every 36-byte block is the image of the record it decodes to |
| NeuralRecord.EncodeAllSlice | scripts/binarydecoder.py:18-20 | in a stream of images, the k-th 36-byte slice is the k-th record's image |
| Text.Decimal | src/sd_card.c:570-571 | `%u` spells a number as a non-empty run of digits with no leading zero |
| Text.DigitsValueOfDecimal | scripts/process_neural_data2.py:72 | Python's `int()` reads back what `%u` printed |
| Text.SkipSpacesSuffix | src/sd_card.c:453 | atoi skips only leading white space: what remains is a suffix of the text, and everything skipped is white space |
| Text.AtoiDecimal | src/sd_card.c:453 | C `atoi` reads back a printed number whatever non-digit follows it |
| Text.Truncated | src/sd_card.c:570-571 | snprintf into a buffer of k + 1 keeps the first min(len, k) characters |
| Text.Remove | scripts/test_ble_log_decoding.py:42 | `replace('-', '')` leaves no hyphen and never lengthens the text |
| FifoBuffer.SlotIsMod | src/fifo_buffer.c:29-49 | the model's slot arithmetic is the source's `(index + 1) % FIFO_BUFFER_SIZE` (lines 29 and 49), applied k times |
| FifoBuffer.WindowAt | src/fifo_buffer.c:28-29 | the k-th queued record is the one in slot (head + k) mod 300 |
| FifoBuffer.Fifo.Init | src/fifo_buffer.c:11-18 | head, tail and size are 0, the semaphore count is 0, the queue is empty |
| FifoBuffer.Fifo.Read | src/fifo_buffer.c:20-38 | removes exactly min(max_size, size) records, copies them oldest first into the destination, touches nothing else, leaves the rest queued and the semaphore unchanged |
| FifoBuffer.Fifo.CopyOut | src/fifo_buffer.c:26-33 | the copying loop: exactly min(max_size, size) records, oldest first, land in the destination from `start` on, and no other element changes |
| FifoBuffer.Fifo.Write | src/fifo_buffer.c:40-61 | appends exactly the first min(n, 300 - size) records in order, keeps tail = (head + size) mod 300, and gives the semaphore on every call, even when nothing fits |
| FifoBuffer.Fifo.TakeDataAvailable | src/sd_card.c:613-617 | taking the semaphore succeeds exactly when it was given, and leaves it at 0 |
| SdCard.Scanned | src/sd_card.c:434-447 | the scan sees the entries before the end marker or the first failed read, in order |
| SdCard.HighestFromBounds | src/sd_card.c:450-461 | the scan's result is at least its start (0), at least the number of every `session_` directory seen, and is either the start or one of those numbers; files and other names are ignored |
| SdCard.FindHighestSessionNumber | src/sd_card.c:411-471 | -1 when the root cannot be opened; otherwise the scan's maximum, a failed read ending the scan with the maximum so far |
| SdCard.SessionNumberOfName | src/sd_card.c:450-453 | a folder named `session_<n>` is a session folder, and atoi reads n back from it |
| SdCard.NewSessionNumber | src/sd_card.c:564-569 | the new session is highest + 1, a failed scan counting as 0, so it is at least 1 and above every existing one |
| SdCard.SessionPath | src/sd_card.c:569-571 | the session folder is `/SD://session_<n>` |
| SdCard.NextSessionAbove | src/sd_card.c:564-571 | a card that lists session n gets a new session above n |
| SdCard.FirstSessionIsOne | src/sd_card.c:564-569 | a card without session folders starts at session 1 |
| SdCard.Line | src/sd_card.c:117-119 | each entry's line is `[DIR ]` or `[FILE]`, a tab, the name and a newline: eight characters plus the name |
| SdCard.ListTextAppend | src/sd_card.c:114-130 | the listing grows by one line per entry, in directory order |
| SdCard.ListRunSucceeds | src/sd_card.c:100-133 | the listing loop ends normally exactly when the directory reads to its end and, with a buffer, every line fits |
| SdCard.ListRunText | src/sd_card.c:114-144 | a listing that ends normally has built exactly the lines of the entries seen |
| SdCard.ListRunOverflow | src/sd_card.c:121-127 | a listing whose text does not fit the buffer fails with -EINVAL |
| SdCard.AppendedTwice | src/sd_card.c:184-212 | two appending writes to one file append both pieces, in order |
| SdCard.Snprintk | src/sd_card.c:117-119 | snprintk writes what fits of the text plus a NUL at the given offset, changes nothing else, and returns the full length |
| SdCard.PutLine | src/sd_card.c:114-130 | a line that fits extends the listing text so far and is NUL-terminated |
| SdCard.ListEntries | src/sd_card.c:100-133 | the readdir loop returns 0 exactly when the listing ends normally, and then fills the buffer with exactly that text |
| SdCard.Card.constructor | src/sd_card.c:24-28 | the lock is free (count 1), the card is not initialised, and the build's long-file-name limit is recorded |
| SdCard.Card.TakeLock | src/sd_card.c:54-59 | taking the lock succeeds exactly when it is free; otherwise -EAGAIN |
| SdCard.Card.GiveLock | src/sd_card.c:64 | giving the lock frees it |
| SdCard.Card.Enter | src/sd_card.c:54-66 | -EAGAIN when the lock is held; -ENODEV, with the lock given back, before init; 0 with the lock held otherwise |
| SdCard.Card.Init | src/sd_card.c:555-590 | picks the session after the highest one, records its folder, and is initialised only when mkdir returned 0 (-EEXIST is a failure) |
| SdCard.Card.OpenWriteClose | src/sd_card.c:152-226 | each error path returns its code and gives the lock back; the file gets the bytes fs_write reports; size becomes that count once the write succeeded, even if the close then fails |
| SdCard.Card.OpenReadClose | src/sd_card.c:228-289 | the same lock discipline and the long-file-name check (-FR_INVALID_NAME); size becomes the count read; a failing read returns without closing the file, which stays open |
| SdCard.Card.Open | src/sd_card.c:291-339 | -ENAMETOOLONG for a name over the card's long-file-name limit; -EINVAL when `/SD:/` plus the name exceeds 260 characters; otherwise fs_open's result. A successful open keeps the lock; every failure gives it back |
| SdCard.Card.Read | src/sd_card.c:341-362 | -EPERM unless the lock is held; a failed read gives the lock back |
| SdCard.Card.Close | src/sd_card.c:364-384 | -EPERM unless the lock is held; otherwise closes the file and gives the lock back |
| SdCard.Card.ListFiles | src/sd_card.c:45-147 | each error path with its code and the lock given back; on success `*buf_size` is the listing's length and the buffer holds exactly the listing |
| SdCard.CreateDirectory | src/sd_card.c:386-409 | 0 exactly when mkdir succeeded; -EEXIST is passed through as a failure |
| SdCard.SegmentNamesDiffer | src/sd_card.c:631 | different file counters name different segment files, so every flush goes to a new file |
| SdCard.Writer.constructor | src/sd_card.c:594-601 | the buffer is empty and the file counter is 0 |
| SdCard.Writer.Step | src/sd_card.c:611-648 | reads min(100 - data_count, queued) records; flushes exactly when the buffer is full or a read found nothing while records wait; a flush writes the batch to `data_<counter>.bin`, advances the counter mod 2^32 and empties the buffer whatever the write returned; every record read is flushed in order or waits in the buffer; the data_available count is 0 afterwards on every path, so the next pass reads only after a new write |
| SdCard.Writer.Fill | src/sd_card.c:622-623 | the read asks for at most 100 - data_count records, so data_count never exceeds 100, and the records land after those already held |
| SdCard.Writer.ReadAfterHeld | src/sd_card.c:622-623 | the records read land right after those already held, which stay as they were; exactly min(100 - data_count, queued) are read and the rest stay queued |
| SdCard.Writer.FlushBatch | src/sd_card.c:629-645 | the batch goes to the next segment file as data_count * 36 bytes; the counter advances and data_count returns to 0 |
| OldSdWriter.NextIndexAsWritten | _oldsrc/sd_card_.c:29-40 | as written, the index either advances by one record or resets to 0 |
| OldSdWriter.IndexAsWrittenLinear | _oldsrc/sd_card_.c:15-30 | until the first flush the index is 36 bytes per record |
| OldSdWriter.OverflowAfter113Records | _oldsrc/sd_card_.c:29-33 | with the 4096-byte buffer of line 7: after 113 records the index is 4068, below the flush threshold, and the next copy ends 8 bytes past the buffer |
| OldSdWriter.NextIndex | _oldsrc/sd_card_.c:29-40 | the corrected index always leaves room for one more record |
| OldSdWriter.NextIndexInBounds | _oldsrc/sd_card_.c:15-39 | the corrected index stays a whole number of records and resets exactly after record 113 |
| OldSdWriter.ByteWriter.constructor | _oldsrc/sd_card_.c:14-15 | an empty 4096-byte buffer at index 0 |
| OldSdWriter.ByteWriter.Store | _oldsrc/sd_card_.c:29-30 | the record's 36-byte image is copied at the index, which advances by 36 |
| OldSdWriter.ByteWriter.StepAsWritten | _oldsrc/sd_card_.c:22-47 | with no record read, nothing changes; otherwise the record's 36-byte image lands at the old index with the bytes before it kept, the index advances as written, `writes` is unchanged below 4096, and once the index reaches 4096 the whole buffer is written and the index resets, whatever the write returned; the copy requires room that the reachable index 4068 does not give |
| OldSdWriter.ByteWriter.Step | _oldsrc/sd_card_.c:22-47 | the corrected pass: each record read is taken in order, and a flush writes 113 whole records |
| OldSdWriter.ByteWriter.Accept | _oldsrc/sd_card_.c:29-40 | the written bytes plus the held bytes are always the images of all records taken, in order |
| Intan.Word | src/intan.c:150-165 | `spi_trans` returns the received word, or 0xFFFF on an error |
| Intan.RegisterCommand | src/intan.c:31-51 | the k-th register command is a WRITE to register k: 0x80 + k in the upper byte |
| Intan.ConvertCommand | src/intan.c:22-23 | the round converts channels 0..15 in order (channel in the upper byte), then three 0xFF00 dummies |
| Intan.InitCommands | src/intan.c:175-184 | the 28 words of the start-up: the 18 register writes, CALIBRATE, nine 0xbf00 dummies |
| Intan.FlippedParity | src/intan.c:155 | an even number of transactions leaves RHD_SAMPLE as it was, an odd number inverts it |
| Intan.Chip.constructor | src/intan.c:122 | RHD_SAMPLE starts true and nothing has been sent |
| Intan.Chip.Trans | src/intan.c:150-165 | one transaction sends the command, consumes one reply and toggles RHD_SAMPLE |
| Intan.Chip.Init | src/intan.c:167-208 | exactly the 28 transactions in order; `result` holds the 18 register replies; returns 0 exactly when the last dummy's reply is 0xbf00 and every echo equals its command, else 1 |
| Intan.Chip.Transfer | src/intan.c:175-178 | a run of transactions keeps each reply, in order (also each pass at lines 223-226) |
| Intan.Chip.Calibrate | src/intan.c:180-184 | CALIBRATE and nine dummies; only the last dummy's reply is returned |
| Intan.Chip.ConvertPass | src/intan.c:223-226 | one pass sends the 19 round commands, keeps their replies in T_result, in order, and leaves RHD_SAMPLE inverted |
| Intan.Chip.Handler | src/intan.c:214-230 | ten rounds of the 19 round commands; T_result ends holding the last round's replies |
| Intan.Chip.Boot | src/intan.c:267-277 | the timer starts, after one more CONVERT(0), exactly when the start-up check passed |
| Intan.EchoesMatch | src/intan.c:195-206 | true exactly when every register reply equals its command |
| MainSample.CurrentTimestamp | src/main.c:100-105 | the uptime modulo 43,200,000 ms: below 12 hours and congruent to the uptime |
| MainSample.Bump | src/main.c:114-118 | a byte below 200 advances by one modulo 200 |
| MainSample.BumpedFromZero | src/main.c:110-120 | from 0, a byte holds n mod 200 after n updates |
| MainSample.Sample.constructor | src/main.c:38-40 | every byte starts at 0 |
| MainSample.Sample.Update | src/main.c:108-122 | every byte of every channel is bumped; all bytes stay equal and below 200; the timestamp is the current one; nothing else changes |
| FakeData.Generator.constructor | src/fakedata_module.c:25-26 | counters start at 0; the start time is read once |
| FakeData.Generator.Generate | src/fakedata_module.c:31-38 | the timestamp is uptime minus start time; each channel value is counter mod 1000 (so in 0..999); every counter advances by one, mod 2^16, so all channels carry the same value |
| FakeData.HexEncode | src/fakedata_module.c:40-49 | two upper-case hex digits per byte in memory order, NUL-terminated in a 2 * size + 1 buffer, with no NUL before it |
| HexText.HexDigit | src/fakedata_module.c:47 | `%X` prints an upper-case digit that reads back as its value |
| HexText.Hex | src/fakedata_module.c:45-48 | the text is twice as long as the bytes and made only of hex digits |
| HexText.FromHexOfHex | scripts/test_ble_log_decoding.py:45 | `bytes.fromhex` reads back what `%02X` printed |
| HexText.RemoveHyphens | scripts/test_ble_log_decoding.py:42-45 | removing the hyphens from a logger's payload leaves the plain hex text |
| BinaryDecoder.RecordsLength | scripts/binarydecoder.py:18-26 | one record per whole 36 bytes |
| BinaryDecoder.RecordsAt | scripts/binarydecoder.py:19-30 | the k-th record is decoded from the k-th 36-byte slice |
| BinaryDecoder.RecordsOfEncodeAll | scripts/binarydecoder.py:18-36 | a file of record images plus a partial tail reads back as exactly those records, in order |
| BinaryDecoder.EncodeAllOfRecords | scripts/binarydecoder.py:18-36 | the records read re-encode to the file minus its partial tail |
| BinaryDecoder.RecordsAppend | scripts/process_neural_data2.py:79-87 | a stream cut at a record boundary reads as the records of its two parts |
| BinaryDecoder.Row | scripts/binarydecoder.py:33 | a row is the timestamp, then the sixteen unsigned channels |
| BinaryDecoder.Header | scripts/binarydecoder.py:14-15 | the header is `timestamp`, `ch1` .. `ch16` |
| BinaryDecoder.DecodeBinaryFile | scripts/binarydecoder.py:9-36 | the header, then one row per whole record, in file order; a warning exactly when a partial record remains |
| LogTime.DaysInMonth | scripts/test_ble_log_decoding.py:39 | the month lengths strptime checks the day against |
| LogTime.Padded | scripts/test_ble_log_decoding.py:31 | a fixed-width zero-padded field reads back as its value |
| LogTime.Format | scripts/test_ble_log_decoding.py:31 | a logger stamp is 24 characters |
| LogTime.StrptimeOfFormat | scripts/test_ble_log_decoding.py:39 | strptime reads back every printed stamp |
| LogTime.FormatOfStrptime | scripts/test_ble_log_decoding.py:31-39 | every stamp strptime accepts is the printed form of what it read |
| LogTime.OrdinalOrder | scripts/plot_attribute_deviation.py:96 | dates in datetime's order have increasing ordinals |
| LogTime.MicrosOrder | scripts/plot_attribute_deviation.py:84-96 | comparing microsecond values is comparing datetimes, both ways |
| BleLog.LastMarker | scripts/test_ble_log_decoding.py:31 | the greedy `.*` settles on the last `handle: 0x12, value (0x): ` in the line |
| BleLog.Search | scripts/test_ble_log_decoding.py:34 | `re.search` takes the leftmost position where the pattern matches |
| BleLog.Match | scripts/test_ble_log_decoding.py:31-36 | a match starts at a well-formed stamp; the payload is the rest of the line |
| BleLog.SignedRow | scripts/test_ble_log_decoding.py:53-62 | a row is the raw millisecond timestamp, then the sixteen signed channels |
| BleLog.Outcome | scripts/test_ble_log_decoding.py:33-63 | each line gives at most one row of 17 values |
| BleLog.GatherRaised | scripts/test_ble_log_decoding.py:70-72 | once a line raises, the whole file fails |
| BleLog.DecodeBleLog | scripts/test_ble_log_decoding.py:12-72 | the per-line loop gives the rows in line order or stops at the first exception. The test script skips lengths other than 36 and re-raises. process_neural_data.py skips shorter payloads and fails the file on longer ones. process_neural_data2.py skips lengths other than 36. Both process scripts write a failed CSV when no rows were found |
| BleLog.LoggerLines | scripts/test_ble_log_decoding.py:31 | the logger's lines for a run of records, one per record |
| BleLog.RecordRow | scripts/test_ble_log_decoding.py:62 | the row a record is meant to give |
| BleLog.MatchOfLoggerLine | scripts/test_ble_log_decoding.py:31-45 | the pattern finds a logger line's stamp and its whole hyphenated payload |
| BleLog.OutcomeOfLoggerLine | scripts/test_ble_log_decoding.py:33-63 | every version reads a logger line back as its record's row |
| BleLog.GatherLoggerLines | scripts/test_ble_log_decoding.py:33-66 | a log of logger lines gives one row per record, in order |
| BleLog.DecodingOfLoggerLines | scripts/process_neural_data2.py:164-223 | every version writes back the records of a logger's log; an empty log gives a failed CSV in the process scripts |
| SegmentOrder.DigitRun | scripts/process_neural_data2.py:72 | `\d+` starts from the longest run of digits |
| SegmentOrder.GroupLength | scripts/process_neural_data2.py:72 | the group backtracks to the longest run still followed by one character and `bin` |
| SegmentOrder.SortKeyOfSegmentName | scripts/process_neural_data2.py:70-73 | the key of the writer's `.../data_<n>.bin` is n |
| SegmentOrder.InsertByKey | scripts/process_neural_data2.py:70-73 | insertion adds exactly one path |
| SegmentOrder.SortByKey | scripts/process_neural_data2.py:70-73 | the sort is a permutation of the paths |
| SegmentOrder.SortByKeySorted | scripts/process_neural_data2.py:70-73 | the result is ordered by key |
| SegmentOrder.SortByKeyStable | scripts/process_neural_data.py:49-52 | the sort is stable: paths with equal keys keep their order |
| SegmentOrder.SortedIsKeyOrder | scripts/process_neural_data2.py:70-73 | a key-sorted permutation of paths whose k-th has key k is exactly that list: the sort has only one answer when no two keys are equal |
| SegmentOrder.SortSegmentPaths | scripts/process_neural_data.py:49-52 | however glob lists a folder's `data_0.bin` .. `data_<n-1>.bin`, sorting by key gives them in counter order |
| SessionDecode.SessionRecordsOfBatches | scripts/process_neural_data.py:56-71 | files holding the images of record batches read back, file after file, as the batches' records |
| SessionDecode.DecodedV1OfSession | scripts/process_neural_data.py:39-95 | end to end: a folder of the writer's segment files, each holding one batch's images, decodes in v1, in any listing order, to one row per record of all batches in counter order; with no records, to the failed CSV |
| SessionDecode.SignedChannels | scripts/process_neural_data.py:62 | `<16h` of a record: sixteen signed channels |
| SessionDecode.RowV1 | scripts/process_neural_data.py:62-70 | a v1 row is the raw timestamp, then the signed channels |
| SessionDecode.AppendFileV1 | scripts/process_neural_data.py:56-71 | a file's records, read 36 bytes at a time until a short read, are appended as rows in order |
| SessionDecode.DecodeBinaryFilesV1 | scripts/process_neural_data.py:39-95 | the files in key order, each record a row; a failed CSV when a file cannot be read or no record was found |
| SessionDecode.Tick | scripts/process_neural_data2.py:92-98 | each record's total is its raw timestamp plus the current base |
| SessionDecode.Unwrapped | scripts/process_neural_data2.py:75-98 | one total per record; the last one is the clock's |
| SessionDecode.UnwrappedFirst | scripts/process_neural_data2.py:75-98 | the first record keeps its raw timestamp |
| SessionDecode.UnwrappedMonotone | scripts/process_neural_data2.py:93-98 | unwrapped totals never decrease across a session |
| SessionDecode.UnwrapWithoutReset | scripts/process_neural_data2.py:93-98 | without a reset, the totals are the raw timestamps |
| SessionDecode.UnwrapAsWrittenDrifts | scripts/process_neural_data2.py:93-98 | as written, raw 100, 50, 60 become 100, 150, 310 |
| SessionDecode.UnwrappedFixedStep | scripts/process_neural_data2.py:93-98 | corrected: totals advance by the raw difference, or by the new raw value after a reset, and never decrease |
| SessionDecode.UnwrapFixedExample | scripts/process_neural_data2.py:93-98 | corrected: raw 100, 50, 60 become 100, 150, 160 |
| SessionDecode.UnwrapFixedWithoutReset | scripts/process_neural_data2.py:93-98 | corrected: without a reset, the totals are the raw timestamps |
| SessionDecode.RowsV2At | scripts/process_neural_data2.py:92-103 | row i of v2 is the i-th unwrapped total and record i's channels |
| SessionDecode.AppendFileV2 | scripts/process_neural_data2.py:81-104 | a file's records are appended as v2 rows, the clock carried across files |
| SessionDecode.DecodeBinaryFilesV2 | scripts/process_neural_data2.py:60-115 | the files in key order, rows with unwrapped totals; a failed CSV when a file cannot be read or no record was found |
| SessionDecode.DecodedV2Monotone | scripts/process_neural_data2.py:93-98 | v2's time column never decreases |
| AttributeLog.OccursFrom | scripts/plot_attribute_deviation.py:62 | the text occurs somewhere from the given position on |
| AttributeLog.LineEvent | scripts/plot_attribute_deviation.py:67-75 | a line gives at most one event |
| AttributeLog.Within | scripts/plot_attribute_deviation.py:94-97 | the times in [lo, hi], in order |
| AttributeLog.WithinAppend | scripts/plot_attribute_deviation.py:94-97 | selection preserves order: the selection of a concatenation is the concatenation of the selections |
| AttributeLog.SnippetInsideLog | scripts/plot_attribute_deviation.py:91-92 | the window lies between the first and the last event |
| AttributeLog.SnippetSelects | scripts/plot_attribute_deviation.py:86-97 | the snippet holds only events, and every event inside the window |
| AttributeLog.CollectEvents | scripts/plot_attribute_deviation.py:62-75 | the matching lines' times in file order; a stamp strptime refuses is skipped |
| AttributeLog.SelectWindow | scripts/plot_attribute_deviation.py:94-97 | the loop keeps exactly the events in the window, in order |
| AttributeLog.ParseLogFile | scripts/plot_attribute_deviation.py:46-105 | a missing file or no events gives []; a span of at most d seconds gives all events; otherwise the events in the d-second window centred on the span |
| Analysis.PacketLoss | scripts/process_neural_data2.py:440-465 | max(0, expected - rows) for a table; `expected` for a missing file, an unreadable one or one without a timestamp column |
| Analysis.PacketLossMonotone | scripts/process_neural_data.py:353-378 | more rows never mean more loss, and a failed CSV loses everything |
| Analysis.HighestStable | scripts/process_neural_data2.py:480-482 | the largest frequency with loss within the threshold, or None exactly when there is none |
| Analysis.Stability | scripts/process_neural_data.py:380-402 | one answer per configuration |
| Analysis.HighestStableMonotone | scripts/process_neural_data2.py:480-482 | allowing more loss never lowers the highest stable frequency |
| Analysis.RaisedThreshold | scripts/process_neural_data2.py:18 | raising the threshold from the default 10 of process_neural_data.py to 100 keeps every stable configuration stable and never lowers its highest stable frequency |
| Analysis.Replace | scripts/process_neural_data2.py:375 | after replacing a character with text that lacks it, the character is gone |
| Analysis.SanitisedByChar | scripts/process_neural_data2.py:375 | a sanitised name holds no blank, parenthesis or `+` |
| Analysis.SanitisedIsByChar | scripts/process_neural_data2.py:375 | the four chained replacements act character by character |
| Analysis.SanitisedAppend | scripts/process_neural_data2.py:375 | sanitising a concatenation sanitises each part |
| Analysis.OutputNameFrequency | scripts/process_neural_data2.py:376 | the frequency reads back from the front of `<freq>_<sanitised>.csv` |
| Analysis.SanitisedWord | scripts/process_neural_data2.py:375 | a word without blank, parenthesis or `+` is unchanged |
| Analysis.SanitisedCombined | scripts/process_neural_data.py:691-696 | `A+B (C) D` becomes `AplusB_C_D`, e.g. `BLEplusSD_Intan_SD` |
| Analysis.SanitisedSingle | scripts/process_neural_data.py:691-696 | `A (C)` becomes `A_C`, e.g. `BLE_Intan` |
| Analysis.CountPartition | scripts/process_neural_data2.py:377-405 | every entry increments exactly one of the three counters |
| Analysis.ProcessEntry | scripts/process_neural_data2.py:377-405 | a failed case first; then a missing path, a directory, a file, or anything else; an exception is an unexpected failure |
| Analysis.ProcessFrequency | scripts/process_neural_data2.py:372-405 | one frequency's counts and output names |
| Analysis.ProcessFiles | scripts/process_neural_data.py:277-324 | the totals; each counter counts its outcome; the three sum to the total; every entry's output name, in order |
| Analysis.AllAppended | scripts/plot_attribute_deviation.py:170-202 | with no entry a failed case, every entry is appended once, in order, with its output name |
| Analysis.ProcessLogEntry | scripts/plot_attribute_deviation.py:181-199 | a missing or non-file path gives a failed CSV; a file gives its snippet's times, or a failed CSV when there are none |
| Analysis.ProcessAttributeFrequency | scripts/plot_attribute_deviation.py:171-202 | one frequency's appended entries and CSVs |
| Analysis.ProcessAttributeFiles | scripts/plot_attribute_deviation.py:107-213 | `processed_files` is the non-failed entries in mapping order; each entry's CSV is its failed CSV or its snippet |
| Analysis.EntriesLength | scripts/plot_attribute_deviation.py:205 | with n configurations per frequency there are n entries per frequency |
| Analysis.AttributeAllProcessed | scripts/plot_attribute_deviation.py:119-202 | no failed case's frequency (1500, 2000, 2500) is in the mapping (at most 1200), so all 24 entries are appended |

## Specification functions

The functions below carry no contract of their own. Each one states what
the cited source computes, and the Model rows of the members proved
against it cover it.

| function | source | covered by |
|---|---|---|
| NeuralRecord.Decode | scripts/binarydecoder.py:29-30 | NeuralRecord.DecodeEncode, NeuralRecord.EncodeDecode |
| SegmentOrder.KeyFrom | scripts/process_neural_data2.py:72 | SegmentOrder.DigitRun, SegmentOrder.GroupLength, SegmentOrder.SortKeyOfSegmentName |
| SegmentOrder.SortKey | scripts/process_neural_data2.py:72 | SegmentOrder.SortKeyOfSegmentName, SegmentOrder.SortByKeySorted, SegmentOrder.SortByKeyStable |
| LogTime.Strptime | scripts/test_ble_log_decoding.py:39 | LogTime.StrptimeOfFormat, LogTime.FormatOfStrptime, LogTime.DaysInMonth |
| SdCard.SegmentName | src/sd_card.c:631 | SdCard.SegmentNamesDiffer, SdCard.Writer.Step, SdCard.Writer.FlushBatch |
| Analysis.Sanitised | scripts/process_neural_data2.py:375 | Analysis.SanitisedByChar, Analysis.SanitisedIsByChar, Analysis.SanitisedAppend, Analysis.SanitisedWord, Analysis.SanitisedCombined, Analysis.SanitisedSingle |
| Analysis.OutputName | scripts/process_neural_data2.py:376 | Analysis.OutputNameFrequency, Analysis.ProcessFiles |
| Analysis.EntryOutcome | scripts/process_neural_data2.py:377-405 | Analysis.ProcessEntry, Analysis.CountPartition, Analysis.ProcessFiles |
| AttributeLog.Events | scripts/plot_attribute_deviation.py:62-75 | AttributeLog.LineEvent, AttributeLog.CollectEvents, AttributeLog.ParseLogFile |
| AttributeLog.Snippet | scripts/plot_attribute_deviation.py:86-97 | AttributeLog.SnippetInsideLog, AttributeLog.SnippetSelects, AttributeLog.ParseLogFile |
| SessionDecode.DecodedV1 | scripts/process_neural_data.py:39-95 | SessionDecode.DecodeBinaryFilesV1, SessionDecode.AppendFileV1, SessionDecode.DecodedV1OfSession |
| SessionDecode.DecodedV2 | scripts/process_neural_data2.py:60-115 | SessionDecode.DecodeBinaryFilesV2, SessionDecode.DecodedV2Monotone, SessionDecode.RowsV2At |
| SessionDecode.UnwrappedFixed | scripts/process_neural_data2.py:93-98 | SessionDecode.UnwrappedFixedStep, SessionDecode.UnwrapFixedExample, SessionDecode.UnwrapFixedWithoutReset |

## Left out

- Concurrency and the kernel: threads, sleeps, timers, work queues and mutex blocking. The model is sequential. A semaphore is a 0/1 count, and a timed take succeeds exactly when the count is 1.
- The SD card, FAT and disk drivers, and every `fs_*` call. Each call's result is an input, and the card's files are a map from path to bytes.
- `sd_card_init` before the root scan: the device, disk-access, mount and statvfs calls. They are one input, the first failing result.
- `sd_card_write`, called by the old writer: it is declared but defined nowhere in the repository. Its result is ignored by the caller and is not modelled.
- The whole BLE stack, GATT notifications and the device-status gate. src/neuralbs.c is not part of this model.
- The hand-off of the fake-data hex text into `write_to_fifo_buffer`: it passes text where records are expected.
- FakeData.HexEncode: `neural_data_t` is declared in no header, so the sample's byte image is an input. A `char` is taken to be unsigned, as on the ARM target.
- FakeData.Generator.Generate: the short-write log line and the sleep are left out.
- MainSample.Sample.Update: the channel layout `channels[i].data[j]` is declared in no header. The bytes per channel are a parameter, and each byte is a `uint8_t`.
- All floating-point work: ADC scaling by 0.195, seconds columns, throughput, efficiency, average intervals and `expected_packets`.
- BleLog.SignedRow: the channels are the raw signed values, without the 0.195 scaling.
- SessionDecode.RowV1: the timestamp stays in raw milliseconds, not seconds.
- SessionDecode.DecodeBinaryFilesV2: the rows are those before the seconds-based snippet. The snippet's own failure paths are left out: an empty snippet, and a non-positive duration.
- SessionDecode.DecodeBinaryFilesV1: the rows are those before its seconds-based snippet.
- BleLog.DecodeBleLog: the process scripts' seconds-based snippet after the loop is left out, and so is logging. The test script's `datetime` parse is modelled only for its ValueError; the parsed value, which the script discards, is not kept.
- AttributeLog.ParseLogFile: times are exact integer microseconds. The script's window arithmetic goes through float seconds and `timedelta` rounding, which the model takes to be exact. Inputs are whole milliseconds.
- Regular expressions are modelled only for the patterns the scripts use. `\d` is taken as ASCII digits, where Python's `\d` also accepts other Unicode digits.
- SdCard.Card.Open: the long-file-name limit is the build setting CONFIG_FS_FATFS_MAX_LFN, so the card takes it as a constructor parameter. With the FAT default of 255, `/SD:/` plus a name within the limit is at most 260 characters, and the -EINVAL test cannot fire.
- SdCard.Card.ListFiles and SdCard.Card.OpenReadClose: with a long-file-name limit above 255, the source's `strcat` into its 261-byte path buffer could overflow. The model joins the path as text and does not capture that overflow.
- C `atoi` overflow on very long digit strings is not modelled; the value is unbounded.
- Analysis.PacketLoss: every `read_csv` failure other than a missing file is one value, `ReadError`. Both give `expected`.
- Analysis.Stability: the try/except and the logging around the loop are left out.
- Analysis.ProcessFiles: `os.path.exists`, `isdir` and `isfile` are one input keyed by file name. Whether a decoder raises is another. Output paths are the bare names, without `os.path.join`. The 54-entry v1/v2 mapping is not written out: the counters are proved for every mapping.
- All plotting, pandas and CSV formatting, logging, argument parsing, `multiprocessing`, and scripts/large_plotter.py, scripts/plot_neural_data.py and scripts/poweranalyser.
- inc/fifo_buffer.h declares `get_fifo_fill_percentage`, which no file defines. It is not modelled.

## Findings

| source | as written | input that shows it | evidently intended | confidence | as-written member | corrected member |
|---|---|---|---|---|---|---|
| _oldsrc/sd_card_.c:7,29-33 | a 4096-byte buffer is flushed only once the index reaches 4096, after the copy | 114 records in a row: after 113 the index is 4068, and the 114th copy writes bytes 4068..4103, 8 past the end | flush before a record would not fit, so every copy stays inside the buffer | not executed | OldSdWriter.OverflowAfter113Records | OldSdWriter.ByteWriter.Accept |
| scripts/process_neural_data2.py:93-98 | a reset is detected by comparing the raw timestamp with the previous unwrapped total, and the base grows by that total | raw timestamps 100, 50, 60 give totals 100, 150, 310 | compare with the previous raw timestamp and grow the base by it only at a reset: totals 100, 150, 160 | not executed | SessionDecode.UnwrapAsWrittenDrifts | SessionDecode.UnwrappedFixedStep |

The old writer's loop is modelled twice:

- `OldSdWriter.ByteWriter.StepAsWritten` is the code as written. Its copy needs room that the index 4068 does not give.
- `OldSdWriter.ByteWriter.Step` and `Accept` are the corrected writer. They flush when another record would not fit and keep every copy in bounds.

`SessionDecode.DecodeBinaryFilesV2` follows the script as written, because its output is what the script produces. The corrected unwrap, `SessionDecode.UnwrappedFixed`, is proved monotone and exact: a single reset costs nothing, and without a reset the totals are the raw values.
