# LoRa gateway and device: a verified model

The repository joins a LoRa gateway (concentrator driver, JSON configuration, IPv6 over
SCHC) to a LoRaWAN end device (the LMIC stack). This project models its six hardest parts
and proves what each is for. `dafny verify dfyconfig.toml` checks all of it.

Most parts come as a pair: functions on values that say what the code computes, with the
theorems about them, and methods in the code's own form (cursors, moving pointers, arrays,
linked nodes, in-place fields) that are proved to compute just that.

**JSON library** (`JsonText`, `JsonReader`, `JsonRoundTrip`, `JsonExact`, `JsonParser`,
`JsonWriter`, `JsonSlots`, `JsonStore`, `JsonDotPath`). Printer and recursive-descent parser
of `parson.c`, compact and pretty. The main result says exactly which values survive
printing and parsing. The parser on a shared cursor and the two-pass printer into a buffer
are proved against it; objects kept as parallel growable arrays are maps under add, set,
remove and dotted paths. strtod and printf("%f") are a parameter of type `Libc`;
`ReadsDecimals` is what the C standard says of strtod on decimal integers.

**Two os_aes drivers** (`AesSpec`, `AesSteps`, `AesOther`, `AesLmic`, `AesAgreement`). The
block cipher is any function on 16-byte blocks. AES-CMAC is written from sections 2.3 and
2.4 of RFC 4493, and the byte-wise driver and the flag-and-goto loop on words both meet it.
They return the same codes, and the same counter-mode data under every block cipher exactly
while the last counter byte does not overflow.

**Jobs and ticks** (`Ticks`, `Scheduling`, `Scheduler`, `HalTicks`). Linked job queues edited
through pointers to pointers refine two sequences; over every sequence of calls each
scheduling runs at most once, never early, in order. The 32-bit tick count rebuilt from an
overflowing microsecond counter is right exactly when it is read often enough.

**LMIC MAC engine** (`Airtime`, `DownCounter`, `Channels`, `MacMachine`, `MacDuty`,
`MacConfirmed`, `MacCompletion`, `MacHandover`, `MacWords`, `MacEngine`, `MacFollows`). The
class A engine as a state machine over operation mode, bands, counters and retries, driven by
timers, received frames, the application and random numbers; its times are unbounded, its
comparisons the signed 32-bit differences of the code. Duty cycle is proved over whole runs,
bounded retransmission and the number of completions from the moment data is handed over,
channel search with the exact condition under which it ends, airtime with its exact error,
downlink counters over whole sessions. `MacEngine` is the LMIC structure itself, with opmode a
word of bits, 32-bit times and 8-bit counts: each of its functions takes the machine's step,
times modulo 2^32, and `MacFollows` carries that to whole runs, down to the duty cycle of the
frames on the air.

**Register file of the concentrator** (`RegisterTable`, `RegisterBits`, `Registers`,
`RegisterDriver`). All 326 named registers, bit fields and multi-byte registers, sign
extension, and the cached page selector. Named registers are variables over any run of reads
and writes. SPI is a byte memory whose transfers succeed.

**Checksum, SCHC, flow table** (`Checksum`, `Schc`, `SchcCodec`, `FlowTable`). Byte-order
independence of the Internet checksum, the ICMPv6 checksum, compression and decompression as
inverses under an exact condition, and the doubly linked flow table as a map. Characters are
unsigned bytes, as on the Raspberry Pi this part targets.

## Where the code falls short of its purpose

The model keeps the code as it is; these are consequences that the lemmas state.

- An object whose arrays the parser trimmed (`JsonParser.Cursor.CloseObject`) takes no further
  member once it has more than 480, although the maximum is 960 (`JsonSlots.TrimmedAdds`).
- The printer writes most control characters raw and the parser refuses them
  (`JsonExact.QuotedFails`). Where the opening quote of a name should stand the parser takes
  any character but white space and, for a first name, the closing brace
  (`JsonExact.AnyFirstName`, `JsonExact.SameMembers`).
- The two AES drivers count differently: one byte against one word (`AesAgreement.CountersPart`).
  The loop of `aes/lmic.c` does nothing for lengths 128 to 255, and beyond that serves a part of
  the data and returns a chaining value for a MAC (`AesLmic.Driver.OsAes`). In `aes/other.c` the
  codebook loop has a one-byte index, so it never ends above length 240
  (`AesOther.EcbEndlessExactly`); below, it encrypts a partial last block together with what
  lies behind it (`AesOther.Driver.OsAes`). The code of an empty buffer is not a MAC
  (`AesOther.Driver.OsAesCmac`).
- `nextTx` may never return: a device with the default channels, idle for 1.6 hours, hangs in
  it (`Channels.IdleDeviceStalls`; the exact condition is `Channels.StallsExactly`). With
  its channels in band 0 such a device waits eight hours (`Channels.IdleDeviceWaits`; in general
  `Channels.EightHoursWait`).
- The computed airtime is a little too long, never too short, whenever the shift is above four
  (`Airtime.ExactPrecisely`).
- The replay branch of `decodeFrame` cannot be reached, although its comment says that repeated
  confirmed frames are accepted (`DownCounter.AcceptedExactly`). After number 0xFFFFFFFF the
  counter is 0 again (`DownCounter.NumbersIncreaseExactly`), and one frame can jump over the
  zone in which the engine resets itself (`DownCounter.ResetZoneJumped`).
- A confirmed uplink can be reported complete twice: a completion leaves the retry count, so the
  poll that answers a confirmed frame, or asks for more, completes again
  (`MacCompletion.CompletedTwice`; exactly when is `MacCompletion.OnceExactly`).
- Data too long to go beside the pending options, or handed over while another transaction is
  pending, is dropped without going out (`MacHandover.DataSentExactly`).
- `checksum_icmpv6` uses the low byte of the payload length only, so it is right exactly below
  256 (`Checksum.CollectedExactly`).
- `TX_TRIG_ALL` names the same bits as three other triggers, and PAGE_REG changes its value
  whenever a paged register is used (`Registers.RegistersApart`, `Registers.ReadIsLookup`).

## Model

| member | source | states |
|---|---|---|
| `JsonExact.RoundTripExactly` | `LoRaGateway/util_pkt_logger/src/parson.c:495-878` | for every array or object of 32-bit integers, strings, booleans and nulls, compact or pretty: parsing the printed text gives the value back if and only if it is at most 19 levels deep, names are distinct, no object has more than 960 members and no array more than 122880 items, and strings hold no control character that has no escape letter |
| `JsonRoundTrip.RoundTrip` | `LoRaGateway/util_pkt_logger/src/parson.c:555-878` | the sufficient half as a theorem of its own: a printable array or object survives printing and parsing, given that strtod reads decimal integers |
| `JsonRoundTrip.ParsePrinted` | `LoRaGateway/util_pkt_logger/src/parson.c:555-664` | at any nesting, level of indentation and following text, reading a printed value gives the value and leaves exactly the text that followed it |
| `JsonRoundTrip.QuotedRoundTrip` | `LoRaGateway/util_pkt_logger/src/parson.c:438-553` | a printed string read at the cursor gives the same bytes back and stops right behind its closing quote |
| `JsonExact.UnprintableValue` | `LoRaGateway/util_pkt_logger/src/parson.c:555-664` | a value that is not printable is refused wherever it stands in a text |
| `JsonExact.QuotedFails` | `LoRaGateway/util_pkt_logger/src/parson.c:495-553` | a string with a raw control character is refused after printing, because the printer does not escape it |
| `JsonExact.AnyFirstName` | `LoRaGateway/util_pkt_logger/src/parson.c:438-451` | an object reads the same whatever character, not white space and not a closing brace, stands where the opening quote of its first name should; the same of every later name (SameMembers) |
| `JsonParser.ParseJson` | `LoRaGateway/util_pkt_logger/src/parson.c:904-911` | the cursor parser, with its in-place objects and arrays, reads exactly what the parser on unread text reads, for every text |
| `JsonParser.Cursor.ParseAnyValue` | `LoRaGateway/util_pkt_logger/src/parson.c:555-577` | value and rest of the text as the recursive specification gives them; refuses beyond nesting 19; ends |
| `JsonParser.Cursor.ParseObjectValue` | `LoRaGateway/util_pkt_logger/src/parson.c:579-626` | the loop over pairs builds, in growable arrays, the members the specification reads, and trims them; a repeated name or a member beyond 960 fails |
| `JsonParser.Cursor.ParseArrayValue` | `LoRaGateway/util_pkt_logger/src/parson.c:628-664` | the loop over items builds the array the specification reads; an item beyond 122880 fails |
| `JsonParser.Cursor.CloseObject` | `LoRaGateway/util_pkt_logger/src/parson.c:615-625` | behind the closing brace the members read are the value, and the object is left with its arrays trimmed to them |
| `JsonParser.Cursor.SkipQuotes` | `LoRaGateway/util_pkt_logger/src/parson.c:438-451` | the cursor stops right behind the first quote that no backslash escapes, or at the end of the text |
| `JsonParser.Cursor.GetQuotedString` | `LoRaGateway/util_pkt_logger/src/parson.c:545-553` | the bytes between the quotes, escapes replaced, cut at the first NUL that an escape wrote |
| `JsonParser.ProcessStringAt` | `LoRaGateway/util_pkt_logger/src/parson.c:495-541` | the output pointer never passes the len + 1 bytes allocated, and the bytes written are those the string denotes, or none if an escape is bad |
| `JsonParser.ParseUtf16At` | `LoRaGateway/util_pkt_logger/src/parson.c:453-490` | the UTF-8 bytes of the escape, surrogate pairs combined, and how far both pointers have moved |
| `JsonParser.StaysInside` | `LoRaGateway/util_pkt_logger/src/parson.c:495-541` | reading a character or a two-character escape never steps over the closing quote |
| `JsonParser.Utf16Inside` | `LoRaGateway/util_pkt_logger/src/parson.c:453-490` | a \\u escape ends before the closing quote and writes fewer bytes than it spans, so that the output cannot overrun |
| `JsonParser.AddMember` | `LoRaGateway/util_pkt_logger/src/parson.c:301-322` | on an object built by additions alone the addition fails exactly for a name already there or at 960 members, which needs every capacity reached to be a doubling that hits the maximum |
| `JsonWriter.Serialize` | `LoRaGateway/util_pkt_logger/src/parson.c:725-833` | the measuring pass and the writing pass return the same count, the length of the printed text; the writing pass leaves that text and a terminator and changes no other byte |
| `JsonWriter.SerializeString` | `LoRaGateway/util_pkt_logger/src/parson.c:835-862` | the same for one quoted string, escapes included |
| `JsonWriter.AppendIndent` | `LoRaGateway/util_pkt_logger/src/parson.c:864-871` | the same for the indentation, written four blanks at a time |
| `JsonWriter.SerializationSize` | `LoRaGateway/util_pkt_logger/src/parson.c:1214-1219` | one more than the number of characters the writing pass puts down |
| `JsonWriter.SerializeToBuffer` | `LoRaGateway/util_pkt_logger/src/parson.c:1220-1231` | succeeds exactly if text and terminator fit the size given; then the buffer is text, terminator and the old bytes; otherwise nothing is touched |
| `JsonWriter.SerializeToString` | `LoRaGateway/util_pkt_logger/src/parson.c:1252-1268` | the buffer is filled to its last byte by the text and the terminator |
| `JsonWriter.WroteBoth` | `LoRaGateway/util_pkt_logger/src/parson.c:725-833` | two pieces written one behind the other have written their concatenation, which is what makes the passes compose |
| `JsonSlots.AddExtends` | `LoRaGateway/util_pkt_logger/src/parson.c:301-322` | adding succeeds exactly for a name not in the map when there is room, and then extends the map by it; otherwise the map is unchanged |
| `JsonSlots.TrimmedAdds` | `LoRaGateway/util_pkt_logger/src/parson.c:301-322` | an object whose arrays were trimmed to its members takes another if and only if the name is new and it has at most 480 |
| `JsonSlots.SetUpdates` | `LoRaGateway/util_pkt_logger/src/parson.c:1462-1479` | setting succeeds exactly for a known name or when there is room, and then updates the map |
| `JsonSlots.RemoveDeletes` | `LoRaGateway/util_pkt_logger/src/parson.c:1572-1590` | removing, which moves the last pair into the gap, succeeds exactly for a known name and deletes it and nothing else |
| `JsonSlots.GetIsLookup` | `LoRaGateway/util_pkt_logger/src/parson.c:356-366` | the linear search is the look-up in the map |
| `JsonStore.JsonObject.Resize` | `LoRaGateway/util_pkt_logger/src/parson.c:324-354` | the pairs survive the move to new arrays; only size 0 is refused |
| `JsonStore.JsonObject.Add` | `LoRaGateway/util_pkt_logger/src/parson.c:301-322` | the parallel arrays in place: new state and result as the specification on slots has them |
| `JsonStore.JsonObject.Set` | `LoRaGateway/util_pkt_logger/src/parson.c:1462-1479` | the value overwritten where it stands, or a pair added |
| `JsonStore.JsonObject.Remove` | `LoRaGateway/util_pkt_logger/src/parson.c:1572-1590` | the last pair moved over the removed one, in place |
| `JsonStore.JsonArray.Add` | `LoRaGateway/util_pkt_logger/src/parson.c:389-400` | the item goes behind the others; fails exactly when full at a capacity whose double passes the maximum |
| `JsonStore.JsonArray.Resize` | `LoRaGateway/util_pkt_logger/src/parson.c:402-418` | the items survive the move; only size 0 is refused |
| `JsonDotPath.GetAfterSet` | `LoRaGateway/util_pkt_logger/src/parson.c:961-967` | after a successful dotset, dotget of the same path finds the value stored, at any depth |
| `JsonDotPath.SetKeepsOthers` | `LoRaGateway/util_pkt_logger/src/parson.c:1497-1526` | a dotset, successful or not, changes no look-up of a path that is neither a component prefix of it nor the other way round |
| `JsonDotPath.SetSucceeds` | `LoRaGateway/util_pkt_logger/src/parson.c:1497-1526` | a dotset succeeds if and only if no component but the last names something that is not an object and the one object that gets a new pair has room |
| `JsonDotPath.FailedSetKeepsAll` | `LoRaGateway/util_pkt_logger/src/parson.c:1497-1526` | a failed dotset leaves the tree as it was, at every depth, but for the capacities of its arrays, and so every dotted look-up |
| `AesSpec.ShiftLeftDoubles` | `end-device/src/aes/other.c:42-51` | shifting a byte string of any length left by one bit doubles its big-endian number modulo 2^(8 len) |
| `AesSpec.DoubleOfWords` | `end-device/src/aes/lmic.c:232-368` | doubling on four words, carries handed on and 0x87 folded in, is the doubling of section 2.3 of RFC 4493 on sixteen bytes |
| `AesOther.ShiftLeftInPlace` | `end-device/src/aes/other.c:42-51` | the pointer loop leaves the shifted string, for every length |
| `AesOther.Driver.FinalKey` | `end-device/src/aes/other.c:76-101` | K1 for a whole last block and K2 for a padded one, both as in section 2.3 of RFC 4493 |
| `AesOther.Driver.MacBlock` | `end-device/src/aes/other.c:62-104` | one block absorbed into the AUX block, the last one padded and with its subkey |
| `AesOther.Driver.OsAesCmac` | `end-device/src/aes/other.c:56-105` | AUX ends as the AES-CMAC (section 2.4 of RFC 4493) of the message, or of AUX followed by it, for every non-empty buffer; of an empty buffer it is the first chaining value instead |
| `AesOther.Driver.OsAesCtr` | `end-device/src/aes/other.c:110-124` | the buffer is counter mode with a counter of one byte; AUX is the counter block after the last one used |
| `AesOther.Driver.OsAes` | `end-device/src/aes/other.c:126-143` | the MAC word, or the buffer encrypted and 0, by mode; nothing beyond the length changes, except that codebook mode encrypts a partial last block together with the bytes behind it |
| `AesOther.EcbEndlessExactly` | `end-device/src/aes/other.c:132-137` | the one-byte index of the codebook loop stays below the length for ever if and only if the length is above 240 |
| `AesLmic.Driver.Subkey` | `end-device/src/aes/lmic.c:232-368` | the register loop gives the once or twice doubled block |
| `AesLmic.Driver.LoadData` | `end-device/src/aes/lmic.c:232-368` | the shift-register loop loads up to sixteen bytes as four words with the padding bit behind them |
| `AesLmic.Driver.XorStream` | `end-device/src/aes/lmic.c:232-368` | the payload loop combines exactly the next bytes with the key stream, high byte first, and no others |
| `AesLmic.Driver.Turn` | `end-device/src/aes/lmic.c:232-368` | one turn of the flag-driven loop, jump included: which flags, bytes and AUX words it leaves |
| `AesLmic.Driver.OsAes` | `end-device/src/aes/lmic.c:232-368` | the whole flag-and-goto loop for every two-byte length: up to 127 the MAC of section 2.4 of RFC 4493, counter mode with a counter of one word, or codebook mode with a partial last block padded; nothing for 0 and 128 to 255; beyond that only the blocks that the low byte of the length reaches into, and then a chaining value in place of the MAC |
| `AesLmic.LoopTurn` | `end-device/src/aes/lmic.c:232-368` | a turn carries the loop state of each mode on, and the flags and position always advance |
| `AesLmic.LoopEnd` | `end-device/src/aes/lmic.c:232-368` | when the signed length runs out the loop state is the finished MAC, the finished stream, or the input untouched |
| `AesAgreement.BothMics` | `end-device/src/aes/other.c:126-143` | for every cipher, key block, AUX block and buffer of 1 to 127 bytes both drivers return the same MAC word and leave the buffer alone |
| `AesAgreement.BothCtrs` | `end-device/src/aes/other.c:110-124` | in counter mode both drivers leave the same bytes while the last counter byte does not overflow |
| `AesAgreement.CtrAgreesExactly` | `end-device/src/aes/lmic.c:232-368` | the two ways of counting agree under every block cipher, that is every permutation of blocks, if and only if the last counter byte does not overflow on the way |
| `AesAgreement.DifferentCtr` | `end-device/src/aes/lmic.c:232-368` | otherwise the first byte of the block after the overflow differs, under any cipher that shows byte 14 of the counter there |
| `AesAgreement.CountersPart` | `end-device/src/aes/lmic.c:232-368` | the block after the overflow is where the counters part |
| `Scheduling.EachJobOnce` | `end-device/src/lmic/oslmic.c:31-109` | over every sequence of set, timed set, clear and poll, each job is in at most one queue, once |
| `Scheduling.PendingExactly` | `end-device/src/lmic/oslmic.c:31-109` | a scheduling is pending exactly if it has not run and no later call set or cleared its job: nothing is lost and nothing comes back |
| `Scheduling.RunsOnceOnTime` | `end-device/src/lmic/oslmic.c:92-109` | each scheduling runs at most once, with the job and callback asked for, and a timed one never before its deadline: in true time whenever the deadline is less than half the range ahead |
| `Scheduling.TimedInOrder` | `end-device/src/lmic/oslmic.c:64-83` | while deadlines met stay within half the range of each other the timer queue is sorted by true deadline, first come first served on ties |
| `Scheduling.EarliestDueRuns` | `end-device/src/lmic/oslmic.c:92-109` | with an empty run queue a poll runs a timed job exactly when one is due, and then the first of the due ones |
| `Scheduling.RunQueueFifo` | `end-device/src/lmic/oslmic.c:49-61` | jobs set to run at once do run in the order they were set, over any run |
| `Scheduler.Unlinkjob` | `end-device/src/lmic/oslmic.c:31-39` | the pointer walk takes the job out of a list it is in, reports whether it was, and leaves the other nodes linked in order |
| `Scheduler.AppendJob` | `end-device/src/lmic/oslmic.c:55-60` | the list, walked to its end, has the job behind all others |
| `Scheduler.InsertJob` | `end-device/src/lmic/oslmic.c:71-82` | the list has the job before the first one whose deadline is later by signed difference |
| `Scheduler.Os.ClearCallback` | `end-device/src/lmic/oslmic.c:42-46` | both linked queues hold what clearing leaves of the abstract ones, disjoint and acyclic |
| `Scheduler.Os.SetCallback` | `end-device/src/lmic/oslmic.c:49-61` | the linked queues hold the abstract queues after the call |
| `Scheduler.Os.SetTimedCallback` | `end-device/src/lmic/oslmic.c:64-83` | the linked queues hold the abstract queues after the call |
| `Scheduler.Os.RunloopOnce` | `end-device/src/lmic/oslmic.c:92-109` | the job taken and the queues left are those of the abstract poll; a timed job only when hal_checkTimer says so |
| `Ticks.OrderInWindow` | `end-device/src/hal/hal.cpp:159-179` | a signed 32-bit difference is the true difference inside a half-range window |
| `Ticks.OrderOutsideWindow` | `end-device/src/hal/hal.cpp:159-179` | beyond it the comparison gives the wrong answer |
| `HalTicks.CallRightExactly` | `end-device/src/hal/hal.cpp:112-155` | a call returns the true tick count if and only if at most one half period of the microsecond counter (modulo 32) has begun since the last call |
| `HalTicks.RunRight` | `end-device/src/hal/hal.cpp:112-155` | over any run from time 0 whose readings are less than 2^31 microseconds apart, every value returned is the true time divided by 16, modulo 2^32 |
| `HalTicks.GapTooLong` | `end-device/src/hal/hal.cpp:112-155` | a concrete run with a longer gap returns a wrong time |
| `HalTicks.Hal.Ticks` | `end-device/src/hal/hal.cpp:112-155` | the method on the static overflow byte returns the true ticks and keeps the invariant |
| `Airtime.CalcAirTime` | `end-device/src/lmic/lmic.c:281-317` | every local stays within its 8- or 32-bit type for all parameters and lengths, and the result is the specified number of ticks |
| `Airtime.ExactPrecisely` | `end-device/src/lmic/lmic.c:281-317` | the computed airtime equals the true one if and only if the modulation is FSK or sf - 5 - bw is at most 4 |
| `Airtime.NeverTooShort` | `end-device/src/lmic/lmic.c:281-317` | never below the true airtime, and above it by at most a factor 15625/15624 and one tick |
| `Airtime.SameSymbols` | `LoRaGateway/libloragw/src/loragw_hal.c:1738-1741` | with the CRC on, the payload symbols are those the gateway counts in lgw_time_on_air |
| `Airtime.BlocksAgree` | `end-device/src/lmic/lmic.c:281-317` | the integer quotients of the code count the symbols of the data sheet formula, taken with real division and ceiling |
| `DownCounter.LeastNotBelow` | `end-device/src/lmic/lmic.c:1068` | the rebuilt number is the least one from seqnoDn on with the sixteen bits received |
| `DownCounter.WrapRejected` | `end-device/src/lmic/lmic.c:1078-1085` | a rebuilt number below seqnoDn is one that passed 2^32, and then the roll-over check rejects it |
| `DownCounter.AcceptedExactly` | `end-device/src/lmic/lmic.c:1017-1111` | a frame is accepted if and only if it is authentic and its number stays below 2^32; the replay branch is never taken; a rejected frame leaves the session as it was |
| `DownCounter.FollowsExactly` | `end-device/src/lmic/lmic.c:1068-1108` | an accepted frame moves the counter to one of the next 65536 values, or from the last ones to 0, and every such move is the work of some sixteen bits received |
| `DownCounter.AcceptedFollows` | `end-device/src/lmic/lmic.c:1068-1108` | so does every frame accepted: none leaves the counter as it was |
| `DownCounter.PayloadInFrame` | `end-device/src/lmic/lmic.c:1306-1314` | the payload of an accepted frame lies between its options and its integrity code |
| `DownCounter.NumbersIncreaseExactly` | `end-device/src/lmic/lmic.c:1068-1108` | over any run of arriving frames the accepted numbers strictly increase if and only if no frame passes every check after one that stands for number 0xFFFFFFFF |
| `DownCounter.NoFrameTwice` | `end-device/src/lmic/lmic.c:1068-1108` | with an integrity code that binds the number, no frame is accepted twice |
| `DownCounter.ResetZoneJumped` | `end-device/src/lmic/lmic.c:2092-2103` | one authentic frame can take the counter past the zone the engine guards, to 0 |
| `DownCounter.Lmic.DecodeFrame` | `end-device/src/lmic/lmic.c:1017-1111` | the method on the counter fields does what the specification says, and on rejection touches none but dataLen |
| `Channels.NextTxRight` | `end-device/src/lmic/lmic.c:641-667` | the channel found is usable, the first one cyclically behind the last used of its band; the band is one the loop can come to, and the time is its own, or it is band 0 eight hours from now; which of found, none and endless it is, for all band times |
| `Channels.StallsExactly` | `end-device/src/lmic/lmic.c:641-667` | for all band times: the search never ends if and only if band 0 has no usable channel, no band that the loop can come to has one, and some other band cannot be come to |
| `Channels.EightHoursWait` | `end-device/src/lmic/lmic.c:641-667` | when only band 0 has a channel and the loop comes to no band that has one, the frame waits for eight hours, whatever the band time is |
| `Channels.IdleDeviceWaits` | `end-device/src/lmic/lmic.c:641-667` | a device with its channels in band 0, idle for 1.6 hours, is given a channel for eight hours from now |
| `Channels.EarliestFound` | `end-device/src/lmic/lmic.c:641-667` | with all band times in one half of the 32-bit circle, wherever it lies, no ready band is earlier than the one found |
| `Channels.NearEnds` | `end-device/src/lmic/lmic.c:641-667` | with every band less than half the range before the horizon the search ends, with the minimum time over the bands that have a usable channel |
| `Channels.ReadyIsFound` | `end-device/src/lmic/lmic.c:641-667` | one ready band is enough for the search to end with a usable channel, whatever the times of the others |
| `Channels.IdleDeviceStalls` | `end-device/src/lmic/lmic.c:641-667` | a device with the default channels that was idle for 1.6 hours never returns from the search |
| `Channels.NoChannelLatest` | `end-device/src/lmic/lmic.c:641-667` | a search in vain returns the latest time of all bands |
| `Channels.PickFindsFeasible` | `end-device/src/lmic/lmic.c:650-661` | the channel loop finds a channel if and only if the band has a usable one |
| `Channels.PickIsFirst` | `end-device/src/lmic/lmic.c:650-661` | and it is the first one met going round from the last used |
| `Channels.EveryChannelComes` | `end-device/src/lmic/lmic.c:650-661` | every usable channel of a band is chosen again within sixteen picks |
| `MacDuty.DutyCycleKept` | `end-device/src/lmic/lmic.c:628-721` | over every run from reset, whatever the application, network and chance do, successive transmissions in one band start more than the true time on air of the first times 1000, 100 or 10 by the band, less TX_RAMPUP, apart, between two set-ups of the bands and while the times compared lie in one half-range window with the time of the decision |
| `MacDuty.StepKeeps` | `end-device/src/lmic/lmic.c:2020-2178` | the invariant behind it survives every event: with NEXTCHNL clear txend is not before the avail time of the band of txChnl, and the last transmission of a band holds its avail time |
| `MacDuty.SentSpaced` | `end-device/src/lmic/lmic.c:628-639` | a transmission not earlier than its band allows keeps the log spaced and takes over the hold on the band |
| `MacDuty.BlockedLongEnough` | `end-device/src/lmic/lmic.c:628-639` | a frame blocks its own band, and no other, for at least txcap times its true time on air |
| `MacDuty.PlaceKeeps` | `end-device/src/lmic/lmic.c:2047-2060` | after the placing step, with or without a new channel, the start time respects the band |
| `MacDuty.NextJoinKeeps` | `end-device/src/lmic/lmic.c:691-721` | hopping between join channels keeps the invariant although it chooses channel and time by itself |
| `MacDuty.DnDataKeeps` | `end-device/src/lmic/lmic.c:1874-1937` | the end of the receive windows keeps it, retry and completion alike |
| `MacConfirmed.ConfirmedUplink` | `end-device/src/lmic/lmic.c:1874-1937` | from the hand-over of confirmed data that fits its frame: at most eight tries, always under one number, at rates that fall by one at every second retry but not below the slowest; every end is reported, its flags either ACK or NACK; NACK without a frame heard means eight tries; after eight closings of the windows it has ended |
| `MacConfirmed.RateFloor` | `end-device/src/lmic/lmic.c:349-354` | the rate of the n-th try is (n-1)/2 steps below the first, but not below the slowest |
| `MacConfirmed.StaysOnCourse` | `end-device/src/lmic/lmic.c:1874-1937` | while the uplink goes on each closing of the receive windows has used up one try |
| `MacConfirmed.StepTries` | `end-device/src/lmic/lmic.c:2020-2178` | every timer and window event either carries the uplink on by at most one try or ends it with the right flags |
| `MacConfirmed.TransmitSends` | `end-device/src/lmic/lmic.c:1601-1727` | one try goes out, with payload, confirmed, under a number that advances only on the first |
| `MacCompletion.OnceExactly` | `end-device/src/lmic/lmic.c:1874-1937` | however the run goes on, forward in time and with frames whose numbers the device can accept, the uplink is reported complete exactly once if and only if the frame that ended it was neither confirmed nor announced more, or shut the device down, or the poll it asks for can never go out |
| `MacCompletion.UsablePolls` | `end-device/src/lmic/lmic.c:641-667` | the last case needs the downlink counter to have run out or no band to have a usable channel |
| `MacCompletion.CompletesOnce` | `end-device/src/lmic/lmic.c:1874-1937` | when the first frame heard is such a frame, or none is heard, there is never a second completion |
| `MacCompletion.CompletesTwice` | `end-device/src/lmic/lmic.c:1874-1937` | in every other case the run can go on, forward in time, so that the poll goes out and the next frame completes the uplink a second time |
| `MacCompletion.CompletedTwice` | `end-device/src/lmic/lmic.c:1874-1937` | a concrete run from the hand-over, forward in time and with frames numbered 0 and 1, in which one uplink is reported complete twice |
| `MacHandover.DataSentExactly` | `end-device/src/lmic/lmic.c:2251-2270` | by the time the request to send is cleared the data has gone out if and only if no transaction was pending at the hand-over and it fitted beside the pending options; otherwise it is dropped and never goes out |
| `MacHandover.PayloadSentExactly` | `end-device/src/lmic/lmic.c:1601-1727` | the frame carries the payload if and only if it fits beside the pending options, and only then a confirmed uplink starts |
| `MacEngine.Lmic.NextTx` | `end-device/src/lmic/lmic.c:641-667` | the loops on 32-bit band times, channel maps and frequency words end with the channel of the search on unbounded times, and change txChnl and lastchnl of the chosen band only |
| `MacEngine.Lmic.LowerDR` | `end-device/src/lmic/lorabase.h:373` | the counting-down loop gives the rate n steps lower |
| `MacEngine.Lmic.DelayTx` | `end-device/src/lmic/lmic.c:475-481` | the 32-bit sum and signed comparison decide on the random delay as the unbounded machine does |
| `MacEngine.Lmic.UpdateTX` | `end-device/src/lmic/lmic.c:628-639` | the 32-bit avail times are those of the machine modulo 2^32 after blocking the band and, if limited, the device |
| `MacEngine.Lmic.BuildFrame` | `end-device/src/lmic/lmic.c:1601-1727` | one-byte frame length, payload, confirmation, counters and pending answers from the opmode bits are those of the machine |
| `MacEngine.Lmic.InitDefaultChannels` | `end-device/src/lmic/lmic.c:545-569` | the frequency words and bit maps written stand for the default plan and bands |
| `MacEngine.Lmic.Update` | `end-device/src/lmic/lmic.c:2020-2178` | engineUpdate on the opmode word and 32-bit times takes the step of the unbounded machine and does to radio and timer what it puts out, wherever the channel search ends |
| `MacEngine.Lmic.AcceptFrame` | `end-device/src/lmic/lmic.c:1017-1319` | counters, flags, channel maps and duty limit after an accepted frame with given MAC commands are those of the machine |
| `MacEngine.Lmic.ProcessDn` | `end-device/src/lmic/lmic.c:1874-1937` | retry, give-up and completion decided on an 8-bit txCnt and 32-bit times are the machine's, reports to the application included |
| `MacEngine.Lmic.NextJoin` | `end-device/src/lmic/lmic.c:691-721` | next join channel, rate and 32-bit start time are the machine's, although txCnt wraps at 256 |
| `MacEngine.Lmic.ProcessJoin` | `end-device/src/lmic/lmic.c:1417-1521` | failed join, failed rejoin and join accept on the fields are the machine's |
| `MacEngine.Lmic.SetTxData2` | `end-device/src/lmic/lmic.c:2251-2270` | data longer than its buffer is refused; otherwise the call is the machine's step |
| `MacFollows.Handle` | `end-device/src/lmic/lmic.c:2020-2178` | whatever happens to the 32-bit engine takes the machine it stands for through one step, and the invariant that lets the next one happen is kept |
| `MacFollows.Run` | `end-device/src/lmic/lmic.c:2020-2178` | over whole runs the engine shows radio, timer and application, happening by happening, what a run of the unbounded machine puts out |
| `MacFollows.OnAirIsLog` | `end-device/src/lmic/lmic.c:628-639` | what the acts of a run put on the air, at the true times of its happenings, is entry by entry the log of the machine's transmissions |
| `MacFollows.DutyCycleOnAir` | `end-device/src/lmic/lmic.c:628-721` | so from reset on the frames that the 32-bit engine hands to the radio keep the duty cycle of their bands in true time: 0.1%, 1% or 10%, less TX_RAMPUP, since the bands were last set up |
| `MacWords.SameDiff` | `end-device/src/lmic/lmic.c:641-667` | the signed difference of two 32-bit words is that of the unbounded times they hold |
| `MacWords.Bit` | `end-device/src/lmic/lmic.c:2077-2121` | setting or clearing one bit of opmode sets or clears that flag and no other |
| `MacWords.UsableBits` | `end-device/src/lmic/lmic.c:650-661` | the three bit tests of the channel loop say that the channel is usable in the plan the words stand for |
| `MacWords.DefaultIsPlan` | `end-device/src/lmic/lmic.c:545-569` | the words written for the default channels stand for the default plan |
| `RegisterTable.RegisterPlaced` | `LoRaGateway/libloragw/src/loragw_reg.c:59-386` | every one of the 326 registers lies within its page and within whole bytes or one byte |
| `RegisterTable.InOrder` | `LoRaGateway/libloragw/src/loragw_reg.c:59-386` | no two of the registers but the last share a bit |
| `RegisterBits.FieldReadBack` | `LoRaGateway/libloragw/src/loragw_reg.c:424-498` | a value that fits a bit field is read back, sign-extended where signed, whatever surrounded it |
| `RegisterBits.FieldKeepsOthers` | `LoRaGateway/libloragw/src/loragw_reg.c:424-456` | writing a field leaves the bits outside it |
| `RegisterBits.WordReadBack` | `LoRaGateway/libloragw/src/loragw_reg.c:460-498` | a value that fits a register of two to four bytes is read back, sign-extended where signed |
| `RegisterBits.JoinSplit` | `LoRaGateway/libloragw/src/loragw_reg.c:440-498` | the loop that cuts a value into bytes and the loop that joins them are inverse on the bytes used |
| `Registers.ReadBack` | `LoRaGateway/libloragw/src/loragw_reg.c:424-498` | reading after writing a value that fits gives it back, for every register place |
| `Registers.WriteApart` | `LoRaGateway/libloragw/src/loragw_reg.c:424-456` | writing a register leaves every register with a disjoint place as it was |
| `Registers.RegistersApart` | `LoRaGateway/libloragw/src/loragw_reg.c:59-386` | named registers are disjoint but for TX_TRIG_ALL, which is an alias of three triggers |
| `Registers.WriteKeepsCoherent` | `LoRaGateway/libloragw/src/loragw_reg.c:638-687` | lgw_regpage equals the page of the device after any write by name, PAGE_REG and SOFT_RESET included |
| `Registers.ReadKeepsCoherent` | `LoRaGateway/libloragw/src/loragw_reg.c:692-725` | and after any read by name |
| `Registers.AlwaysCoherent` | `LoRaGateway/libloragw/src/loragw_reg.c:402-406` | so over any run |
| `Registers.WriteIsUpdate` | `LoRaGateway/libloragw/src/loragw_reg.c:638-687` | a writable register holds the value written if it fits; every register but its aliases and PAGE_REG keeps its value |
| `Registers.ReadIsLookup` | `LoRaGateway/libloragw/src/loragw_reg.c:692-725` | a read gives what the register holds and changes no register but PAGE_REG |
| `Registers.ReadOnlyRefused` | `LoRaGateway/libloragw/src/loragw_reg.c:668-672` | a read-only register refuses, and nothing changes, not even the page |
| `Registers.PageRegister` | `LoRaGateway/libloragw/src/loragw_reg.c:654-657` | PAGE_REG reads back the two bits written and changes no other register |
| `Registers.RunIsMap` | `LoRaGateway/libloragw/src/loragw_reg.c:638-725` | over any run of reads and writes by name without reset, without writes through an alias and with values that fit it, a writable register is a variable that holds the last value written |
| `RegisterDriver.Concentrator.RegWAlign32` | `LoRaGateway/libloragw/src/loragw_reg.c:424-456` | the burst or read-modify-write leaves the device with just that register written; a register of no bits is written back as it was; sizes that fit no branch are refused and change nothing |
| `RegisterDriver.Concentrator.RegRAlign32` | `LoRaGateway/libloragw/src/loragw_reg.c:460-498` | the value of the register, shifted and sign-extended in place |
| `RegisterDriver.Concentrator.SwitchPage` | `LoRaGateway/libloragw/src/loragw_reg.c:402-406` | driver and device on the page asked for |
| `RegisterDriver.Concentrator.SoftReset` | `LoRaGateway/libloragw/src/loragw_reg.c:591-600` | device reset and driver on page 0, if connected |
| `RegisterDriver.Concentrator.RegWrite` | `LoRaGateway/libloragw/src/loragw_reg.c:638-687` | lgw_reg_w on the device bytes does what the specification says |
| `RegisterDriver.Concentrator.RegRead` | `LoRaGateway/libloragw/src/loragw_reg.c:692-725` | lgw_reg_r on the device bytes does what the specification says |
| `Checksum.InternetChecksum` | `LoRaGateway/libstack_ipv6/src/IPv6/IPv6.c:14-51` | summed in host order with a swap at the end, the result is the Internet checksum in network order, for every length up to 131074 bytes, odd ones included |
| `Checksum.SwappedSums` | `LoRaGateway/libstack_ipv6/src/IPv6/IPv6.c:14-51` | byte order independence (section 2(B) of RFC 1071): the swapped folded little-endian sum is the folded big-endian sum |
| `Checksum.FoldRemainder` | `LoRaGateway/libstack_ipv6/src/IPv6/IPv6.c:36-44` | folding keeps the remainder by 65535 and tells zero from 65535 |
| `Checksum.ChecksumIcmpv6` | `LoRaGateway/libstack_ipv6/src/IPv6/IPv6.c:53-105` | the copying loops and the sum give the ICMPv6 checksum of section 2.3 of RFC 4443 if and only if the high byte of the payload length is zero, for packets of 48 to 200 bytes |
| `Checksum.CollectedExactly` | `LoRaGateway/libstack_ipv6/src/IPv6/IPv6.c:53-105` | the misplaced zero field never matters and the dropped high length byte always does |
| `Checksum.EmittedVerifies` | `LoRaGateway/libstack_ipv6/src/IPv6/IPv6.c:53-105` | whoever sums an emitted packet with its pseudo-header gets all ones |
| `Schc.RoundTripExactly` | `LoRaGateway/libstack_ipv6/src/SCHC/SCHC.c:16-679` | for every echo, neighbor solicitation and neighbor advertisement that fits 64 bytes: decompressing the compressed packet gives every byte back if and only if the elided fields hold the values put in and the checksum is the one computed |
| `Schc.SrcBack` | `LoRaGateway/libstack_ipv6/src/SCHC/SCHC.c:597-659` | the source address comes back exactly if the context or the prefix rule knows it |
| `Schc.RestBack` | `LoRaGateway/libstack_ipv6/src/SCHC/SCHC.c:291-595` | the message behind the checksum comes back exactly if reserved bytes, flags and option hold their values |
| `Schc.CompressedParts` | `LoRaGateway/libstack_ipv6/src/SCHC/SCHC.c:16-288` | rule byte and residue of a supported packet, read bit by bit |
| `Schc.ElidedChecksum` | `LoRaGateway/libstack_ipv6/src/SCHC/SCHC.c:588-595` | for these packets the checksum computed is the ICMPv6 checksum |
| `SchcCodec.Compression` | `LoRaGateway/libstack_ipv6/src/SCHC/SCHC.c:16-288` | the compressor on buffers leaves exactly the specified bytes and length; it refuses all but ICMPv6 over IPv6 |
| `SchcCodec.Decompression` | `LoRaGateway/libstack_ipv6/src/SCHC/SCHC.c:291-679` | the decompressor on buffers leaves exactly the specified packet, length and checksum put in last |
| `SchcCodec.ThereAndBack` | `LoRaGateway/libstack_ipv6/src/SCHC/SCHC.c:16-679` | a packet through both buffers comes back if and only if its elided fields hold their values |
| `FlowTable.TableIsMap` | `LoRaGateway/libstack_ipv6/src/IPv6/IPv6.c:449-547` | after any sequence of stores the table answers with the last pair stored for the key, or nothing; keys stay unique |
| `FlowTable.PutThenGet` | `LoRaGateway/libstack_ipv6/src/IPv6/IPv6.c:482-547` | storing changes the answer for its own key and no other |
| `FlowTable.CheckHead` | `LoRaGateway/libstack_ipv6/src/IPv6/IPv6.c:466-480` | from any node of the list the walk back ends at its one head |
| `FlowTable.OutputAddr` | `LoRaGateway/libstack_ipv6/src/IPv6/IPv6.c:449-464` | from any handle, the node that holds the pair stored for the key, or null |
| `FlowTable.InputAddr` | `LoRaGateway/libstack_ipv6/src/IPv6/IPv6.c:482-547` | from any handle, the list holds the table after the store, is linked both ways and acyclic, has at most one node more, and the handle returned is one of it |

## Left out

- JsonDotPath.SetKeepsOthers: dotted paths are proved on nested values, not on nested heap objects, so sharing one object under two names is not captured.
- JsonExact.RoundTripExactly: numbers that are not 32-bit integers are outside it, because `%f` loses precision and strtod is a parameter.
- JsonRoundTrip.RoundTrip: strtod on decimal integers is taken from the C standard as a premise (`ReadsDecimals`).
- JsonWriter.Serialize: the 32-bit overflow of the byte count and the scratch buffer for numbers are not modelled; a text has fewer than 2^31 bytes.
- JsonParser.ParseJson: allocation never fails; comments, files and texts with a NUL inside are not modelled.
- AesLmic.Driver.OsAes: mode bits other than those of the three modes and AES_MICNOAUX are not modelled; the ten rounds of the loop body stand as one block cipher.
- AesOther.Driver.OsAes: codebook mode beyond 240 bytes has no result, since the loop does not end (EcbEndlessExactly).
- AesAgreement.BothMics: the cipher is an arbitrary function; AES rounds, tables and key schedule are left out.
- Scheduling.RunsOnceOnTime: the callback's own work is later events of the run; interrupts between the steps of a call are left out, since every call disables them.
- Scheduling.TimedInOrder: only for deadlines within half the range of each other; beyond it signed differences do not order times.
- HalTicks.RunRight: true time is 64 bits wide, so runs end after 2^64 microseconds; hal_waitUntil and pin interrupts are left out.
- Airtime.SameSymbols: only the symbol count of `lgw_time_on_air`; its floating-point durations are left out.
- DownCounter.AcceptedExactly: the integrity code is any predicate of number and frame; logging is left out.
- MacDuty.DutyCycleKept: holds while the times compared at each decision lie with it in some window of half the range (`Timely`), which the code's signed differences need; the log begins anew whenever the bands are set up.
- MacFollows.DutyCycleOnAir: under the same premise, on the machine's run that the happenings take; the radio's frequency is told by its band alone.
- MacConfirmed.ConfirmedUplink: after the hand-over no API call is made; no join or rejoin is under way and no counter about to roll over when the data is handed over.
- MacHandover.DataSentExactly: the request is cleared by a completion here; no join or rejoin is under way at the hand-over and no API call follows it.
- MacMachine.Step: frames arrive decoded, with the effect of their MAC commands as a value; link margin, battery level, power levels and the details of link ADR are left out.
- MacMachine.EngineUpdate: beacons, scanning, pinging, receive-window timing, the US915 plan and radio programming are left out; API calls from inside event callbacks come as later events; EV_JOIN_FAILED is not reported.
- MacEngine.Lmic.Update: it is called where the channel search ends, as the loop has no result otherwise; assignments to fields go group by group through methods that keep the machine beside them.
- Registers.WriteIsUpdate: auto-incrementing data buffers and registers that the concentrator changes by itself are plain memory here.
- RegisterDriver.Concentrator.RegWrite: SPI never fails; lgw_connect, lgw_reg_wb, lgw_reg_rb, the FPGA target and default values are left out.
- Checksum.ChecksumIcmpv6: packets from 48 to 200 bytes, the size of the local buffer the code copies into.
- Checksum.InternetChecksum: lengths whose 32-bit sum could overflow are not modelled.
- Schc.RoundTripExactly: router solicitation, router advertisement and redirect are compressed but not decompressed here, since the two sides disagree on their fields; UDP is left out. A type the code does not know is given the rule bits of an echo request.
- SchcCodec.Decompression: compressed packets too short for their rule are not modelled; the code reads past their end.
- FlowTable.InputAddr: the allocation never fails; `clean_addr` and the node list of routers and devices are left out.
- Sockets, tun devices, threads, terminals, GPS time, RSSI arithmetic and calibration are left out: they are input and output, or floating point.
