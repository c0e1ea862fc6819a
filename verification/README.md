# Eseye telemetry module driver: the protocol engine in Dafny

A model of the protocol engine of the `eseyeETM` Arduino driver for the Eseye
telemetry module. The driver talks AT commands over a serial line:

- it subscribes to and registers MQTT topics in two fixed 8-slot tables;
- it publishes payloads as hexadecimal text;
- it keeps a counter of commands still waiting for their `OK`/`ERROR`;
- it times out publish registrations that get no answer;
- its `poll` loop frames the bytes the module sends into text lines, which it
  classifies by prefix, and into binary blocks, which it hands to the
  subscribed topic's callback.

The whole driver state is one immutable record, `Types.Engine`. Every
operation is a pure function of that record:

- A request returns a `Requests.Reply`: the C return value, the new state and
  the characters written to the serial line.
- `Framer.Step` reads one byte and `Framer.Run` reads a sequence of them. Each
  returns a `Classifier.Outcome`: the new state, the characters written and
  the callbacks run, as `Deliver`, `Forward` or `StateChanged` events.
  `Undefined` stands for an OPEN/CLOSE result whose index lies past the
  8-slot tables, which the C code writes out of bounds. It also stands, as a
  simplification, for a field read past the line terminator (see "## Left
  out").
- The clock `millis()` is a `now` parameter.

Modules, in dependency order:

| file | module | what it holds |
|---|---|---|
| types.dfy | Types | constants, slot and connectivity enums with their C codes, readiness bits, the engine record, `incOKreq`/`inSync` |
| ctext.dfy | CText | decimal printing (`print(int)`), base-10 `strtol`, the `uint8_t`/`int8_t` narrowing casts |
| hex.dfy | Hex | `octettohex` and the payload encoding, with the device's decoder as its inverse |
| timeout.dfy | Timeout | `checkTimeout` with 32-bit wrapping clock arithmetic |
| requests.dfy | Requests | `subscribe`, `substate`, `unsubscribe`, `pubreg`, `pubstate`, `pubunreg`, `publish`, `updateState`, `startproto` |
| classifier.dfy | Classifier | the prefix dispatch of a completed line and the effect of each kind of line |
| classifier_facts.dfy | ClassifierFacts | the module's notifications rendered in their wire format and read back, and the dispatch-order facts |
| framer.dfy | Framer | `poll`: the byte framer, binary blocks, the buffer index, and what reading bytes never does |
| scenarios.dfy | Scenarios | requests and notifications together: subscribe then confirm, register with no answer, header then block |

Bytes on the wire are `Types.Octet`, which are characters below 256. The
string constants of the C code can therefore be compared with the buffer
directly. `strncmp(buf, p, strlen(p)) == 0` is modelled as `p` being a prefix
of the line. The line still ends in its CR LF, as in the source, so "OKAY"
counts as an "OK".

What the code does at the points where a reader might expect otherwise:

- A state report is a line `+ETM` followed directly by `STATE` (no `:` at
  offset 4), with the value read by `strtol` from offset 11, as in
  `+ETMSTATE: 6`. A line `+ETM:STATE=6` takes the `:` branch, matches none
  of the readiness words, and is forwarded as unhandled.
- A message header must start exactly `+EMQ:` (the `:` at offset 4). It is
  followed by `<index>,<length>`, read with `strtol`, and both are narrowed to
  `uint8_t`.
- The publish timeout fires once the elapsed time is 3000 ms or more (`>=`).
- The message callback gets the whole receive buffer together with the
  8-bit `buffered` count. The block occupies the first L bytes of the buffer.
  The count equals L only when `buffered` was 0 before the block and L < 256.
- OPEN and CLOSE results set the addressed slot whatever its prior state.
  CLOSE ignores its error code and keeps the slot's callback.

## Model

| member | source | states |
|---|---|---|
| Types.IncOkReq | eseyetelemetrymodule.cpp:83-85 | one more outstanding command; the 8-bit counter wraps from 255 to 0 |
| Types.Initial | eseyetelemetrymodule.cpp:515-537 | after `init` every slot is free with no callback; the buffer index, block length and block count are 0; no slot is being read (0xff); no flag is set; the state is ETM_UNKNOWN; the unhandled-line callback is the one given and there is no state callback; no command is outstanding |
| Types.FlagsAreBits | eseyetelemetrymodule.h:134-137 | MODEM_SEEN, ETM_IDLE, ETM_MQTT_RDY and ETM_UDP_RDY are the bits 1, 2, 4 and 8, pairwise disjoint |
| Types.SetFlagKeeps | eseyetelemetrymodule.h:138 | or-ing a flag into `urcseen` makes `isdone` true for it and keeps every flag `isdone` already saw |
| Types.SubCodeInjective | eseyetelemetrymodule.h:65 | the five subscribe states have distinct C codes (Error -1, NotInUse 0) |
| Types.PubCodeInjective | eseyetelemetrymodule.h:63 | the five publish states have distinct C codes (Error -1, NotInUse 0) |
| Types.EtmStateOf | eseyetelemetrymodule.h:69 | a reported value names the connectivity phase with that code, and values outside -1..9 name none |
| Types.EtmStateCodes | eseyetelemetrymodule.h:69 | every phase's code names that phase again, so a recorded code determines the phase |
| CText.Dec | eseyetelemetrymodule.cpp:115 | `print` of a non-negative integer: a non-empty run of digits without leading zeros whose value is the number |
| CText.StrToL | eseyetelemetrymodule.cpp:384-386 | base-10 `strtol`: the end lies in the string; no digits means value 0 and end at the start; otherwise the end follows the last digit of the run; the value fits a 32-bit `long` |
| CText.StrToLReadsRun | eseyetelemetrymodule.cpp:428-430 | `strtol` on an optional '-' and a run of digits not followed by a digit reads exactly that signed value and stops right after the run |
| CText.StrToLReads | eseyetelemetrymodule.cpp:384-386 | `strtol` on white space, an optional '+' or '-' and a run of digits not followed by a digit reads the signed value of the run, saturated to `LONG_MIN`/`LONG_MAX`, and stops right after the run |
| CText.StrToLNoDigits | eseyetelemetrymodule.cpp:384-386 | `strtol` on white space and an optional sign with no digit after them converts nothing: value 0, end where the read started |
| CText.ToUint8 | eseyetelemetrymodule.cpp:384 | the `uint8_t` conversion is congruent to its argument modulo 256 and is the identity on 0..255 |
| CText.ToInt8 | eseyetelemetrymodule.cpp:386 | the `int8_t` conversion is congruent to its argument modulo 256 and is the identity on -128..127 |
| Hex.OctetToHex | eseyetelemetrymodule.cpp:231-243 | two upper-case hexadecimal digits, high nibble first, whose value is the byte |
| Hex.HexEncode | eseyetelemetrymodule.cpp:261-264 | the payload as 2·n upper-case hex digits, byte k rendered at positions 2k and 2k+1 |
| Hex.HexRoundTrip | eseyetelemetrymodule.cpp:261-264 | decoding the published hex text gives back exactly the payload bytes |
| Hex.OctetToHexInjective | eseyetelemetrymodule.cpp:231-243 | no two bytes share a rendering |
| Hex.OctetToHexExamples | eseyetelemetrymodule.cpp:231-243 | 0x00 renders "00", 0xFF "FF", 0x0A "0A", and bytes 1, 2, 3 render "010203" |
| Timeout.Elapsed | eseyetelemetrymodule.cpp:558-560 | `now - senttime` in unsigned 32-bit arithmetic: the plain difference, or the difference plus 2^32 once the clock has wrapped |
| Timeout.ScanFrom | eseyetelemetrymodule.cpp:559-570 | the monitor loop from index k on: expired pending slots become Error, all others and the earlier indices are untouched, and it reports whether a pending slot is still within its time |
| Timeout.CheckTimeout | eseyetelemetrymodule.cpp:554-572 | every Registering/Unregistering slot at least 3000 ms old becomes Error, every other slot and all else is unchanged, and the result is true exactly when some pending slot has not yet timed out |
| Timeout.CheckTimeoutIdempotent | eseyetelemetrymodule.cpp:554-572 | running the monitor twice at the same instant changes nothing more and reports the same |
| Timeout.PendingSlotDeadline | eseyetelemetrymodule.cpp:561-563 | a registering slot is put into Error exactly when its request is at least the timeout old |
| Requests.FirstFree | eseyetelemetrymodule.cpp:107-111 | the lowest free index, or -1 exactly when no slot is free |
| Requests.Subscribe | eseyetelemetrymodule.cpp:102-125 | after the monitor: -1 with nothing written exactly when every slot is Subscribing/Subscribed/Unsubscribing; otherwise the lowest NotInUse-or-Error slot becomes Subscribing with the callback, `AT+EMQSUBOPEN=i,"topic"` is written, the counter goes up by one and nothing else changes |
| Requests.SubStateOf | eseyetelemetrymodule.cpp:128-133 | the slot's state, read after the monitor ran (which never touches subscribe slots) |
| Requests.Unsubscribe | eseyetelemetrymodule.cpp:144-162 | 0 exactly when the index is below 8 and the slot is Subscribed; then the slot becomes Unsubscribing, `AT+EMQSUBCLOSE=i` is written and the counter goes up; otherwise -1 with no output and no change beyond the monitor |
| Requests.PubReg | eseyetelemetrymodule.cpp:171-196 | the same allocation on the publish table after the monitor ran (so a slot that just timed out is free), also stamping the send time; writes `AT+EMQPUBOPEN=i,"topic"` |
| Requests.PubStateOf | eseyetelemetrymodule.cpp:199-204 | the slot's state after the monitor: Error if the slot was pending and has timed out, its stored state otherwise |
| Requests.PubUnreg | eseyetelemetrymodule.cpp:207-228 | 0 exactly when the index is below 8 and the slot is Registered; then Unregistering with the send time stamped, `AT+EMQPUBCLOSE=i` written and the counter raised; otherwise -1 and no change beyond the monitor |
| Requests.Publish | eseyetelemetrymodule.cpp:246-271 | always 0; on a Registered slot below 8 it writes exactly `AT+EMQPUBLISH=i,q,"<2n hex digits>"` and raises the counter; on any other slot it writes nothing and changes nothing beyond the monitor |
| Requests.UpdateState | eseyetelemetrymodule.cpp:490-502 | writes the query, enable or disable command; only a one-shot query resets the recorded state to ETM_UNKNOWN; the counter goes up by one |
| Requests.StartProto | eseyetelemetrymodule.cpp:539-551 | MQTT and UDP write their start command and raise the counter; any other code returns -1 and changes nothing |
| Classifier.At | eseyetelemetrymodule.cpp:357 | byte k of the C string in the buffer, NUL at and after the terminator |
| Classifier.ReadFields | eseyetelemetrymodule.cpp:384-386 | two `strtol` reads, the second one character after where the first stopped, or None when a read would start past the terminator |
| Classifier.Classify | eseyetelemetrymodule.cpp:354-459 | a line is an acknowledgement only while one is outstanding and only with an OK/ERROR prefix, a blank-line ack only with a CR LF prefix, a readiness flag only after `+ETM:`, an OPEN/CLOSE result only with that word at offset 7 and an error code in `int8_t` range, and a stale read only on `+ETMSTATE` or `+EMQ` lines |
| Classifier.ClassifyEtm | eseyetelemetrymodule.cpp:354-377 | a `+ETM` line is a readiness flag (only after `+ETM:`, one of idle, MQTT ready, UDP ready), a state report, unhandled, or a stale read of a `+ETMSTATE` line |
| Classifier.ClassifyEmq | eseyetelemetrymodule.cpp:378-434 | a `+EMQ` line is an OPEN result (word at offset 7), a CLOSE result (word at offset 7), a message header (only with `:` at offset 4), a stale read, or unhandled, and it is unhandled exactly when it has 7 bytes or more, neither word at 7 and no `:` at 4; error codes are in `int8_t` range |
| Classifier.OpenResult | eseyetelemetrymodule.cpp:381-402 | an OPEN result names the subscribe table only with SUB at offset 4 and the publish table only with PUB there, its error narrowed to `int8_t` |
| Classifier.CloseResult | eseyetelemetrymodule.cpp:403-422 | the same table choice for CLOSE results |
| Classifier.ClassifyOther | eseyetelemetrymodule.cpp:435-459 | a line that is neither `+ETM` nor `+EMQ` is a send success exactly when it starts `:SEND OK`, a send failure exactly when it starts `:SEND FAIL`, the banner exactly when it starts `APP RDY`; it is acknowledged only while a command is outstanding, as OK/ERROR or as a blank CR LF line; otherwise it is unhandled |
| Classifier.CStr | eseyetelemetrymodule.cpp:464 | the text the unhandled-line callback sees: the line up to its first NUL |
| Classifier.Apply | eseyetelemetrymodule.cpp:354-473 | undefined exactly for stale reads and OPEN/CLOSE indices of 8 or more; otherwise the buffer index returns to 0 and the state stays well formed |
| Classifier.ApplySlots | eseyetelemetrymodule.cpp:381-422 | OPEN sets the slot to Subscribed/Registered for error 0 or -2 and to Error otherwise; CLOSE sets NotInUse; nothing else touches either table |
| Classifier.ApplyCounters | eseyetelemetrymodule.cpp:359-455 | an ack lowers the counter by exactly one, a readiness line ors its flag in, a state report records its value, and nothing else changes them |
| Classifier.ApplyBlock | eseyetelemetrymodule.cpp:431-432 | only a message header sets the reading slot and the length of the binary block; the handlers never change |
| Classifier.ApplyOutputs | eseyetelemetrymodule.cpp:443-468 | only APP RDY writes (`ATE0`); an unhandled line is forwarded when a handler is set; a state report runs the state callback when one is set |
| ClassifierFacts.ClassifyOpenLine | eseyetelemetrymodule.cpp:381-386 | `+EMQSUBOPEN:<i>,<e>` / `+EMQPUBOPEN:<i>,<e>` is read back as that table, `uint8_t` i and `int8_t` e |
| ClassifierFacts.ClassifyCloseLine | eseyetelemetrymodule.cpp:403-408 | the same round trip for CLOSE results |
| ClassifierFacts.ClassifyHeaderLine | eseyetelemetrymodule.cpp:423-430 | `+EMQ:<i>,<L>` is read back as a message header for slot i mod 256 and length L mod 256 |
| ClassifierFacts.ClassifyStateLine | eseyetelemetrymodule.cpp:372-373 | `+ETMSTATE: <v>` is read back as a state report of v |
| ClassifierFacts.HeaderLineFrame | eseyetelemetrymodule.cpp:347 | a header for a slot and length below 1000 is one frame of at most 16 bytes, with its only LF last |
| ClassifierFacts.AckLines | eseyetelemetrymodule.cpp:448-468 | a line starting OK or ERROR is an acknowledgement exactly when one is outstanding, and is forwarded as unhandled otherwise |
| ClassifierFacts.BlankAckLines | eseyetelemetrymodule.cpp:448-458 | a line starting CR LF is the blank-line acknowledgement exactly when one is outstanding, and unhandled otherwise |
| ClassifierFacts.ModuleLinesIgnoreCounter | eseyetelemetrymodule.cpp:354-434 | `+ETM`/`+EMQ` lines are classified the same whatever the counter and are never acknowledgements |
| ClassifierFacts.BlankLineStartsWithCr | eseyetelemetrymodule.cpp:456-458 | the CR LF acknowledgement needs a line starting with CR |
| ClassifierFacts.ReadyLines | eseyetelemetrymodule.cpp:354-371 | `+ETM:IDLE`, `+ETM:EMQRDY` and `+ETM:EURDY` are the readiness notifications for ETM_IDLE, ETM_MQTT_RDY and ETM_UDP_RDY; a `+ETM:` line with another word, and a `+ETM` line that is neither `+ETM:` nor `+ETMSTATE`, is unhandled |
| ClassifierFacts.DispatchReady | eseyetelemetrymodule.cpp:357-371 | a readiness notification ors exactly its flag into `urcseen` and changes nothing else; a `+ETM:` line with an unknown word is forwarded when a handler is set |
| ClassifierFacts.SendAndBannerLines | eseyetelemetrymodule.cpp:435-447 | `:SEND OK` and `:SEND FAIL` lines are consumed without effect, and `APP RDY` is answered with `ATE0`; none is forwarded |
| ClassifierFacts.UnknownEmqLine | eseyetelemetrymodule.cpp:378-434 | a `+EMQ` line that is neither OPEN, CLOSE nor a header is unhandled and forwarded when a handler is set |
| ClassifierFacts.OtherLinesForwarded | eseyetelemetrymodule.cpp:435-466 | a line with no known prefix that is not a due acknowledgement is forwarded, as its C string, when a handler is set, and changes nothing else |
| ClassifierFacts.DispatchSubOpen | eseyetelemetrymodule.cpp:387-393 | a subscribe OPEN result for slot i settles slot i as Subscribed (error 0 or -2) or Error, whatever it was, and touches nothing else in either table |
| ClassifierFacts.DispatchPubOpen | eseyetelemetrymodule.cpp:394-400 | the publish-table counterpart: Registered or Error |
| ClassifierFacts.DispatchClose | eseyetelemetrymodule.cpp:409-421 | a CLOSE result frees its slot whatever error code it carries and touches nothing else in the tables |
| ClassifierFacts.DispatchOutOfRange | eseyetelemetrymodule.cpp:384-418 | an OPEN or CLOSE result whose index, narrowed to `uint8_t`, is 8..255 indexes past the table: undefined |
| ClassifierFacts.DispatchHeader | eseyetelemetrymodule.cpp:428-433 | a message header sets the reading slot and the block length to their 8-bit values and leaves the tables alone |
| ClassifierFacts.DispatchState | eseyetelemetrymodule.cpp:372-376 | a state report records the value and runs the state callback when one is registered, leaving tables and counter alone |
| ClassifierFacts.StateReportNamesPhase | eseyetelemetrymodule.cpp:372-376 | a state report of a connectivity phase leaves that phase recorded |
| Framer.Store | eseyetelemetrymodule.cpp:322-323 | the byte lands at the index and a NUL after it while that stays inside the buffer; every other byte is unchanged and the buffer never changes size |
| Framer.StoreAsWritten | eseyetelemetrymodule.cpp:322-323 | the two stores as written go out of bounds exactly when the index is the last one |
| Framer.Advance | eseyetelemetrymodule.cpp:476-478 | the incremented index, back to 0 when it reaches 100 |
| Framer.Complete | eseyetelemetrymodule.cpp:327-335 | at a block's end: with a callback for the slot, one delivery of the buffer and count, and reading slot and count reset; without one, nothing delivered and both kept; the index and the block length always back to 0, and nothing else in the state changes |
| Framer.Step | eseyetelemetrymodule.cpp:322-478 | reading one byte keeps the state well formed: table sizes, buffer size, index inside the buffer, and no text frame starting with a line break |
| Framer.Run | eseyetelemetrymodule.cpp:308-479 | reading any sequence of bytes keeps the state well formed |
| Framer.Poll | eseyetelemetrymodule.cpp:303-308 | the monitor followed by the bytes available keeps the state well formed |
| Framer.StepQuiet | eseyetelemetrymodule.cpp:322-345 | a byte that neither ends a block nor is a line feed writes nothing, calls nothing and changes no table, counter or flag |
| Framer.LeadingLineBreakDropped | eseyetelemetrymodule.cpp:342-345 | a CR or LF as first text byte is dropped: the index stays 0 and nothing else happens |
| Framer.PromptByteIsBuffered | eseyetelemetrymodule.cpp:337-339 | a '>' in first position is collected like any byte: rewriting the local copy has no effect |
| Framer.TextByteCollected | eseyetelemetrymodule.cpp:322-323 | another text byte is stored and the index advances, wrapping to 0 at 100 |
| Framer.LineFeedDispatches | eseyetelemetrymodule.cpp:347 | a line feed after collected bytes classifies the frame including the LF, which is never taken for the blank-line ack |
| Framer.BinaryByteCounted | eseyetelemetrymodule.cpp:324-326 | inside a binary block every byte, whatever its value, is stored and counted, and no line is classified |
| Framer.RunCollects | eseyetelemetrymodule.cpp:322-345 | text bytes before the line feed are collected in order and nothing else happens |
| Framer.RunAppend | eseyetelemetrymodule.cpp:308-309 | reading s then t is reading s + t: outputs and callbacks concatenate |
| Framer.RunLine | eseyetelemetrymodule.cpp:322-347 | a whole line read from an empty frame reaches the classifier as exactly those bytes |
| Framer.RunBlockWaits | eseyetelemetrymodule.cpp:324-326 | fewer bytes than announced are stored and counted, the reader keeps waiting, and nothing is delivered early |
| Framer.RunBlockRest | eseyetelemetrymodule.cpp:324-335 | the remaining bytes of a block are stored in order and counted, and the last one completes the block |
| Framer.RunBlock | eseyetelemetrymodule.cpp:322-335 | a block of L ≤ 100 bytes read from the start of the buffer ends with the buffer holding those L bytes first, completed with the 8-bit running count |
| Framer.RunKeepsFlags | eseyetelemetrymodule.cpp:360-368 | reading bytes never clears a readiness flag |
| Framer.RunNeverRaisesAcks | eseyetelemetrymodule.cpp:449-455 | reading bytes never raises the acknowledgement counter |
| Framer.StepAcks | eseyetelemetrymodule.cpp:449-455 | one byte lowers the counter by exactly one when it completes an OK/ERROR line while the counter is positive, and leaves it alone otherwise |
| Framer.PollEmpty | eseyetelemetrymodule.cpp:303-308 | a poll with nothing to read only runs the monitor |
| Framer.LongFrameOverruns | eseyetelemetrymodule.cpp:322-323 | with the stores as written, 99 text bytes without a line feed bring the index to 99, where the next store writes one past the buffer |
| Scenarios.SubscribeThenOpened | eseyetelemetrymodule.cpp:102-125 | a subscribe answered by a successful OPEN for its slot leaves that slot Subscribed with the caller's callback, the other slots as before |
| Scenarios.SubscribeTwice | eseyetelemetrymodule.cpp:107-111 | two successful subscribes in a row get distinct slots, the second higher than the first |
| Scenarios.FirstSubscribe | eseyetelemetrymodule.cpp:113-123 | on an empty table, subscribing "sensors/temp" takes slot 0 and writes `AT+EMQSUBOPEN=0,"sensors/temp"` |
| Scenarios.PublishThreeBytes | eseyetelemetrymodule.cpp:253-265 | bytes 1, 2, 3 with QoS 1 on registered slot 2 write exactly `AT+EMQPUBLISH=2,1,"010203"` |
| Scenarios.PubRegUnanswered | eseyetelemetrymodule.cpp:171-196 | a registration never answered is put into Error by the first monitor run at least 3000 ms after the request (modulo 2^32), and not earlier |
| Scenarios.HeaderRead | eseyetelemetrymodule.cpp:423-433 | a header line read from an idle frame arms the binary reader for that slot and length and changes nothing in the tables |
| Scenarios.HeaderThenBlock | eseyetelemetrymodule.cpp:324-335 | a header for a slot with a callback followed by the L ≤ 100 bytes it announces runs the callback once, with the buffer holding those bytes first; it writes nothing and leaves the tables alone |

## Left out

- Serial transport: `Stream` reads and writes become the byte sequence given to `Framer.Run` and the `out` string of each result. `available()` is the end of that sequence.
- `millis()` is the `now` parameter of every operation that runs the monitor.
- Debug tracing (`UARTDEBUG*`, `dbg_uart`) and the compiled-out block in `poll` produce no behaviour the model needs.
- `waitSync`, `subscribeconfirm`, `pubregconfirm` and `publishconfirm` are blocking loops around `poll`. Whether they terminate depends on the device and on `yield()`.
- `sendAT` runs the publish monitor (`Timeout.CheckTimeout`) and then writes its argument unchanged. It is those two steps and is not modelled as an operation of its own. `pubdone` always returns true and touches nothing.
- The constructor, `statecb` and the callback pointers: a message callback is an opaque `CallbackId`, and the unhandled-line and state callbacks are present-or-absent flags.
- The sleep pins and the wake-reason enum are never used by the code.
- `init` does not zero `outstanding_ok`. `Types.Initial` starts the counter at 0.
- `MODEM_SEEN` is declared but no code path sets it.
- The allocation scan in `subscribe`/`pubreg` reads `table[8]` before testing the bound when every slot is taken. The model tests the bound first; the result is -1 either way.
- Negative indices passed to `unsubscribe`, `pubunreg` or `publish`, and any index outside 0..7 passed to `substate`/`pubstate`, index outside the arrays. These are preconditions of the model.
- OPEN/CLOSE indices of 8 or more sent by the module write past the slot tables, which is undefined behaviour in C. They are the `Undefined` outcome.
- Reads past the line terminator on short `+ETMSTATE`/`+EMQ` lines read leftover bytes of earlier lines in `modemrxbuf`, which is defined while they stay inside the buffer. As a simplification the model does not follow those bytes and treats such a line as `Undefined` too.
- `Framer.RunBlock`: binary blocks longer than the buffer wrap the index and overwrite the start of the block. `Step` models this, but no lemma describes the resulting buffer contents.
- `CText.StrToL`: `long` is taken as 32 bits, as on the AVR and ARM Arduino targets. Locale-dependent white space is reduced to the C locale set.
- Classifier.ClassifyEtm: a state report records the `long` from `strtol` unchanged. The source converts it with `(tetmState)` into a `tetmState` field. That conversion gives an unspecified value in C++ outside the enum's range -16..15, and it keeps only 16 bits on AVR. The model does not narrow the value. `Types.EtmStateOf` names the phase only for -1..9.
- `urcseen` is an `unsigned int` and is modelled as 16 bits. Only the low four bits are ever set.

## Findings

| source | as written | input that shows it | evidently intended | confidence | as-written member | corrected member |
|---|---|---|---|---|---|---|
| eseyetelemetrymodule.cpp:322-323 | `modemrxbuf[rxbufidx++] = c; modemrxbuf[rxbufidx] = 0;` stores the terminator at index `rxbufidx` before the reset to 0 at 100 | 99 text bytes without a line feed and not starting with CR/LF, then any byte: the 100th store puts the NUL at `modemrxbuf[100]`, one past the 100-byte array | the terminator is stored only while it stays inside the buffer | not executed | Framer.LongFrameOverruns | Framer.Store |
