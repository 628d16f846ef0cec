# TLE4998 SENT redundancy check and KP467 integer helpers, in Dafny

This project models two pieces of Infineon's XENSIV magnetic- and
pressure-sensor examples.

**The SENT receive-and-check path of the TLE4998S4 example**
(`TLE4998S4_SENT_Redundancy.c`). It has four parts:
- **The interrupt handler.** Each of ten hardware fault flags bumps its own
  32-bit counter. On receive success (RSI) the handler:
  - captures the frame's data word and status nibble;
  - stores the payload fields OUT16 and TEMP8;
  - recomputes the frame checksum;
  - bumps two frame counters.
- **The message builder.** It lays out the status nibble and the six data
  nibbles in the sensor's order: status, n3, n2, n1, n0, n5, n4.
- **The checksum.** This is the table-driven CRC-4 of SAE J2716's fast
  channel, with seed 0101 and the standard nibble table.
- **The redundancy check.** It is a three-stage state machine:
  1. warm-up on the frame counter;
  2. a settling window of three calls, kept in a static counter;
  3. monitoring. Here each call compares the received checksum with the
     recomputed one. It sets the alarm flag and drives the two LEDs D106 and
     D109, which are active-low pins.

**The integer side of the KP467 example** (`main.c`):
- the 15-bit parity check on SPI words;
- the accept/reject rule and the reading counter of the three
  resolution-specific reads;
- the measurement field and DIAG bits taken out of an accepted word;
- the phase-2 count of the low-power demo;
- the high-byte-first split and join of SPI words.

## How the model is built

- **Files and modules.** Each file is one module:
  - `words.dfy` (Words): 8- and 32-bit unsigned counters. The C wrap-around
    of `++` is written out in `Inc32`.
  - `sent_crc.dfy` (SentCrc): the checksum.
  - `sent_frame.dfy` (SentFrame): the frame fields and the 7-nibble message.
  - `sent_receive.dfy` (SentReceive): the interrupt handler and
    `crcCalculation`.
  - `sent_redundancy.dfy` (SentRedundancy): the redundancy check.
  - `kp467.dfy` (Kp467): the KP467 helpers.
- **Types.** C `uint8`/`uint16`/`uint32` values that take part in bit
  operations are `bv8`/`bv16`/`bv32`. Counters are `Words.uint32`, an
  integer range, with an explicit wrap at 2^32.
- **State.**
  - The globals `g_errorCounters` and `g_dataTle4998` are the classes
    `ErrorCounters` and `SentData`. Their methods update fields in place.
  - The static `ignoreValueCount`, `g_alarmFlag` and the two pin levels are
    the fields of the class `RedundancyMonitor`.
  - Each method is proved against a specification function. These are
    `Tallied`, `CrcOf`/`CanonicalMessage` and `Check`, and the lemmas state
    the properties of those functions.
  - The interrupt handler and the redundancy check are each one atomic step.
- **Inputs.** Hardware reads become parameters of the methods:
  - the interrupt status, read and cleared on entry;
  - the received frame;
  - the checksum the peripheral received;
  - the words the KP467 returns over SPI.
- **Nibble layout.** The bit layout of `sentRawData.B.nibbleK` is declared
  in a header that is not part of this model. Nibble k is taken to be bits
  4k..4k+3 of the data word, which agrees with `TEMP8 = data >> 16`.
- **Field widths.** The fields of `DataTle4998` and `SentErrorCounters` are
  declared in the same missing header. Counters are taken as 32-bit
  unsigned, OUT16 as 16-bit, and TEMP8, the status and the checksums as
  8-bit.
- **Error flags.** `IFXSENT_INTERRUPT_STATUS_ERROR_FLAGS` is taken to be
  exactly the ten fault flags.

### Behaviour of the code worth knowing

- **Calls versus frames.** The settling window counts *calls* of
  `checkTle4998SENTredundancy` made after warm-up, not frames. Warm-up looks
  at the frame counter `interruptCounter`, which the interrupt handler owns.
  With one call per frame, frames 1–2 are warm-up, frames 3–5 settle, and
  frame 6 is the first to be judged (`StartUpScenario`). Several calls on
  one frame end the window sooner (`RunIgnoreCount`).
- **Warm-up is not one-shot.** The warm-up test reads `interruptCounter` on
  every call. Once that counter wraps past 2^32 back to 0, 1 or 2, the
  warm-up branch runs again: it drives D106 low and leaves the rest alone,
  and the settling counter stays at 3. `Check` models this as written.
- **Message values.** The checksum loop has no range check on the message
  bytes. A byte above 15 would index past the end of the 16-entry table, so
  `CalculateCrc` requires its seven bytes to be nibbles. Every caller
  satisfies this: `crcCalculation` only stores 4-bit bitfields and the
  4-bit status.
- **The `length` argument.** `calculateCrcTle4998` ignores `length` and
  always consumes `TLE4998_FRAME_LENGTH + 1` = 7 bytes. `CalculateCrc`
  takes the argument and ignores it too.
- **SPI replies.** Each word `spi_send_command` returns is clocked in while
  the next command goes out, so it answers the command sent before. A read
  therefore sends four commands and uses replies 1, 2 and 3 as the ID, the
  pressure word and the temperature word.

## Model

| member | source | states |
|---|---|---|
| Words.Inc32 | Linear-Sensors/Aurix/KIT_TC277_TFT_SENT_TLE4998S4/TLE4998S4_SENT_Redundancy.c:229-230 | a 32-bit unsigned `++` is one more modulo 2^32 and always changes the value |
| SentCrc.Step | Linear-Sensors/Aurix/KIT_TC277_TFT_SENT_TLE4998S4/TLE4998S4_SENT_Redundancy.c:288-289 | one round of the loop maps a nibble accumulator and a nibble to a nibble |
| SentCrc.CrcFrom | Linear-Sensors/Aurix/KIT_TC277_TFT_SENT_TLE4998S4/TLE4998S4_SENT_Redundancy.c:286-290 | the loop folded over nibbles from a nibble accumulator always gives a value in 0..15 |
| SentCrc.CalculateCrc | Linear-Sensors/Aurix/KIT_TC277_TFT_SENT_TLE4998S4/TLE4998S4_SENT_Redundancy.c:281-292 | starting from seed 0x05, the loop consumes exactly the first 7 bytes whatever `length` is; the result is in 0..15 and is the checksum of those 7 bytes |
| SentCrc.TableInverse | Linear-Sensors/Aurix/KIT_TC277_TFT_SENT_TLE4998S4/TLE4998S4_SENT_Redundancy.c:284 | the lookup table has an inverse on 0..15, so it is a permutation of 0..15 |
| SentCrc.Unstep | Linear-Sensors/Aurix/KIT_TC277_TFT_SENT_TLE4998S4/TLE4998S4_SENT_Redundancy.c:288-289 | undoing a round yields a nibble accumulator |
| SentCrc.StepUndone | Linear-Sensors/Aurix/KIT_TC277_TFT_SENT_TLE4998S4/TLE4998S4_SENT_Redundancy.c:288-289 | a round can be undone: the accumulator is recovered from the round's result |
| SentCrc.StepInjective | Linear-Sensors/Aurix/KIT_TC277_TFT_SENT_TLE4998S4/TLE4998S4_SENT_Redundancy.c:288-289 | different accumulators stay different after a round with the same nibble |
| SentCrc.StepInjectiveInNibble | Linear-Sensors/Aurix/KIT_TC277_TFT_SENT_TLE4998S4/TLE4998S4_SENT_Redundancy.c:288-289 | different nibbles fed to the same accumulator give different results |
| SentCrc.CrcFromAppend | Linear-Sensors/Aurix/KIT_TC277_TFT_SENT_TLE4998S4/TLE4998S4_SENT_Redundancy.c:286-290 | running the loop over a concatenation is running it over the parts in turn |
| SentCrc.CrcFromInjective | Linear-Sensors/Aurix/KIT_TC277_TFT_SENT_TLE4998S4/TLE4998S4_SENT_Redundancy.c:286-290 | different starting accumulators give different results for every message |
| SentCrc.CrcFromSingle | Linear-Sensors/Aurix/KIT_TC277_TFT_SENT_TLE4998S4/TLE4998S4_SENT_Redundancy.c:288-289 | a one-nibble message is one round |
| SentCrc.CrcFromSnoc | Linear-Sensors/Aurix/KIT_TC277_TFT_SENT_TLE4998S4/TLE4998S4_SENT_Redundancy.c:286-290 | one more nibble at the end is one more round |
| SentCrc.CrcOfAround | Linear-Sensors/Aurix/KIT_TC277_TFT_SENT_TLE4998S4/TLE4998S4_SENT_Redundancy.c:283-290 | the checksum is the rounds before nibble k, the round on nibble k, then the rounds after it |
| SentCrc.SingleNibbleErrorDetected | Linear-Sensors/Aurix/KIT_TC277_TFT_SENT_TLE4998S4/TLE4998S4_SENT_Redundancy.c:283-290 | two messages that differ in exactly one nibble have different checksums |
| SentCrc.CrcVectors | Linear-Sensors/Aurix/KIT_TC277_TFT_SENT_TLE4998S4/TLE4998S4_SENT_Redundancy.c:283-290 | the checksum of seven zero nibbles is 5, and with a final 1 it is 8 |
| SentFrame.FrameCrcVector | Linear-Sensors/Aurix/KIT_TC277_TFT_SENT_TLE4998S4/TLE4998S4_SENT_Redundancy.c:264-273 | the frame 0x123456 with status 0 is checksummed as the message 0, 3, 4, 5, 6, 1, 2, and its recomputed checksum is 1 |
| SentFrame.CanonicalMessage | Linear-Sensors/Aurix/KIT_TC277_TFT_SENT_TLE4998S4/TLE4998S4_SENT_Redundancy.c:264-270 | the message has 7 entries, all of them nibbles, and the status nibble comes first |
| SentFrame.MessageNibbleAt | Linear-Sensors/Aurix/KIT_TC277_TFT_SENT_TLE4998S4/TLE4998S4_SENT_Redundancy.c:265-270 | positions 1..6 of the message hold data nibbles 3, 2, 1, 0, 5, 4 |
| SentFrame.MessagePosition | Linear-Sensors/Aurix/KIT_TC277_TFT_SENT_TLE4998S4/TLE4998S4_SENT_Redundancy.c:265-270 | every data nibble has a position in 1..6 of the message, and NibbleIndex maps it back |
| SentFrame.NibbleIndex | Linear-Sensors/Aurix/KIT_TC277_TFT_SENT_TLE4998S4/TLE4998S4_SENT_Redundancy.c:265-270 | every message position 1..6 holds one of the six data nibbles |
| SentFrame.MessageData | Linear-Sensors/Aurix/KIT_TC277_TFT_SENT_TLE4998S4/TLE4998S4_SENT_Redundancy.c:264-270 | reassembling a message gives a 24-bit data word |
| SentFrame.CanonicalMessageRoundTrip | Linear-Sensors/Aurix/KIT_TC277_TFT_SENT_TLE4998S4/TLE4998S4_SENT_Redundancy.c:264-270 | the message loses nothing of a 24-bit frame: reassembling it gives the data word back |
| SentFrame.MessageDataNibble | Linear-Sensors/Aurix/KIT_TC277_TFT_SENT_TLE4998S4/TLE4998S4_SENT_Redundancy.c:265-270 | each message position is the matching nibble of the reassembled word |
| SentFrame.MessageDataRoundTrip | Linear-Sensors/Aurix/KIT_TC277_TFT_SENT_TLE4998S4/TLE4998S4_SENT_Redundancy.c:264-270 | every 7-nibble message is the message of exactly one status and 24-bit word |
| SentFrame.PayloadRoundTrip | Linear-Sensors/Aurix/KIT_TC277_TFT_SENT_TLE4998S4/TLE4998S4_SENT_Redundancy.c:224-225 | OUT16 is nibbles 0..3 and TEMP8 is nibbles 4..5, which is exactly `data >> 16`; together they rebuild a 24-bit frame |
| SentFrame.DataNibbleErrorDetected | Linear-Sensors/Aurix/KIT_TC277_TFT_SENT_TLE4998S4/TLE4998S4_SENT_Redundancy.c:264-273 | a frame with one corrupted data nibble gets a different recomputed checksum |
| SentFrame.StatusNibbleErrorDetected | Linear-Sensors/Aurix/KIT_TC277_TFT_SENT_TLE4998S4/TLE4998S4_SENT_Redundancy.c:263-273 | a frame with a corrupted status nibble gets a different recomputed checksum, because the status is part of the message |
| SentReceive.BumpIfCount | Linear-Sensors/Aurix/KIT_TC277_TFT_SENT_TLE4998S4/TLE4998S4_SENT_Redundancy.c:102-105 | one flag test bumps its own counter by one when the flag is set and changes no other counter |
| SentReceive.TallyOverCount | Linear-Sensors/Aurix/KIT_TC277_TFT_SENT_TLE4998S4/TLE4998S4_SENT_Redundancy.c:102-190 | testing a list of distinct flags in turn bumps a counter exactly when its flag is listed and set |
| SentReceive.HandlerOrderComplete | Linear-Sensors/Aurix/KIT_TC277_TFT_SENT_TLE4998S4/TLE4998S4_SENT_Redundancy.c:102-190 | the handler tests every one of the ten fault flags |
| SentReceive.HandlerOrderDistinct | Linear-Sensors/Aurix/KIT_TC277_TFT_SENT_TLE4998S4/TLE4998S4_SENT_Redundancy.c:102-190 | the handler tests each fault flag once |
| SentReceive.TalliedIsPass | Linear-Sensors/Aurix/KIT_TC277_TFT_SENT_TLE4998S4/TLE4998S4_SENT_Redundancy.c:102-190 | the error branch is the pass over RBI, TBI, FRI, FDI, NNI, NVI, CRCI, WSI, SCRI, WDI in that order |
| SentReceive.TalliedCount | Linear-Sensors/Aurix/KIT_TC277_TFT_SENT_TLE4998S4/TLE4998S4_SENT_Redundancy.c:94-190 | each set fault flag bumps its own counter by one modulo 2^32, and a clear flag leaves its counter alone, whatever the other flags |
| SentReceive.TalliedChanges | Linear-Sensors/Aurix/KIT_TC277_TFT_SENT_TLE4998S4/TLE4998S4_SENT_Redundancy.c:94-190 | a counter changes if and only if its flag is set |
| SentReceive.DriftAndCrcErrorScenario | Linear-Sensors/Aurix/KIT_TC277_TFT_SENT_TLE4998S4/TLE4998S4_SENT_Redundancy.c:131-161 | an event with only FDI and CRCI set bumps exactly the FDI and CRCI counters |
| SentReceive.NoFaultNoChange | Linear-Sensors/Aurix/KIT_TC277_TFT_SENT_TLE4998S4/TLE4998S4_SENT_Redundancy.c:94 | with no fault flag set, no counter changes |
| SentReceive.ErrorCounters.constructor | Linear-Sensors/Aurix/KIT_TC277_TFT_SENT_TLE4998S4/TLE4998S4_SENT_Redundancy.c:62 | the counters start at zero |
| SentReceive.ErrorCounters.CountFault | Linear-Sensors/Aurix/KIT_TC277_TFT_SENT_TLE4998S4/TLE4998S4_SENT_Redundancy.c:102-105 | one `if (flag) counter++` updates the counters in place |
| SentReceive.ErrorCounters.Tally | Linear-Sensors/Aurix/KIT_TC277_TFT_SENT_TLE4998S4/TLE4998S4_SENT_Redundancy.c:94-191 | the error branch leaves the counters as the pass over the ten flags gives them |
| SentReceive.FilledMessage | Linear-Sensors/Aurix/KIT_TC277_TFT_SENT_TLE4998S4/TLE4998S4_SENT_Redundancy.c:259-270 | the array filled entry by entry holds the message status, n3, n2, n1, n0, n5, n4 |
| SentReceive.SentData.constructor | Linear-Sensors/Aurix/KIT_TC277_TFT_SENT_TLE4998S4/TLE4998S4_SENT_Redundancy.c:61 | the session data starts all zero |
| SentReceive.SentData.CrcCalculation | Linear-Sensors/Aurix/KIT_TC277_TFT_SENT_TLE4998S4/TLE4998S4_SENT_Redundancy.c:257-274 | stores the received checksum and the checksum of [status, n3, n2, n1, n0, n5, n4], and changes no other field |
| SentReceive.InterruptHandler | Linear-Sensors/Aurix/KIT_TC277_TFT_SENT_TLE4998S4/TLE4998S4_SENT_Redundancy.c:86-254 | each set fault flag bumps exactly its own counter, and nothing changes on a zero status; on RSI it stores data, status, OUT16 (low 16 bits) and TEMP8 (`data >> 16`), the received and recomputed checksums, and bumps both frame counters; without RSI the session data is unchanged |
| SentRedundancy.WarmUpOnlyDrivesD106 | Linear-Sensors/Aurix/KIT_TC277_TFT_SENT_TLE4998S4/TLE4998S4_SENT_Redundancy.c:417-420 | while fewer than 3 frames have arrived, a call drives D106 low and leaves the settling counter, the alarm and D109 alone |
| SentRedundancy.SettlingOnlyCounts | Linear-Sensors/Aurix/KIT_TC277_TFT_SENT_TLE4998S4/TLE4998S4_SENT_Redundancy.c:421-424 | after warm-up and before the window is over, a call counts itself, drives D109 low and leaves the alarm and D106 alone |
| SentRedundancy.MonitoringDecides | Linear-Sensors/Aurix/KIT_TC277_TFT_SENT_TLE4998S4/TLE4998S4_SENT_Redundancy.c:425-436 | once settled, the alarm is set if and only if the checksums differ; a mismatch drives D109 high and toggles D106, and a match drives D106 high and toggles D109 |
| SentRedundancy.VerdictIsFrameLocal | Linear-Sensors/Aurix/KIT_TC277_TFT_SENT_TLE4998S4/TLE4998S4_SENT_Redundancy.c:425-436 | the verdict depends only on the current checksum pair, not on the history |
| SentRedundancy.CheckKeepsValid | Linear-Sensors/Aurix/KIT_TC277_TFT_SENT_TLE4998S4/TLE4998S4_SENT_Redundancy.c:415-436 | the settling counter never passes 3 and never decreases, and the alarm only changes once settled |
| SentRedundancy.RunIgnoreCount | Linear-Sensors/Aurix/KIT_TC277_TFT_SENT_TLE4998S4/TLE4998S4_SENT_Redundancy.c:415-424 | over any sequence of calls, the settling counter is the number of calls made after warm-up, capped at 3 |
| SentRedundancy.RunQuietWhileSettling | Linear-Sensors/Aurix/KIT_TC277_TFT_SENT_TLE4998S4/TLE4998S4_SENT_Redundancy.c:415-424 | the alarm keeps its value until more than three calls have come after warm-up |
| SentRedundancy.RunAlarmFollowsLastFrame | Linear-Sensors/Aurix/KIT_TC277_TFT_SENT_TLE4998S4/TLE4998S4_SENT_Redundancy.c:421-436 | after the window, the alarm after a sequence of calls is set if and only if the last call's checksums differ |
| SentRedundancy.StartUpScenario | Linear-Sensors/Aurix/KIT_TC277_TFT_SENT_TLE4998S4/TLE4998S4_SENT_Redundancy.c:415-436 | with one call per frame: frames 1–2 are warm-up, frames 3–5 settle, a corrupted frame 6 raises the alarm and a good frame 7 clears it |
| SentRedundancy.RedundancyMonitor.constructor | Linear-Sensors/Aurix/KIT_TC277_TFT_SENT_TLE4998S4/TLE4998S4_SENT_Redundancy.c:383-396 | settling counter 0, no alarm, both LED pins high (off) |
| SentRedundancy.RedundancyMonitor.CheckRedundancy | Linear-Sensors/Aurix/KIT_TC277_TFT_SENT_TLE4998S4/TLE4998S4_SENT_Redundancy.c:413-437 | a call updates the settling counter, the alarm and the pin levels in place, as the three-stage state machine prescribes |
| Kp467.Commands | Pressure-Sensors/ModusToolBox/KP467/main.c:287-290 | a read sends four commands |
| Kp467.ReplyTo | Pressure-Sensors/ModusToolBox/KP467/main.c:287-290 | the answer to one of the first three commands of a read is the reply received while the next command goes out |
| Kp467.RepliesOfRead | Pressure-Sensors/ModusToolBox/KP467/main.c:287-290 | the answers to the ID, pressure and temperature commands are replies 1, 2 and 3, because the commands are pairwise different |
| Kp467.CommandsIdentifyRead | Pressure-Sensors/ModusToolBox/KP467/main.c:33-40 | the four commands of a read are pairwise different, and each resolution has its own pressure and temperature commands |
| Kp467.Bit | Pressure-Sensors/ModusToolBox/KP467/main.c:221 | `(w >> i) & 0x01` is 0 or 1 |
| Kp467.Parity | Pressure-Sensors/ModusToolBox/KP467/main.c:217-224 | the parity is 0 or 1 |
| Kp467.CheckParity | Pressure-Sensors/ModusToolBox/KP467/main.c:217-224 | returns the number of set bits in positions 0..14, modulo 2 |
| Kp467.SameBitsSameCount | Pressure-Sensors/ModusToolBox/KP467/main.c:220-222 | words that agree on the counted bits give the same count |
| Kp467.FlipOneBit | Pressure-Sensors/ModusToolBox/KP467/main.c:221 | XOR with `1 << k` flips bit k and no other |
| Kp467.FlipChangesCount | Pressure-Sensors/ModusToolBox/KP467/main.c:220-222 | flipping a counted bit moves the count by exactly one |
| Kp467.StepFlipsParity | Pressure-Sensors/ModusToolBox/KP467/main.c:223 | a count that moves by one changes its value modulo 2 |
| Kp467.ParityIgnoresBit15 | Pressure-Sensors/ModusToolBox/KP467/main.c:220-223 | bit 15 never affects the parity |
| Kp467.SingleBitErrorDetected | Pressure-Sensors/ModusToolBox/KP467/main.c:220-223 | flipping any one bit in positions 0..14 flips the parity |
| Kp467.MeasurementField | Pressure-Sensors/ModusToolBox/KP467/main.c:248 | the field after dropping the parity bit is below 2^10, 2^12 or 2^14 for its resolution (also lines 254, 260, 266, 272, 278) |
| Kp467.Diag | Pressure-Sensors/ModusToolBox/KP467/main.c:295 | DIAG is below 2^5, 2^3 or 2^1 for its resolution (also lines 315, 335) |
| Kp467.DiagIsTop | Pressure-Sensors/ModusToolBox/KP467/main.c:295 | DIAG is the top of the word: the mask keeps everything the shift leaves (also lines 315, 335) |
| Kp467.WordLayout | Pressure-Sensors/ModusToolBox/KP467/main.c:292-295 | a word is DIAG bits on top, the measurement field below them and the parity bit at the bottom, with no gaps or overlaps |
| Kp467.FieldsRoundTrip | Pressure-Sensors/ModusToolBox/KP467/main.c:292-295 | any DIAG value, field value and parity bit that fit are read back from the word they make |
| Kp467.FieldsIgnoreParityBit | Pressure-Sensors/ModusToolBox/KP467/main.c:248 | the parity bit never changes the measurement field or DIAG |
| Kp467.PhaseTwoCount | Pressure-Sensors/ModusToolBox/KP467/main.c:408 | the phase-2 count never exceeds 0x7FFF |
| Kp467.PhaseTwoCountIsShift | Pressure-Sensors/ModusToolBox/KP467/main.c:408 | the count is the word shifted right by one, so the parity bit never affects it |
| Kp467.JoinSplit | Pressure-Sensors/ModusToolBox/KP467/main.c:208-214 | joining the two bytes sent, high byte first, gives the word back |
| Kp467.SplitJoin | Pressure-Sensors/ModusToolBox/KP467/main.c:208-214 | splitting a joined word gives the two bytes back |
| Kp467.ReadingCounter.constructor | Pressure-Sensors/ModusToolBox/KP467/main.c:285 | the counter starts at the caller's value |
| Kp467.ReadingCounter.ReadSensor | Pressure-Sensors/ModusToolBox/KP467/main.c:285-303 | given the four replies to the commands of the read, a reading is a measurement if and only if the answers to the pressure and the temperature command both have parity 1; its ID is the answer to the ID command, and its fields and DIAG are taken from the pressure and temperature answers; otherwise it is a parity error; either way it carries the old counter, and the counter goes up by one (also lines 305-343) |

## Left out

- Peripheral and pin set-up (`initSentCh0bSentMode`, `initSENTmoduleForTle4998`, `initLED_ALARM`, `initModules`) is left out. It is register configuration through vendor calls, and `SENT_TICK_TIME` is floating point. Only the pin levels that `initLED_ALARM` leaves are kept, as the monitor's initial state.
- The ISR wrapper `channel0SENTisr` is left out. The handler is called directly with `g_dataTle4998`, so the session data the handler writes and the one `crcCalculation` writes are the same object.
- Reading and clearing the interrupt status, reading the frame and reading the received checksum are hardware accesses. They become the handler's parameters. The `channelId` argument of `crcCalculation` only selects that read, so it is dropped.
- The no-op RDI and TDI branches and the serial-message read under SDI are left out. They change no state of the model.
- Sharing `g_dataTle4998` between the interrupt and the foreground check is not modelled. That is concurrency; each handler run and each check is one atomic step.
- Only the `.B` bitfield view of the interrupt status is modelled. Its `.U` tests are the predicates `AnySet` (some flag) and `AnyError` (some fault flag). Any status bits outside the fourteen named flags are not represented.
- KP467 SPI transfers and the busy-wait are left out. The bytes and words they carry become parameters. `SplitWord` and `JoinBytes` keep the byte order of `spi_send_command`.
- The UART menu, `printf`, `print_diag_bits` and `print_u16_binary` are left out. They are output only.
- The KP467 pressure and temperature conversions are left out because they are floating point. `Reading` carries the integer field each conversion starts from.
- The KP467 low-power demo is floating point and pin I/O, so it is left out except the phase-2 count.
- `Angle-Sensors/Motix/PWM/main.c` is not part of this model. Its state and formulas are floating point, and its capture logic is timer-register access.
