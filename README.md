# HidProxWeigand in Dafny

This project models the core of the HidProxWeigand Arduino library. The library
reads HID proximity cards from one or more Wiegand readers. Each reader has two
data lines:

- A falling edge on DATA0 is a 0 bit. A falling edge on DATA1 is a 1 bit.
- Each edge runs a pulse handler (`ISR_Data0` / `ISR_Data1`). The handler
  records the bit in the reader's `ProxReaderInfo` record and restarts an
  inactivity countdown (`wiegandCounter`, 3000 passes).
- The sketch calls `HidProxWeigandClass::loop` from its main loop. Each call
  makes one pass over the readers:
  - it counts each reader's wait down and marks its frame done when the wait
    runs out;
  - it decodes a completed frame by its exact length, into a facility code and
    a card code:

    | length | format | facility bits | card bits |
    |---|---|---|---|
    | 35 | HID Corporate 1000 | [2,14) | [14,34) |
    | 26 | Wiegand | [1,9) | [9,25) |
    | 32 | Wiegand | [4,16) | [16,32) |

    Any other length is flagged as unsupported.
  - it calls the reader's handler, if it has one;
  - it clears the frame.
- `addReader` registers readers up to the board's `SUPPORTED_READERS`. That
  number is 3, 1 or 2 for the AVR families and 0, meaning no limit, elsewhere.
  Past the limit, `addReader` returns NULL.

The model follows the source's own form:

- **Value layer.**
  - `WiegandConfig`: the constants and the board table.
  - `BitField`: big-endian bit values.
  - `CardFormat`: the format table, plus decoding as a pure function with an
    encoder as its partner.
  - `ReaderSpec`: one reader as a state machine on values. It covers:
    - the two pulse handlers;
    - one pass of `loop` over the reader (`Step`);
    - runs of several passes;
    - one pass over a whole registry (`Scan`).
- **Imperative layer.**
  - `ProxReader.Reader` is a class with the record's fields and its
    100-cell `databits` array. The pulse handlers and the parts of `loop`
    are methods that update it in place. The shift-or field extraction and
    the buffer-clearing loop keep their loops. Each method is proved to
    follow the value layer.
  - `ReaderRegistry.Registry` holds the readers in a sequence. `AddReader`,
    `Loop`, and `Pulse0`/`Pulse1` (a reader's interrupt handlers run between
    two passes) are proved against the value layer. A ghost map keeps the
    readers and their buffers apart, so pulsing or polling one reader
    changes no other.
  - The card-read handler is the registry's `log`. Each call appends the
    reader's position, the handler, the frame length, both codes and the
    unsupported flag.
- `LegacyHeader` models the older header HidProxWeigand.h, which
  HidProxWeigand.cpp includes. It has its own constants, board table,
  `ProxReaderInfo` without `cardUnsupported`, and pulse handlers.
  - The cpp uses `CARD_FORMAT_WIEGAND_32` and `cardUnsupported`, which only
    the newer header src/HidProxWiegand.h defines. So the main model takes
    its constants and fields from the newer header.
  - The pulse handlers of both headers are proved equal on the model's
    state.

Assumptions made explicit:

- **Zero-filled memory.** `addReader` takes its reader from
  `malloc`/`realloc`, which runs no constructor. `Reader.FromZeroedMemory`
  states that this memory is taken to be zero-filled. Only the reset after a
  decoded frame actually zeroes the buffer.
- **Buffer invariant.** Between steps, every cell of the buffer is 0 or 1, and
  every cell at or beyond `bitCount` is 0.
- **Countdown invariant.** A reader that is not done still has at least one
  pass to wait. This is what keeps the `uint16_t` counter from wrapping.

## Model

| member | source | states |
|---|---|---|
| WiegandConfig.SupportedReaders | src/HidProxWiegand.h:22-36 | the reader cap is 0 exactly for boards outside the three AVR families; otherwise it is half the board's interrupt lines (3, 1 or 2), never above 3 |
| WiegandConfig.HeaderConstants | src/HidProxWiegand.h:17-21 | `MAX_READ_BITS` is 100, the wait 3000, the formats 35, 26 and 32; a full buffer's count fits the 8-bit `bitCount` (`MaxBitCount` is 255, its largest value, src/HidProxWiegand.h:87) and the wait fits the 16-bit counter |
| CardFormat.SupportedLengths | HidProxWeigand.cpp:95-127 | `IsSupportedLength` holds exactly for 35, 26 and 32, the lengths the if-chain names; every such frame fits the 100-cell buffer |
| BitField.BitsValue | HidProxWeigand.cpp:135-144 | the big-endian value of n bits is below 2^n |
| BitField.ShiftInAccumulated | HidProxWeigand.cpp:136-137 | one `<<= 1; \|= bit` step on an accumulator that began at `acc` keeps it equal to `acc` shifted past the bits read plus their big-endian value |
| BitField.ToBitsRoundTrip | HidProxWeigand.cpp:135-144 | reading back the bits written for a value that fits the field width gives the value |
| BitField.BitsValueRoundTrip | HidProxWeigand.cpp:135-144 | writing back the value read from a bit field at the same width gives the field |
| CardFormat.LayoutFor | HidProxWeigand.cpp:95-130 | a layout exists exactly for lengths 35, 26 and 32; its ranges are ordered, lie inside the frame, and are at most 12 and 20 bits wide |
| CardFormat.DecodeFrame | HidProxWeigand.cpp:89-148 | the frame is unsupported exactly when its length is not 35, 26 or 32, and both codes are then 0; otherwise each code is below 2 to the power of its field width |
| CardFormat.EncodeFrame | HidProxWeigand.cpp:95-124 | the synthetic frame for a format has exactly the format's length and holds only bits |
| CardFormat.DecodedCodesFit | src/HidProxWiegand.h:77-82 | decoded codes fit the 32-bit `unsigned long` fields; a 26-bit frame gives facility at most 255 and card at most 65535, a 35-bit frame 4095 and 1048575, a 32-bit frame 4095 and 65535 |
| CardFormat.DecodeReadsOnlyFields | HidProxWeigand.cpp:133-144 | two buffers that agree on the two field ranges decode alike; no other bit is read |
| CardFormat.Wiegand26IgnoresParityBits | HidProxWeigand.cpp:105-114 | in a 26-bit frame, bits 0 and 25 (the Wiegand parity positions) do not affect the result; there is no parity check |
| CardFormat.DecodeEncode | HidProxWeigand.cpp:95-145 | decoding the frame built from codes that fit their fields gives back those codes, flagged supported |
| CardFormat.EncodeDecode | HidProxWeigand.cpp:95-145 | re-encoding the codes decoded from a buffer reproduces both of the buffer's field ranges |
| ReaderSpec.Registered | HidProxWeigand.cpp:62-66 | a newly added reader satisfies the reader invariant, with no bits, a zero buffer, not done, and the full wait ahead |
| ReaderSpec.OnData0 | src/HidProxWiegand.h:107-111 | a 0 pulse keeps the invariant, adds one to the count, leaves the buffer as it was, clears done and restarts the wait |
| ReaderSpec.OnData1 | src/HidProxWiegand.h:116-121 | a 1 pulse keeps the invariant, writes 1 at the old count and changes no other cell, adds one to the count, clears done and restarts the wait |
| ReaderSpec.Feed | src/HidProxWiegand.h:107-121 | pulsing a frame keeps the invariant and adds its length to the count; a nonempty frame leaves the reader not done with the full wait ahead |
| ReaderSpec.FeedWritesFrame | src/HidProxWiegand.h:107-121 | after the pulses of a frame, the buffer holds the earlier bits, then the frame, then zeros; pins, handler and unsupported flag are kept |
| ReaderSpec.Tick | HidProxWeigand.cpp:82-86 | the countdown keeps the reader invariant |
| ReaderSpec.Process | HidProxWeigand.cpp:88-160 | the frame handling after the countdown keeps the reader invariant |
| ReaderSpec.Step | HidProxWeigand.cpp:78-160 | one pass over a reader keeps the reader invariant |
| ReaderSpec.StepCountsDown | HidProxWeigand.cpp:82-86 | a reader not done waits one pass less and becomes done exactly when its counter was 1; a done reader's counter is frozen |
| ReaderSpec.StepWithoutFrame | HidProxWeigand.cpp:88-90 | a pass that does not find pending bits with the wait over calls nothing and changes only the counter and the done flag |
| ReaderSpec.StepClearsFrame | HidProxWeigand.cpp:147-159 | a pass that completes a frame leaves count 0 and an all-zero buffer, sets unsupported exactly for an unrecognised length, and keeps pins and handler |
| ReaderSpec.StepCallsHandler | HidProxWeigand.cpp:147-151 | the handler is called exactly when a frame completes and a handler is set; it sees the reader's position, the frame length and the decoded codes and flag |
| ReaderSpec.Run | HidProxWeigand.cpp:74-162 | repeated passes keep the invariant and make at most one handler call per pass |
| ReaderSpec.QuietPasses | HidProxWeigand.cpp:82-86 | while the wait has not run out, passes only lower the counter and call nothing |
| ReaderSpec.BitArrivalRestartsWait | src/HidProxWiegand.h:107-121 | after a pulse, the frame stays not done and unreported for 2999 passes and completes at the 3000th |
| ReaderSpec.IdlePassesNeverFire | HidProxWeigand.cpp:88-90 | any number of passes over a reader without bits calls nothing and changes only the counter and the done flag |
| ReaderSpec.FrameReportedAfterWait | HidProxWeigand.cpp:82-159 | a frame pulsed into an idle reader is reported, decoded, exactly 3000 passes later and not before; the reader is then empty with a zero buffer |
| ReaderSpec.EncodedCardReported | HidProxWeigand.cpp:95-151 | a card of a recognised format pulsed into an idle reader reaches the handler once, with exactly its facility and card codes |
| ReaderSpec.Scan | HidProxWeigand.cpp:77-161 | a partial pass over the registry keeps its size and makes at most one call per reader polled |
| ReaderSpec.ScanNext | HidProxWeigand.cpp:77-78 | the pass advances one reader at a time: the next reader is still in its starting state, only it changes, and only its call is appended |
| ReaderSpec.ScanStates | HidProxWeigand.cpp:77-161 | after the pass, every polled reader is in the state its own step gives |
| ReaderSpec.ScanEventsFromSteps | HidProxWeigand.cpp:147-151 | every handler call of a pass is the call of some polled reader's step |
| ReaderSpec.ScanEventsComplete | HidProxWeigand.cpp:147-151 | every polled reader whose step calls its handler has that call among the pass's calls |
| ReaderSpec.ScanEventsOrdered | HidProxWeigand.cpp:77-78 | the calls of a pass come in strictly increasing reader position, so at most one per reader |
| ProxReader.Reader.constructor | src/HidProxWiegand.h:126-134 | the default constructor sets a NULL handler, both flags false, both codes, the count and the counter 0, and leaves pins and buffer unassigned |
| ProxReader.Reader.FromZeroedMemory | HidProxWeigand.cpp:40-60 | a slot from malloc/realloc is assumed zero-filled: every field 0, false or NULL, every buffer cell 0 |
| ProxReader.Reader.Attach | HidProxWeigand.cpp:62-66 | setting the pins and handler and loading the counter with the wait gives the registered reader state |
| ProxReader.Reader.IsrData0 | src/HidProxWiegand.h:107-111 | follows `OnData0`: count plus one, buffer unchanged, not done, full wait |
| ProxReader.Reader.IsrData1 | src/HidProxWiegand.h:116-121 | follows `OnData1`: 1 written at the old count, no other cell changed, count plus one, not done, full wait |
| ProxReader.Reader.Countdown | HidProxWeigand.cpp:82-86 | the in-place countdown follows `Tick` |
| ProxReader.Reader.Accumulate | HidProxWeigand.cpp:135-144 | the shift-or loop over a bit range returns the start value shifted past the range plus the range's big-endian value; from 0, exactly that value |
| ProxReader.Reader.SelectFormat | HidProxWeigand.cpp:91-130 | unsupported exactly when the count is not 35, 26 or 32 (ranges then 0); otherwise the chosen ranges are the format's layout |
| ProxReader.Reader.Decode | HidProxWeigand.cpp:132-148 | the codes and the unsupported flag left in the record are those `DecodeFrame` gives for the buffer and count |
| ProxReader.Reader.Reset | HidProxWeigand.cpp:153-159 | count and both codes become 0 and all 100 buffer cells 0 |
| ProxReader.Reader.ProcessFrame | HidProxWeigand.cpp:88-160 | the in-place frame handling follows `Process`, including the handler call it makes |
| ProxReader.Reader.Poll | HidProxWeigand.cpp:78-160 | one pass over the record follows `Step`: new state and handler call |
| ReaderRegistry.Registry.constructor | HidProxWeigand.cpp:19-23 | a new manager holds no reader and takes the board's cap |
| ReaderRegistry.Registry.AddReader | HidProxWeigand.cpp:33-72 | returns NULL exactly when the cap is nonzero and would be exceeded, and then changes nothing; otherwise appends a fresh reader in the registered state with the given pins and handler, at position old count, earlier readers untouched; the new reader and its buffer are fresh objects |
| ReaderRegistry.Registry.Append | HidProxWeigand.cpp:62-70 | the reader takes the next position and all earlier readers and their states are kept |
| ReaderRegistry.Registry.Pulse0 | src/HidProxWiegand.h:107-111 | the DATA0 interrupt of one registered reader between passes: that reader's state follows `OnData0`, every other reader and the log are unchanged |
| ReaderRegistry.Registry.Pulse1 | src/HidProxWiegand.h:116-121 | the DATA1 interrupt of one registered reader between passes: that reader's state follows `OnData1`, every other reader and the log are unchanged |
| ReaderRegistry.Registry.PollReader | HidProxWeigand.cpp:78-160 | the reader at the position takes one step; every other reader's state is unchanged |
| ReaderRegistry.Registry.PollAt | HidProxWeigand.cpp:77-160 | one iteration of the loop advances the pass by one reader and appends that reader's call to the log |
| ReaderRegistry.Registry.Loop | HidProxWeigand.cpp:74-162 | the readers and their states after the call are those of a full pass, and the log gains exactly the pass's handler calls, in reader order |
| LegacyHeader.LegacyFormats | HidProxWeigand.h:16-19 | the older header's buffer size and wait equal the newer one's; its formats are exactly the newer ones except 32 bits |
| LegacyHeader.LegacySupportedReaders | HidProxWeigand.h:20-34 | the older header's reader cap table equals the newer one's |
| LegacyHeader.LegacyReader.constructor | HidProxWeigand.h:119-126 | NULL handler, flag false, codes, count and `weigandCounter` 0; pins and buffer unassigned |
| LegacyHeader.LegacyReader.IsrData0 | HidProxWeigand.h:100-104 | count plus one, buffer unchanged, not done, `weigandCounter` reloaded; the same as the newer header's 0 pulse |
| LegacyHeader.LegacyReader.IsrData1 | HidProxWeigand.h:109-114 | 1 written at the old count, no other cell changed, count plus one, not done, `weigandCounter` reloaded; the same as the newer header's 1 pulse |

## Left out

- `HidProxWeigand_AttachReaderInterrupts`, `attachInterrupt` and `pinMode` (HidProxWeigand.cpp:14-17, 67-68) are platform I/O and are not modelled.
- The `malloc`/`realloc` size bookkeeping is not modelled. This covers `_mallocSize`, `_initialCapacity`, the `short` size arithmetic and allocation failure (HidProxWeigand.cpp:40-60). Readers are objects in a sequence indexed by position.
- `setPosition`/`getCurrentReader` pointer arithmetic is not modelled. A `realloc` that moves earlier readers, which invalidates pointers returned before, is not captured: returned readers are stable object references.
- Interrupts preempting `loop` are not modelled. Pulse handlers are atomic method calls between whole passes.
- The body of the user's handler is not modelled. The handler is an identifier, and a call is an entry appended to `log` with the values the handler would read from the record. The handler cannot re-enter `loop`.
- The `#if` board detection is a `Board` parameter of the registry's constructor.
- The global instance (HidProxWeigand.cpp:164) is not modelled.
- ProxReader.Reader.IsrData0: requires `bitCount < 255`. The source does not guard against wrap-around of the 8-bit `bitCount`, and the model does not model that wrap.
- LegacyHeader.LegacyReader.IsrData0: requires `bitCount < 255`, for the same reason (HidProxWeigand.h:101).
- ReaderRegistry.Registry.Pulse0: requires `bitCount < 255` of the pulsed reader, for the same reason.
- ProxReader.Reader.IsrData1: requires `bitCount < 100`. The source writes `databits[bitCount]` with no bound check (src/HidProxWiegand.h:117), and a write past the buffer is undefined behaviour.
- LegacyHeader.LegacyReader.IsrData1: requires `bitCount < 100`, for the same reason (HidProxWeigand.h:110).
- ReaderRegistry.Registry.Pulse1: requires `bitCount < 100` of the pulsed reader, for the same reason.
- ProxReader.Reader.Countdown: requires that a reader not done has a counter of at least 1. With counter 0 and not done, the source's `--` would wrap the `uint16_t` to 65535. Every reader that `addReader` produces satisfies the requirement. A record that was default-constructed (counter 0, not done) and polled is not modelled.
- ProxReader.Reader.FromZeroedMemory: memory from `malloc`/`realloc` is assumed to be zero-filled. The source does not ensure this.
- The `unsigned long` codes are unbounded naturals. `CardFormat.DecodedCodesFit` shows they never exceed 32 bits, so the source's codes never wrap.
- There is no parity check. The source has none either.
- The handler receives the `ProxReaderInfo*` record (src/HidProxWiegand.h:102, HidProxWeigand.cpp:150). The model records the values it would read there: reader position, frame length, both codes and `cardUnsupported`.
- The reset at HidProxWeigand.cpp:153-159 does not clear `cardUnsupported`, so the model keeps its value until the next decoded frame.
