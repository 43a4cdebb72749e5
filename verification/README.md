# embeNET node port for the CC1312R (868 MHz): a Dafny model

This project models the three stateful pieces of the embeNET node port:

- **The radio transceiver** (`embenet_radio.c`). This is the core. `Radio.RadioPort` is one class holding the file's globals:
  - the `idle` flag;
  - the outstanding transmit and receive command handles;
  - the transmit buffer and its packet length;
  - the synthesiser (FS) commands of both chains, as `Radio.FsCommand` objects;
  - the hardware's receive-entry buffer, and the holding buffer with its length and RSSI;
  - the registered MAC callbacks and their context.

  Whatever the vendor RF driver decides arrives as a method parameter: the handle returned by posting a chain, the data command's status, the event mask of a callback, and the counter reading. Two ghost logs record what the port does:
  - the calls it makes on the driver (`driverLog`);
  - the start-of-frame and end-of-frame callbacks it makes into the MAC, with their timestamps (`macLog`).
- **The time source** (`embenet_timer.c`), module `Timer`:
  - the tick/microsecond conversions (3 ticks = 4 µs) as pure 32-bit functions;
  - the guard-band decision of `SetCompare` as a pure function;
  - the timer descriptor (callback, context, handle) as the class `Timer.TimerPort`, with a ghost log of hardware calls and callback invocations.
- **The nestable critical section** (`embenet_critical_section.c`), module `CriticalSection`:
  - the class `IrqGuard` over `irqNestCounter`, `previousIrqState` and `key`, with a ghost log of `HwiP_disable`/`HwiP_restore` calls;
  - its methods are specified by the pure steps `EnterStep` and `ExitStep`;
  - the properties of whole call sequences are proved over `Run`.

`PortTypes` holds the C integer types and the wrap-around arithmetic. `RadioScenarios` holds MAC-side call sequences with what each is proved to produce.

The model follows the code as written:
- `setChannel` clips the channel and then overwrites it with 0 (`embenet_radio.c:157`). Every channel therefore programs channel 0's setting, `frequency = 863` and `fractFreq = 6500`. That is 863 + 6500/65536 MHz, about 863.099 MHz. The band start of 863.1 MHz is what is meant, but line 160 scales the kHz remainder by 65 instead of 65.536 (`ChannelTunedBelowBandStart`). Without line 157, distinct in-band channels would be tuned apart (`SynthSettingInjective`).
- `GetReceivedFrame` zeroes the held length only when the caller's buffer is too small. A frame that fits is returned again by the next call (`RetrievalIsRepeatable`). It is not a one-shot drain.
- `RxEnable` clears `idle` before it refuses with WrongState. The refusal therefore has a side effect.
- `Idle` flushes the outstanding commands but does not clear their handles. The flushed command's callback is ignored while idle. So after an Idle with a receive outstanding, `RxEnable` keeps answering WrongState, and only `RxNow` re-arms reception (`IdleKeepsReceiveOutstanding`).
- The length check at `embenet_radio.c:317` admits lengths up to the buffer size. The RSSI read at line 319 needs the length to be at most the buffer size minus 2 (`RxGuardWeakerThanReads`). With the assumed maximal PSDU length of 127, the buffer holds 135 bytes, so the check admits lengths 134 and 135, whose RSSI byte lies past the end. The receive handler models every other case as the code does. A successful completion with a length that fails the check (136 to 255) is reported as an empty frame. It requires only that a successful completion does not carry length 134 or 135. The hardware never writes those, since the receive command is configured with `maxPktLen` equal to the maximal PSDU length (line 82).

Some constants are defined in headers that are not part of this model, so their values are assumptions. `EMBENET_RADIO_MAX_PSDU_LENGTH` is assumed to be 127, the IEEE 802.15.4 maximum packet size. The buffer length of 135 and the out-of-range lengths 134 and 135 follow from it. `RF_ALLOC_ERROR` is a distinguished handle value (-2). `RF_TxPowerTable_MIN_DBM` and `RF_TxPowerTable_MAX_DBM` are -128 and 126. The power table's first and last entries are parameters.

## Model

| member | source | states |
|---|---|---|
| PortTypes.Int8Of | embenet_node_port/src/embenet_radio.c:319 | the `(int8_t)` cast of the RSSI byte agrees with the byte modulo 256 and is negative exactly for bytes of 128 and above |
| Timer.TicksToUs | embenet_node_port/src/embenet_timer.c:35-37 | up to the load value, the result is floor(4·ticks/3) and fits 32 bits |
| Timer.TicksToUsWrapsAboveLoad | embenet_node_port/src/embenet_timer.c:35-37 | above the load value 3221225471 the cast to 32 bits wraps the result below its input |
| Timer.UsToTicks | embenet_node_port/src/embenet_timer.c:40-42 | the result is floor(3·us/4), never exceeds its input and always fits 32 bits |
| Timer.ConversionsExactOnMultiples | embenet_node_port/src/embenet_timer.c:35-42 | 3k ticks convert to exactly 4k µs and 4k µs to exactly 3k ticks |
| Timer.TicksToUsMonotone | embenet_node_port/src/embenet_timer.c:35-37 | ticks→µs is monotone up to the load value |
| Timer.UsToTicksMonotone | embenet_node_port/src/embenet_timer.c:40-42 | µs→ticks is monotone |
| Timer.UsRoundTrip | embenet_node_port/src/embenet_timer.c:35-42 | µs→ticks→µs lands in [u−1, u] |
| Timer.TicksRoundTrip | embenet_node_port/src/embenet_timer.c:35-42 | ticks→µs→ticks lands in [t−1, t] up to the load value |
| Timer.Ahead | embenet_node_port/src/embenet_timer.c:93 | the forward distance d from now to a target satisfies now + d = target modulo 2^32 |
| Timer.GuardAdmitsIff | embenet_node_port/src/embenet_timer.c:93 | the wrap-around comparison admits a deadline exactly when it lies at least 40 and fewer than 40 + 0x7FFFFFFF ticks ahead |
| Timer.CompareDecision | embenet_node_port/src/embenet_timer.c:85-98 | the match register gets UsToTicks(compareValue) exactly when that deadline is 40 to 40 + 0x7FFFFFFF ticks ahead; otherwise the interrupt fires at once |
| Timer.GuardBoundary | embenet_node_port/src/embenet_timer.c:93-97 | now + 40 is programmed; now + 39 fires at once, and so does any deadline 1 to 2^31 − 39 ticks in the past; a deadline 2^31 − 38 ticks in the past is read as far ahead and programmed |
| Timer.GetMaxCompareDuration | embenet_node_port/src/embenet_timer.c:104-106 | the result is 2^31 − 1 |
| Timer.TimerPort.constructor | embenet_node_port/src/embenet_timer.c:26 | the descriptor starts with no callback and a null handle |
| Timer.TimerPort.Init | embenet_node_port/src/embenet_timer.c:46-74 | it tears down any open timer first and stores callback and context; a failed open hangs with a null handle; otherwise it sets the load value, registers the ISR and starts the timer |
| Timer.TimerPort.Deinit | embenet_node_port/src/embenet_timer.c:76-83 | stop/unregister/close happen only when the handle is non-null; the handle ends null, so a second Deinit does nothing |
| Timer.TimerPort.SetCompare | embenet_node_port/src/embenet_timer.c:85-98 | it enables the match interrupt, then does what CompareDecision says: program the match value or force the interrupt pending |
| Timer.TimerPort.ReadCounter | embenet_node_port/src/embenet_timer.c:100-102 | the reading is the free-run ticks in µs, floor(4·ticks/3) up to the load value |
| Timer.TimerPort.IsrHandler | embenet_node_port/src/embenet_timer.c:108-114 | it disables the match interrupt, then invokes the stored callback once with the stored context when the callback is non-null |
| CriticalSection.EnterStep | embenet_node_port/src/embenet_critical_section.c:22-30 | the counter grows by one; the hardware is touched, and the key replaced, exactly when the counter was 0 |
| CriticalSection.ExitStep | embenet_node_port/src/embenet_critical_section.c:32-41 | the counter is never negative afterwards; with previousIrqState 0, a Restore of the stored key happens exactly when the counter ends at 0, an unbalanced Exit at 0 included |
| CriticalSection.NestedEntersQuiet | embenet_node_port/src/embenet_critical_section.c:22-30 | Enters at a positive counter only raise the counter |
| CriticalSection.NestedExitsQuiet | embenet_node_port/src/embenet_critical_section.c:32-41 | Exits that leave the counter positive only lower it |
| CriticalSection.BalancedNesting | embenet_node_port/src/embenet_critical_section.c:22-41 | n ≥ 1 Enters then n Exits make exactly one Disable and one Restore; the Restore gets that Disable's key, and the counter returns to 0 |
| CriticalSection.StepPreservesInv | embenet_node_port/src/embenet_critical_section.c:19-41 | every Enter and Exit keeps the invariant: counter ≥ 0, previousIrqState = 0, masked exactly while the counter is positive, key = latest Disable's key, every Restore paired with the latest Disable |
| CriticalSection.ReachableInv | embenet_node_port/src/embenet_critical_section.c:19-41 | every call sequence from static initialisation reaches a state satisfying that invariant |
| CriticalSection.CounterIsBalance | embenet_node_port/src/embenet_critical_section.c:22-41 | when no prefix has more Exits than Enters, the counter equals Enters minus Exits |
| CriticalSection.IrqGuard.constructor | embenet_node_port/src/embenet_critical_section.c:19-21 | the statics start at zero with no hardware call made |
| CriticalSection.IrqGuard.Enter | embenet_node_port/src/embenet_critical_section.c:22-30 | the new state is EnterStep of the old, and the invariant is kept |
| CriticalSection.IrqGuard.Exit | embenet_node_port/src/embenet_critical_section.c:32-41 | the new state is ExitStep of the old, and the invariant is kept |
| Radio.SynthSetting | embenet_node_port/src/embenet_radio.c:158-160 | for a channel in the band, frequency·1000 + fractFreq/65, decoded with the code's own factor 65, is the channel's centre frequency in kHz |
| Radio.SynthSettingInjective | embenet_node_port/src/embenet_radio.c:158-160 | distinct channels of the band would get distinct settings |
| Radio.ChannelTunedBelowBandStart | embenet_node_port/src/embenet_radio.c:158-160 | the frequency every channel is tuned to lies in [863.099, 863.1) MHz, below the 863.1 MHz band start, because the fraction is scaled by 65 instead of 65.536 |
| Radio.ChannelSetting | embenet_node_port/src/embenet_radio.c:153-161 | every requested channel, clipped or not, yields channel 0's setting (863, 6500) |
| Radio.SetChannel | embenet_node_port/src/embenet_radio.c:153-161 | the FS command is programmed with frequency 863 and fractFreq 6500 whatever the channel |
| Radio.PowerTableKey | embenet_node_port/src/embenet_radio.c:168-177 | the table key is txp inside [first, last], RF_TxPowerTable_MAX_DBM above, RF_TxPowerTable_MIN_DBM below |
| Radio.RxGuardWeakerThanReads | embenet_node_port/src/embenet_radio.c:317-320 | every readable length passes the check, but the check also passes lengths 134 and 135, whose RSSI byte lies outside the buffer; lengths up to the maximal PSDU are readable |
| Radio.ParseRxEntry | embenet_node_port/src/embenet_radio.c:317-320 | the frame read has raw[0] bytes, taken from raw[1..], and its RSSI is the byte after them |
| Radio.RxEntryLayout | embenet_node_port/src/embenet_radio.c:79-82 | the entry has the buffer's length and starts with the payload length |
| Radio.ParseLayoutRoundTrip | embenet_node_port/src/embenet_radio.c:79-82 | reading an entry written as length byte, payload, RSSI byte gives back payload and RSSI |
| Radio.LayoutParseRoundTrip | embenet_node_port/src/embenet_radio.c:317-320 | every readable entry is the layout of the frame read from it, followed by its unused bytes |
| Radio.RadioPort.constructor | embenet_node_port/src/embenet_radio.c:53-142 | static initialisation: the transmit, receive-entry and holding buffers all zero, both FS commands at frequency 0 and fractFreq 0, flags and lengths zero, handles 0 (not yet RF_ALLOC_ERROR), no callbacks, receive entry pending |
| Radio.RadioPort.Init | embenet_node_port/src/embenet_radio.c:185-198 | both handles become RF_ALLOC_ERROR; a failed open aborts; otherwise the radio is idled and Success returned |
| Radio.RadioPort.SetCallbacks | embenet_node_port/src/embenet_radio.c:201-205 | stores both callbacks and the context, and changes nothing else |
| Radio.RadioPort.Deinit | embenet_node_port/src/embenet_radio.c:208-213 | idles and closes only an opened radio; the handle is kept, so a second Deinit closes again |
| Radio.RadioPort.Idle | embenet_node_port/src/embenet_radio.c:216-223 | idle is set, and both flushes are issued with idle already true, then FS-off is posted; the handles are kept; returns Success |
| Radio.RadioPort.SetTxp | embenet_node_port/src/embenet_radio.c:168-179 | applies the power-table entry for the clamped key |
| Radio.RadioPort.TxEnable | embenet_node_port/src/embenet_radio.c:225-239 | clears idle; copies exactly min(psduLen, 127) bytes and sets pktLen to that, leaving the rest of the buffer; applies power and channel 0; returns Success |
| Radio.RadioPort.TxNow | embenet_node_port/src/embenet_radio.c:242-245 | the post result becomes txTransaction; GeneralError iff it is RF_ALLOC_ERROR, else Success; the posted chain carries the prepared payload |
| Radio.RadioPort.RxEnable | embenet_node_port/src/embenet_radio.c:248-256 | clears idle always; WrongState with the RX FS command untouched iff a receive is outstanding, else Success with channel 0 programmed |
| Radio.RadioPort.RxNow | embenet_node_port/src/embenet_radio.c:259-262 | the post result becomes rxTransaction; GeneralError iff it is RF_ALLOC_ERROR, else Success |
| Radio.RadioPort.GetReceivedFrame | embenet_node_port/src/embenet_radio.c:265-274 | a frame longer than the buffer is discarded (length 0, no copy); crcValid iff the length is non-zero; exactly that many bytes are copied; RSSI returned unchanged; a fitting frame stays held |
| Radio.RadioPort.StartContinuousTx | embenet_node_port/src/embenet_radio.c:277-285 | prepares a one-byte zero payload as TxEnable does, runs the test command, returns Success |
| Radio.RadioPort.RxProcess | embenet_node_port/src/embenet_radio.c:303-335 | nothing while idle; on detection, start-of-frame at t − 1620 mod 2^32; a good frame whose length passes the check is held; an RXERR frame, or a good one whose length fails the check, is zeroed; either way the entry is re-armed, the handle cleared and end-of-frame reported at t; other statuses change nothing; other events clear the handle silently |
| Radio.RadioPort.TxProcess | embenet_node_port/src/embenet_radio.c:337-361 | nothing while idle; last-command-done wins and clears the handle, reporting end-of-frame at t + 330 only on PROP_DONE_OK/DONE_OK; command-done reports start-of-frame at the second reading + 550, keeping the handle; other events clear it silently |
| RadioScenarios.ReceptionScenario | embenet_node_port/src/embenet_radio.c:303-335 | a 5-byte frame with RSSI −60 yields start at T0 − 1620 and end at T1, then is retrieved whole with crcValid |
| RadioScenarios.TransmissionScenario | embenet_node_port/src/embenet_radio.c:337-361 | posting [0xAA, 0xBB] sends exactly those bytes with channel 0's setting (863, 6500), about 863.099 MHz; start is reported at the second reading + 550 and end at t + 330 |
| RadioScenarios.OversizedPayloadTruncated | embenet_node_port/src/embenet_radio.c:225-245 | a payload longer than 127 bytes is posted truncated to its first 127 bytes, with Success |
| RadioScenarios.RetrievalIsRepeatable | embenet_node_port/src/embenet_radio.c:265-274 | two retrievals into a large enough buffer return the same frame |
| RadioScenarios.IdleSilencesHandlers | embenet_node_port/src/embenet_radio.c:216-223 | after Idle, any event to either handler changes nothing and calls no MAC callback |
| RadioScenarios.IdleKeepsReceiveOutstanding | embenet_node_port/src/embenet_radio.c:248-256 | after Idle with a receive outstanding, RxEnable answers WrongState yet leaves idle false, and RxNow posts again |

## Left out

- Vendor RF driver internals are not modelled: `RF_open`, `RF_postCmd`, `RF_flushCmd`, `RF_setTxPower`, `RF_TxPowerTable_findValue`, `RF_close`, and command-chain execution in the radio core. Their outcomes are parameters, and their calls are entries of `driverLog`.
- The power table's contents are not in the source files. Only its first and last entries matter to the clamp, and they are parameters. The table is taken to be sorted ascending.
- Interrupt-versus-mainline concurrency around the `volatile idle` flag cannot be expressed in a sequential model. The handlers are ordinary method calls. `Idle` records in its log that idle was already true when each flush was issued.
- `EMBENET_RADIO_GetCapabilities` and `embenet_capabilities.c` are constant tables with no behaviour. The 69-entry channel list matches `BandChannelCount`.
- Radio.RadioPort.RxProcess: a successful completion whose length byte is 134 or 135 is excluded by a precondition. The source's check admits those lengths, but then it reads the RSSI byte past the end of the receive entry, which C leaves undefined.
- Radio.RadioPort.RxProcess: the hardware's own writes to the receive entry's status (finished) are not modelled. The port only ever sets it back to pending.
- Radio.RadioPort.Init: a failed `RF_open` calls the abort handler, which is taken not to return. `None` stands for that.
- Radio.RadioPort.StartContinuousTx: the blocking `RF_runCmd` of the vendor test command is a log entry. The `RF_cmdTxTest` structure it configures is not modelled.
- Radio.RadioPort.RxProcess: the handlers receive the counter reading in microseconds. `EMBENET_TIMER_ReadCounter` itself is `Timer.TimerPort.ReadCounter`.
- Timer.TimerPort.SetCompare: it requires an open timer. Called before a successful Init, the source dereferences a null handle (embenet_timer.c:86, 96); the model does not capture that.
- Timer.TimerPort.ReadCounter: it requires an open timer. Called before a successful Init, the source dereferences a null handle (embenet_timer.c:101).
- Timer.TimerPort.Init: the PRCM clock division, `GPTimerCC26XX` parameters and other hardware setup are not modelled. A failed open's endless loop is the `hung` result.
- Timer: the hardware counter wraps at 3221225472 ticks rather than 2^32. That concerns hardware wrap behaviour; the conversions and the guard are modelled on 32-bit arithmetic as the code computes them.
- CriticalSection.EnterStep: the counter is an unbounded integer; overflow of the C `int` after 2^31 − 1 nested Enters is not modelled.
- CriticalSection.IrqGuard: the interrupt mask itself is seen only through the log of `HwiP_disable`/`HwiP_restore` calls. The keys those calls return are parameters.
- `embenet_aes128.c` is not part of this model: it is a thin wrapper over the AES accelerator, whose cipher is not in the source.
- `embenet_random.c` is not part of this model: it makes TRNG driver calls in a fixed loop and aborts on failure.
- `embenet_eui64.c` is not part of this model: it is a single register read.
