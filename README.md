# LPC peripheral: I/O-cycle decoder, message transport and debug ring

This project models the firmware side of a Low Pin Count (LPC) peripheral, in Dafny.
The peripheral answers host I/O cycles as described in chapter 4 of the Intel Low Pin
Count Interface Specification, Revision 1.1. The model has three parts.

- **The I/O-cycle decoder** (`Lpc`, file `lpc.dfy`). It models `LPC_HandleCycle`, which
  runs once per falling LCLK edge.
  - It samples LFRAME# and the four LAD lines.
  - It detects LFRAME# edges and latches the frame code.
  - It steps a 16-state machine through CYCTYPE + DIR, four ADDR nibbles, DATA, TAR,
    SYNC and TAR back.
  - It drives nibbles on LAD and flips the LAD direction.
  - In SYNC it calls the transport's read or write handler.

  `Edge` specifies one invocation as a function of a `Bus` snapshot. `Bus` holds the
  decoder's globals, the static `lframe`, the driven nibble, the LAD direction, a
  ghost trace of handler calls, and the transport registers. The class `Lpc.Decoder`
  holds the same globals as fields, and its methods are proved against `Edge` and the
  per-state functions.
- **The message transport** (`IoTransmission`, file `io_transmission.dfy`).
  - A 256-byte payload sits at I/O addresses 0x000-0x0FF.
  - The Length, Checksum and Ack registers sit at 0x100, 0x101 and 0x102.
  - The checksum is a running sum modulo 256.
  - `usr_has_control` says whether the application owns the buffer.

  The functions `Write`, `Read`, `GetMessage` and `SetMessage` are the specification. The
  class `Transport` keeps `msg_data` as an `array` and is proved against those functions.
- **The debug ring** (`Debug`, file `debug.dfy`). It is a 100-byte circular buffer with a
  wrapping index. Clearing fills it, saving writes one byte, and returning unrolls it
  oldest first. The class `DebugRing` works in place and is proved against the functions
  `Clear`, `Save` and `Unrolled`.

The lemmas are split by part:

- `lpc_properties.dfy` (`LpcProperties`) holds the per-edge and per-state facts and whole
  I/O write and read cycle traces.
- `io_properties.dfy` (`IoProperties`) holds:
  - the register semantics;
  - the order-independence of the checksum;
  - the host-to-application and application-to-host round trips;
  - the worked examples from the comments of `lpc_io_transmission.c`.
- `debug.dfy` holds the "last 100 bytes saved" property.

The integer types follow `ptypes.h`:

- `ptypes.dfy` (module PTypes) declares `uint8` and `uint16` as bounded `int` subset
  types. The transport and the debug ring use them, which makes the transport's
  modulo-256 checksum sum explicit.
- The decoder works on `bv8` and `bv16`, so its shifts, masks and ORs have C's unsigned
  behaviour, including the 16-bit truncation of `lpc_address <<= 4`.
- The decoder converts between the two representations when it calls the handlers.

## Model

| member | source | states |
|---|---|---|
| Lpc.Drive | lpc.c:153-164 | the nibble driven on LAD by `LPC_Write` is below 16 |
| Lpc.SyncStep | lpc.c:398-434 | the SYNC step keeps the transport registers well formed and never touches the remembered LFRAME# level or the frame code |
| Lpc.Step | lpc.c:282-479 | a state step keeps the transport well formed and leaves LFRAME# and the frame code unchanged |
| Lpc.AddressStep | lpc.c:302-345 | an ADDR step leaves the transport and every field except the address and the state unchanged |
| Lpc.WriteDataStep | lpc.c:349-365 | a write DATA step changes only the data byte and the state |
| Lpc.ReadDataStep | lpc.c:438-452 | a read DATA step changes only the driven nibble and the state |
| Lpc.CycleTypeStep | lpc.c:284-298 | CYCTYPE + DIR changes only the cycle type, the direction and the state |
| Lpc.ControlStep | lpc.c:284-478 | the turn-around, Idle and Abort cases leave the transport, LFRAME# and the frame code unchanged |
| Lpc.Edge | lpc.c:192-480 | one invocation keeps the transport registers well formed |
| Lpc.Decoder.constructor | lpc.c:68-98 | all decoder globals start zero, with the state Idle and `lframe` low |
| Lpc.Decoder.Initialize | lpc.c:113-145 | LPC_Initialize's net effect on the decoder: LAD goes to the host and the state is Idle, with nothing else changed |
| Lpc.Decoder.Write | lpc.c:153-164 | exactly `values & 0xF` is driven on LAD and nothing else changes; the state methods drive LAD only through it |
| Lpc.Decoder.TurnAroundToPeripheral | lpc.c:166-171 | LAD becomes driven by the peripheral and nothing else changes |
| Lpc.Decoder.TurnAroundToHost | lpc.c:173-178 | LAD goes back to the host and nothing else changes |
| Lpc.Decoder.GetState | lpc.c:180-184 | returns the current state, changing nothing; the state switch dispatches on its result |
| Lpc.Decoder.SetState | lpc.c:186-190 | the state becomes the argument and nothing else changes; every state change goes through it |
| Lpc.Decoder.HandleCycle | lpc.c:192-480 | the new decoder and transport state is exactly `Edge` of the old state and the sampled signal |
| Lpc.Decoder.StepState | lpc.c:282-479 | the in-place state switch is exactly `Step` |
| Lpc.Decoder.StepAddress | lpc.c:302-345 | the in-place ADDR cases are exactly `AddressStep` |
| Lpc.Decoder.StepWriteData | lpc.c:349-365 | the in-place write DATA cases are exactly `WriteDataStep` |
| Lpc.Decoder.StepReadData | lpc.c:438-452 | the in-place read DATA cases are exactly `ReadDataStep` |
| Lpc.Decoder.StepControl | lpc.c:284-478 | the in-place CYCTYPE, turn-around, Idle and Abort cases are exactly `ControlStep` |
| Lpc.Decoder.StepCycleType | lpc.c:284-298 | the in-place CYCTYPE + DIR case is exactly `CycleTypeStep` |
| Lpc.Decoder.HandleSync | lpc.c:398-434 | the in-place SYNC case, including the call into the transport object, is exactly `SyncStep` |
| LpcProperties.Sample | lpc.c:217-226 | the LFRAME# and LAD bits of the sampled value: LFRAME# at the given level and the given nibble on LAD; LCLK and LRESET# read 0, which `ClockAndResetLinesIgnored` shows makes no difference |
| Lpc.FrameDispatch | lpc.c:253-272 | the rising edge's dispatch is CycTypeAndDir exactly for frame code 0000, Abort exactly for 1111, and Idle otherwise |
| Lpc.ShiftIn | lpc.c:302-334 | for a nibble, the shifted address ends in that nibble and keeps the low 12 bits of the old address above it, so the top nibble is dropped |
| LpcProperties.Run | lpc.c:192-480 | running a signal sequence from a well-formed transport keeps it well formed |
| LpcProperties.Steps | lpc.c:282-479 | running state steps from a well-formed transport keeps it well formed, and the state steps never touch the remembered LFRAME# level |
| LpcProperties.EdgeIgnoresOtherBits | lpc.c:210-226 | an edge depends only on bits 4..0 (LFRAME# and LAD) of the value LPC_Read returns |
| LpcProperties.RunIgnoresOtherBits | lpc.c:210-226 | two traces that agree on LFRAME# and LAD at every clock leave the decoder and transport in the same state |
| LpcProperties.ClockAndResetLinesIgnored | lpc.c:146-151 | setting LCLK and LRESET# (bits 6 and 5, which LPC_Read's 0x7F mask keeps) to any levels in a trace does not change the run, so every whole-cycle lemma holds for real bus traces out of reset |
| LpcProperties.RunAppend | lpc.c:192-480 | running edges over two signal sequences is running them one after the other |
| LpcProperties.FallingEdgeResets | lpc.c:217-241 | a falling LFRAME# edge from any state gives Idle and hands LAD to the host, with no handler call and no other field changed |
| LpcProperties.FrameHeldLowLatches | lpc.c:243-249 | while LFRAME# stays low, the only effect is that the frame code becomes the LAD nibble |
| LpcProperties.RisingEdgeDispatches | lpc.c:251-280 | a rising edge selects the state from the latched frame code, then runs the state step on the same nibble |
| LpcProperties.SteadyHighSteps | lpc.c:217-280 | with LFRAME# high before and after, an edge is just the state step |
| LpcProperties.FrameDispatchCases | lpc.c:253-272 | frame code 0000 starts a cycle, 1111 aborts and any other code goes to Idle, each both ways |
| LpcProperties.IdleAndAbortAreInert | lpc.c:474-478 | Idle and Abort leave the whole bus unchanged |
| LpcProperties.AbortHoldsUntilFalling | lpc.c:474-478 | once in Abort, edges with LFRAME# high change nothing at all |
| LpcProperties.FirstHighEdgeStarts | lpc.c:194 | as `lframe` starts low, the first edge sampled high is rising and decodes CYCTYPE from its nibble |
| LpcProperties.CycTypeDecode | lpc.c:284-298 | the cycle type is bits 3-2 and the direction is bit 1; only an I/O cycle goes to Addr0, everything else to Idle |
| LpcProperties.NibbleAddress | lpc.c:302-345 | the address built from four nibbles has exactly those nibbles as its hex digits |
| LpcProperties.ShiftInFour | lpc.c:302-345 | four shifts give the nibble address whatever the old address was |
| LpcProperties.AddressAssembly | lpc.c:302-345 | Addr0..Addr3 build the address from n0..n3, discarding any earlier one, then go to DataWrite0 for a write and TarToPeripheral0 otherwise, changing nothing else |
| LpcProperties.WriteDataAssembly | lpc.c:349-365 | the two write DATA clocks latch the byte lo + 16*hi and go to TarToPeripheral0 |
| LpcProperties.ByteFromNibbles | lpc.c:349-365 | the byte ORed from two nibbles is lo + 16*hi, and its two nibbles give lo and hi back |
| LpcProperties.ReadDataDrive | lpc.c:438-452 | the read DATA clocks drive `data & 0xF` then `data >> 4`; the host's reassembly of those is the byte |
| LpcProperties.NibblesOfByte | lpc.c:438-452 | the nibbles driven for a byte reassemble to that byte |
| LpcProperties.DriveKeepsLowNibble | lpc.c:153-164 | a drive puts exactly the low four bits on LAD, and a nibble unchanged |
| LpcProperties.EarlySyncCode | lpc.c:369-386 | TarToPeripheral0 drives short wait (0101) for a read and ready (0000) for a write |
| LpcProperties.SyncReadWaits | lpc.c:402-420 | when the read handler fails, the decoder drives short wait, stays in Sync and leaves the transport as it was |
| LpcProperties.ReadFailureChangesNothing | lpc_io_transmission.c:210-278 | a read handler that returns FALSE leaves the transport registers unchanged |
| LpcProperties.SyncReadReady | lpc.c:402-408 | when the read handler succeeds, the byte is latched, ready is driven and DataRead0 is next |
| LpcProperties.SyncWriteCallsHandler | lpc.c:421-433 | a write drives ready, calls the write handler once with (address, data) and goes to TarToHost0 |
| LpcProperties.StartFrame | lpc.c:243-249 | the START frame takes two clocks |
| LpcProperties.HighNibbles | lpc.c:217-226 | each clock has LFRAME# high and the given nibble |
| LpcProperties.StartFrameLatches | lpc.c:217-249 | two START clocks from any state latch frame code 0000 with LFRAME# low, with no handler call and no transport change |
| LpcProperties.OneClockFrame | lpc.c:230-272 | LFRAME# low for one clock only: the falling edge returns before latching LAD, so the next rising edge dispatches on the frame code left by an earlier frame |
| LpcProperties.OneClockStartAfterAbort | lpc.c:230-272 | after an aborted frame, a one-clock START frame leads to Abort, not to a cycle |
| LpcProperties.IoCycleStarts | lpc.c:251-298 | after START, the rising edge with nibble 0000 or 0010 enters Addr0 with an I/O cycle type and the decoded direction |
| LpcProperties.HighRunSteps | lpc.c:217-280 | with LFRAME# high throughout, a run of edges is the state step on each nibble |
| LpcProperties.AddressPhase | lpc.c:302-345 | the four ADDR clocks, as sampled signals, assemble the address |
| LpcProperties.StepsAppend | lpc.c:282-479 | running state steps over two nibble sequences is running them one after the other |
| LpcProperties.WriteDataPhase | lpc.c:349-365 | the two write DATA clocks and then the rest of the steps |
| LpcProperties.WriteTurnaroundPhase | lpc.c:369-394 | a write's TAR drives ready early, then the peripheral takes LAD and goes to Sync |
| LpcProperties.ReadTurnaroundPhase | lpc.c:369-394 | a read's TAR drives short wait early, then the peripheral takes LAD and goes to Sync |
| LpcProperties.TurnaroundToHostPhase | lpc.c:456-470 | TarToHost0 and TarToHost1 drive 1111, hand LAD back and go to Idle |
| LpcProperties.WriteSyncPhase | lpc.c:421-433 | the write's SYNC clock calls the write handler once and goes to TarToHost0 |
| LpcProperties.WriteDataToSync | lpc.c:349-394 | a write's DATA and TAR latch the byte and reach Sync with the peripheral driving |
| LpcProperties.WriteSyncToIdle | lpc.c:421-470 | a write's SYNC and TAR back make one handler call and end in Idle with LAD released |
| LpcProperties.WriteCycleTail | lpc.c:349-470 | everything after the ADDR nibbles of a write, as one step: one handler call with the latched byte, ending in Idle |
| LpcProperties.IoCycleEntry | lpc.c:217-298 | START from any state, then the CYCTYPE + DIR edge, leads to the state steps from Addr0 |
| LpcProperties.IoWriteCycle | lpc.c:192-480 | a complete I/O write cycle from any prior state ends in Idle with LAD released and exactly one write-handler call with the assembled address and byte; the whole final state is stated |
| LpcProperties.ReadSyncPhase | lpc.c:398-408 | a read's SYNC clock with a successful handler latches the byte and goes to DataRead0 |
| LpcProperties.ReadTurnaroundToData | lpc.c:369-408 | a read's TAR and SYNC with a successful handler reach DataRead0 with the byte latched |
| LpcProperties.ReadDataPhase | lpc.c:438-452 | the two read DATA clocks drive the low nibble, then the high nibble, then go to TarToHost0 |
| LpcProperties.IoReadCycleAddress | lpc.c:217-345 | START, a read's CYCTYPE + DIR and the ADDR nibbles reach TarToPeripheral0 with the assembled address |
| LpcProperties.ReadLatched | lpc.c:398-408 | the decoder state after a successful read handler keeps the transport well formed |
| LpcProperties.IoReadCycleToData | lpc.c:192-408 | a read cycle up to SYNC ends in DataRead0, with the handler's byte latched and one read-handler call with the assembled address |
| LpcProperties.ReadDataDrives | lpc.c:438-452 | from DataRead0, the DATA clocks drive `data & 0xF`, then `data >> 4` |
| LpcProperties.ReadDataToIdle | lpc.c:438-470 | from DataRead0, DATA and TAR back end in Idle with LAD released |
| LpcProperties.IoReadCycle | lpc.c:192-480 | a complete I/O read cycle with a successful handler ends in Idle with LAD released and exactly one read-handler call with the assembled address |
| LpcProperties.OneClockCycleEntry | lpc.c:230-298 | a single START clock after a frame that latched START, then the CYCTYPE + DIR edge, leads to the state steps from Addr0 |
| LpcProperties.IoWriteCycleOneClockStart | lpc.c:192-480 | an I/O write framed by one START clock, after a frame that latched START, ends in the same state as the two-clock write |
| LpcProperties.IoReadCycleOneClockToData | lpc.c:192-408 | a one-clock-START read with a successful handler reaches DataRead0 with the byte latched and one read-handler call |
| LpcProperties.IoReadCycleOneClockStart | lpc.c:192-480 | an I/O read framed by one START clock, after a frame that latched START, ends in the same state as the two-clock read |
| IoTransmission.AddToChecksum | lpc_io_transmission.c:174-177 | adding a byte to the checksum through the 16-bit temporary is the plain sum when below 256 and the sum minus 256 otherwise |
| IoTransmission.GetMessage | lpc_io_transmission.c:281-300 | a message is returned exactly when the application has control, and it is the first `msg_length` bytes of the buffer |
| IoTransmission.Write | lpc_io_transmission.c:127-194 | a host write keeps the buffer at its full 256 bytes |
| IoTransmission.Read | lpc_io_transmission.c:210-278 | a host read keeps the buffer at its full 256 bytes |
| IoTransmission.SetMessage | lpc_io_transmission.c:303-324 | a submit keeps the buffer at its full 256 bytes |
| IoTransmission.Transport.constructor | lpc_io_transmission.c:105-110 | the globals start zero, with the host owning the buffer |
| IoTransmission.Transport.HandleIOWrite | lpc_io_transmission.c:127-194 | the in-place handler's new state is exactly `Write` of the old state |
| IoTransmission.Transport.HandleIORead | lpc_io_transmission.c:210-278 | the new state is `Read`'s; it returns TRUE exactly when `Read` yields a byte, and that byte |
| IoTransmission.Transport.GetIOMessage | lpc_io_transmission.c:281-300 | with control, it copies the first `msg_length` bytes out, returns the length and TRUE; without control, it returns FALSE and the buffer is untouched; module state never changes, so repeated calls agree |
| IoTransmission.Transport.SetIOMessage | lpc_io_transmission.c:303-324 | the new state and result are exactly `SetMessage` of the old state and the application's bytes |
| IoProperties.Range | lpc_io_transmission.c:112-125 | the ascending address list lo..hi-1 |
| IoProperties.ReadPass | lpc_io_transmission.c:196-208 | a series of host reads gives one reply per address and well-formed registers |
| IoProperties.WritePass | lpc_io_transmission.c:112-125 | a series of host payload writes keeps the registers well formed |
| IoProperties.OwnershipExclusive | lpc_io_transmission.c:131 | while the application owns the buffer, host writes change nothing and host reads fail and change nothing (also line 214) |
| IoProperties.LengthRegister | lpc_io_transmission.c:136-144 | writing Length stores it, sets Ack to Fail and clears the checksum; reading Length returns it and also sets Ack to Fail and clears the checksum (also lines 219-227) |
| IoProperties.ChecksumRegister | lpc_io_transmission.c:147-155 | writing Checksum sets Ack to Pass exactly when the sums match and to Fail otherwise, with nothing else changed; reading returns it and changes nothing (also lines 230-236) |
| IoProperties.AckRegister | lpc_io_transmission.c:158-165 | writing Ack stores the raw byte and clears the checksum; reading returns Ack, clears the checksum and gives the application control exactly when Ack is Pass (also lines 239-247) |
| IoProperties.PayloadAccess | lpc_io_transmission.c:168-181 | a payload write stores the byte, leaves every other byte alone and adds the byte into the checksum modulo 256; a payload read returns the byte and adds it the same way (also lines 250-263) |
| IoProperties.OutOfRange | lpc_io_transmission.c:178-181 | addresses above Ack are ignored by writes and refused by reads (also lines 260-263) |
| IoProperties.Total | lpc_io_transmission.c:174-177 | the plain sum of n payload bytes lies between 0 and 255 * n |
| IoProperties.TotalAt | lpc_io_transmission.c:174-177 | the plain sum of the bytes at n addresses lies between 0 and 255 * n |
| IoProperties.TotalAtPermutation | lpc_io_transmission.c:174-177 | the sum over a list of payload addresses does not depend on their order (also lines 256-259) |
| IoProperties.TotalAtRange | lpc_io_transmission.c:174-177 | the sum over the ascending addresses is the sum of the slice |
| IoProperties.EnumeratedTotal | lpc_io_transmission.c:174-177 | touching every address below n once, in any order, sums the first n bytes (also lines 256-259) |
| IoProperties.EnumeratedMembers | lpc_io_transmission.c:112-125 | such an address list holds exactly the addresses below n |
| IoProperties.ReadPayloadPass | lpc_io_transmission.c:250-263 | a read pass returns the byte at each address and adds their sum into the checksum modulo 256, changing nothing else |
| IoProperties.WritePayloadPass | lpc_io_transmission.c:168-181 | a write pass stores each written byte at its address, leaves the others, and adds their sum into the checksum modulo 256 |
| IoProperties.WritePassStores | lpc_io_transmission.c:112-194 | Length, then every payload byte once in any order, stores the message with its length and leaves its sum modulo 256 in the checksum |
| IoProperties.HostSendsMessage | lpc_io_transmission.c:112-194 | after the host's send sequence, Ack reads Pass exactly when the checksum written is the message's sum modulo 256; then the application gets that message, and otherwise the host keeps the buffer (also lines 239-247) |
| IoProperties.ReadPassReturns | lpc_io_transmission.c:196-263 | reading Length, then every payload address once in any order, returns each stored byte and leaves their sum modulo 256 in the checksum |
| IoProperties.WriteAndReadChecksumsAgree | lpc_io_transmission.c:174-177 | the checksum built while writing a message equals the one read back after reading it again, whatever the two orders (also lines 256-259) |
| IoProperties.AppReplyRoundTrip | lpc_io_transmission.c:303-324 | after a successful submit, the host reads the length, each submitted byte at its address in any order, and then a checksum equal to their sum modulo 256 (also lines 196-263) |
| IoProperties.SubmitOnce | lpc_io_transmission.c:303-324 | a submit sets the length, copies bytes below it, keeps the bytes above it and gives control back; a second submit fails and changes nothing, and a peek fails |
| IoProperties.SingleByteExample | lpc_io_transmission.c:10-17 | Test #1, single byte: Ack reads 0xA0 |
| IoProperties.OverflowExample | lpc_io_transmission.c:44-50 | Test #2: the bytes 0x5A 0x69 0x3C 0xD2 with checksum 0xD1 give Ack 0xA0, and the application receives the message |
| IoProperties.FirstFourAddresses | lpc_io_transmission.c:44-48 | the ascending addresses of a four-byte message are 0, 1, 2, 3 |
| IoProperties.EchoOrder | lpc_io_transmission.c:52-56 | the read-back order 2, 0, 3, 1 touches each of the four payload addresses once |
| IoProperties.FourAddressesOnce | lpc_io_transmission.c:52-56 | the order 2, 0, 3, 1 names each address below 4 once |
| IoProperties.EchoedSum | lpc_io_transmission.c:44-49 | the four bytes of Test #2 sum to 0xD1 modulo 256 |
| IoProperties.OverflowEchoExample | lpc_io_transmission.c:52-57 | the echoed message read back in the order 2, 0, 3, 1 gives 0x3C, 0x5A, 0xD2, 0x69 and checksum 0xD1 |
| IoProperties.RejectThenAcceptExample | lpc_io_transmission.c:64-74 | Test #3: checksum 0x70 gives Ack 0xAF; resending with 0x46 gives 0xA0 |
| Debug.Clear | debug.c:7-17 | a clear keeps the ring well formed and the index unchanged |
| Debug.Save | debug.c:19-24 | a save keeps the index in range |
| Debug.SaveAll | debug.c:19-24 | a series of saves keeps the index in range |
| Debug.Unrolled | debug.c:26-38 | the unrolled ring has 100 bytes |
| Debug.SaveShifts | debug.c:19-38 | one save drops the oldest unrolled byte and appends the new one |
| Debug.ReturnsLastSaved | debug.h:9-13 | the returned buffer is always the last 100 bytes of the history, oldest first |
| Debug.LastKSaved | debug.h:9-13 | after saving k <= 100 bytes, the last k returned are exactly those bytes, oldest first |
| Debug.FullHistory | debug.h:9-13 | after 100 or more saves, the returned buffer is exactly the last 100 bytes saved |
| Debug.ClearThenSave | debug.h:9-13 | clearing with b and then saving k <= 100 bytes returns 100 - k copies of b, then the bytes |
| Debug.FillThenTail | debug.h:9-13 | after 100 fill bytes and then k <= 100 saved bytes, the last 100 are 100 - k fill bytes and then the saved ones |
| Debug.ClearedUnrolls | debug.c:7-17 | a cleared ring returns 100 copies of the fill byte |
| Debug.DebugRing.constructor | debug.c:3-5 | the ring starts zero, with the initial byte 0xFF and index 0 |
| Debug.DebugRing.ClearBuffer | debug.c:7-17 | the in-place loop sets all 100 entries and the stored initial byte to b and keeps the index: exactly `Clear` |
| Debug.DebugRing.SaveToBuffer | debug.c:19-24 | writes the byte at the old index and advances the index modulo 100: exactly `Save` |
| Debug.DebugRing.ReturnBuffer | debug.c:26-38 | the first 100 bytes written are `buffer[(index + i) % 100]`, the rest of the destination and the ring are unchanged |

## Left out

- GPIO register plumbing and the ISR are left out, because they are hardware wiring.
  This covers the interrupt vector, the status check in `LPC_ISR` (lpc.c:104-111),
  `LPC_Initialize`'s trigger and enable register writes (lpc.c:115-131, 144), and all
  of gpio.c. Only the net effect of `LPC_Initialize` is modelled: LAD goes to the host
  and the state becomes Idle.
- `LPC_Read` (lpc.c:147-151) reads a volatile GPIO register. The model leaves it out
  and takes the sampled value as the `signal` parameter of `HandleCycle`.
- `LPC_Write`'s register sequence is abstracted. The source sets all LAD pins, then
  clears the zero bits. The model records only the final driven nibble.
- The LAD direction registers are reduced to the boolean `peripheralDrives`.
- interrupt.h is not part of this model. It only declares an external interrupt
  controller.
- Concurrency is not modelled. An interrupt-context handler and the application can
  both touch `usr_has_control`. The model runs every call in sequence on one state
  object and makes no atomicity claim.
- The host side is left out, because it is not code of this firmware. This covers the
  wait-state timeout (lpc.c:411-415) and the host's send and receive retry loops
  (lpc_io_transmission.c:112-125, 196-208). The loops appear only as the address orders
  the round-trip lemmas quantify over.
- Abort cycles and LRESET# are not implemented in the source (lpc.c:6-9, 474-478).
  Abort is a state that does nothing until the next falling LFRAME# edge. No recovery
  behaviour is invented.
- The commented-out debug-save calls in lpc.c and lpc_io_transmission.c are left out,
  because they are inert.
- The cycle state switch of `LPC_HandleCycle` is one C function. The Decoder splits it
  into `StepState` and six helper methods, and the specification into matching
  functions. Each helper is proved equal to its function, and the composition equals
  `Edge`.
- IoTransmission.Transport.GetIOMessage: requires that the caller's buffer is not
  `msg_data` and holds at least `msg_length` bytes. The C code uses its argument
  without either check. On failure the C code leaves `*buffer_length` alone.
  The model returns 0 there, and the contract says nothing about that value.
- IoTransmission.Transport.SetIOMessage: requires that the caller's buffer is not
  `msg_data` and holds at least `buffer_length` bytes, for the same reason.
- Debug.DebugRing.ReturnBuffer: requires a destination of at least 100 bytes that is
  not the ring itself. The C code writes through its argument unchecked.
- On a failed read, `LPC_HandleIORead` does not write `*data`. The model keeps
  `lpc_data` as it was in that case, as the C code does. `HandleIORead` returns 0 as
  its byte then, and the decoder does not use that value.
- LpcProperties.NibbleAddress: the address is the bv16 sum n0*4096 + n1*256 + n2*16 + n3.
  Its contract states that the four hex digits of that sum are n0..n3, so nothing wraps.
  The contract does not restate the sum as an unbounded `int`.
- A whole read cycle whose handler fails keeps the decoder in Sync until LFRAME#
  falls. `SyncReadWaits` covers each such clock, but no trace lemma fixes a number of
  wait clocks.
- A one-clock LFRAME# low pulse is modelled as written. The falling edge returns before
  LAD is sampled, so the rising edge that follows dispatches on an older frame code.
  `OneClockFrame` and `OneClockStartAfterAbort` state this behaviour. When the older
  frame code is already START, `IoWriteCycleOneClockStart` and
  `IoReadCycleOneClockStart` show that the cycle completes as with a two-clock START. Chapter 4 of the
  LPC specification lets START last a single clock.
