/**
  Properties of the LPC decoder specification (`Lpc.Edge`, `Lpc.Step`,
  `Lpc.SyncStep`): what one edge does in each situation, how the address and the
  data byte are assembled from nibbles, what SYNC does, and whole I/O cycles as
  sequences of sampled signals.
*/
module LpcProperties {

  import opened Wrappers
  import PTypes
  import IoTransmission
  import opened Lpc

  predicate IsNibble(n: bv8) { n < 16 }

  /**
    The LFRAME# and LAD bits of the value LPC_Read returns when LFRAME# is `frameHigh`
    and LAD carries `lad`; LCLK and LRESET# read 0 here, which `RunIgnoresOtherBits`
    shows makes no difference.
  */
  function Sample(frameHigh: bool, lad: bv8): (signal: bv8)
    requires IsNibble(lad)
    ensures IsHigh(signal & LPC_LFRAME_MASK) == frameHigh
    ensures signal & LPC_LAD_MASK == lad
  {
    if frameHigh then lad | LPC_LFRAME_MASK else lad
  }

  /** LPC_HandleCycle run once per signal, in order. */
  function Run(b: Bus, signals: seq<bv8>): (b': Bus)
    requires b.io.Valid()
    ensures b'.io.Valid()
    decreases |signals|
  {
    if signals == [] then b else Run(Edge(b, signals[0]), signals[1..])
  }

  lemma {:induction false} RunAppend(b: Bus, s: seq<bv8>, t: seq<bv8>)
    requires b.io.Valid()
    ensures Run(b, s + t) == Run(Run(b, s), t)
    decreases |s|
  {
    if s == [] {
      assert s + t == t;
    } else {
      assert (s + t)[1..] == s[1..] + t;
      RunAppend(Edge(b, s[0]), s[1..], t);
    }
  }

  /** An edge reads only LFRAME# (bit 4) and LAD (bits 3..0) of the sampled value. */
  lemma EdgeIgnoresOtherBits(b: Bus, s: bv8, s': bv8)
    requires b.io.Valid() && s & 0x1F == s' & 0x1F
    ensures Edge(b, s) == Edge(b, s')
  {
  }

  /**
    Two traces that agree on LFRAME# and LAD clock by clock drive the decoder alike,
    whatever LCLK, LRESET# and the unused bit read.
  */
  lemma {:induction false} RunIgnoresOtherBits(b: Bus, s: seq<bv8>, s': seq<bv8>)
    requires b.io.Valid() && |s| == |s'|
    requires forall i :: 0 <= i < |s| ==> s[i] & 0x1F == s'[i] & 0x1F
    ensures Run(b, s) == Run(b, s')
    decreases |s|
  {
    if s != [] {
      EdgeIgnoresOtherBits(b, s[0], s'[0]);
      RunIgnoresOtherBits(Edge(b, s[0]), s[1..], s'[1..]);
    }
  }

  /**
    The same trace read with LCLK and LRESET# at any levels `lines` (bits 6 and 5, as
    LPC_Read's 0x7F mask lets them through) gives the same run.
  */
  lemma ClockAndResetLinesIgnored(b: Bus, s: seq<bv8>, lines: bv8)
    requires b.io.Valid()
    ensures Run(b, seq(|s|, i requires 0 <= i < |s| => s[i] | (lines & 0x60))) == Run(b, s)
  {
    var s' := seq(|s|, i requires 0 <= i < |s| => s[i] | (lines & 0x60));
    forall i | 0 <= i < |s|
      ensures s'[i] & 0x1F == s[i] & 0x1F
    {
      assert (s[i] | (lines & 0x60)) & 0x1F == s[i] & 0x1F;
    }
    RunIgnoresOtherBits(b, s', s);
  }

  /** The state step run once per nibble, in order. */
  function Steps(b: Bus, lads: seq<bv8>): (b': Bus)
    requires b.io.Valid()
    ensures b'.io.Valid() && b'.dec.lframe == b.dec.lframe
    decreases |lads|
  {
    if lads == [] then b else Steps(Step(b, lads[0]), lads[1..])
  }

  // ----- One edge -----

  /**
    A falling LFRAME# edge abandons whatever was in progress: the state becomes Idle,
    LAD goes back to the host, and nothing else changes (no handler call, no field).
  */
  lemma FallingEdgeResets(b: Bus, signal: bv8)
    requires b.io.Valid()
    requires IsHigh(b.dec.lframe) && IsLow(signal & LPC_LFRAME_MASK)
    ensures Edge(b, signal) == b.(dec := b.dec.(lframe := 0, state := Idle, peripheralDrives := false))
  {
  }

  /** While LFRAME# stays low, an edge only latches the LAD nibble as the frame code. */
  lemma FrameHeldLowLatches(b: Bus, signal: bv8)
    requires b.io.Valid()
    requires IsLow(b.dec.lframe) && IsLow(signal & LPC_LFRAME_MASK)
    ensures Edge(b, signal) == b.(dec := b.dec.(frameInfo := signal & LPC_LAD_MASK))
  {
  }

  /**
    A rising LFRAME# edge selects the state from the latched frame code and runs the
    state step on the same edge's nibble.
  */
  lemma RisingEdgeDispatches(b: Bus, signal: bv8)
    requires b.io.Valid()
    requires IsLow(b.dec.lframe) && IsHigh(signal & LPC_LFRAME_MASK)
    ensures Edge(b, signal) ==
      Step(b.(dec := b.dec.(lframe := LPC_LFRAME_MASK, state := FrameDispatch(b.dec.frameInfo))),
           signal & LPC_LAD_MASK)
  {
    assert signal & LPC_LFRAME_MASK == LPC_LFRAME_MASK;
  }

  /** With LFRAME# high on both sides of the edge, only the state step runs. */
  lemma SteadyHighSteps(b: Bus, signal: bv8)
    requires b.io.Valid()
    requires IsHigh(b.dec.lframe) && IsHigh(signal & LPC_LFRAME_MASK)
    ensures Edge(b, signal) ==
      Step(b.(dec := b.dec.(lframe := LPC_LFRAME_MASK)), signal & LPC_LAD_MASK)
  {
    assert signal & LPC_LFRAME_MASK == LPC_LFRAME_MASK;
  }

  /** Frame code 0000 starts a cycle, 1111 aborts, anything else returns to Idle. */
  lemma FrameDispatchCases(frameInfo: bv8)
    ensures FrameDispatch(frameInfo) == CycTypeAndDir <==> frameInfo == FRAME_START
    ensures FrameDispatch(frameInfo) == Abort <==> frameInfo == FRAME_ABORT
    ensures FrameDispatch(frameInfo) == Idle <==> frameInfo != FRAME_START && frameInfo != FRAME_ABORT
  {
  }

  /** Idle and Abort have no step: the state step leaves everything as it was. */
  lemma IdleAndAbortAreInert(b: Bus, lad: bv8)
    requires b.io.Valid()
    requires b.dec.state == Idle || b.dec.state == Abort
    ensures Step(b, lad) == b
  {
  }

  /** Every signal of the trace samples LFRAME# high. */
  predicate AllFrameHigh(signals: seq<bv8>)
  {
    forall i :: 0 <= i < |signals| ==> IsHigh(signals[i] & LPC_LFRAME_MASK)
  }

  /** Once aborted, the decoder stays in Abort until the next falling LFRAME# edge. */
  lemma AbortHoldsUntilFalling(b: Bus, signals: seq<bv8>)
    requires b.io.Valid()
    requires b.dec.state == Abort && b.dec.lframe == LPC_LFRAME_MASK
    requires AllFrameHigh(signals)
    ensures Run(b, signals) == b
    decreases |signals|
  {
    if signals != [] {
      SteadyHighSteps(b, signals[0]);
      var b1 := Edge(b, signals[0]);
      assert b1 == b;
      AbortHoldsUntilFalling(b1, signals[1..]);
    }
  }

  /**
    The static `lframe` starts low, so the first edge that samples LFRAME# high is a
    rising edge; the zero frame code then starts a cycle and CYCTYPE + DIR is decoded
    from that edge's nibble.
  */
  lemma FirstHighEdgeStarts(io: IoTransmission.Regs, lad: bv8)
    requires io.Valid() && IsNibble(lad)
    ensures Edge(Bus(INITIAL, io), Sample(true, lad)).dec.state ==
      (if lad & LPC_CYCTYPE_MASK == 0 then Addr0 else Idle)
  {
    var signal := Sample(true, lad);
    RisingEdgeDispatches(Bus(INITIAL, io), signal);
  }

  // ----- CYCTYPE + DIR -----

  /**
    CYCTYPE + DIR: the cycle type is bits 3..2 of the nibble and the direction bit 1;
    only an I/O cycle goes on to the address, every other type returns to Idle.
  */
  lemma CycTypeDecode(b: Bus, lad: bv8)
    requires b.io.Valid() && b.dec.state == CycTypeAndDir && IsNibble(lad)
    ensures Step(b, lad).dec.cycleType == lad >> 2
    ensures Step(b, lad).dec.direction == (lad >> 1) & 1
    ensures Step(b, lad).dec.state == (if lad >> 2 == CYCTYPE_IO then Addr0 else Idle)
    ensures Step(b, lad).io == b.io && Step(b, lad).dec.calls == b.dec.calls
  {
    assert (lad & LPC_CYCTYPE_MASK) >> 2 == lad >> 2;
    assert (lad & LPC_DIR_MASK) >> 1 == (lad >> 1) & 1;
  }

  // ----- ADDR -----

  /**
    The address four ADDR nibbles name, most significant first: its four hex digits
    are n0..n3, so nothing wraps and each nibble is recovered.
  */
  function NibbleAddress(n0: bv8, n1: bv8, n2: bv8, n3: bv8): (address: bv16)
    requires IsNibble(n0) && IsNibble(n1) && IsNibble(n2) && IsNibble(n3)
    ensures address >> 12 == n0 as bv16 && (address >> 8) & 0xF == n1 as bv16
    ensures (address >> 4) & 0xF == n2 as bv16 && address & 0xF == n3 as bv16
  {
    (n0 as bv16) * 4096 + (n1 as bv16) * 256 + (n2 as bv16) * 16 + (n3 as bv16)
  }

  /** Shifting four nibbles into any address gives their value: the old address is lost. */
  lemma ShiftInFour(old_: bv16, n0: bv8, n1: bv8, n2: bv8, n3: bv8)
    requires IsNibble(n0) && IsNibble(n1) && IsNibble(n2) && IsNibble(n3)
    ensures ShiftIn(ShiftIn(ShiftIn(ShiftIn(old_, n0), n1), n2), n3) == NibbleAddress(n0, n1, n2, n3)
  {
  }

  /**
    Addr0..Addr3 on nibbles n0..n3 leave the address n0*4096 + n1*256 + n2*16 + n3
    whatever it was before, then go to DataWrite0 for a write and TarToPeripheral0
    otherwise; nothing else changes.
  */
  lemma AddressAssembly(b: Bus, n0: bv8, n1: bv8, n2: bv8, n3: bv8)
    requires b.io.Valid() && b.dec.state == Addr0
    requires IsNibble(n0) && IsNibble(n1) && IsNibble(n2) && IsNibble(n3)
    ensures Steps(b, [n0, n1, n2, n3]) ==
      b.(dec := b.dec.(address := NibbleAddress(n0, n1, n2, n3),
                       state := if b.dec.direction == DIR_WRITE then DataWrite0 else TarToPeripheral0))
  {
    AddressShifts(b, n0, n1, n2, n3);
    ShiftInFour(0, n0, n1, n2, n3);
  }

  /** The four ADDR steps, one shift of the address each. */
  lemma AddressShifts(b: Bus, n0: bv8, n1: bv8, n2: bv8, n3: bv8)
    requires b.io.Valid() && b.dec.state == Addr0
    ensures Steps(b, [n0, n1, n2, n3]) ==
      b.(dec := b.dec.(address := ShiftIn(ShiftIn(ShiftIn(ShiftIn(0, n0), n1), n2), n3),
                       state := if b.dec.direction == DIR_WRITE then DataWrite0 else TarToPeripheral0))
  {
    var d := b.dec;
    var b2 := b.(dec := d.(address := ShiftIn(ShiftIn(0, n0), n1), state := Addr2));
    assert [n0, n1, n2, n3] == [n0] + ([n1] + [n2, n3]);
    FirstAddressShifts(b, n0, n1, [n2, n3]);
    LastAddressShifts(b2, n2, n3);
  }

  lemma FirstAddressShifts(b: Bus, n0: bv8, n1: bv8, rest: seq<bv8>)
    requires b.io.Valid() && b.dec.state == Addr0
    ensures Steps(b, [n0] + ([n1] + rest)) ==
      Steps(b.(dec := b.dec.(address := ShiftIn(ShiftIn(0, n0), n1), state := Addr2)), rest)
  {
    var b1 := b.(dec := b.dec.(address := ShiftIn(0, n0), state := Addr1));
    StepsCons(b, n0, [n1] + rest);
    assert Step(b, n0) == b1;
    StepsCons(b1, n1, rest);
  }

  lemma LastAddressShifts(b: Bus, n2: bv8, n3: bv8)
    requires b.io.Valid() && b.dec.state == Addr2
    ensures Steps(b, [n2, n3]) ==
      b.(dec := b.dec.(address := ShiftIn(ShiftIn(b.dec.address, n2), n3),
                       state := if b.dec.direction == DIR_WRITE then DataWrite0 else TarToPeripheral0))
  {
    var b3 := b.(dec := b.dec.(address := ShiftIn(b.dec.address, n2), state := Addr3));
    StepsCons(b, n2, [n3]);
    assert Step(b, n2) == b3;
    StepsCons(b3, n3, []);
  }

  /** Peeling the first nibble off a run of state steps. */
  lemma StepsCons(b: Bus, lad: bv8, rest: seq<bv8>)
    requires b.io.Valid()
    ensures Steps(b, [lad] + rest) == Steps(Step(b, lad), rest)
  {
    assert ([lad] + rest)[1..] == rest;
  }

  // ----- DATA -----

  /** DataWrite0 and DataWrite1 on nibbles lo, hi latch the byte lo + 16*hi and go to TAR. */
  lemma WriteDataAssembly(b: Bus, lo: bv8, hi: bv8)
    requires b.io.Valid() && b.dec.state == DataWrite0 && IsNibble(lo) && IsNibble(hi)
    ensures Step(Step(b, lo), hi) == b.(dec := b.dec.(data := lo + 16 * hi, state := TarToPeripheral0))
  {
    ByteFromNibbles(lo, hi);
  }

  /** The byte latched from nibbles lo, hi is lo + 16*hi, and its nibbles are lo and hi again. */
  lemma ByteFromNibbles(lo: bv8, hi: bv8)
    requires IsNibble(lo) && IsNibble(hi)
    ensures (0 | (lo << 0)) | (hi << 4) == lo + 16 * hi
    ensures (lo + 16 * hi) & 0xF == lo && (lo + 16 * hi) >> 4 == hi
  {
  }

  /**
    DataRead0 and DataRead1 drive the low and then the high nibble of the byte read,
    and the host's reassembly low + 16*high gives the byte back.
  */
  lemma ReadDataDrive(b: Bus, lad0: bv8, lad1: bv8)
    requires b.io.Valid() && b.dec.state == DataRead0
    ensures Step(b, lad0).dec.driven == b.dec.data & 0xF
    ensures Step(Step(b, lad0), lad1).dec.driven == b.dec.data >> 4
    ensures (b.dec.data & 0xF) + 16 * (b.dec.data >> 4) == b.dec.data
    ensures Step(Step(b, lad0), lad1) ==
      b.(dec := b.dec.(driven := b.dec.data >> 4, state := TarToHost0))
  {
    NibblesOfByte(b.dec.data);
    var b1 := b.(dec := b.dec.(driven := b.dec.data & 0xF, state := DataRead1));
    assert Step(b, lad0) == b1;
  }

  /** The two nibbles DataRead0 and DataRead1 drive, and the byte they reassemble to. */
  lemma NibblesOfByte(data: bv8)
    ensures Drive((data >> 0) & LPC_LAD_MASK) == data & 0xF
    ensures Drive((data >> 4) & LPC_LAD_MASK) == data >> 4
    ensures (data & 0xF) + 16 * (data >> 4) == data
  {
  }

  /** LPC_Write puts exactly the low four bits of its argument on LAD. */
  lemma DriveKeepsLowNibble(values: bv8)
    ensures Drive(values) == values & 0xF && IsNibble(Drive(values))
    ensures IsNibble(values) ==> Drive(values) == values
  {
  }

  // ----- TAR and SYNC -----

  /** TarToPeripheral0 drives the early sync code: short wait for a read, ready otherwise. */
  lemma EarlySyncCode(b: Bus, lad: bv8)
    requires b.io.Valid() && b.dec.state == TarToPeripheral0
    ensures Step(b, lad).dec.driven == (if b.dec.direction == DIR_READ then SYNC_SHORT_WAIT else SYNC_READY)
    ensures Step(b, lad).dec.state == TarToPeripheral1 && Step(b, lad).io == b.io
  {
  }

  /** A failed read handler: drive short wait and stay in Sync; the transport is unchanged. */
  lemma SyncReadWaits(b: Bus)
    requires b.io.Valid() && b.dec.state == Sync && b.dec.direction == DIR_READ
    requires IoTransmission.Read(b.io, b.dec.address as int).value == None
    ensures SyncStep(b) ==
      b.(dec := b.dec.(calls := b.dec.calls + [ReadCall(b.dec.address)],
                       syncInfo := SYNC_SHORT_WAIT, driven := SYNC_SHORT_WAIT))
  {
    ReadFailureChangesNothing(b.io, b.dec.address as int);
  }

  /** The read handler's FALSE paths leave the transport as it was. */
  lemma ReadFailureChangesNothing(r: IoTransmission.Regs, address: PTypes.uint16)
    requires r.Valid()
    ensures IoTransmission.Read(r, address).value == None ==> IoTransmission.Read(r, address).regs == r
  {
  }

  /** A successful read handler: the byte is latched, ready is driven, DataRead0 is next. */
  lemma SyncReadReady(b: Bus)
    requires b.io.Valid() && b.dec.state == Sync && b.dec.direction == DIR_READ
    requires IoTransmission.Read(b.io, b.dec.address as int).value.Some?
    ensures var reply := IoTransmission.Read(b.io, b.dec.address as int);
      SyncStep(b) ==
        Bus(b.dec.(calls := b.dec.calls + [ReadCall(b.dec.address)], data := reply.value.value as bv8,
                   syncInfo := SYNC_READY, driven := SYNC_READY, state := DataRead0),
            reply.regs)
  {
  }

  /** A write: ready is driven, the write handler runs once on (address, data), TarToHost0 is next. */
  lemma SyncWriteCallsHandler(b: Bus)
    requires b.io.Valid() && b.dec.state == Sync && b.dec.direction == DIR_WRITE
    ensures SyncStep(b) ==
      Bus(b.dec.(calls := b.dec.calls + [WriteCall(b.dec.address, b.dec.data)],
                 syncInfo := SYNC_READY, driven := SYNC_READY, state := TarToHost0),
          IoTransmission.Write(b.io, b.dec.address as int, b.dec.data as int))
  {
  }

  // ----- Whole cycles -----

  /** LFRAME# low for two clocks with START (0000) on LAD. */
  function StartFrame(): (signals: seq<bv8>)
    ensures |signals| == 2
  {
    [Sample(false, FRAME_START), Sample(false, FRAME_START)]
  }

  /** LFRAME# high with the nibbles `ns` on LAD, one per clock. */
  function HighNibbles(ns: seq<bv8>): (signals: seq<bv8>)
    requires forall i :: 0 <= i < |ns| ==> IsNibble(ns[i])
    ensures |signals| == |ns|
    ensures forall i :: 0 <= i < |ns| ==> signals[i] == Sample(true, ns[i])
  {
    seq(|ns|, i requires 0 <= i < |ns| && IsNibble(ns[i]) => Sample(true, ns[i]))
  }

  /**
    Two START clocks from any state leave LFRAME# remembered low and the frame code
    0000, with no handler call, no transport change and the cycle fields as they were.
  */
  lemma {:induction false} StartFrameLatches(b: Bus)
    requires b.io.Valid()
    ensures var b' := Run(b, StartFrame());
      b'.dec.lframe == 0 && b'.dec.frameInfo == FRAME_START && b'.io == b.io &&
      b'.dec.calls == b.dec.calls && b'.dec.address == b.dec.address && b'.dec.data == b.dec.data
  {
    var s := Sample(false, FRAME_START);
    var b1 := Edge(b, s);
    if IsHigh(b.dec.lframe) {
      FallingEdgeResets(b, s);
    } else {
      FrameHeldLowLatches(b, s);
    }
    FrameHeldLowLatches(b1, s);
    assert Run(b, StartFrame()) == Run(b1, [s]);
  }

  /**
    LFRAME# low for a single clock: the falling edge returns before LAD is latched, so
    the rising edge that follows dispatches on the frame code latched by an earlier frame.
  */
  lemma OneClockFrame(b: Bus, code: bv8, lad: bv8)
    requires b.io.Valid() && b.dec.lframe == LPC_LFRAME_MASK && IsNibble(code) && IsNibble(lad)
    ensures Run(b, [Sample(false, code), Sample(true, lad)]) ==
      Step(b.(dec := b.dec.(state := FrameDispatch(b.dec.frameInfo), peripheralDrives := false)), lad)
  {
    var b1 := b.(dec := b.dec.(lframe := 0, state := Idle, peripheralDrives := false));
    FallingEdgeResets(b, Sample(false, code));
    RisingEdgeDispatches(b1, Sample(true, lad));
    assert b1.(dec := b1.dec.(lframe := LPC_LFRAME_MASK, state := FrameDispatch(b1.dec.frameInfo))) ==
      b.(dec := b.dec.(state := FrameDispatch(b.dec.frameInfo), peripheralDrives := false));
    assert Run(b, [Sample(false, code), Sample(true, lad)]) == Run(b1, [Sample(true, lad)]);
    assert Run(b1, [Sample(true, lad)]) == Edge(b1, Sample(true, lad));
  }

  /** After an aborted frame, a one-clock START is taken for another Abort. */
  lemma OneClockStartAfterAbort(b: Bus, lad: bv8)
    requires b.io.Valid() && b.dec.lframe == LPC_LFRAME_MASK && b.dec.frameInfo == FRAME_ABORT
    requires IsNibble(lad)
    ensures Run(b, [Sample(false, FRAME_START), Sample(true, lad)]).dec.state == Abort
  {
    OneClockFrame(b, FRAME_START, lad);
    IdleAndAbortAreInert(b.(dec := b.dec.(state := Abort, peripheralDrives := false)), lad);
  }

  /**
    The rising edge after START with CYCTYPE + DIR nibble `lad` (0000 for an I/O read,
    0010 for an I/O write) enters Addr0 with the decoded direction.
  */
  lemma {:induction false} IoCycleStarts(b: Bus, lad: bv8)
    requires b.io.Valid() && b.dec.lframe == 0 && b.dec.frameInfo == FRAME_START
    requires lad == 0 || lad == 2
    ensures Edge(b, Sample(true, lad)) ==
      b.(dec := b.dec.(lframe := LPC_LFRAME_MASK, cycleType := CYCTYPE_IO, direction := lad >> 1,
                       state := Addr0))
  {
    RisingEdgeDispatches(b, Sample(true, lad));
    var b1 := b.(dec := b.dec.(lframe := LPC_LFRAME_MASK, state := CycTypeAndDir));
    CycTypeDecode(b1, lad);
  }

  /** With LFRAME# high and remembered high, a run of nibbles is the state step on each. */
  lemma {:induction false} HighRunSteps(b: Bus, ns: seq<bv8>)
    requires b.io.Valid() && b.dec.lframe == LPC_LFRAME_MASK
    requires forall i :: 0 <= i < |ns| ==> IsNibble(ns[i])
    ensures Run(b, HighNibbles(ns)) == Steps(b, ns)
    decreases |ns|
  {
    if ns != [] {
      var s := HighNibbles(ns);
      SteadyHighSteps(b, s[0]);
      assert b.(dec := b.dec.(lframe := LPC_LFRAME_MASK)) == b;
      assert s[1..] == HighNibbles(ns[1..]);
      HighRunSteps(Step(b, ns[0]), ns[1..]);
    }
  }

  /** The four ADDR clocks of a cycle, sampled with LFRAME# high. */
  lemma AddressPhase(b: Bus, n0: bv8, n1: bv8, n2: bv8, n3: bv8)
    requires b.io.Valid() && b.dec.state == Addr0 && b.dec.lframe == LPC_LFRAME_MASK
    requires IsNibble(n0) && IsNibble(n1) && IsNibble(n2) && IsNibble(n3)
    ensures Run(b, HighNibbles([n0, n1, n2, n3])) ==
      b.(dec := b.dec.(address := NibbleAddress(n0, n1, n2, n3),
                       state := if b.dec.direction == DIR_WRITE then DataWrite0 else TarToPeripheral0))
  {
    HighRunSteps(b, [n0, n1, n2, n3]);
    AddressAssembly(b, n0, n1, n2, n3);
  }

  /** Running the state steps over two nibble sequences one after the other. */
  lemma {:induction false} StepsAppend(b: Bus, s: seq<bv8>, t: seq<bv8>)
    requires b.io.Valid()
    ensures Steps(b, s + t) == Steps(Steps(b, s), t)
    decreases |s|
  {
    if s == [] {
      assert s + t == t;
    } else {
      assert (s + t)[1..] == s[1..] + t;
      StepsAppend(Step(b, s[0]), s[1..], t);
    }
  }

  /** The two DATA clocks of a write. */
  lemma WriteDataPhase(b: Bus, lo: bv8, hi: bv8, rest: seq<bv8>)
    requires b.io.Valid() && b.dec.state == DataWrite0 && IsNibble(lo) && IsNibble(hi)
    ensures Steps(b, [lo, hi] + rest) ==
      Steps(b.(dec := b.dec.(data := lo + 16 * hi, state := TarToPeripheral0)), rest)
  {
    assert Steps(b, [lo, hi]) == b.(dec := b.dec.(data := lo + 16 * hi, state := TarToPeripheral0)) by {
      WriteDataAssembly(b, lo, hi);
      StepsCons(b, lo, [hi]);
      StepsCons(Step(b, lo), hi, []);
    }
    StepsAppend(b, [lo, hi], rest);
  }

  /** TarToPeripheral0 and TarToPeripheral1 of a write: drive ready early, then take over LAD. */
  lemma WriteTurnaroundPhase(b: Bus, t0: bv8, t1: bv8, rest: seq<bv8>)
    requires b.io.Valid() && b.dec.state == TarToPeripheral0 && b.dec.direction == DIR_WRITE
    ensures Steps(b, [t0, t1] + rest) ==
      Steps(b.(dec := b.dec.(syncInfo := SYNC_READY, driven := SYNC_READY, peripheralDrives := true, state := Sync)), rest)
  {
    var b1 := b.(dec := b.dec.(syncInfo := SYNC_READY, driven := SYNC_READY, state := TarToPeripheral1));
    assert Steps(b, [t0, t1]) == b1.(dec := b1.dec.(peripheralDrives := true, state := Sync)) by {
      assert Step(b, t0) == b1;
      StepsCons(b, t0, [t1]);
      StepsCons(b1, t1, []);
    }
    StepsAppend(b, [t0, t1], rest);
  }

  /** TarToPeripheral0 and TarToPeripheral1 of a read: drive the short-wait code early, then take over LAD. */
  lemma ReadTurnaroundPhase(b: Bus, t0: bv8, t1: bv8, rest: seq<bv8>)
    requires b.io.Valid() && b.dec.state == TarToPeripheral0 && b.dec.direction == DIR_READ
    ensures Steps(b, [t0, t1] + rest) ==
      Steps(b.(dec := b.dec.(syncInfo := SYNC_SHORT_WAIT, driven := SYNC_SHORT_WAIT, peripheralDrives := true,
                             state := Sync)), rest)
  {
    var b1 := b.(dec := b.dec.(syncInfo := SYNC_SHORT_WAIT, driven := SYNC_SHORT_WAIT, state := TarToPeripheral1));
    assert Steps(b, [t0, t1]) == b1.(dec := b1.dec.(peripheralDrives := true, state := Sync)) by {
      assert Step(b, t0) == b1;
      StepsCons(b, t0, [t1]);
      StepsCons(b1, t1, []);
    }
    StepsAppend(b, [t0, t1], rest);
  }

  /** TarToHost0 and TarToHost1: drive 1111, then hand LAD back and return to Idle. */
  lemma TurnaroundToHostPhase(b: Bus, t0: bv8, t1: bv8)
    requires b.io.Valid() && b.dec.state == TarToHost0
    ensures Steps(b, [t0, t1]) ==
      b.(dec := b.dec.(driven := 0xF, peripheralDrives := false, state := Idle))
  {
    var b1 := b.(dec := b.dec.(driven := 0xF, state := TarToHost1));
    assert Step(b, t0) == b1;
    StepsCons(b, t0, [t1]);
    StepsCons(b1, t1, []);
  }

  /** The SYNC clock of a write: the write handler runs once on the latched address and byte. */
  lemma WriteSyncPhase(b: Bus, t: bv8, rest: seq<bv8>)
    requires b.io.Valid() && b.dec.state == Sync && b.dec.direction == DIR_WRITE
    ensures Steps(b, [t] + rest) ==
      Steps(Bus(b.dec.(calls := b.dec.calls + [WriteCall(b.dec.address, b.dec.data)],
                       syncInfo := SYNC_READY, driven := SYNC_READY, state := TarToHost0),
                IoTransmission.Write(b.io, b.dec.address as int, b.dec.data as int)), rest)
  {
    assert Steps(b, [t]) ==
      Bus(b.dec.(calls := b.dec.calls + [WriteCall(b.dec.address, b.dec.data)],
                 syncInfo := SYNC_READY, driven := SYNC_READY, state := TarToHost0),
          IoTransmission.Write(b.io, b.dec.address as int, b.dec.data as int)) by {
      StepsCons(b, t, []);
      SyncWriteCallsHandler(b);
    }
    StepsAppend(b, [t], rest);
  }

  /** DATA and TAR of a write: the byte is latched and the peripheral takes LAD, ready to SYNC. */
  lemma WriteDataToSync(b: Bus, lo: bv8, hi: bv8, t0: bv8, t1: bv8, rest: seq<bv8>)
    requires b.io.Valid() && b.dec.state == DataWrite0 && b.dec.direction == DIR_WRITE
    requires IsNibble(lo) && IsNibble(hi)
    ensures Steps(b, [lo, hi] + ([t0, t1] + rest)) ==
      Steps(b.(dec := b.dec.(data := lo + 16 * hi, syncInfo := SYNC_READY, driven := SYNC_READY,
                             peripheralDrives := true, state := Sync)), rest)
  {
    WriteDataPhase(b, lo, hi, [t0, t1] + rest);
    var b1 := b.(dec := b.dec.(data := lo + 16 * hi, state := TarToPeripheral0));
    WriteTurnaroundPhase(b1, t0, t1, rest);
  }

  /** SYNC and TAR of a write: one handler call, then LAD back to the host and Idle. */
  lemma WriteSyncToIdle(b: Bus, t0: bv8, t1: bv8, t2: bv8)
    requires b.io.Valid() && b.dec.state == Sync && b.dec.direction == DIR_WRITE
    ensures Steps(b, [t0, t1, t2]) ==
      Bus(b.dec.(calls := b.dec.calls + [WriteCall(b.dec.address, b.dec.data)],
                 syncInfo := SYNC_READY, driven := 0xF, peripheralDrives := false, state := Idle),
          IoTransmission.Write(b.io, b.dec.address as int, b.dec.data as int))
  {
    assert [t0, t1, t2] == [t0] + [t1, t2];
    WriteSyncPhase(b, t0, [t1, t2]);
    var b1 := Bus(b.dec.(calls := b.dec.calls + [WriteCall(b.dec.address, b.dec.data)],
                         syncInfo := SYNC_READY, driven := SYNC_READY, state := TarToHost0),
                  IoTransmission.Write(b.io, b.dec.address as int, b.dec.data as int));
    TurnaroundToHostPhase(b1, t1, t2);
  }

  /**
    Everything after the ADDR nibbles of a write: DATA (lo, hi), TAR, SYNC and TAR back.
    It ends in Idle with LAD released and exactly one write-handler call.
  */
  lemma WriteCycleTail(b: Bus, lo: bv8, hi: bv8, tar: seq<bv8>)
    requires b.io.Valid() && b.dec.state == DataWrite0 && b.dec.direction == DIR_WRITE
    requires IsNibble(lo) && IsNibble(hi) && |tar| == 5
    ensures Steps(b, [lo, hi] + tar) ==
      Bus(b.dec.(data := lo + 16 * hi, syncInfo := SYNC_READY, driven := 0xF, peripheralDrives := false,
                 state := Idle, calls := b.dec.calls + [WriteCall(b.dec.address, lo + 16 * hi)]),
          IoTransmission.Write(b.io, b.dec.address as int, (lo + 16 * hi) as int))
  {
    assert tar == [tar[0], tar[1]] + [tar[2], tar[3], tar[4]];
    WriteDataToSync(b, lo, hi, tar[0], tar[1], [tar[2], tar[3], tar[4]]);
    var b2 := b.(dec := b.dec.(data := lo + 16 * hi, syncInfo := SYNC_READY, driven := SYNC_READY,
                               peripheralDrives := true, state := Sync));
    WriteSyncToIdle(b2, tar[2], tar[3], tar[4]);
  }

  /** The nibbles of an I/O cycle after START: ADDR, then DATA for a write, then TAR and SYNC. */
  predicate AllNibbles(ns: seq<bv8>)
  {
    forall i :: 0 <= i < |ns| ==> IsNibble(ns[i])
  }

  /**
    START for two clocks from any state, then the rising edge with CYCTYPE + DIR nibble
    `lad`: the rest of the cycle is the state step on each nibble, from Addr0.
  */
  lemma {:induction false} IoCycleEntry(b: Bus, lad: bv8, ns: seq<bv8>)
    requires b.io.Valid() && (lad == 0 || lad == 2) && AllNibbles(ns)
    ensures var b1 := Run(b, StartFrame());
      b1.dec.frameInfo == FRAME_START && b1.io == b.io && b1.dec.calls == b.dec.calls &&
      Run(b, StartFrame() + ([Sample(true, lad)] + HighNibbles(ns))) ==
        Steps(b1.(dec := b1.dec.(lframe := LPC_LFRAME_MASK, cycleType := CYCTYPE_IO,
                                 direction := lad >> 1, state := Addr0)), ns)
  {
    var b1 := Run(b, StartFrame());
    StartFrameLatches(b);
    var rest := [Sample(true, lad)] + HighNibbles(ns);
    RunAppend(b, StartFrame(), rest);
    assert rest[0] == Sample(true, lad) && rest[1..] == HighNibbles(ns);
    IoCycleStarts(b1, lad);
    var b2 := b1.(dec := b1.dec.(lframe := LPC_LFRAME_MASK, cycleType := CYCTYPE_IO,
                                 direction := lad >> 1, state := Addr0));
    HighRunSteps(b2, ns);
  }

  /** The signals of an I/O write of `hi`:`lo` to the address n0 n1 n2 n3, with five TAR/SYNC clocks. */
  function WriteCycleSignals(n0: bv8, n1: bv8, n2: bv8, n3: bv8, lo: bv8, hi: bv8, tar: seq<bv8>): seq<bv8>
    requires IsNibble(n0) && IsNibble(n1) && IsNibble(n2) && IsNibble(n3) && IsNibble(lo) && IsNibble(hi)
    requires AllNibbles(tar)
  {
    StartFrame() + ([Sample(true, 2)] + HighNibbles([n0, n1, n2, n3] + ([lo, hi] + tar)))
  }

  /**
    A complete I/O write cycle, from any prior state: it ends in Idle with LAD back in
    host direction, having called the write handler exactly once, with the assembled
    address n0*4096 + n1*256 + n2*16 + n3 and the byte lo + 16*hi.
  */
  lemma IoWriteCycle(b: Bus, n0: bv8, n1: bv8, n2: bv8, n3: bv8, lo: bv8, hi: bv8, tar: seq<bv8>)
    requires b.io.Valid()
    requires IsNibble(n0) && IsNibble(n1) && IsNibble(n2) && IsNibble(n3) && IsNibble(lo) && IsNibble(hi)
    requires |tar| == 5 && AllNibbles(tar)
    ensures var address := NibbleAddress(n0, n1, n2, n3);
      var data := lo + 16 * hi;
      Run(b, WriteCycleSignals(n0, n1, n2, n3, lo, hi, tar)) ==
        Bus(DecoderRegs(Idle, FRAME_START, CYCTYPE_IO, DIR_WRITE, address, data, SYNC_READY,
                        LPC_LFRAME_MASK, 0xF, false, b.dec.calls + [WriteCall(address, data)]),
            IoTransmission.Write(b.io, address as int, data as int))
  {
    var ns := [n0, n1, n2, n3] + ([lo, hi] + tar);
    assert AllNibbles(ns) by {
      assert forall i :: 4 <= i < |ns| ==> ns[i] == ([lo, hi] + tar)[i - 4];
    }
    IoCycleEntry(b, 2, ns);
    var b1 := Run(b, StartFrame());
    var b2 := b1.(dec := b1.dec.(lframe := LPC_LFRAME_MASK, cycleType := CYCTYPE_IO,
                                 direction := DIR_WRITE, state := Addr0));
    StepsAppend(b2, [n0, n1, n2, n3], [lo, hi] + tar);
    AddressAssembly(b2, n0, n1, n2, n3);
    var b3 := b2.(dec := b2.dec.(address := NibbleAddress(n0, n1, n2, n3), state := DataWrite0));
    WriteCycleTail(b3, lo, hi, tar);
  }

  /** The SYNC clock of a read whose handler succeeds: ready is driven and the byte latched. */
  lemma ReadSyncPhase(b: Bus, t: bv8)
    requires b.io.Valid() && b.dec.state == Sync && b.dec.direction == DIR_READ
    requires IoTransmission.Read(b.io, b.dec.address as int).value.Some?
    ensures var reply := IoTransmission.Read(b.io, b.dec.address as int);
      Steps(b, [t]) ==
        Bus(b.dec.(calls := b.dec.calls + [ReadCall(b.dec.address)], data := reply.value.value as bv8,
                   syncInfo := SYNC_READY, driven := SYNC_READY, state := DataRead0),
            reply.regs)
  {
    StepsCons(b, t, []);
    SyncReadReady(b);
  }

  /** TAR and SYNC of a read whose handler succeeds: the byte is latched and DataRead0 is next. */
  lemma ReadTurnaroundToData(b: Bus, t0: bv8, t1: bv8, t2: bv8, rest: seq<bv8>)
    requires b.io.Valid() && b.dec.state == TarToPeripheral0 && b.dec.direction == DIR_READ
    requires IoTransmission.Read(b.io, b.dec.address as int).value.Some?
    ensures var reply := IoTransmission.Read(b.io, b.dec.address as int);
      Steps(b, [t0, t1, t2] + rest) ==
        Steps(Bus(b.dec.(calls := b.dec.calls + [ReadCall(b.dec.address)], data := reply.value.value as bv8,
                         syncInfo := SYNC_READY, driven := SYNC_READY, peripheralDrives := true,
                         state := DataRead0),
                  reply.regs), rest)
  {
    var b1 := b.(dec := b.dec.(syncInfo := SYNC_SHORT_WAIT, driven := SYNC_SHORT_WAIT,
                               peripheralDrives := true, state := Sync));
    var reply := IoTransmission.Read(b.io, b.dec.address as int);
    assert Steps(b, [t0, t1, t2]) ==
      Bus(b.dec.(calls := b.dec.calls + [ReadCall(b.dec.address)], data := reply.value.value as bv8,
                 syncInfo := SYNC_READY, driven := SYNC_READY, peripheralDrives := true,
                 state := DataRead0),
          reply.regs) by {
      ReadTurnaroundPhase(b, t0, t1, [t2]);
      assert [t0, t1] + [t2] == [t0, t1, t2];
      ReadSyncPhase(b1, t2);
    }
    StepsAppend(b, [t0, t1, t2], rest);
  }

  /** The two DATA clocks of a read. */
  lemma ReadDataPhase(b: Bus, t0: bv8, t1: bv8, rest: seq<bv8>)
    requires b.io.Valid() && b.dec.state == DataRead0
    ensures Steps(b, [t0]).dec.driven == b.dec.data & 0xF
    ensures Steps(b, [t0, t1] + rest) ==
      Steps(b.(dec := b.dec.(driven := b.dec.data >> 4, state := TarToHost0)), rest)
  {
    assert Steps(b, [t0]).dec.driven == b.dec.data & 0xF &&
           Steps(b, [t0, t1]) == b.(dec := b.dec.(driven := b.dec.data >> 4, state := TarToHost0)) by {
      ReadDataDrive(b, t0, t1);
      StepsCons(b, t0, []);
      StepsCons(b, t0, [t1]);
      StepsCons(Step(b, t0), t1, []);
    }
    StepsAppend(b, [t0, t1], rest);
  }

  /** The signals of an I/O read of the address n0 n1 n2 n3, followed by the clocks `tar`. */
  function ReadCycleSignals(n0: bv8, n1: bv8, n2: bv8, n3: bv8, tar: seq<bv8>): seq<bv8>
    requires IsNibble(n0) && IsNibble(n1) && IsNibble(n2) && IsNibble(n3) && AllNibbles(tar)
  {
    StartFrame() + ([Sample(true, 0)] + HighNibbles([n0, n1, n2, n3] + tar))
  }

  /** From any prior state, START, CYCTYPE + DIR of a read and the ADDR nibbles reach TarToPeripheral0. */
  lemma IoReadCycleAddress(b: Bus, n0: bv8, n1: bv8, n2: bv8, n3: bv8, tar: seq<bv8>)
    requires b.io.Valid()
    requires IsNibble(n0) && IsNibble(n1) && IsNibble(n2) && IsNibble(n3) && AllNibbles(tar)
    ensures var b1 := Run(b, StartFrame());
      b1.io == b.io && b1.dec.calls == b.dec.calls && b1.dec.frameInfo == FRAME_START &&
      Run(b, ReadCycleSignals(n0, n1, n2, n3, tar)) ==
        Steps(b1.(dec := b1.dec.(lframe := LPC_LFRAME_MASK, cycleType := CYCTYPE_IO, direction := DIR_READ,
                                 address := NibbleAddress(n0, n1, n2, n3), state := TarToPeripheral0)), tar)
  {
    var ns := [n0, n1, n2, n3] + tar;
    assert AllNibbles(ns) by {
      assert forall i :: 4 <= i < |ns| ==> ns[i] == tar[i - 4];
    }
    IoCycleEntry(b, 0, ns);
    var b1 := Run(b, StartFrame());
    var b2 := b1.(dec := b1.dec.(lframe := LPC_LFRAME_MASK, cycleType := CYCTYPE_IO,
                                 direction := DIR_READ, state := Addr0));
    StepsAppend(b2, [n0, n1, n2, n3], tar);
    AddressAssembly(b2, n0, n1, n2, n3);
  }

  /** The decoder after TAR and SYNC of a successful read: DataRead0 with the byte latched. */
  function ReadLatched(b: Bus, address: bv16): (b': Bus)
    requires b.io.Valid() && IoTransmission.Read(b.io, address as int).value.Some?
    ensures b'.io.Valid()
  {
    var reply := IoTransmission.Read(b.io, address as int);
    Bus(DecoderRegs(DataRead0, FRAME_START, CYCTYPE_IO, DIR_READ, address, reply.value.value as bv8,
                    SYNC_READY, LPC_LFRAME_MASK, SYNC_READY, true, b.dec.calls + [ReadCall(address)]),
        reply.regs)
  }

  lemma IoReadCycleToData(b: Bus, n0: bv8, n1: bv8, n2: bv8, n3: bv8, t0: bv8, t1: bv8, t2: bv8, rest: seq<bv8>)
    requires b.io.Valid() && AllNibbles(rest)
    requires IsNibble(n0) && IsNibble(n1) && IsNibble(n2) && IsNibble(n3)
    requires IsNibble(t0) && IsNibble(t1) && IsNibble(t2)
    requires IoTransmission.Read(b.io, NibbleAddress(n0, n1, n2, n3) as int).value.Some?
    ensures Run(b, ReadCycleSignals(n0, n1, n2, n3, [t0, t1, t2] + rest)) ==
      Steps(ReadLatched(b, NibbleAddress(n0, n1, n2, n3)), rest)
  {
    var tar := [t0, t1, t2] + rest;
    assert AllNibbles(tar) by {
      assert forall i :: 3 <= i < |tar| ==> tar[i] == rest[i - 3];
    }
    IoReadCycleAddress(b, n0, n1, n2, n3, tar);
    var b1 := Run(b, StartFrame());
    var b3 := b1.(dec := b1.dec.(lframe := LPC_LFRAME_MASK, cycleType := CYCTYPE_IO, direction := DIR_READ,
                                 address := NibbleAddress(n0, n1, n2, n3), state := TarToPeripheral0));
    ReadTurnaroundToData(b3, t0, t1, t2, rest);
  }

  /** From DataRead0: the two DATA clocks drive the low, then the high nibble of the byte. */
  lemma ReadDataDrives(m: Bus, t3: bv8, t4: bv8)
    requires m.io.Valid() && m.dec.state == DataRead0
    ensures Steps(m, [t3]).dec.driven == m.dec.data & 0xF
    ensures Steps(m, [t3, t4]).dec.driven == m.dec.data >> 4
  {
    ReadDataPhase(m, t3, t4, []);
    assert [t3, t4] + [] == [t3, t4];
  }

  /** From DataRead0: DATA and TAR of a read end in Idle with the host driving LAD again. */
  lemma ReadDataToIdle(m: Bus, rest: seq<bv8>)
    requires m.io.Valid() && m.dec.state == DataRead0 && |rest| == 4
    ensures Steps(m, rest) == m.(dec := m.dec.(driven := 0xF, peripheralDrives := false, state := Idle))
  {
    var m1 := m.(dec := m.dec.(driven := m.dec.data >> 4, state := TarToHost0));
    assert Steps(m, [rest[0], rest[1]]) == m1 by {
      ReadDataPhase(m, rest[0], rest[1], []);
      assert [rest[0], rest[1]] + [] == [rest[0], rest[1]];
    }
    TurnaroundToHostPhase(m1, rest[2], rest[3]);
    StepsAppend(m, [rest[0], rest[1]], [rest[2], rest[3]]);
    assert [rest[0], rest[1]] + [rest[2], rest[3]] == rest;
  }

  /**
    A complete I/O read cycle whose read handler succeeds, from any prior state: after TAR
    and SYNC the byte the handler returned is latched (IoReadCycleToData), the two DATA
    clocks drive its low and then its high nibble (ReadDataDrives), and the cycle ends in
    Idle with LAD back in host direction, having called the read handler exactly once,
    with the assembled address.
  */
  lemma IoReadCycle(b: Bus, n0: bv8, n1: bv8, n2: bv8, n3: bv8, t0: bv8, t1: bv8, t2: bv8, rest: seq<bv8>)
    requires b.io.Valid() && AllNibbles(rest) && |rest| == 4
    requires IsNibble(n0) && IsNibble(n1) && IsNibble(n2) && IsNibble(n3)
    requires IsNibble(t0) && IsNibble(t1) && IsNibble(t2)
    requires IoTransmission.Read(b.io, NibbleAddress(n0, n1, n2, n3) as int).value.Some?
    ensures var m := ReadLatched(b, NibbleAddress(n0, n1, n2, n3));
      Run(b, ReadCycleSignals(n0, n1, n2, n3, [t0, t1, t2] + rest)) ==
        m.(dec := m.dec.(driven := 0xF, peripheralDrives := false, state := Idle))
  {
    IoReadCycleToData(b, n0, n1, n2, n3, t0, t1, t2, rest);
    ReadDataToIdle(ReadLatched(b, NibbleAddress(n0, n1, n2, n3)), rest);
  }

  // ----- Cycles framed by a single START clock -----

  /**
    START held for one clock only, when the frame code latched by an earlier frame is
    already START: the rising edge with CYCTYPE + DIR nibble `lad` enters Addr0 with the
    decoded direction, and the rest of the cycle is the state step on each nibble.
  */
  lemma {:induction false} OneClockCycleEntry(b: Bus, lad: bv8, ns: seq<bv8>)
    requires b.io.Valid() && b.dec.lframe == LPC_LFRAME_MASK && b.dec.frameInfo == FRAME_START
    requires (lad == 0 || lad == 2) && AllNibbles(ns)
    ensures Run(b, [Sample(false, FRAME_START)] + ([Sample(true, lad)] + HighNibbles(ns))) ==
      Steps(b.(dec := b.dec.(cycleType := CYCTYPE_IO, direction := lad >> 1, state := Addr0,
                             peripheralDrives := false)), ns)
  {
    var frame := [Sample(false, FRAME_START), Sample(true, lad)];
    assert [Sample(false, FRAME_START)] + ([Sample(true, lad)] + HighNibbles(ns)) == frame + HighNibbles(ns);
    RunAppend(b, frame, HighNibbles(ns));
    OneClockFrame(b, FRAME_START, lad);
    var b1 := b.(dec := b.dec.(state := CycTypeAndDir, peripheralDrives := false));
    CycTypeDecode(b1, lad);
    var b2 := b.(dec := b.dec.(cycleType := CYCTYPE_IO, direction := lad >> 1, state := Addr0,
                               peripheralDrives := false));
    assert Step(b1, lad) == b2;
    HighRunSteps(b2, ns);
  }

  /** An I/O write as in WriteCycleSignals, but with START on LAD for a single clock. */
  function OneClockWriteSignals(n0: bv8, n1: bv8, n2: bv8, n3: bv8, lo: bv8, hi: bv8, tar: seq<bv8>): seq<bv8>
    requires IsNibble(n0) && IsNibble(n1) && IsNibble(n2) && IsNibble(n3) && IsNibble(lo) && IsNibble(hi)
    requires AllNibbles(tar)
  {
    [Sample(false, FRAME_START)] + ([Sample(true, 2)] + HighNibbles([n0, n1, n2, n3] + ([lo, hi] + tar)))
  }

  /**
    A complete I/O write cycle framed by one START clock, after a frame that already
    latched START: it ends exactly as the two-clock cycle of IoWriteCycle does.
  */
  lemma IoWriteCycleOneClockStart(b: Bus, n0: bv8, n1: bv8, n2: bv8, n3: bv8, lo: bv8, hi: bv8, tar: seq<bv8>)
    requires b.io.Valid() && b.dec.lframe == LPC_LFRAME_MASK && b.dec.frameInfo == FRAME_START
    requires IsNibble(n0) && IsNibble(n1) && IsNibble(n2) && IsNibble(n3) && IsNibble(lo) && IsNibble(hi)
    requires |tar| == 5 && AllNibbles(tar)
    ensures var address := NibbleAddress(n0, n1, n2, n3);
      var data := lo + 16 * hi;
      Run(b, OneClockWriteSignals(n0, n1, n2, n3, lo, hi, tar)) ==
        Bus(DecoderRegs(Idle, FRAME_START, CYCTYPE_IO, DIR_WRITE, address, data, SYNC_READY,
                        LPC_LFRAME_MASK, 0xF, false, b.dec.calls + [WriteCall(address, data)]),
            IoTransmission.Write(b.io, address as int, data as int))
  {
    var ns := [n0, n1, n2, n3] + ([lo, hi] + tar);
    assert AllNibbles(ns) by {
      assert forall i :: 4 <= i < |ns| ==> ns[i] == ([lo, hi] + tar)[i - 4];
    }
    OneClockCycleEntry(b, 2, ns);
    var b2 := b.(dec := b.dec.(cycleType := CYCTYPE_IO, direction := DIR_WRITE, state := Addr0,
                               peripheralDrives := false));
    StepsAppend(b2, [n0, n1, n2, n3], [lo, hi] + tar);
    AddressAssembly(b2, n0, n1, n2, n3);
    var b3 := b2.(dec := b2.dec.(address := NibbleAddress(n0, n1, n2, n3), state := DataWrite0));
    WriteCycleTail(b3, lo, hi, tar);
  }

  /** An I/O read as in ReadCycleSignals, but with START on LAD for a single clock. */
  function OneClockReadSignals(n0: bv8, n1: bv8, n2: bv8, n3: bv8, tar: seq<bv8>): seq<bv8>
    requires IsNibble(n0) && IsNibble(n1) && IsNibble(n2) && IsNibble(n3) && AllNibbles(tar)
  {
    [Sample(false, FRAME_START)] + ([Sample(true, 0)] + HighNibbles([n0, n1, n2, n3] + tar))
  }

  /** A one-clock-START read whose handler succeeds reaches DataRead0 with the byte latched. */
  lemma IoReadCycleOneClockToData(b: Bus, n0: bv8, n1: bv8, n2: bv8, n3: bv8, t0: bv8, t1: bv8, t2: bv8, rest: seq<bv8>)
    requires b.io.Valid() && b.dec.lframe == LPC_LFRAME_MASK && b.dec.frameInfo == FRAME_START
    requires AllNibbles(rest)
    requires IsNibble(n0) && IsNibble(n1) && IsNibble(n2) && IsNibble(n3)
    requires IsNibble(t0) && IsNibble(t1) && IsNibble(t2)
    requires IoTransmission.Read(b.io, NibbleAddress(n0, n1, n2, n3) as int).value.Some?
    ensures Run(b, OneClockReadSignals(n0, n1, n2, n3, [t0, t1, t2] + rest)) ==
      Steps(ReadLatched(b, NibbleAddress(n0, n1, n2, n3)), rest)
  {
    var tar := [t0, t1, t2] + rest;
    var ns := [n0, n1, n2, n3] + tar;
    assert AllNibbles(ns) by {
      assert forall i :: 7 <= i < |ns| ==> ns[i] == rest[i - 7];
    }
    OneClockCycleEntry(b, 0, ns);
    var b2 := b.(dec := b.dec.(cycleType := CYCTYPE_IO, direction := DIR_READ, state := Addr0,
                               peripheralDrives := false));
    StepsAppend(b2, [n0, n1, n2, n3], tar);
    AddressAssembly(b2, n0, n1, n2, n3);
    var b3 := b2.(dec := b2.dec.(address := NibbleAddress(n0, n1, n2, n3), state := TarToPeripheral0));
    ReadTurnaroundToData(b3, t0, t1, t2, rest);
  }

  /**
    A complete I/O read cycle framed by one START clock, after a frame that already
    latched START, whose read handler succeeds: it ends exactly as the two-clock cycle
    of IoReadCycle does.
  */
  lemma IoReadCycleOneClockStart(b: Bus, n0: bv8, n1: bv8, n2: bv8, n3: bv8, t0: bv8, t1: bv8, t2: bv8, rest: seq<bv8>)
    requires b.io.Valid() && b.dec.lframe == LPC_LFRAME_MASK && b.dec.frameInfo == FRAME_START
    requires AllNibbles(rest) && |rest| == 4
    requires IsNibble(n0) && IsNibble(n1) && IsNibble(n2) && IsNibble(n3)
    requires IsNibble(t0) && IsNibble(t1) && IsNibble(t2)
    requires IoTransmission.Read(b.io, NibbleAddress(n0, n1, n2, n3) as int).value.Some?
    ensures var m := ReadLatched(b, NibbleAddress(n0, n1, n2, n3));
      Run(b, OneClockReadSignals(n0, n1, n2, n3, [t0, t1, t2] + rest)) ==
        m.(dec := m.dec.(driven := 0xF, peripheralDrives := false, state := Idle))
  {
    IoReadCycleOneClockToData(b, n0, n1, n2, n3, t0, t1, t2, rest);
    ReadDataToIdle(ReadLatched(b, NibbleAddress(n0, n1, n2, n3)), rest);
  }
}
