/**
  The peripheral side of LPC I/O cycles (lpc.c), after chapter 4 of the Intel Low
  Pin Count Interface Specification, Revision 1.1: START, CYCTYPE + DIR, ADDR, TAR,
  SYNC and DATA fields.

  `LPC_HandleCycle` runs once per falling LCLK edge. It samples the four LAD lines
  and LFRAME#, steps a 16-state machine, drives LAD and flips the LAD direction,
  and calls the message transport's read or write handler in the SYNC state.

  `Bus` is a snapshot of the decoder's globals, of the GPIO output state it drives
  and of the transport's registers; `Edge` is the specification of one invocation,
  and the class `Decoder` is the in-place implementation proved against it.
*/
module Lpc {

  import opened Wrappers
  import IoTransmission

  const LPC_LFRAME_MASK: bv8 := 0x10
  const LPC_LAD_MASK: bv8 := 0xF
  const LPC_CYCTYPE_MASK: bv8 := 0xC
  const LPC_DIR_MASK: bv8 := 0x2

  const FRAME_START: bv8 := 0x0
  const FRAME_ABORT: bv8 := 0xF

  const CYCTYPE_IO: bv8 := 0x0

  const DIR_READ: bv8 := 0x0
  const DIR_WRITE: bv8 := 0x1

  const SYNC_READY: bv8 := 0x0
  const SYNC_SHORT_WAIT: bv8 := 0x5

  /** LPC_IO_CYCLE_STATE. */
  datatype CycleState =
    | Idle | CycTypeAndDir | Addr0 | Addr1 | Addr2 | Addr3 | DataWrite0 | DataWrite1
    | TarToPeripheral0 | TarToPeripheral1 | Sync | DataRead0 | DataRead1
    | TarToHost0 | TarToHost1 | Abort

  /** One call into the transport, recorded in the order the decoder makes them. */
  datatype HandlerCall = ReadCall(address: bv16) | WriteCall(address: bv16, data: bv8)

  /**
    The decoder's globals (lpc_state, lpc_frame_info, lpc_cycle_type, lpc_direction,
    lpc_address, lpc_data, lpc_synchronize_info), the static `lframe` of
    LPC_HandleCycle, the value last driven on LAD, whether the peripheral drives LAD,
    and the transport calls made so far.
  */
  datatype DecoderRegs = DecoderRegs(
    state: CycleState,
    frameInfo: bv8,
    cycleType: bv8,
    direction: bv8,
    address: bv16,
    data: bv8,
    syncInfo: bv8,
    lframe: bv8,
    driven: bv8,
    peripheralDrives: bool,
    calls: seq<HandlerCall>)

  datatype Bus = Bus(dec: DecoderRegs, io: IoTransmission.Regs)

  /** The zero-initialised globals; `lframe` starts FALSE (low). */
  const INITIAL: DecoderRegs := DecoderRegs(Idle, 0, 0, 0, 0, 0, 0, 0, 0, false, [])

  predicate IsLow(bit: bv8) { bit == 0 }
  predicate IsHigh(bit: bv8) { bit != 0 }

  /** The nibble LPC_Write puts on the LAD lines: only the low four bits of `values`. */
  function Drive(values: bv8): (lines: bv8)
    ensures lines < 16
  {
    values & LPC_LAD_MASK
  }

  /** One address nibble: `lpc_address <<= 4; lpc_address |= lad;` on a UINT16. */
  function ShiftIn(address: bv16, lad: bv8): (address': bv16)
    ensures lad < 16 ==> address' & 0xF == lad as bv16 && address' >> 4 == address & 0xFFF
  {
    (address << 4) | (lad as bv16)
  }

  predicate IsAddressState(s: CycleState) { s.Addr0? || s.Addr1? || s.Addr2? || s.Addr3? }
  predicate IsWriteDataState(s: CycleState) { s.DataWrite0? || s.DataWrite1? }
  predicate IsReadDataState(s: CycleState) { s.DataRead0? || s.DataRead1? }
  predicate IsControlState(s: CycleState)
  {
    !IsAddressState(s) && !IsWriteDataState(s) && !IsReadDataState(s) && s != Sync
  }

  /** The state a rising LFRAME# edge selects from the latched frame code. */
  function FrameDispatch(frameInfo: bv8): (s: CycleState)
    ensures s == CycTypeAndDir || s == Abort || s == Idle
    ensures s == CycTypeAndDir <==> frameInfo == FRAME_START
    ensures s == Abort <==> frameInfo == FRAME_ABORT
  {
    if frameInfo == FRAME_START then CycTypeAndDir
    else if frameInfo == FRAME_ABORT then Abort
    else Idle
  }

  /** The SYNC state: call the transport's read or write handler and drive the sync code. */
  function SyncStep(b: Bus): (b': Bus)
    requires b.io.Valid()
    ensures b'.io.Valid()
    ensures b'.dec.lframe == b.dec.lframe && b'.dec.frameInfo == b.dec.frameInfo
  {
    var d := b.dec;
    if d.direction == DIR_READ then
      var reply := IoTransmission.Read(b.io, d.address as int);
      var calls := d.calls + [ReadCall(d.address)];
      if reply.value.Some? then
        Bus(d.(calls := calls, data := reply.value.value as bv8, syncInfo := SYNC_READY,
               driven := Drive(SYNC_READY), state := DataRead0), reply.regs)
      else
        Bus(d.(calls := calls, syncInfo := SYNC_SHORT_WAIT, driven := Drive(SYNC_SHORT_WAIT)),
            reply.regs)
    else
      var d' := d.(syncInfo := SYNC_READY, driven := Drive(SYNC_READY), state := TarToHost0);
      if d.direction == DIR_WRITE then
        Bus(d'.(calls := d.calls + [WriteCall(d.address, d.data)]),
            IoTransmission.Write(b.io, d.address as int, d.data as int))
      else b.(dec := d')
  }

  /**
    The state-machine step of LPC_HandleCycle on nibble `lad` (lpc.c, the second
    switch), with its cases grouped as the functions below. The step never touches
    the remembered LFRAME# level or the latched frame code.
  */
  function Step(b: Bus, lad: bv8): (b': Bus)
    requires b.io.Valid()
    ensures b'.io.Valid()
    ensures b'.dec.lframe == b.dec.lframe && b'.dec.frameInfo == b.dec.frameInfo
  {
    if IsAddressState(b.dec.state) then AddressStep(b, lad)
    else if IsWriteDataState(b.dec.state) then WriteDataStep(b, lad)
    else if IsReadDataState(b.dec.state) then ReadDataStep(b)
    else if b.dec.state == Sync then SyncStep(b)
    else ControlStep(b, lad)
  }

  /** ADDR: shift one nibble into the address, most significant first. */
  function AddressStep(b: Bus, lad: bv8): (b': Bus)
    requires b.io.Valid() && IsAddressState(b.dec.state)
    ensures b'.io == b.io
    ensures b'.dec == b.dec.(address := b'.dec.address, state := b'.dec.state)
  {
    var d := b.dec;
    match d.state
    case Addr0 => b.(dec := d.(address := ShiftIn(0, lad), state := Addr1))
    case Addr1 => b.(dec := d.(address := ShiftIn(d.address, lad), state := Addr2))
    case Addr2 => b.(dec := d.(address := ShiftIn(d.address, lad), state := Addr3))
    case Addr3 =>
      b.(dec := d.(address := ShiftIn(d.address, lad),
                   state := if d.direction == DIR_WRITE then DataWrite0 else TarToPeripheral0))
  }

  /** DATA of a write: latch the low nibble, then OR in the high nibble. */
  function WriteDataStep(b: Bus, lad: bv8): (b': Bus)
    requires b.io.Valid() && IsWriteDataState(b.dec.state)
    ensures b'.io == b.io
    ensures b'.dec == b.dec.(data := b'.dec.data, state := b'.dec.state)
  {
    var d := b.dec;
    match d.state
    case DataWrite0 => b.(dec := d.(data := 0 | (lad << 0), state := DataWrite1))
    case DataWrite1 => b.(dec := d.(data := d.data | (lad << 4), state := TarToPeripheral0))
  }

  /** DATA of a read: drive the low nibble of the byte read, then the high nibble. */
  function ReadDataStep(b: Bus): (b': Bus)
    requires b.io.Valid() && IsReadDataState(b.dec.state)
    ensures b'.io == b.io
    ensures b'.dec == b.dec.(driven := b'.dec.driven, state := b'.dec.state)
  {
    var d := b.dec;
    match d.state
    case DataRead0 => b.(dec := d.(driven := Drive((d.data >> 0) & LPC_LAD_MASK), state := DataRead1))
    case DataRead1 => b.(dec := d.(driven := Drive((d.data >> 4) & LPC_LAD_MASK), state := TarToHost0))
  }

  /** CYCTYPE + DIR: decode the cycle type and the direction; only an I/O cycle goes on. */
  function CycleTypeStep(b: Bus, lad: bv8): (b': Bus)
    requires b.io.Valid() && b.dec.state == CycTypeAndDir
    ensures b'.io == b.io
    ensures b'.dec == b.dec.(cycleType := b'.dec.cycleType, direction := b'.dec.direction, state := b'.dec.state)
  {
    var cycleType := (lad & LPC_CYCTYPE_MASK) >> 2;
    var direction := (lad & LPC_DIR_MASK) >> 1;
    b.(dec := b.dec.(cycleType := cycleType, direction := direction,
                     state := if cycleType == CYCTYPE_IO then Addr0 else Idle))
  }

  /** The other cases: CYCTYPE + DIR, the turn-arounds, and Idle and Abort, which do nothing. */
  function ControlStep(b: Bus, lad: bv8): (b': Bus)
    requires b.io.Valid() && IsControlState(b.dec.state)
    ensures b'.io == b.io
    ensures b'.dec.lframe == b.dec.lframe && b'.dec.frameInfo == b.dec.frameInfo
  {
    var d := b.dec;
    match d.state
    case Idle => b
    case CycTypeAndDir => CycleTypeStep(b, lad)
    case TarToPeripheral0 =>
      var sync := if d.direction == DIR_READ then SYNC_SHORT_WAIT else SYNC_READY;
      b.(dec := d.(syncInfo := sync, driven := Drive(sync), state := TarToPeripheral1))
    case TarToPeripheral1 => b.(dec := d.(peripheralDrives := true, state := Sync))
    case TarToHost0 => b.(dec := d.(driven := Drive(0xF), state := TarToHost1))
    case TarToHost1 => b.(dec := d.(peripheralDrives := false, state := Idle))
    case Abort => b
  }

  /** One invocation of LPC_HandleCycle on the sampled GPIO value `signal`. */
  function Edge(b: Bus, signal: bv8): (b': Bus)
    requires b.io.Valid()
    ensures b'.io.Valid()
  {
    var lastLframe := b.dec.lframe;
    var lframe := signal & LPC_LFRAME_MASK;
    var falling := IsHigh(lastLframe) && IsLow(lframe);
    var rising := IsLow(lastLframe) && IsHigh(lframe);
    var active := IsLow(lframe);
    var lad := signal & LPC_LAD_MASK;
    var d := b.dec.(lframe := lframe);
    if falling then b.(dec := d.(state := Idle, peripheralDrives := false))
    else if active then b.(dec := d.(frameInfo := lad))
    else
      var d' := if rising then d.(state := FrameDispatch(d.frameInfo)) else d;
      Step(b.(dec := d'), lad)
  }

  /** The decoder's globals and the GPIO lines it drives, updated in place once per edge. */
  class Decoder {
    var state: CycleState
    var frameInfo: bv8
    var cycleType: bv8
    var direction: bv8
    var address: bv16
    var data: bv8
    var syncInfo: bv8
    var lframe: bv8
    var driven: bv8
    var peripheralDrives: bool
    ghost var calls: seq<HandlerCall>
    const io: IoTransmission.Transport

    ghost predicate Valid()
      reads this, io
    {
      io.Valid()
    }

    ghost function Regs(): DecoderRegs
      reads this
    {
      DecoderRegs(state, frameInfo, cycleType, direction, address, data, syncInfo,
                  lframe, driven, peripheralDrives, calls)
    }

    ghost function Abs(): (b: Bus)
      reads this, io, io.msgData
      requires Valid()
      ensures b.io.Valid()
    {
      Bus(Regs(), io.Abs())
    }

    /** The zero-initialised globals, bound to the transport whose handlers they call. */
    constructor (io: IoTransmission.Transport)
      requires io.Valid()
      ensures Valid() && this.io == io
      ensures Regs() == INITIAL
    {
      state, frameInfo, cycleType, direction := Idle, 0, 0, 0;
      address, data, syncInfo, lframe := 0, 0, 0, 0;
      driven, peripheralDrives := 0, false;
      calls := [];
      this.io := io;
    }

    /** The part of LPC_Initialize that concerns the decoder: LAD to the host, state Idle. */
    method Initialize()
      modifies this
      ensures Regs() == old(Regs()).(peripheralDrives := false, state := Idle)
    {
      TurnAroundToHost();
      SetState(Idle);
    }

    /** LPC_Write: drive the low four bits of `values` on LAD. */
    method Write(values: bv8)
      modifies this`driven
      ensures Regs() == old(Regs()).(driven := values & LPC_LAD_MASK)
    {
      driven := values & LPC_LAD_MASK;
    }

    /** LPC_TurnAroundToPeripheral: LAD pins become outputs. */
    method TurnAroundToPeripheral()
      modifies this`peripheralDrives
      ensures Regs() == old(Regs()).(peripheralDrives := true)
    {
      peripheralDrives := true;
    }

    /** LPC_TurnAroundToHost: LAD pins become inputs. */
    method TurnAroundToHost()
      modifies this`peripheralDrives
      ensures Regs() == old(Regs()).(peripheralDrives := false)
    {
      peripheralDrives := false;
    }

    method GetState() returns (s: CycleState)
      ensures s == state
    {
      s := state;
    }

    method SetState(s: CycleState)
      modifies this`state
      ensures Regs() == old(Regs()).(state := s)
    {
      state := s;
    }

    /** LPC_HandleCycle, on the value `signal` that LPC_Read returns for this edge. */
    method HandleCycle(signal: bv8)
      requires Valid()
      modifies this, io, io.msgData
      ensures Valid()
      ensures Abs() == Edge(old(Abs()), signal)
    {
      var lastLframe := lframe;
      lframe := signal & LPC_LFRAME_MASK;

      var lframeFalling := IsHigh(lastLframe) && IsLow(lframe);
      var lframeRising := IsLow(lastLframe) && IsHigh(lframe);
      var lframeActive := IsLow(lframe);

      var lad := signal & LPC_LAD_MASK;

      if lframeFalling {
        SetState(Idle);
        TurnAroundToHost();
        return;
      }

      if lframeActive {
        frameInfo := lad;
        return;
      }

      if lframeRising {
        if frameInfo == FRAME_START {
          SetState(CycTypeAndDir);
        } else if frameInfo == FRAME_ABORT {
          SetState(Abort);
        } else {
          SetState(Idle);
        }
      }

      StepState(lad);
    }

    /** The second switch of LPC_HandleCycle: one state-machine step on nibble `lad`. */
    method StepState(lad: bv8)
      requires Valid()
      modifies this, io, io.msgData
      ensures Valid()
      ensures Abs() == Step(old(Abs()), lad)
    {
      var s := GetState();
      if IsAddressState(s) {
        StepAddress(lad);
      } else if IsWriteDataState(s) {
        StepWriteData(lad);
      } else if IsReadDataState(s) {
        StepReadData();
      } else if s == Sync {
        HandleSync();
      } else {
        StepControl(lad);
      }
    }

    /** The four address-nibble cases of the switch. */
    method StepAddress(lad: bv8)
      requires Valid() && IsAddressState(state)
      modifies this
      ensures Valid()
      ensures Abs() == AddressStep(old(Abs()), lad)
    {
      if state == Addr0 {
        address := 0;
        address := ShiftIn(address, lad);
        SetState(Addr1);
      } else if state == Addr1 {
        address := ShiftIn(address, lad);
        SetState(Addr2);
      } else if state == Addr2 {
        address := ShiftIn(address, lad);
        SetState(Addr3);
      } else {
        address := ShiftIn(address, lad);
        if direction == DIR_WRITE {
          SetState(DataWrite0);
        } else {
          SetState(TarToPeripheral0);
        }
      }
    }

    /** The two cases that latch the written byte, low nibble first. */
    method StepWriteData(lad: bv8)
      requires Valid() && IsWriteDataState(state)
      modifies this
      ensures Valid()
      ensures Abs() == WriteDataStep(old(Abs()), lad)
    {
      if state == DataWrite0 {
        data := 0;
        data := data | (lad << 0);
        SetState(DataWrite1);
      } else {
        data := data | (lad << 4);
        SetState(TarToPeripheral0);
      }
    }

    /** The two cases that drive the byte read, low nibble first. */
    method StepReadData()
      requires Valid() && IsReadDataState(state)
      modifies this
      ensures Valid()
      ensures Abs() == ReadDataStep(old(Abs()))
    {
      if state == DataRead0 {
        Write((data >> 0) & LPC_LAD_MASK);
        SetState(DataRead1);
      } else {
        Write((data >> 4) & LPC_LAD_MASK);
        SetState(TarToHost0);
      }
    }

    /** The remaining cases: cycle type, turn-arounds and the idle and abort states. */
    method StepControl(lad: bv8)
      requires Valid() && IsControlState(state)
      modifies this
      ensures Valid()
      ensures Abs() == ControlStep(old(Abs()), lad)
    {
      match state
      case Idle =>
      case CycTypeAndDir =>
        StepCycleType(lad);
      case TarToPeripheral0 =>
        if direction == DIR_READ {
          syncInfo := SYNC_SHORT_WAIT;
        } else {
          syncInfo := SYNC_READY;
        }
        Write(syncInfo);
        SetState(TarToPeripheral1);
      case TarToPeripheral1 =>
        TurnAroundToPeripheral();
        SetState(Sync);
      case TarToHost0 =>
        Write(0xF);
        SetState(TarToHost1);
      case TarToHost1 =>
        TurnAroundToHost();
        SetState(Idle);
      case Abort =>
    }

    /** The CYCTYPE + DIR case: decode the cycle type and direction from the nibble. */
    method StepCycleType(lad: bv8)
      requires Valid() && state == CycTypeAndDir
      modifies this
      ensures Valid()
      ensures Abs() == CycleTypeStep(old(Abs()), lad)
    {
      cycleType := (lad & LPC_CYCTYPE_MASK) >> 2;
      direction := (lad & LPC_DIR_MASK) >> 1;
      if cycleType == CYCTYPE_IO {
        SetState(Addr0);
      } else {
        SetState(Idle);
      }
    }

    /** The SYNC state of LPC_HandleCycle: call the read or write handler and drive the sync code. */
    method HandleSync()
      requires Valid()
      modifies this, io, io.msgData
      ensures Valid()
      ensures Abs() == SyncStep(old(Abs()))
    {
      if direction == DIR_READ {
        calls := calls + [ReadCall(address)];
        var ok, value := io.HandleIORead(address as int);
        if ok {
          data := value as bv8;
          syncInfo := SYNC_READY;
          Write(syncInfo);
          SetState(DataRead0);
        } else {
          syncInfo := SYNC_SHORT_WAIT;
          Write(syncInfo);
        }
      } else {
        syncInfo := SYNC_READY;
        Write(syncInfo);
        if direction == DIR_WRITE {
          calls := calls + [WriteCall(address, data)];
          io.HandleIOWrite(address as int, data as int);
        }
        SetState(TarToHost0);
      }
    }
  }
}
