/**
  The message transport layered over LPC I/O cycles (lpc_io_transmission.c).

  A 256-byte payload buffer is mapped at I/O addresses 0x000-0x0FF and three
  control registers follow it: Length (0x100), Checksum (0x101) and Ack (0x102).
  A flag records whether the application (rather than the host, through the bus)
  currently owns the buffer.

  `Regs` is a snapshot of the module's globals; `Write`, `Read`, `GetMessage` and
  `SetMessage` are the specification of the four entry points, and the class
  `Transport` is the in-place implementation proved against them.
*/
module IoTransmission {

  import opened Wrappers
  import opened PTypes

  const MSG_MAX_LENGTH: int := 256

  const MSG_ADDR_OF_LENGTH: uint16 := MSG_MAX_LENGTH + 0
  const MSG_ADDR_OF_CHECKSUM: uint16 := MSG_MAX_LENGTH + 1
  const MSG_ADDR_OF_ACK: uint16 := MSG_MAX_LENGTH + 2

  const ACK_PASS: uint8 := 0xA0
  const ACK_FAIL: uint8 := 0xAF

  /** The globals msg_data, msg_length, msg_checksum, msg_ack and usr_has_control. */
  datatype Regs = Regs(data: seq<uint8>, length: uint8, checksum: uint8, ack: uint8, usrHasControl: bool)
  {
    predicate Valid() { |data| == MSG_MAX_LENGTH }
  }

  /** The zero-initialised globals, with usr_has_control = FALSE. */
  const INITIAL: Regs := Regs(seq(MSG_MAX_LENGTH, _ => 0), 0, 0, 0, false)

  /** Adding a byte to the checksum through the 16-bit temporary, then `% 256`. */
  function AddToChecksum(checksum: uint8, b: uint8): (c: uint8)
    ensures checksum + b < 256 ==> c == checksum + b
    ensures checksum + b >= 256 ==> c == checksum + b - 256
  {
    (checksum + b) % 256
  }

  /** LPC_HandleIOWrite: the effect of a host I/O write of `d` to `address`. */
  function Write(r: Regs, address: uint16, d: uint8): (r': Regs)
    requires r.Valid()
    ensures r'.Valid()
  {
    if r.usrHasControl then r
    else if address == MSG_ADDR_OF_LENGTH then r.(ack := ACK_FAIL, length := d, checksum := 0)
    else if address == MSG_ADDR_OF_CHECKSUM then r.(ack := if r.checksum == d then ACK_PASS else ACK_FAIL)
    else if address == MSG_ADDR_OF_ACK then r.(ack := d, checksum := 0)
    else if address >= MSG_MAX_LENGTH then r
    else r.(data := r.data[address := d], checksum := AddToChecksum(r.checksum, d))
  }

  /** What a read handler returns: the new registers and, on success, the byte read. */
  datatype Reply = Reply(regs: Regs, value: Option<uint8>)

  /** LPC_HandleIORead: the effect and result of a host I/O read of `address`. */
  function Read(r: Regs, address: uint16): (rep: Reply)
    requires r.Valid()
    ensures rep.regs.Valid()
  {
    if r.usrHasControl then Reply(r, None)
    else if address == MSG_ADDR_OF_LENGTH then
      Reply(r.(ack := ACK_FAIL, checksum := 0), Some(r.length))
    else if address == MSG_ADDR_OF_CHECKSUM then
      Reply(r, Some(r.checksum))
    else if address == MSG_ADDR_OF_ACK then
      Reply(r.(checksum := 0, usrHasControl := r.ack == ACK_PASS), Some(r.ack))
    else if address >= MSG_MAX_LENGTH then Reply(r, None)
    else Reply(r.(checksum := AddToChecksum(r.checksum, r.data[address])), Some(r.data[address]))
  }

  /** LPC_GetIOMessage: the inbound message, available only while the application owns the buffer. */
  function GetMessage(r: Regs): (m: Option<seq<uint8>>)
    requires r.Valid()
    ensures m.Some? <==> r.usrHasControl
    ensures m.Some? ==> |m.value| == r.length && forall i :: 0 <= i < r.length ==> m.value[i] == r.data[i]
  {
    if r.usrHasControl then Some(r.data[..r.length]) else None
  }

  /**
    LPC_SetIOMessage: the application submits the first `n` bytes of `m` and hands the
    buffer back; the flag says whether the call succeeded.
  */
  function SetMessage(r: Regs, m: seq<uint8>, n: uint8): (res: (Regs, bool))
    requires r.Valid()
    requires r.usrHasControl ==> n as int <= |m|
    ensures res.0.Valid()
  {
    if r.usrHasControl then
      (r.(length := n, data := m[..n] + r.data[n..], usrHasControl := false), true)
    else (r, false)
  }

  /** The module's globals, updated in place by the bus and by the application. */
  class Transport {
    const msgData: array<uint8>
    var msgLength: uint8
    var msgChecksum: uint8
    var msgAck: uint8
    var usrHasControl: bool

    ghost predicate Valid()
      reads this
    {
      msgData.Length == MSG_MAX_LENGTH
    }

    ghost function Abs(): (r: Regs)
      reads this, msgData
      requires Valid()
      ensures r.Valid()
    {
      Regs(msgData[..], msgLength, msgChecksum, msgAck, usrHasControl)
    }

    /** The globals as the C start-up code leaves them. */
    constructor ()
      ensures Valid() && fresh(msgData)
      ensures Abs() == INITIAL
    {
      msgData := new uint8[MSG_MAX_LENGTH](_ => 0);
      msgLength, msgChecksum, msgAck := 0, 0, 0;
      usrHasControl := false;
      new;
      assert msgData[..] == INITIAL.data;
    }

    method HandleIOWrite(address: uint16, d: uint8)
      requires Valid()
      modifies this, msgData
      ensures Valid()
      ensures Abs() == Write(old(Abs()), address, d)
    {
      if usrHasControl { return; }
      if address == MSG_ADDR_OF_LENGTH {
        msgAck := ACK_FAIL;
        msgLength := d;
        msgChecksum := 0;
      } else if address == MSG_ADDR_OF_CHECKSUM {
        msgAck := if msgChecksum == d then ACK_PASS else ACK_FAIL;
      } else if address == MSG_ADDR_OF_ACK {
        msgAck := d;
        msgChecksum := 0;
      } else {
        if address >= MSG_MAX_LENGTH { return; }
        msgData[address] := d;
        var tmpChecksum: int := msgChecksum;
        tmpChecksum := tmpChecksum + d;
        tmpChecksum := tmpChecksum % 256;
        msgChecksum := tmpChecksum;
      }
    }

    /** Returns `ok` = FALSE (and `d` = 0, which the caller ignores) when the read fails. */
    method HandleIORead(address: uint16) returns (ok: bool, d: uint8)
      requires Valid()
      modifies this
      ensures Valid()
      ensures Abs() == Read(old(Abs()), address).regs
      ensures ok == Read(old(Abs()), address).value.Some?
      ensures ok ==> d == Read(old(Abs()), address).value.value
    {
      d := 0;
      if usrHasControl { return false, d; }
      if address == MSG_ADDR_OF_LENGTH {
        msgAck := ACK_FAIL;
        d := msgLength;
        msgChecksum := 0;
      } else if address == MSG_ADDR_OF_CHECKSUM {
        d := msgChecksum;
      } else if address == MSG_ADDR_OF_ACK {
        d := msgAck;
        msgChecksum := 0;
        usrHasControl := msgAck == ACK_PASS;
      } else {
        if address >= MSG_MAX_LENGTH { return false, d; }
        d := msgData[address];
        var tmpChecksum: int := msgChecksum;
        tmpChecksum := tmpChecksum + msgData[address];
        tmpChecksum := tmpChecksum % 256;
        msgChecksum := tmpChecksum;
      }
      ok := true;
    }

    /**
      Copies the inbound message into the application's `buffer` (which must hold
      msg_length bytes) and returns its length; changes none of the module's state.
    */
    method GetIOMessage(buffer: array<uint8>) returns (ok: bool, bufferLength: uint8)
      requires Valid()
      requires buffer != msgData
      requires usrHasControl ==> msgLength as int <= buffer.Length
      modifies buffer
      ensures ok == usrHasControl
      ensures ok ==> bufferLength == msgLength && buffer[bufferLength..] == old(buffer[bufferLength..])
      ensures GetMessage(Abs()) == if ok then Some(buffer[..bufferLength]) else None
      ensures !ok ==> buffer[..] == old(buffer[..])
      ensures Abs() == old(Abs())
    {
      bufferLength := 0;
      if usrHasControl {
        var i := 0;
        while i < msgLength
          invariant 0 <= i <= msgLength
          invariant buffer[..i] == msgData[..i]
          invariant buffer[i..] == old(buffer[i..])
        {
          buffer[i] := msgData[i];
          assert buffer[..i + 1] == buffer[..i] + [msgData[i]];
          i := i + 1;
        }
        bufferLength := msgLength;
        return true, bufferLength;
      }
      return false, bufferLength;
    }

    /**
      Copies the first `bufferLength` bytes of the application's `buffer` into the
      message buffer and hands the buffer back to the host side.
    */
    method SetIOMessage(buffer: array<uint8>, bufferLength: uint8) returns (ok: bool)
      requires Valid()
      requires buffer != msgData
      requires usrHasControl ==> bufferLength as int <= buffer.Length
      modifies this, msgData
      ensures Valid()
      ensures (Abs(), ok) == SetMessage(old(Abs()), buffer[..], bufferLength)
    {
      if usrHasControl {
        ghost var before := msgData[..];
        msgLength := bufferLength;
        var i := 0;
        while i < msgLength
          invariant 0 <= i <= msgLength
          modifies msgData
          invariant msgData[..i] == buffer[..i]
          invariant msgData[i..] == before[i..]
        {
          msgData[i] := buffer[i];
          assert msgData[..i + 1] == msgData[..i] + [buffer[i]];
          assert msgData[i + 1..] == before[i + 1..];
          i := i + 1;
        }
        usrHasControl := false;
        assert buffer[..][..msgLength] == buffer[..msgLength];
        assert msgData[..] == msgData[..msgLength] + msgData[msgLength..];
        assert msgData[..] == buffer[..][..bufferLength] + old(Abs()).data[bufferLength..];
        return true;
      }
      return false;
    }
  }
}
