/**
  The debugging ring of debug.c: a 100-byte circular buffer with a write index that
  wraps, a fill operation and an "oldest first" unrolling copy.

  The pure part (Ring, Clear, Save, Unrolled) is the specification; the class DebugRing
  holds the module's globals and its methods are proved against those functions.
*/
module Debug {

  import opened PTypes

  const DEBUG_BUFFER_INITIAL_BYTE: uint8 := 0xFF
  const DEBUG_BUFFER_LENGTH: int := 100

  /** A snapshot of the globals debug_buffer, debug_buffer_initial_byte and debug_buffer_index. */
  datatype Ring = Ring(buffer: seq<uint8>, initialByte: uint8, index: int)
  {
    /** The buffer has its full length and the index points into it. */
    predicate Valid()
    {
      |buffer| == DEBUG_BUFFER_LENGTH && 0 <= index < DEBUG_BUFFER_LENGTH
    }
  }

  /** The globals as their static initialisers leave them. */
  const INITIAL := Ring(seq(DEBUG_BUFFER_LENGTH, _ => 0), DEBUG_BUFFER_INITIAL_BYTE, 0)

  /** DEBUG_ClearBuffer: every entry and the stored initial byte become `b`. */
  function Clear(r: Ring, b: uint8): (r': Ring)
    requires r.Valid()
    ensures r'.Valid() && r'.index == r.index
  {
    Ring(seq(DEBUG_BUFFER_LENGTH, _ => b), b, r.index)
  }

  /** DEBUG_SaveToBuffer: store `x` at the index and advance the index modulo the length. */
  function Save(r: Ring, x: uint8): (r': Ring)
    requires r.Valid()
    ensures r'.Valid()
  {
    Ring(r.buffer[r.index := x], r.initialByte, (r.index + 1) % DEBUG_BUFFER_LENGTH)
  }

  /** Saving the bytes of `xs` one after the other. */
  function SaveAll(r: Ring, xs: seq<uint8>): (r': Ring)
    requires r.Valid()
    ensures r'.Valid()
    decreases |xs|
  {
    if xs == [] then r else SaveAll(Save(r, xs[0]), xs[1..])
  }

  /** What DEBUG_ReturnBuffer writes: the ring read from the index onwards, wrapping round. */
  function Unrolled(r: Ring): (s: seq<uint8>)
    requires r.Valid()
    ensures |s| == DEBUG_BUFFER_LENGTH
  {
    seq(DEBUG_BUFFER_LENGTH, i requires 0 <= i < DEBUG_BUFFER_LENGTH => r.buffer[(r.index + i) % DEBUG_BUFFER_LENGTH])
  }

  // ----- properties -----------------------------------------------------------------

  /** Saving one byte drops the oldest byte of the unrolled ring and appends the new one. */
  lemma SaveShifts(r: Ring, x: uint8)
    requires r.Valid()
    ensures Unrolled(Save(r, x)) == Unrolled(r)[1..] + [x]
  {
    var u, u' := Unrolled(r), Unrolled(Save(r, x));
    forall i | 0 <= i < DEBUG_BUFFER_LENGTH
      ensures u'[i] == (u[1..] + [x])[i]
    {
      var k := (r.index + 1) % DEBUG_BUFFER_LENGTH;
      assert u'[i] == Save(r, x).buffer[(k + i) % DEBUG_BUFFER_LENGTH];
      assert (k + i) % DEBUG_BUFFER_LENGTH == (r.index + 1 + i) % DEBUG_BUFFER_LENGTH;
      if i < DEBUG_BUFFER_LENGTH - 1 {
        assert (r.index + 1 + i) % DEBUG_BUFFER_LENGTH != r.index;
        assert u[i + 1] == r.buffer[(r.index + 1 + i) % DEBUG_BUFFER_LENGTH];
      } else {
        assert (r.index + 1 + i) % DEBUG_BUFFER_LENGTH == r.index;
      }
    }
  }

  /**
    The ring always returns the last 100 bytes of its history: what it held before,
    followed by every byte saved since, oldest first.
  */
  lemma {:induction false} ReturnsLastSaved(r: Ring, xs: seq<uint8>)
    requires r.Valid()
    ensures Unrolled(SaveAll(r, xs)) == (Unrolled(r) + xs)[|xs|..]
    decreases |xs|
  {
    if xs == [] {
      assert Unrolled(r) + xs == Unrolled(r);
    } else {
      var r1 := Save(r, xs[0]);
      ReturnsLastSaved(r1, xs[1..]);
      SaveShifts(r, xs[0]);
      assert Unrolled(r1) + xs[1..] == (Unrolled(r) + xs)[1..];
    }
  }

  /** After saving k <= 100 bytes, the last k entries returned are exactly those bytes, oldest first. */
  lemma LastKSaved(r: Ring, xs: seq<uint8>)
    requires r.Valid() && |xs| <= DEBUG_BUFFER_LENGTH
    ensures Unrolled(SaveAll(r, xs))[DEBUG_BUFFER_LENGTH - |xs|..] == xs
  {
    ReturnsLastSaved(r, xs);
    assert (Unrolled(r) + xs)[|xs|..][DEBUG_BUFFER_LENGTH - |xs|..] == xs;
  }

  /** Once 100 or more bytes have been saved, the returned buffer is exactly the last 100 of them. */
  lemma FullHistory(r: Ring, xs: seq<uint8>)
    requires r.Valid() && |xs| >= DEBUG_BUFFER_LENGTH
    ensures Unrolled(SaveAll(r, xs)) == xs[|xs| - DEBUG_BUFFER_LENGTH..]
  {
    ReturnsLastSaved(r, xs);
    assert (Unrolled(r) + xs)[|xs|..] == xs[|xs| - DEBUG_BUFFER_LENGTH..];
  }

  /** Clearing with `b` and then saving k <= 100 bytes returns 100 - k copies of `b`, then the bytes. */
  lemma ClearThenSave(r: Ring, b: uint8, xs: seq<uint8>)
    requires r.Valid() && |xs| <= DEBUG_BUFFER_LENGTH
    ensures Unrolled(SaveAll(Clear(r, b), xs)) == seq(DEBUG_BUFFER_LENGTH - |xs|, _ => b) + xs
  {
    ClearedUnrolls(r, b);
    ReturnsLastSaved(Clear(r, b), xs);
    FillThenTail(b, xs);
  }

  /** Dropping |xs| bytes from 100 fill bytes followed by `xs` leaves 100 - |xs| fill bytes and `xs`. */
  lemma FillThenTail(b: uint8, xs: seq<uint8>)
    requires |xs| <= DEBUG_BUFFER_LENGTH
    ensures (seq(DEBUG_BUFFER_LENGTH, _ => b) + xs)[|xs|..] == seq(DEBUG_BUFFER_LENGTH - |xs|, _ => b) + xs
  {
    var fill := seq(DEBUG_BUFFER_LENGTH, _ => b);
    assert (fill + xs)[|xs|..] == fill[|xs|..] + xs;
    assert fill[|xs|..] == seq(DEBUG_BUFFER_LENGTH - |xs|, _ => b);
  }

  /** A cleared ring unrolls to 100 copies of the fill byte, wherever the index points. */
  lemma ClearedUnrolls(r: Ring, b: uint8)
    requires r.Valid()
    ensures Unrolled(Clear(r, b)) == seq(DEBUG_BUFFER_LENGTH, _ => b)
  {
  }

  // ----- the globals, updated in place ------------------------------------------------

  class DebugRing {
    const buffer: array<uint8>
    var initialByte: uint8
    var index: int

    ghost predicate Valid()
      reads this
    {
      buffer.Length == DEBUG_BUFFER_LENGTH && 0 <= index < DEBUG_BUFFER_LENGTH
    }

    ghost function Abs(): (r: Ring)
      reads this, buffer
      requires Valid()
      ensures r.Valid()
    {
      Ring(buffer[..], initialByte, index)
    }

    constructor ()
      ensures Valid() && fresh(buffer)
      ensures Abs() == INITIAL
    {
      buffer := new uint8[DEBUG_BUFFER_LENGTH](_ => 0);
      initialByte := DEBUG_BUFFER_INITIAL_BYTE;
      index := 0;
      new;
      assert buffer[..] == INITIAL.buffer;
    }

    method ClearBuffer(b: uint8)
      requires Valid()
      modifies this, buffer
      ensures Valid()
      ensures Abs() == Clear(old(Abs()), b)
    {
      initialByte := b;
      for i := 0 to DEBUG_BUFFER_LENGTH
        invariant initialByte == b && index == old(index)
        invariant forall k :: 0 <= k < i ==> buffer[k] == b
      {
        buffer[i] := initialByte;
      }
      assert buffer[..] == seq(DEBUG_BUFFER_LENGTH, _ => b);
    }

    method SaveToBuffer(x: uint8)
      requires Valid()
      modifies this, buffer
      ensures Valid()
      ensures Abs() == Save(old(Abs()), x)
    {
      buffer[index] := x;
      index := index + 1;
      index := index % DEBUG_BUFFER_LENGTH;
    }

    /** `ordered` must hold at least 100 bytes and must not be the ring itself. */
    method ReturnBuffer(ordered: array<uint8>)
      requires Valid()
      requires ordered.Length >= DEBUG_BUFFER_LENGTH && ordered != buffer
      modifies ordered
      ensures ordered[..DEBUG_BUFFER_LENGTH] == Unrolled(Abs())
      ensures ordered[DEBUG_BUFFER_LENGTH..] == old(ordered[DEBUG_BUFFER_LENGTH..])
      ensures Abs() == old(Abs())
    {
      var j := index;
      for i := 0 to DEBUG_BUFFER_LENGTH
        invariant j == (index + i) % DEBUG_BUFFER_LENGTH
        invariant forall k :: 0 <= k < i ==> ordered[k] == buffer[(index + k) % DEBUG_BUFFER_LENGTH]
        invariant ordered[DEBUG_BUFFER_LENGTH..] == old(ordered[DEBUG_BUFFER_LENGTH..])
      {
        ordered[i] := buffer[j];
        j := j + 1;
        j := j % DEBUG_BUFFER_LENGTH;
      }
    }
  }
}
