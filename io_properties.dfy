/**
  Properties of the message transport (lpc_io_transmission.c): ownership,
  the control registers, order-independence of the running checksum, and the
  two transfer directions of the host driver protocol described in the file's
  comments.
*/
module IoProperties {

  import opened Wrappers
  import opened PTypes
  import opened IoTransmission

  /** The plain integer sum of a sequence of bytes. */
  function Total(bs: seq<uint8>): (t: int)
    ensures 0 <= t <= 255 * |bs|
  {
    if bs == [] then 0 else bs[0] + Total(bs[1..])
  }

  /** The integer sum of the bytes of `d` at the addresses `addrs`, in that order. */
  function TotalAt(d: seq<uint8>, addrs: seq<uint16>): (t: int)
    requires forall i :: 0 <= i < |addrs| ==> addrs[i] < |d|
    ensures 0 <= t <= 255 * |addrs|
  {
    if addrs == [] then 0 else d[addrs[0]] + TotalAt(d, addrs[1..])
  }

  /** The addresses lo, lo + 1, ..., hi - 1. */
  function Range(lo: nat, hi: nat): (s: seq<uint16>)
    requires lo <= hi <= 65536
    ensures |s| == hi - lo && forall i :: 0 <= i < |s| ==> s[i] == lo + i
  {
    seq(hi - lo, i requires 0 <= i < hi - lo => lo + i)
  }

  /** `addrs` touches every address below `n` exactly once, in some order, and nothing else. */
  predicate Enumerates(addrs: seq<uint16>, n: nat)
    requires n <= 65536
  {
    && (forall i :: 0 <= i < |addrs| ==> addrs[i] < n)
    && multiset(addrs) == multiset(Range(0, n))
  }

  /** The replies and final registers of a series of host reads. */
  datatype Replies = Replies(regs: Regs, values: seq<Option<uint8>>)

  function ReadPass(r: Regs, addrs: seq<uint16>): (p: Replies)
    requires r.Valid()
    ensures p.regs.Valid() && |p.values| == |addrs|
    decreases |addrs|
  {
    if addrs == [] then Replies(r, [])
    else
      var first := Read(r, addrs[0]);
      var rest := ReadPass(first.regs, addrs[1..]);
      Replies(rest.regs, [first.value] + rest.values)
  }

  /** The host writes `m[a]` to each payload address `a` of `addrs`, in that order. */
  function WritePass(r: Regs, m: seq<uint8>, addrs: seq<uint16>): (r': Regs)
    requires r.Valid()
    requires forall i :: 0 <= i < |addrs| ==> addrs[i] < |m|
    ensures r'.Valid()
    decreases |addrs|
  {
    if addrs == [] then r else WritePass(Write(r, addrs[0], m[addrs[0]]), m, addrs[1..])
  }

  // ----- ownership ------------------------------------------------------------------

  /** While the application owns the buffer, a host write changes nothing and a host read fails. */
  lemma OwnershipExclusive(r: Regs, address: uint16, d: uint8)
    requires r.Valid() && r.usrHasControl
    ensures Write(r, address, d) == r
    ensures Read(r, address) == Reply(r, None)
  {
  }

  // ----- control registers ----------------------------------------------------------

  /** Writing or reading Length starts a new pass: Ack is Fail and the checksum is cleared. */
  lemma LengthRegister(r: Regs, d: uint8)
    requires r.Valid() && !r.usrHasControl
    ensures Write(r, MSG_ADDR_OF_LENGTH, d) == r.(length := d, ack := ACK_FAIL, checksum := 0)
    ensures Read(r, MSG_ADDR_OF_LENGTH) == Reply(r.(ack := ACK_FAIL, checksum := 0), Some(r.length))
  {
  }

  /** Writing Checksum sets Ack to Pass exactly when the accumulated sum matches; reading it changes nothing. */
  lemma ChecksumRegister(r: Regs, d: uint8)
    requires r.Valid() && !r.usrHasControl
    ensures var r' := Write(r, MSG_ADDR_OF_CHECKSUM, d);
      && (r'.ack == ACK_PASS <==> r.checksum == d)
      && (r'.ack != ACK_PASS ==> r'.ack == ACK_FAIL)
      && r' == r.(ack := r'.ack)
    ensures Read(r, MSG_ADDR_OF_CHECKSUM) == Reply(r, Some(r.checksum))
  {
  }

  /**
    Writing Ack stores the raw byte and clears the checksum; reading Ack clears the
    checksum and gives the buffer to the application exactly when Ack is Pass.
  */
  lemma AckRegister(r: Regs, d: uint8)
    requires r.Valid() && !r.usrHasControl
    ensures Write(r, MSG_ADDR_OF_ACK, d) == r.(ack := d, checksum := 0)
    ensures var rep := Read(r, MSG_ADDR_OF_ACK);
      && rep.value == Some(r.ack)
      && (rep.regs.usrHasControl <==> r.ack == ACK_PASS)
      && rep.regs == r.(checksum := 0, usrHasControl := rep.regs.usrHasControl)
  {
  }

  /** A payload access touches one byte and adds it into the checksum modulo 256. */
  lemma PayloadAccess(r: Regs, address: uint16, d: uint8)
    requires r.Valid() && !r.usrHasControl && address < MSG_MAX_LENGTH
    ensures var r' := Write(r, address, d);
      && r'.data[address] == d
      && (forall a :: 0 <= a < MSG_MAX_LENGTH && a != address ==> r'.data[a] == r.data[a])
      && r' == r.(data := r'.data, checksum := (r.checksum + d) % 256)
    ensures Read(r, address) == Reply(r.(checksum := (r.checksum + r.data[address]) % 256), Some(r.data[address]))
  {
  }

  /** Addresses above the Ack register are ignored by writes and refused by reads. */
  lemma OutOfRange(r: Regs, address: uint16, d: uint8)
    requires r.Valid() && address > MSG_ADDR_OF_ACK
    ensures Write(r, address, d) == r
    ensures Read(r, address) == Reply(r, None)
  {
  }

  // ----- the running checksum -------------------------------------------------------

  lemma ModAdd(x: int, y: int)
    ensures (x % 256 + y) % 256 == (x + y) % 256
  {
  }

  /** Taking out of the sum the byte at position `k` of the address list. */
  lemma {:induction false} TotalAtRemove(d: seq<uint8>, ys: seq<uint16>, k: nat)
    requires forall i :: 0 <= i < |ys| ==> ys[i] < |d|
    requires k < |ys|
    ensures TotalAt(d, ys) == d[ys[k]] + TotalAt(d, ys[..k] + ys[k + 1..])
  {
    if k == 0 {
      assert ys[..0] + ys[1..] == ys[1..];
    } else {
      TotalAtRemove(d, ys[1..], k - 1);
      assert ys[..k] + ys[k + 1..] == [ys[0]] + (ys[1..][..k - 1] + ys[1..][k..]);
    }
  }

  /**
    Taking the first address of xs out of xs, and position k, which holds the same
    address, out of ys keeps the two lists permutations of each other.
  */
  lemma RemoveMatching(xs: seq<uint16>, ys: seq<uint16>, k: nat, rest: seq<uint16>)
    requires multiset(xs) == multiset(ys)
    requires xs != [] && k < |ys| && ys[k] == xs[0]
    requires rest == ys[..k] + ys[k + 1..]
    ensures multiset(xs[1..]) == multiset(rest)
  {
    assert ys == ys[..k] + [ys[k]] + ys[k + 1..];
    assert multiset(rest) == multiset(ys) - multiset{xs[0]};
    assert xs == [xs[0]] + xs[1..];
    assert multiset(xs[1..]) == multiset(xs) - multiset{xs[0]};
  }

  /** Taking position k out of a list of in-range addresses leaves a list of in-range addresses. */
  lemma RemoveKeepsBound(ys: seq<uint16>, k: nat, rest: seq<uint16>, n: int)
    requires k < |ys| && rest == ys[..k] + ys[k + 1..]
    requires forall i :: 0 <= i < |ys| ==> ys[i] < n
    ensures forall i :: 0 <= i < |rest| ==> rest[i] < n
  {
    forall i | 0 <= i < |rest|
      ensures rest[i] < n
    {
      if i < k {
        assert rest[i] == ys[i];
      } else {
        assert rest[i] == ys[i + 1];
      }
    }
  }

  /** The sum over a list of addresses does not depend on the order of the list. */
  lemma {:induction false} TotalAtPermutation(d: seq<uint8>, xs: seq<uint16>, ys: seq<uint16>)
    requires forall i :: 0 <= i < |xs| ==> xs[i] < |d|
    requires forall i :: 0 <= i < |ys| ==> ys[i] < |d|
    requires multiset(xs) == multiset(ys)
    ensures TotalAt(d, xs) == TotalAt(d, ys)
  {
    if xs == [] {
      assert |ys| == |multiset(ys)| == 0;
    } else {
      assert xs[0] in ys by {
        assert xs[0] in multiset(xs);
      }
      var k :| 0 <= k < |ys| && ys[k] == xs[0];
      var rest := ys[..k] + ys[k + 1..];
      RemoveMatching(xs, ys, k, rest);
      RemoveKeepsBound(ys, k, rest, |d|);
      TotalAtRemove(d, ys, k);
      TotalAtPermutation(d, xs[1..], rest);
    }
  }

  /** Summing the addresses lo..hi - 1 in increasing order sums the slice d[lo..hi]. */
  lemma {:induction false} TotalAtRange(d: seq<uint8>, lo: nat, hi: nat)
    requires lo <= hi <= |d| <= 65536
    ensures TotalAt(d, Range(lo, hi)) == Total(d[lo..hi])
    decreases hi - lo
  {
    if lo < hi {
      assert Range(lo, hi)[1..] == Range(lo + 1, hi);
      assert d[lo..hi][1..] == d[lo + 1..hi];
      TotalAtRange(d, lo + 1, hi);
    }
  }

  /** Touching every address below n exactly once, in any order, sums the first n bytes. */
  lemma EnumeratedTotal(d: seq<uint8>, addrs: seq<uint16>, n: nat)
    requires n <= |d| <= 65536
    requires Enumerates(addrs, n)
    ensures TotalAt(d, addrs) == Total(d[..n])
  {
    TotalAtPermutation(d, addrs, Range(0, n));
    TotalAtRange(d, 0, n);
    assert d[0..n] == d[..n];
  }

  /** `addrs` contains exactly the addresses below n. */
  lemma EnumeratedMembers(addrs: seq<uint16>, n: nat)
    requires n <= 65536
    requires Enumerates(addrs, n)
    ensures forall a: uint16 :: a in addrs <==> a < n
  {
    forall a: uint16
      ensures a in addrs <==> a < n
    {
      if a < n {
        assert Range(0, n)[a] == a;
        assert a in multiset(Range(0, n));
      }
    }
  }

  /**
    A host read pass over payload addresses returns each addressed byte, leaves the
    buffer alone and adds the bytes into the checksum modulo 256.
  */
  lemma {:induction false} ReadPayloadPass(r: Regs, addrs: seq<uint16>)
    requires r.Valid() && !r.usrHasControl
    requires forall i :: 0 <= i < |addrs| ==> addrs[i] < MSG_MAX_LENGTH
    ensures ReadPass(r, addrs).regs == r.(checksum := (r.checksum + TotalAt(r.data, addrs)) % 256)
    ensures forall i :: 0 <= i < |addrs| ==> ReadPass(r, addrs).values[i] == Some(r.data[addrs[i]])
    decreases |addrs|
  {
    if addrs != [] {
      var r1 := Read(r, addrs[0]).regs;
      ReadPayloadPass(r1, addrs[1..]);
      ModAdd(r.checksum + r.data[addrs[0]], TotalAt(r.data, addrs[1..]));
    }
  }

  /**
    A host write pass over payload addresses stores m[a] at each address a it touches,
    leaves the other bytes and the other registers alone, and adds the written bytes
    into the checksum modulo 256.
  */
  lemma {:induction false} WritePayloadPass(r: Regs, m: seq<uint8>, addrs: seq<uint16>)
    requires r.Valid() && !r.usrHasControl
    requires forall i :: 0 <= i < |addrs| ==> addrs[i] < |m| && addrs[i] < MSG_MAX_LENGTH
    ensures var r' := WritePass(r, m, addrs);
      && r' == r.(data := r'.data, checksum := (r.checksum + TotalAt(m, addrs)) % 256)
      && forall a :: 0 <= a < MSG_MAX_LENGTH ==> r'.data[a] == if a in addrs then m[a] else r.data[a]
    decreases |addrs|
  {
    if addrs != [] {
      var r1 := Write(r, addrs[0], m[addrs[0]]);
      WritePayloadPass(r1, m, addrs[1..]);
      ModAdd(r.checksum + m[addrs[0]], TotalAt(m, addrs[1..]));
      assert forall a :: a in addrs <==> a == addrs[0] || a in addrs[1..];
    }
  }

  // ----- the two transfer directions ------------------------------------------------

  /**
    Host to application (the host send loop in lpc_io_transmission.c): Length, every
    payload byte once in any order, then a checksum c. The Ack read returns Pass exactly
    when c is the modulo-256 sum of the message, and then hands the application exactly
    that message; otherwise the host keeps the buffer and may retry.
  */
  lemma HostSendsMessage(r: Regs, m: seq<uint8>, addrs: seq<uint16>, c: uint8)
    requires r.Valid() && !r.usrHasControl
    requires |m| < 256
    requires Enumerates(addrs, |m|)
    ensures var r1 := WritePass(Write(r, MSG_ADDR_OF_LENGTH, |m|), m, addrs);
      var ack := Read(Write(r1, MSG_ADDR_OF_CHECKSUM, c), MSG_ADDR_OF_ACK);
      && r1.checksum == Total(m) % 256
      && ack.value == Some(if c == Total(m) % 256 then ACK_PASS else ACK_FAIL)
      && (ack.regs.usrHasControl <==> c == Total(m) % 256)
      && (c == Total(m) % 256 ==> GetMessage(ack.regs) == Some(m))
  {
    WritePassStores(r, m, addrs);
  }

  /**
    Application to host (the host receive loop): after a successful submit, the host
    reads Length, then every payload address below the length once in any order, then
    Checksum; it gets the length, each byte of the message at its address, and the
    modulo-256 sum of the message.
  */
  lemma AppReplyRoundTrip(r: Regs, m: seq<uint8>, n: uint8, addrs: seq<uint16>)
    requires r.Valid() && r.usrHasControl && n as int <= |m|
    requires Enumerates(addrs, n)
    ensures var (r1, ok) := SetMessage(r, m, n);
      var len := Read(r1, MSG_ADDR_OF_LENGTH);
      var pass := ReadPass(len.regs, addrs);
      && ok
      && len.value == Some(n)
      && (forall i :: 0 <= i < |addrs| ==> pass.values[i] == Some(m[addrs[i]]))
      && Read(pass.regs, MSG_ADDR_OF_CHECKSUM).value == Some(Total(m[..n]) % 256)
  {
    var (r1, ok) := SetMessage(r, m, n);
    var len := Read(r1, MSG_ADDR_OF_LENGTH);
    var d := len.regs.data;
    assert forall a :: 0 <= a < n ==> d[a] == m[a];
    ReadPayloadPass(len.regs, addrs);
    EnumeratedTotal(d, addrs, n);
    assert d[..n] == m[..n];
  }

  /** A write pass over a whole message stores it and leaves its modulo-256 sum in the checksum. */
  lemma WritePassStores(r: Regs, m: seq<uint8>, addrs: seq<uint16>)
    requires r.Valid() && !r.usrHasControl
    requires |m| < 256
    requires Enumerates(addrs, |m|)
    ensures var w := WritePass(Write(r, MSG_ADDR_OF_LENGTH, |m|), m, addrs);
      && w.checksum == Total(m) % 256
      && w.data[..|m|] == m
      && w.length == |m|
      && !w.usrHasControl
  {
    var r0 := Write(r, MSG_ADDR_OF_LENGTH, |m|);
    WritePayloadPass(r0, m, addrs);
    EnumeratedTotal(m, addrs, |m|);
    EnumeratedMembers(addrs, |m|);
    assert m[..|m|] == m;
  }

  /**
    A read pass that starts with Length over a buffer holding `m` returns each byte of
    `m` at its address and leaves the modulo-256 sum of `m` in the checksum.
  */
  lemma ReadPassReturns(r: Regs, m: seq<uint8>, addrs: seq<uint16>)
    requires r.Valid() && !r.usrHasControl
    requires |m| < 256 && r.data[..|m|] == m
    requires Enumerates(addrs, |m|)
    ensures var back := ReadPass(Read(r, MSG_ADDR_OF_LENGTH).regs, addrs);
      && (forall i :: 0 <= i < |addrs| ==> back.values[i] == Some(m[addrs[i]]))
      && back.regs.checksum == Total(m) % 256
      && !back.regs.usrHasControl
  {
    var len := Read(r, MSG_ADDR_OF_LENGTH).regs;
    assert len == r.(ack := ACK_FAIL, checksum := 0);
    ReadPayloadPass(len, addrs);
    assert TotalAt(len.data, addrs) == Total(m) by {
      EnumeratedTotal(len.data, addrs, |m|);
    }
    forall i | 0 <= i < |addrs|
      ensures len.data[addrs[i]] == m[addrs[i]]
    {
      assert len.data[..|m|][addrs[i]] == len.data[addrs[i]];
    }
  }

  /**
    The checksum the host builds while writing a message equals the one it reads back
    when it reads the same bytes again, whatever the two addressing orders.
  */
  lemma WriteAndReadChecksumsAgree(r: Regs, m: seq<uint8>, writeOrder: seq<uint16>, readOrder: seq<uint16>)
    requires r.Valid() && !r.usrHasControl
    requires |m| < 256
    requires Enumerates(writeOrder, |m|) && Enumerates(readOrder, |m|)
    ensures var w := WritePass(Write(r, MSG_ADDR_OF_LENGTH, |m|), m, writeOrder);
      var back := ReadPass(Read(w, MSG_ADDR_OF_LENGTH).regs, readOrder);
      && (forall i :: 0 <= i < |readOrder| ==> back.values[i] == Some(m[readOrder[i]]))
      && Read(back.regs, MSG_ADDR_OF_CHECKSUM).value == Some(w.checksum)
  {
    WritePassStores(r, m, writeOrder);
    ReadPassReturns(WritePass(Write(r, MSG_ADDR_OF_LENGTH, |m|), m, writeOrder), m, readOrder);
  }

  /** LPC_SetIOMessage succeeds once: a second submit fails and changes nothing, and peeking fails too. */
  lemma SubmitOnce(r: Regs, m: seq<uint8>, n: uint8, m': seq<uint8>, n': uint8)
    requires r.Valid() && r.usrHasControl && n as int <= |m|
    ensures var (r1, ok) := SetMessage(r, m, n);
      && ok && !r1.usrHasControl
      && r1.length == n && r1.data[..n] == m[..n] && r1.data[n..] == r.data[n..]
      && SetMessage(r1, m', n') == (r1, false)
      && GetMessage(r1) == None
  {
  }

  // ----- the worked examples in the comments of lpc_io_transmission.c ----------------

  /** Test #1, single byte: Length 1, byte 0x69, Checksum 0x69, then Ack reads 0xA0. */
  lemma SingleByteExample(r: Regs)
    requires r.Valid() && !r.usrHasControl
    ensures var r1 := Write(Write(Write(r, MSG_ADDR_OF_LENGTH, 1), 0, 0x69), MSG_ADDR_OF_CHECKSUM, 0x69);
      Read(r1, MSG_ADDR_OF_ACK).value == Some(ACK_PASS)
  {
  }

  /**
    Test #2, checksum overflow: the four bytes 0x5A 0x69 0x3C 0xD2 sum to 465, so
    Checksum 0xD1 (465 mod 256) is accepted and the application receives the message.
  */
  lemma OverflowExample(r: Regs)
    requires r.Valid() && !r.usrHasControl
    ensures var m := [0x5A, 0x69, 0x3C, 0xD2];
      var r1 := WritePass(Write(r, MSG_ADDR_OF_LENGTH, 4), m, [0, 1, 2, 3]);
      var ack := Read(Write(r1, MSG_ADDR_OF_CHECKSUM, 0xD1), MSG_ADDR_OF_ACK);
      && ack.value == Some(ACK_PASS)
      && GetMessage(ack.regs) == Some(m)
  {
    var m: seq<uint8> := [0x5A, 0x69, 0x3C, 0xD2];
    assert Total(m) == 465;
    FirstFourAddresses();
    HostSendsMessage(r, m, [0, 1, 2, 3], 0xD1);
  }

  /** The payload addresses of a four-byte message. */
  lemma FirstFourAddresses()
    ensures Range(0, 4) == [0, 1, 2, 3]
  {
    var r := Range(0, 4);
    assert r[0] == 0 && r[1] == 1 && r[2] == 2 && r[3] == 3;
  }

  /** The read-back order of Test #2 touches each of the four payload addresses once. */
  lemma EchoOrder(order: seq<uint16>)
    requires order == [2, 0, 3, 1]
    ensures Enumerates(order, 4)
  {
    FourAddressesOnce(order);
    FirstFourAddresses();
    var inOrder: seq<uint16> := [0, 1, 2, 3];
    assert multiset(inOrder) == multiset{0, 1, 2, 3};
  }

  /** The order 2, 0, 3, 1 names each payload address below 4 once. */
  lemma FourAddressesOnce(order: seq<uint16>)
    requires order == [2, 0, 3, 1]
    ensures multiset(order) == multiset{0, 1, 2, 3}
    ensures forall i :: 0 <= i < |order| ==> order[i] < 4
  {
  }

  /** The checksum of the message of Test #2. */
  lemma EchoedSum(m: seq<uint8>)
    requires m == [0x5A, 0x69, 0x3C, 0xD2]
    ensures Total(m[..4]) % 256 == 0xD1
  {
    var bytes: seq<uint8> := [0x5A, 0x69, 0x3C, 0xD2];
    assert m[..4] == bytes;
    assert Total(bytes) == 465;
  }

  /**
    The second half of Test #2: once the application echoes that message, the host
    reads it back in the order 2, 0, 3, 1 and gets the same checksum 0xD1.
  */
  lemma OverflowEchoExample(r: Regs, m: seq<uint8>, order: seq<uint16>)
    requires r.Valid() && r.usrHasControl
    requires m == [0x5A, 0x69, 0x3C, 0xD2] && order == [2, 0, 3, 1]
    ensures var echoed := SetMessage(r, m, 4).0;
      var back := ReadPass(Read(echoed, MSG_ADDR_OF_LENGTH).regs, order);
      && back.values == [Some(0x3C), Some(0x5A), Some(0xD2), Some(0x69)]
      && Read(back.regs, MSG_ADDR_OF_CHECKSUM).value == Some(0xD1)
  {
    EchoedSum(m);
    EchoOrder(order);
    AppReplyRoundTrip(r, m, 4, order);
  }

  /**
    Test #3, bad checksum: Length 2, byte 1 = 0x12, byte 0 = 0x34 and Checksum 0x70 read
    back Ack 0xAF; resending with the right sum 0x46 reads back 0xA0.
  */
  lemma RejectThenAcceptExample(r: Regs)
    requires r.Valid() && !r.usrHasControl
    ensures var m := [0x34, 0x12];
      var bad := Read(Write(WritePass(Write(r, MSG_ADDR_OF_LENGTH, 2), m, [1, 0]), MSG_ADDR_OF_CHECKSUM, 0x70), MSG_ADDR_OF_ACK);
      && bad.value == Some(ACK_FAIL)
      && var good := Read(Write(WritePass(Write(bad.regs, MSG_ADDR_OF_LENGTH, 2), m, [1, 0]), MSG_ADDR_OF_CHECKSUM, 0x46), MSG_ADDR_OF_ACK);
      good.value == Some(ACK_PASS)
  {
    var m: seq<uint8> := [0x34, 0x12];
    assert Total(m) == 0x46;
    assert Range(0, 2) == [0, 1];
    var order: seq<uint16> := [1, 0];
    assert multiset(order) == multiset(Range(0, 2));
    HostSendsMessage(r, m, [1, 0], 0x70);
    var bad := Read(Write(WritePass(Write(r, MSG_ADDR_OF_LENGTH, 2), m, [1, 0]), MSG_ADDR_OF_CHECKSUM, 0x70), MSG_ADDR_OF_ACK);
    HostSendsMessage(bad.regs, m, [1, 0], 0x46);
  }
}
