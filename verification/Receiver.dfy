// TCPReceiver::update: a resumable parser over reads of any size.
module Receiver {
  import opened Types
  import opened Codec
  import opened Framing
  import opened Messages

  /** The reading end of a connection: the bytes the peer has sent, or will send, that
      have not been read yet. */
  class Socket {
    var input: Bytes
    const mayFail: bool             // whether a read of this connection can be an error
    ghost var calls: nat            // of read(2) so far
    ghost var failures: nat         // and how many were errors

    constructor (bytes: Bytes, mayFail: bool)
      ensures input == bytes && this.mayFail == mayFail && failures == 0
    {
      input := bytes;
      this.mayFail := mayFail;
      calls, failures := 0, 0;
    }

    /** read(2): an error, the end of the stream, or any positive number of bytes up to
        the number asked for. Asking for none gives none. */
    method Read(n: nat) returns (k: int, data: Bytes)
      modifies this
      ensures k <= n
      ensures calls == old(calls) + 1
      ensures failures == old(failures) + if k < 0 then 1 else 0
      ensures k < 0 ==> mayFail
      ensures k > 0 ==> |data| == k && old(input) == data + input
      ensures k <= 0 ==> input == old(input)
      ensures k == 0 ==> n == 0 || input == []
    {
      k, data := 0, [];
      var fails: bool := *;
      calls := calls + 1;
      if n > 0 && fails && mayFail {
        k := -1;
        failures := failures + 1;
      } else if n > 0 && input != [] {
        k :| 0 < k <= n && k <= |input|;
        data, input := input[..k], input[k..];
      }
    }
  }

  /** The bytes read from a socket whose input went from `before` to `after`. */
  ghost function Taken(before: Bytes, after: Bytes): Bytes {
    if |after| <= |before| then before[..|before| - |after|] else []
  }

  lemma TakenSplits(taken: Bytes, after: Bytes)
    ensures Taken(taken + after, after) == taken
  {}

  class TCPReceiver {
    var recvct: nat                 // bytes of the size word, or of the packet, so far
    var sizebuf: array<Octet>       // the size word as it arrives
    var recvdata: array?<Octet>     // null until the size is known
    var recvsize: Word
    var portClosed: bool
    var isForceExit: bool

    ghost predicate Valid()
      reads this, sizebuf, recvdata
    {
      && sizebuf.Length == 4
      && (recvdata == null ==> recvct < 4)
      && (recvdata != null ==>
            && recvdata != sizebuf && recvdata.Length == recvsize
            && recvct <= recvsize && RxOk(Body(recvsize, recvdata[..recvct])))
    }

    /** Where the receiver stands in the stream. */
    ghost function State(): (r: Rx)
      reads this, sizebuf, recvdata
      requires Valid()
      ensures RxOk(r)
    {
      if recvdata == null then Header(sizebuf[..recvct]) else Body(recvsize, recvdata[..recvct])
    }

    constructor ()
      ensures Valid() && fresh(sizebuf) && recvdata == null
      ensures State() == Header([]) && !portClosed && !isForceExit
    {
      recvct := 0;
      sizebuf := new Octet[4];
      recvdata := null;
      recvsize := 0;
      portClosed := false;
      isForceExit := false;
    }

    /** Since the input was `in0` and the state stood for `start`, the bytes taken are
        what the state now stands for in addition. */
    ghost predicate Tracks(start: Bytes, in0: Bytes, sock: Socket)
      reads this, sizebuf, recvdata, sock
      requires Valid()
    {
      && in0 == Taken(in0, sock.input) + sock.input
      && Residue(State()) == start + Taken(in0, sock.input)
    }

    /** First phase, one read: more of the size word. */
    method ReadSize(sock: Socket, ghost start: Bytes, ghost in0: Bytes) returns (size: int)
      requires Valid() && recvdata == null && Tracks(start, in0, sock)
      modifies this, sizebuf, sock
      ensures Valid() && sizebuf == old(sizebuf) && isForceExit == old(isForceExit)
      ensures recvdata == null || fresh(recvdata)
      ensures Tracks(start, in0, sock)
      ensures size <= 0 ==> sock.input == old(sock.input)
      ensures size > 0 ==> |sock.input| < |old(sock.input)|
      ensures portClosed == (old(portClosed) || size < 0)
      ensures sock.calls == old(sock.calls) + 1
      ensures sock.failures == old(sock.failures) + if size < 0 then 1 else 0
      ensures size < 0 ==> sock.mayFail
      ensures size == 0 ==> sock.input == []
    {
      hide WordBytes, WordAt, Taken;
      var data;
      size, data := sock.Read(4 - recvct);
      if size < 0 { portClosed := true; }
      if size > 0 {
        TakeMore(in0, old(sock.input), data, sock.input);
        ghost var got := sizebuf[..recvct];
        ConcatAssoc(start, Taken(in0, old(sock.input)), data);
        Put(sizebuf, recvct, data);
        recvct := recvct + size;
        if recvct == 4 {
          recvsize := WordAt(sizebuf[..], 0);
          recvdata := new Octet[recvsize];
          recvct := 0;
          SizeComplete(sizebuf[..]);
          assert sizebuf[..] == sizebuf[..4];
          assert WordBytes(recvsize) + recvdata[..0] == WordBytes(recvsize);
        }
      }
    }

    /** Second phase, one read: more of the packet. */
    method ReadData(sock: Socket, ghost start: Bytes, ghost in0: Bytes) returns (size: int)
      requires Valid() && recvdata != null && Tracks(start, in0, sock)
      modifies this, recvdata, sock
      ensures recvdata == old(recvdata) && sizebuf == old(sizebuf) && isForceExit == old(isForceExit)
      ensures recvsize == old(recvsize)
      ensures size <= 0 ==> Valid() && Tracks(start, in0, sock) && sock.input == old(sock.input)
      ensures size > 0 ==>
                && |sock.input| < |old(sock.input)|
                && 0 < recvct <= recvsize == recvdata.Length
                && (recvct < recvsize ==> Valid() && Tracks(start, in0, sock))
                && (recvct == recvsize ==>
                      && in0 == Taken(in0, sock.input) + sock.input
                      && Frame(recvdata[..]) == start + Taken(in0, sock.input))
      ensures portClosed == (old(portClosed) || size < 0)
      ensures sock.calls == old(sock.calls) + 1
      ensures sock.failures == old(sock.failures) + if size < 0 then 1 else 0
      ensures size < 0 ==> sock.mayFail
      ensures size == 0 ==> sock.input == [] || Stuck(State())
    {
      hide WordBytes, WordAt, Taken;
      var data;
      size, data := sock.Read(recvsize - recvct);
      if size < 0 { portClosed := true; }
      if size > 0 {
        TakeMore(in0, old(sock.input), data, sock.input);
        ghost var got := recvdata[..recvct];
        ConcatAssoc(start, Taken(in0, old(sock.input)), data);
        ConcatAssoc(WordBytes(recvsize), got, data);
        Put(recvdata, recvct, data);
        recvct := recvct + size;
        assert recvct == recvsize ==> recvdata[..recvct] == recvdata[..];
      } else {
        assert recvdata[..recvct] == old(recvdata[..recvct]);
      }
    }

    /** Reads until a packet is whole, and hands over that packet, or until there is
        nothing to read. The bytes taken, added to what the old state stood for, are the
        packet's frame or what the new state stands for: none is lost, duplicated or
        misread, and a packet cut off by the end of the stream is not handed over. The port
        counts as closed just if a read failed. When told to exit, it makes at most one read
        of each phase. */
    method Update(sock: Socket) returns (rv: bool, packet: array?<Octet>)
      requires Valid()
      modifies this, sizebuf, recvdata, sock
      ensures Valid() && sizebuf == old(sizebuf)
      ensures recvdata == null || recvdata == old(recvdata) || fresh(recvdata)
      ensures old(sock.input) == Taken(old(sock.input), sock.input) + sock.input
      ensures packet == null ==>
                Residue(State()) == old(Residue(State())) + Taken(old(sock.input), sock.input)
      ensures packet != null ==>
                && 0 < packet.Length < WORDS
                && (packet == old(recvdata) || fresh(packet))
                && recvdata == null && State() == Header([])
                && Frame(packet[..]) == old(Residue(State())) + Taken(old(sock.input), sock.input)
                && sock.input != old(sock.input)
      ensures packet != null ==> rv
      ensures rv ==> sock.input != old(sock.input)
      ensures !rv && !isForceExit ==> sock.input == old(sock.input)
      ensures packet == null && (rv || !isForceExit) && sock.failures == old(sock.failures) ==>
                sock.input == [] || Stuck(State())
      ensures isForceExit == old(isForceExit)
      ensures isForceExit ==> sock.calls <= old(sock.calls) + 2
      ensures portClosed == (old(portClosed) || sock.failures > old(sock.failures))
      ensures sock.failures >= old(sock.failures)
      ensures sock.failures > old(sock.failures) ==> sock.mayFail && packet == null
    {
      hide WordBytes, WordAt, Frame, Stuck, RxOk, Taken, Residue;
      TakeNothing(Residue(State()), sock.input);
      rv := false;
      packet := null;
      ghost var start, in0 := Residue(State()), sock.input;
      while true
        invariant Valid() && sizebuf == old(sizebuf) && isForceExit == old(isForceExit)
        invariant recvdata == null || recvdata == old(recvdata) || fresh(recvdata)
        invariant Tracks(start, in0, sock)
        invariant |sock.input| <= |in0| && (rv <==> |sock.input| < |in0|)
        invariant portClosed == old(portClosed) && sock.failures == old(sock.failures)
        invariant isForceExit ==> sock.calls == old(sock.calls)
        decreases |sock.input|
      {
        if recvdata == null {
          var size := ReadSize(sock, start, in0);
          if size <= 0 { break; }
          rv := true;
        }
        if recvdata != null {
          var size := ReadData(sock, start, in0);
          if size <= 0 { break; }
          rv := true;
          if recvct == recvsize {
            packet := recvdata;
            recvct := 0;
            recvdata := null;
            recvsize := 0;
            return true, packet;
          }
        }
        if isForceExit {
          return false, null;
        }
      }
    }
  }

  /** What a connection has sent, or will, that has not been handed over: part of a frame
      held by its receiver, and what is still to be read. */
  ghost function Pending(r: TCPReceiver, sock: Socket): Bytes
    reads r, r.sizebuf, r.recvdata, sock
    requires r.Valid()
  {
    Residue(r.State()) + sock.input
  }

  /** A packet delivered from a stream of frames, which may end inside one, is the first,
      and the rest is unread. */
  lemma FirstFrame(packet: Packet, held: Bytes, in0: Bytes, in1: Bytes, packets: seq<Packet>)
    requires Frame(packet) == held + Taken(in0, in1) && in0 == Taken(in0, in1) + in1
    requires held + in0 <= Stream(packets)
    ensures packets != [] && packet == packets[0] && in1 <= Stream(packets[1..])
    ensures held + in0 == Frame(packet) + in1
    ensures held + in0 == Stream(packets) ==> in1 == Stream(packets[1..])
  {
    hide WordBytes, Taken;
    ConcatAssoc(held, Taken(in0, in1), in1);
    assert Frame(packet) + in1 <= Stream(packets);
    SameFrame(packet, in1, packets[0], Stream(packets[1..]));
  }

  lemma ResidueNothing(b: Bytes)
    ensures Residue(Header([])) + b == b
  {}

  /** A receiver that can take no more of a stream of nonempty frames, which may end
      inside one, has taken all there is, and holds less than a frame of it. */
  lemma AllRead(r: Rx, rest: Bytes, packets: seq<Packet>)
    requires RxOk(r) && NonEmpty(packets) && Residue(r) + rest <= Stream(packets)
    requires rest == [] || Stuck(r)
    ensures rest == []
    ensures packets != [] ==> |Residue(r)| < |Frame(packets[0])|
    ensures Residue(r) + rest == Stream(packets) ==> packets == []
  {
    hide Frame, RxOk, Stuck;
    if packets != [] {
      var y := Stream(packets[1..]);
      assert Residue(r) <= Residue(r) + rest;
      ResidueShort(r, packets[0], y);
      assert rest == [] ==> Residue(r) + rest == Residue(r);
    }
  }

  lemma SizeComplete(b: Bytes)
    requires |b| == 4
    ensures WordBytes(WordAt(b, 0)) == b
  {
    hide WordBytes, WordAt;
    BytesRoundTrip(b, 0);
    assert b[0..4] == b;
  }

  lemma TakeNothing(start: Bytes, input: Bytes)
    ensures Taken(input, input) == []
    ensures start + [] == start && [] + input == input
  {}

  lemma TakeMore(in0: Bytes, before: Bytes, more: Bytes, after: Bytes)
    requires in0 == Taken(in0, before) + before && before == more + after
    ensures Taken(in0, after) == Taken(in0, before) + more
    ensures in0 == Taken(in0, after) + after
  {
    assert in0 == (Taken(in0, before) + more) + after;
    TakenSplits(Taken(in0, before) + more, after);
  }

  /** One call of `Update` keeps the explanation of all the bytes received so far. */
  lemma UpdateExplains(c: Bytes, ps: seq<Packet>, r0: Rx, d: Bytes, delivered: seq<Packet>, r1: Rx)
    requires Explains(c, ps, r0) && RxOk(r1) && NonEmpty(delivered)
    requires Stream(delivered) + Residue(r1) == Residue(r0) + d
    ensures Explains(c + d, ps + delivered, r1)
  {
    hide Stream, Residue, RxOk;
    StreamAppend(ps, delivered);
    ConcatAssoc(Stream(ps), Residue(r0), d);
    ConcatAssoc(Stream(ps), Stream(delivered), Residue(r1));
  }

  lemma StreamOne(p: Packet)
    ensures Stream([p]) + Residue(Header([])) == Frame(p)
  {
    hide Frame;
    StreamCons(p, []);
    assert [p] + [] == [p];
  }

  lemma StreamNone(r: Rx)
    ensures Stream([]) + Residue(r) == Residue(r)
  {}

  /** Calls `Update` until it has nothing more to give. However the reads fall, the packets
      handed over and the state left explain exactly the bytes taken; the packets are the
      first of those sent, whether or not the stream ends inside a frame; and if it does
      not, and no read failed, they are all of those sent if and only if none of those
      was empty. */
  method ReceiveAll(r: TCPReceiver, sock: Socket, ghost sent: seq<Packet>) returns (packets: seq<Packet>)
    requires r.Valid() && r.State() == Header([]) && !r.isForceExit && sock.input <= Stream(sent)
    modifies r, r.sizebuf, r.recvdata, sock
    ensures r.Valid() && Explains(Taken(old(sock.input), sock.input), packets, r.State())
    ensures packets <= sent
    ensures sock.failures >= old(sock.failures) && (sock.failures > old(sock.failures) ==> sock.mayFail)
    ensures sock.failures == old(sock.failures) ==> sock.input == [] || Stuck(r.State())
    ensures sock.failures == old(sock.failures) && old(sock.input) == Stream(sent) ==>
              (packets == sent <==> NonEmpty(sent))
  {
    hide Stream, Frame, Residue, Explains, RxOk, Stuck, Taken;
    ghost var in0 := sock.input;
    packets := [];
    NothingExplained();
    TakeNothing([], in0);
    while true
      invariant r.Valid() && !r.isForceExit && r.sizebuf == old(r.sizebuf)
      invariant r.recvdata == null || r.recvdata == old(r.recvdata) || fresh(r.recvdata)
      invariant in0 == Taken(in0, sock.input) + sock.input
      invariant sock.failures >= old(sock.failures) && (sock.failures > old(sock.failures) ==> sock.mayFail)
      invariant Explains(Taken(in0, sock.input), packets, r.State())
      decreases |sock.input|
    {
      ghost var c, held, in1 := Taken(in0, sock.input), r.State(), sock.input;
      var rv, packet := r.Update(sock);
      TakeMore(in0, in1, Taken(in1, sock.input), sock.input);
      ShorterInput(in1, sock.input);
      if packet != null {
        StreamOne(packet[..]);
        UpdateExplains(c, packets, held, Taken(in1, sock.input), [packet[..]], Header([]));
        packets := packets + [packet[..]];
      } else {
        StreamNone(r.State());
        UpdateExplains(c, packets, held, Taken(in1, sock.input), [], r.State());
        assert packets + [] == packets;
        if !rv { break; }
      }
    }
    ReceivedPart(in0, sock.input, packets, r.State(), sent);
  }

  lemma NothingExplained()
    ensures Explains([], [], Header([]))
  {}

  lemma ShorterInput(before: Bytes, after: Bytes)
    requires before == Taken(before, after) + after
    ensures |after| <= |before| && (|after| == |before| ==> after == before)
  {}

  lemma ReceivedPart(in0: Bytes, rest: Bytes, packets: seq<Packet>, r: Rx, sent: seq<Packet>)
    requires in0 <= Stream(sent) && in0 == Taken(in0, rest) + rest
    requires Explains(Taken(in0, rest), packets, r)
    ensures packets <= sent
    ensures in0 == Stream(sent) && (rest == [] || Stuck(r)) ==> (packets == sent <==> NonEmpty(sent))
  {
    hide Stream, Explains, Stuck, Taken;
    DeliveredArePrefix(Taken(in0, rest), packets, r, sent);
    if in0 == Stream(sent) && (rest == [] || Stuck(r)) {
      assert rest == [] ==> Taken(in0, rest) == in0;
      AllDeliveredIff(Taken(in0, rest), packets, r, sent);
    }
  }
}
