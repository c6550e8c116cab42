// MyClient and the calls around it, on bytes: each stretch of code run under the mutex is
// one method, proved to be the corresponding step of module ClientSpec.
module ClientClass {
  import opened Types
  import opened Codec
  import opened Messages
  import opened Wire
  import opened Framing
  import opened Receiver
  import opened ClientSpec
  import L = ClientLaws

  class MyClient {
    var topics: map<Name, Cached>
    var waittopic: Option<Name>
    var running: bool

    var app: Point                     // where the application thread is
    ghost var trace: seq<Event>        // what has happened
    ghost var requests: seq<Bytes>     // packets written to the connection
    ghost var asked: seq<Request>      // what each is to ask for

    ghost function View(): Client
      reads this
    {
      Client(topics, waittopic, running, app, trace)
    }

    /** The packets written ask for what they are to ask for. */
    ghost predicate Written()
      reads this
    {
      |requests| == |asked| && forall k :: 0 <= k < |asked| ==> Asks(requests[k], asked[k])
    }

    constructor ()
      ensures View() == FRESH && requests == [] && asked == [] && Written()
    {
      topics, waittopic, running := map[], None, true;
      app, trace, requests, asked := Outside, [], [], [];
    }

    /** pthread_cond_signal: lost if nobody waits. */
    method Signal()
      modifies this`app
      ensures app == Wake(old(app))
    {
      app := Wake(app);
    }

    method Notify(d: array<Octet>, ghost n: Name, ghost data: Data)
      requires Reads(d[..], SC_NOTIFY, n, data)
      modifies this
      ensures View() == NotifyStep(old(View()), n, data) && requests == old(requests) && asked == old(asked)
    {
      hide Decode, NameOf;
      var name := NameOf(d[..]);
      if name !in topics {
        trace := trace + [Event.Ignored(n, data)];
        return;
      }
      var t := FromMessage(d);
      topics := topics[name := Cached(t.value, Changed)];
      trace := trace + [Event.Applied(n, data)];
      if waittopic.Some? && (waittopic.value == [] || waittopic.value == name) {
        Signal();
        waittopic := None;
      }
    }

    /** A packet, handled by the receiver under the mutex. */
    method Process(packet: array<Octet>, ghost reply: Reply)
      requires Enabled(View(), Recv(reply)) && Tells(packet[..], reply) && Readable(reply)
      modifies this
      ensures View() == RecvStep(old(View()), reply) && requests == old(requests) && asked == old(asked)
    {
      hide WordAt, WordBytes, Encode, NotifyStep;
      TellsKind(packet[..], reply);
      var kind := WordAt(packet[..], 0);
      if kind == SC_KILLCLIENT {
        if waittopic.Some? {
          Signal();
          waittopic := None;
        }
        running := false;
        trace := trace + [Event.Killed];
      }
      if kind == SC_NOTIFY {
        TellsReads(packet[..], reply.name, reply.data);
        Notify(packet, reply.name, reply.data);
      }
    }

    // ---- requests ----

    ghost method Write(packet: Bytes, req: Request)
      modifies this`requests, this`asked
      ensures requests == old(requests) + [packet] && asked == old(asked) + [req]
      ensures old(Written()) && Asks(packet, req) ==> Written()
    {
      hide Asks;
      requests, asked := requests + [packet], asked + [req];
    }

    /** Makes the topic, then asks for it, in a message of fixed size. */
    method Subscribe(name: Name)
      requires Enabled(View(), DoSubscribe(name)) && |name| < STR_FIELD
      modifies this
      ensures View() == Step(old(View()), DoSubscribe(name))
      ensures asked == old(asked) + [Request.Subscribe(name)] && old(requests) <= requests
      ensures old(Written()) ==> Written()
    {
      hide Asks;
      topics := topics[name := Cached([], NoData)];
      trace := trace + [Subscribed(name)];
      var p := SubscribeMessage(name);
      Write(p[..], Request.Subscribe(name));
    }

    /** A packet for a name that is not read back asks for another topic. */
    method Publish(name: Name, d: Data)
      requires app.Outside? && running && |name| <= 128 + |EncodeData(d)|
      modifies this`requests, this`asked
      ensures requests == old(requests) + [Encode(CS_PUBLISH, name, d)]
      ensures asked == old(asked) + [Request.Publish(name, d)]
      ensures old(Written()) && |name| <= 128 && Fits(d) ==> Written()
    {
      hide Encode, EncodeData, Reads, Fits;
      var p, size := ToMessage(d, CS_PUBLISH, name);
      if |name| <= 128 && Fits(d) {
        EncodeReads(CS_PUBLISH, name, d);
      }
      Write(p[..], Request.Publish(name, d));
    }

    /** The messages with nothing but a type: to kill and to clear. */
    method SimpleMsg(msg: Word)
      requires app.Outside? && running && msg in {CS_KILLSERVER, CS_CLEARSERVER}
      modifies this`requests, this`asked
      ensures old(requests) <= requests
      ensures asked == old(asked) + [if msg == CS_KILLSERVER then KillServer else ClearServer]
      ensures old(Written()) ==> Written()
    {
      hide WordAt, WordBytes;
      var p := new Octet[4];
      Put(p, 0, WordBytes(msg));
      WordPacket(msg);
      assert p[..] == p[..4];
      Write(p[..], if msg == CS_KILLSERVER then KillServer else ClearServer);
    }

    // ---- get ----

    /** `get` up to where it asks for the mutex. */
    method GetCall(n: Name, wait: Wait) returns (rv: Option<(TopicState, Data)>)
      requires Enabled(View(), CallGet(n, wait))
      modifies this`app, this`trace
      ensures View() == Step(old(View()), CallGet(n, wait))
      ensures rv == Outcome(old(View()), View())
    {
      if !running {
        app, trace := Outside, trace + [Returned(n, wait, NotConnected, [])];
        return Some((NotConnected, []));
      }
      app := Entering(n, wait);
      return None;
    }

    /** The mutex is obtained, at first or after a condition wait. */
    method Lock()
      requires Enabled(View(), Move.Lock)
      modifies this`app
      ensures View() == Step(old(View()), Move.Lock)
    {
      match app {
        case Entering(n, w) => app := Holding(n, w);
        case Signalled(n, w, l) => app := HoldingAgain(n, w, l);
        case AnyEntering => app := AnyHolding;
        case AnySignalled => app := AnyHoldingAgain;
      }
    }

    /** `get` from having the mutex to returning, or to waiting with the mutex released. */
    method GetLocked(n: Name, wait: Wait) returns (rv: Option<(TopicState, Data)>)
      requires app == Holding(n, wait)
      modifies this
      ensures View() == Step(old(View()), Proceed) && requests == old(requests) && asked == old(asked)
      ensures rv == Outcome(old(View()), View())
    {
      if n !in topics {
        app, trace := Outside, trace + [Returned(n, wait, NotFound, [])];
        return Some((NotFound, []));
      }
      waittopic := None;
      if topics[n].state == NoData {
        if wait == WaitAny || wait == WaitNew {
          waittopic := Some(n);
          app := Parked(n, wait, FirstData);
          return None;
        } else {
          app, trace := Outside, trace + [Returned(n, wait, NotFound, [])];
          return Some((NotFound, []));
        }
      } else if wait == WaitNew && topics[n].state != Changed {
        waittopic := Some(n);
        app := Parked(n, wait, NewData);
        return None;
      }
      rv := GetReturn(n, wait);
    }

    /** `get` after a condition wait, from having the mutex again. */
    method GetWoken(n: Name, wait: Wait, loop: Loop) returns (rv: Option<(TopicState, Data)>)
      requires app == HoldingAgain(n, wait, loop) && n in topics
      modifies this
      ensures View() == Step(old(View()), Proceed) && requests == old(requests) && asked == old(asked)
      ensures rv == Outcome(old(View()), View())
    {
      waittopic := None;
      if !running {
        app, trace := Outside, trace + [Returned(n, wait, NotConnected, [])];
        return Some((NotConnected, []));
      }
      if (loop == FirstData && topics[n].state == NoData) || (loop == NewData && topics[n].state != Changed) {
        waittopic := Some(n);
        app := Parked(n, wait, loop);
        return None;
      }
      rv := GetReturn(n, wait);
    }

    /** The end of `get`: a copy of the topic, which is then marked as seen. */
    method GetReturn(n: Name, wait: Wait) returns (rv: Option<(TopicState, Data)>)
      requires n in topics
      modifies this`topics, this`app, this`trace
      ensures View() == Take(old(View()), n, wait)
      ensures rv == Some((old(topics)[n].state, old(topics)[n].data))
    {
      var t := topics[n];
      topics := topics[n := t.(state := Unchanged)];
      app, trace := Outside, trace + [Returned(n, wait, t.state, t.data)];
      return Some((t.state, t.data));
    }

    // ---- waitForAny ----

    /** `waitForAny` from having the mutex to waiting with it released. */
    method WaitForAnyLocked()
      requires app == AnyHolding
      modifies this`waittopic, this`app
      ensures View() == Step(old(View()), Proceed)
    {
      waittopic := Some([]);
      app := AnyParked;
    }

    /** `waitForAny` after the wait, from having the mutex again to returning. */
    method WaitForAnyWoken()
      requires app == AnyHoldingAgain
      modifies this`waittopic, this`app
      ensures View() == Step(old(View()), Proceed)
    {
      waittopic := None;
      app := Outside;
    }

    // ---- the application thread ----

    /** Outside any call: another call, or none. */
    method AnyCall() returns (ghost m: Option<Move>)
      requires app.Outside? && Written()
      modifies this
      ensures Moved(old(View()), m, View()) && Written() && old(requests) <= requests
    {
      hide Asks;
      m := None;
      var name: Name, wait: Wait, call: nat := *, *, *;
      if call == 1 {
        var _ := GetCall(name, wait);
        m := Some(CallGet(name, wait));
      } else if call == 2 {
        app := AnyEntering;
        m := Some(CallWaitForAny);
      } else if call == 3 && running && |name| < STR_FIELD {
        Subscribe(name);
        m := Some(DoSubscribe(name));
      } else if call == 4 && running {
        var d: Data := *;
        if |name| <= 128 && Fits(d) {
          Publish(name, d);
        }
      } else if call == 5 && running {
        SimpleMsg(CS_CLEARSERVER);
      } else if call == 6 && running {
        SimpleMsg(CS_KILLSERVER);
      }
    }

    /** What the application thread does next, from wherever it is, if anything. */
    method AnyStep() returns (ghost m: Option<Move>)
      requires L.Inv(View()) && Written()
      modifies this
      ensures Moved(old(View()), m, View()) && Written() && old(requests) <= requests
      ensures old(AppHolds(View())) ==> !AppHolds(View())
    {
      hide Asks, L.CacheTold, L.ResultsJustified;
      m := None;
      match app {
        case Outside => m := AnyCall();
        case Holding(n, w) => var _ := GetLocked(n, w); m := Some(Proceed);
        case HoldingAgain(n, w, l) => var _ := GetWoken(n, w, l); m := Some(Proceed);
        case AnyHolding => WaitForAnyLocked(); m := Some(Proceed);
        case AnyHoldingAgain => WaitForAnyWoken(); m := Some(Proceed);
        case Parked(n, w, l) =>
          var wakes: bool := *;
          if wakes {
            app := Signalled(n, w, l);
            m := Some(Spurious);
          }
        case AnyParked =>
        case _ => Lock(); m := Some(Move.Lock);
      }
    }

    /** Any number of steps of the application thread, to where it does not hold the mutex. */
    method Application(ghost c0: Client, ghost ms: seq<Move>) returns (ghost ms': seq<Move>)
      requires Follows(c0, ms) && Written()
      modifies this
      ensures Follows(c0, ms') && Written() && !AppHolds(View())
      ensures Handed(ms') == Handed(ms) && (EndOfStream in ms' <==> EndOfStream in ms)
      ensures running == old(running) && old(requests) <= requests
    {
      hide Asks, L.Inv, Legal, Run, Step, Enabled;
      ms' := ms;
      var steps: int := *;
      for k := 0 to if steps < 0 then 0 else steps
        invariant Follows(c0, ms') && Written()
        invariant Handed(ms') == Handed(ms) && (EndOfStream in ms' <==> EndOfStream in ms)
        invariant running == old(running) && old(requests) <= requests
      {
        ms' := AppTurn(c0, ms');
      }
      if app.Holding? || app.HoldingAgain? || app.AnyHolding? || app.AnyHoldingAgain? {
        ms' := AppTurn(c0, ms');
      }
    }

    method AppTurn(ghost c0: Client, ghost ms: seq<Move>) returns (ghost ms': seq<Move>)
      requires Follows(c0, ms) && Written()
      modifies this
      ensures Follows(c0, ms') && Written()
      ensures Handed(ms') == Handed(ms) && (EndOfStream in ms' <==> EndOfStream in ms)
      ensures running == old(running) && old(requests) <= requests
      ensures old(AppHolds(View())) ==> !AppHolds(View())
    {
      hide Asks, L.Inv, Legal, Run, Step, Enabled;
      ghost var c := View();
      ghost var m := AnyStep();
      ms' := ms;
      if m.Some? {
        ms' := ms + [m.value];
        OneMove(c0, ms, m.value);
        KeepsRunning(c, m.value);
      }
    }

    /** The moves `ms` have led from `c0` to where the client is. */
    ghost predicate Follows(c0: Client, ms: seq<Move>)
      reads this
    {
      Legal(c0, ms) && View() == Run(c0, ms) && L.Inv(View())
    }

    // ---- the receiver thread ----

    /** The receiver's loop, the application thread making any calls and steps in between.
        What the receiver holds and what is still to be read are the frames of `replies`,
        carried by `packets`, up to where the broker stopped, which may be inside a frame.
        The client does exactly the moves `ms` of the model, a legal run; the packets handed
        over in it are the first of those sent, in order, only whole ones, up to a kill or
        until nothing can be read; unless a read failed, every whole one. */
    method ThreadFunc(r: TCPReceiver, sock: Socket, ghost replies: seq<Reply>, ghost packets: seq<Packet>)
      returns (handled: nat, ghost ms: seq<Move>)
      requires r.Valid() && !r.isForceExit && running && L.Inv(View()) && Written()
      requires |packets| == |replies|
      requires forall k :: 0 <= k < |replies| ==> Tells(packets[k], replies[k]) && Readable(replies[k])
      requires Pending(r, sock) <= Stream(packets)
      modifies this, r, r.sizebuf, r.recvdata, sock
      ensures handled <= |replies| && !running && Written() && old(requests) <= requests
      ensures Follows(old(View()), ms) && Handed(ms) == replies[..handled]
      ensures forall k :: 0 <= k < handled - 1 ==> replies[k] != KillClient
      ensures EndOfStream in ms <==> KillClient !in replies[..handled]
      ensures Stream(packets[..handled]) <= old(Pending(r, sock))
      ensures sock.failures >= old(sock.failures) && (sock.failures > old(sock.failures) ==> sock.mayFail)
      ensures EndOfStream in ms && sock.failures == old(sock.failures) ==>
                HandledWhole(packets, handled, old(Pending(r, sock)))
    {
      hide Readable, Tells, Stream, HandledWhole, Accounts, Legal, Run, L.Inv, Handed, Step, Enabled;
      ghost var c0, all := View(), Pending(r, sock);
      handled, ms := 0, [];
      assert replies[..0] == [];
      NoMoves(c0);
      NothingHanded(packets, all);
      assert Follows(c0, ms);
      hide MyClient.Follows, MyClient.Written, Pending, AppHolds, Asks;
      var ended := false;
      while running && !ended
        invariant r.Valid() && !r.isForceExit && r.sizebuf == old(r.sizebuf)
        invariant r.recvdata == null || r.recvdata == old(r.recvdata) || fresh(r.recvdata)
        invariant handled <= |replies| && Written() && old(requests) <= requests
        invariant Follows(c0, ms) && Handed(ms) == replies[..handled] && EndOfStream !in ms
        invariant Accounts(packets, handled, Pending(r, sock), all)
        invariant forall k :: 0 <= k < handled - 1 ==> replies[k] != KillClient
        invariant running <==> KillClient !in replies[..handled]
        invariant sock.failures >= old(sock.failures) && (sock.failures > old(sock.failures) ==> sock.mayFail)
        invariant ended && sock.failures == old(sock.failures) ==> HandledWhole(packets, handled, all)
        decreases |sock.input|, !ended
      {
        handled, ms, ended := Turn(r, sock, replies, packets, handled, c0, ms, all);
      }
      WholeHanded(packets, handled, Pending(r, sock), all);
      ms := Application(c0, ms);
      if running {
        ms := End(c0, ms);
      }
      running := false;
    }

    /** One turn of the loop: `update`, and the packet it hands over, if it does. */
    method Turn(r: TCPReceiver, sock: Socket, ghost replies: seq<Reply>, ghost packets: seq<Packet>, k: nat,
                ghost c0: Client, ghost ms: seq<Move>, ghost all: Bytes)
      returns (k': nat, ghost ms': seq<Move>, ended: bool)
      requires r.Valid() && !r.isForceExit && running && Written() && Follows(c0, ms)
      requires |packets| == |replies| && Accounts(packets, k, Pending(r, sock), all)
      requires forall i :: 0 <= i < |replies| ==> Tells(packets[i], replies[i]) && Readable(replies[i])
      modifies this, r, r.sizebuf, r.recvdata, sock
      ensures r.Valid() && !r.isForceExit && r.sizebuf == old(r.sizebuf)
      ensures r.recvdata == null || r.recvdata == old(r.recvdata) || fresh(r.recvdata)
      ensures Written() && old(requests) <= requests && Follows(c0, ms') && (EndOfStream in ms' <==> EndOfStream in ms)
      ensures Accounts(packets, k', Pending(r, sock), all)
      ensures |sock.input| < |old(sock.input)| || (ended && sock.input == old(sock.input))
      ensures k' == k ==> running && Handed(ms') == Handed(ms)
      ensures k' != k ==>
                && !ended && k' == k + 1 <= |replies| && Handed(ms') == Handed(ms) + [replies[k]]
                && (running <==> replies[k] != KillClient)
      ensures sock.failures >= old(sock.failures) && (sock.failures > old(sock.failures) ==> sock.mayFail)
      ensures ended && sock.failures == old(sock.failures) ==> HandledWhole(packets, k, all)
    {
      hide Tells, Readable, Residue, Stream, Frame, Taken, RxOk, Stuck, HandledWhole, Accounts;
      hide Legal, Run, L.Inv, Asks, Handed, Step, Enabled;
      ghost var held, in0 := Residue(r.State()), sock.input;
      var rv, packet := r.Update(sock);
      ShorterInput(in0, sock.input);
      ms' := Application(c0, ms);
      k', ended := k, false;
      if packet != null {
        OneHanded(packets, k, packet[..], held, in0, sock.input, all);
        ms' := Handle(packet, replies[k], c0, ms');
        ResidueNothing(sock.input);
        k' := k + 1;
      } else {
        ConcatAssoc(held, Taken(in0, sock.input), sock.input);
        ended := !rv;
        if ended && sock.failures == old(sock.failures) {
          AllHandled(packets, replies, k, r.State(), sock.input, all);
        }
      }
    }

    /** One packet, under the mutex. */
    method Handle(packet: array<Octet>, ghost reply: Reply, ghost c0: Client, ghost ms: seq<Move>)
      returns (ghost ms': seq<Move>)
      requires Follows(c0, ms) && Written() && running && !AppHolds(View())
      requires Tells(packet[..], reply) && Readable(reply)
      modifies this
      ensures Follows(c0, ms') && Written() && requests == old(requests)
      ensures Handed(ms') == Handed(ms) + [reply] && (EndOfStream in ms' <==> EndOfStream in ms)
      ensures running <==> reply != KillClient
    {
      hide Tells, Readable, Legal, Run, L.Inv, Asks, Handed;
      Process(packet, reply);
      OneMove(c0, ms, Recv(reply));
      ms' := ms + [Recv(reply)];
    }

    /** The end of the stream is noted without the mutex. */
    method End(ghost c0: Client, ghost ms: seq<Move>) returns (ghost ms': seq<Move>)
      requires Follows(c0, ms) && Written() && running
      modifies this`running, this`trace
      ensures Follows(c0, ms') && Written() && !running
      ensures Handed(ms') == Handed(ms) && EndOfStream in ms'
    {
      hide Legal, Run, L.Inv, Asks, Handed;
      trace := trace + [Event.Lost];
      running := false;
      OneMove(c0, ms, EndOfStream);
      ms' := ms + [EndOfStream];
      assert Handed(ms) + [] == Handed(ms);
    }
  }

  lemma NoMoves(c: Client)
    ensures Legal(c, []) && Run(c, []) == c && Handed([]) == []
  {}

  /** What a call of `get` gives its caller if this stretch of it ended the call. */
  ghost function Outcome(before: Client, after: Client): Option<(TopicState, Data)> {
    if |after.trace| > |before.trace| && after.trace[|after.trace| - 1].Returned?
    then Some((after.trace[|after.trace| - 1].state, after.trace[|after.trace| - 1].data))
    else None
  }

  /** A step of the application thread, or none. */
  predicate Moved(before: Client, m: Option<Move>, after: Client) {
    if m.None? then after == before
    else Enabled(before, m.value) && after == Step(before, m.value) && !m.value.Recv? && !m.value.EndOfStream?
  }

  /** The packets handed over by these moves. */
  function Handed(ms: seq<Move>): seq<Reply> {
    if ms == [] then []
    else Handed(ms[..|ms| - 1]) + if ms[|ms| - 1].Recv? then [ms[|ms| - 1].reply] else []
  }

  lemma OneMove(c0: Client, ms: seq<Move>, m: Move)
    requires Legal(c0, ms) && Enabled(Run(c0, ms), m) && L.Inv(Run(c0, ms))
    ensures Legal(c0, ms + [m]) && Run(c0, ms + [m]) == Step(Run(c0, ms), m) && L.Inv(Run(c0, ms + [m]))
    ensures Handed(ms + [m]) == Handed(ms) + if m.Recv? then [m.reply] else []
    ensures EndOfStream in ms + [m] <==> EndOfStream in ms || m == EndOfStream
  {
    hide L.Inv, Step, Enabled;
    L.RunSnoc(c0, ms, m);
    L.StepInv(Run(c0, ms), m);
    assert (ms + [m])[..|ms|] == ms;
  }

  lemma KeepsRunning(c: Client, m: Move)
    requires Enabled(c, m) && !m.Recv? && !m.EndOfStream?
    ensures Step(c, m).running == c.running
  {}

  /** The first `k` packets are all whose frames are whole in `all`; and so are all the
      packets if all the frames are there. */
  predicate HandledWhole(packets: seq<Packet>, k: nat, all: Bytes)
    requires k <= |packets|
  {
    && Stream(packets[..k]) <= all
    && (k < |packets| ==> |all| < |Stream(packets[..k + 1])|)
    && (all == Stream(packets) ==> k == |packets|)
  }

  /** After `k` packets, these bytes of all there were are still pending. */
  predicate Accounts(packets: seq<Packet>, k: nat, pending: Bytes, all: Bytes) {
    k <= |packets| && pending <= Stream(packets[k..]) && Stream(packets[..k]) + pending == all
  }

  lemma NothingHanded(packets: seq<Packet>, all: Bytes)
    requires all <= Stream(packets)
    ensures Accounts(packets, 0, all, all)
  {
    assert packets[..0] == [] && packets[0..] == packets;
    HandedNothing(all);
  }

  lemma OneHanded(packets: seq<Packet>, k: nat, packet: Packet, held: Bytes, in0: Bytes, in1: Bytes, all: Bytes)
    requires Accounts(packets, k, held + in0, all)
    requires Frame(packet) == held + Taken(in0, in1) && in0 == Taken(in0, in1) + in1
    ensures k < |packets| && packet == packets[k] && Accounts(packets, k + 1, in1, all)
  {
    hide Frame, Stream, Taken;
    FirstFrame(packet, held, in0, in1, packets[k..]);
    assert packets[k..][1..] == packets[k + 1..];
    HandedOver(packets, k, in1);
  }

  lemma WholeHanded(packets: seq<Packet>, k: nat, pending: Bytes, all: Bytes)
    requires Accounts(packets, k, pending, all)
    ensures Stream(packets[..k]) <= all
  {
    hide Stream;
  }

  lemma AllHandled(packets: seq<Packet>, replies: seq<Reply>, k: nat, r: Rx, rest: Bytes, all: Bytes)
    requires |packets| == |replies|
    requires forall i :: 0 <= i < |replies| ==> Tells(packets[i], replies[i]) && Readable(replies[i])
    requires RxOk(r) && (rest == [] || Stuck(r)) && Accounts(packets, k, Residue(r) + rest, all)
    ensures HandledWhole(packets, k, all)
  {
    hide Frame, Stream, Residue, RxOk, Stuck, Tells, Readable;
    PacketsNonEmpty(packets[k..], replies[k..]);
    AllRead(r, rest, packets[k..]);
    if k < |packets| {
      HandedOver(packets, k, []);
      assert packets == packets[..k + 1] + packets[k + 1..];
      StreamAppend(packets[..k + 1], packets[k + 1..]);
    }
  }

  /** The StrMsg of a subscription: type, name, terminator, and whatever was there. */
  method SubscribeMessage(name: Name) returns (p: array<Octet>)
    requires |name| < STR_FIELD
    ensures fresh(p) && p.Length == 4 + 256 && Asks(p[..], Request.Subscribe(name))
  {
    hide WordBytes, WordAt, UpToNul;
    p := new Octet[4 + STR_FIELD];
    Put(p, 0, WordBytes(CS_SUBSCRIBE));
    Put(p, 4, name + [NUL]);
    var b := p[..];
    assert b[..4 + |name| + 1] == p[..4 + |name| + 1];
    SubscribePacket(b, name);
  }

  lemma SubscribePacket(b: Bytes, name: Name)
    requires |b| == 4 + STR_FIELD && |name| < STR_FIELD
    requires b[..4 + |name| + 1] == WordBytes(CS_SUBSCRIBE) + (name + [NUL])
    ensures Asks(b, Request.Subscribe(name))
  {
    hide WordBytes, WordAt, UpToNul;
    var head := b[..4 + |name| + 1];
    assert b[0..4] == head[..4] == WordBytes(CS_SUBSCRIBE);
    WordRoundTrip(CS_SUBSCRIBE, b, 0);
    var text := b[4..];
    assert forall j :: 0 <= j <= |name| ==> text[j] == head[4 + j];
    assert text[|name|] == NUL;
    assert text[..|name|] == name;
    UpToNulUnique(name, text);
  }

  lemma PacketsNonEmpty(ps: seq<Packet>, rs: seq<Reply>)
    requires |ps| == |rs| && forall k :: 0 <= k < |rs| ==> Tells(ps[k], rs[k]) && Readable(rs[k])
    ensures NonEmpty(ps)
  {
    hide Tells, Readable;
    forall k | 0 <= k < |ps| ensures ps[k] != [] {
      TellsKind(ps[k], rs[k]);
    }
  }
}
