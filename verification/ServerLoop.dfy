// The server() function and TCPServer::update: rounds over ready descriptors until a kill.
module ServerLoop {
  import opened Types
  import opened Wire
  import opened Framing
  import opened Receiver
  import opened BrokerSpec
  import B = BrokerLaws
  import R = BrokerRuns
  import E = BrokerEffects
  import opened Server
  import opened LoopSpec

  /** The broker is up, and in the state that the events `es` lead to. */
  ghost predicate Going(s: MyServer, s0: Broker, es: seq<Event>)
    reads s
  {
    && s.Valid() && !s.down && s.curClient == None
    && Legal(s0, es) && s.View() == Run(s0, es)
  }

  /** What a ready descriptor's turn does to its connection and to the broker. */
  predicate Turned(outcome: Outcome, i: Fd, now: Word, c: Sent, done: nat, done': nat, es: seq<Event>, es': seq<Event>) {
    match outcome
    case Processed => done < |c.reqs| && done' == done + 1 && es' == es + [Receive(i, c.reqs[done], now)]
    case Partly => done' == done && es' == es
    case Closed => done' == done && es' == es + [Close(i)]
  }

  /** An open connection, both ends of it. */
  class Peer {
    const r: TCPReceiver
    const sock: Socket
    ghost const sent: Sent
    ghost var done: nat             // requests processed
    ghost var Repr: set<object>

    /** The bytes of the connection are the frames of the requests processed, then what the
        receiver holds, then what is still to be read. */
    ghost predicate Valid()
      reads this, Repr
    {
      && {this, r, sock} <= Repr && r.sizebuf in Repr && (r.recvdata != null ==> r.recvdata in Repr)
      && sock.mayFail == sent.mayFail
      && r.Valid() && !r.isForceExit && SentOk(sent) && done <= |sent.reqs|
      && Stream(sent.packets[..done]) + Pending(r, sock) == sent.input
      && Pending(r, sock) <= Stream(sent.packets[done..])
    }

    constructor (r: TCPReceiver, sent: Sent)
      requires r.Valid() && !r.isForceExit && r.recvdata == null && r.State() == Header([]) && SentOk(sent)
      ensures Valid() && this in Repr && sock in Repr && this.r == r && this.sent == sent && done == 0 && sock.input == sent.input
      ensures fresh(Repr - {r, r.sizebuf})
    {
      this.r := r;
      var s := new Socket(sent.input, sent.mayFail);
      this.sock := s;
      this.sent := sent;
      done := 0;
      Repr := {this, r, r.sizebuf, s};
      new;
      assert sent.packets[..0] == [] && sent.packets[0..] == sent.packets;
      ResidueNothing(sent.input);
      HandedNothing(sent.input);
    }

    /** One turn of a descriptor with something to read. */
    method Turn(s: MyServer, i: Fd, now: Word, ghost s0: Broker, ghost es: seq<Event>)
      returns (ghost outcome: Outcome, ghost es': seq<Event>)
      requires Going(s, s0, es) && i in s.clients && s.clients[i] == r
      requires Valid() && s !in Repr
      modifies s, Repr
      ensures Going(s, s0, es') && Turned(outcome, i, now, sent, old(done), done, es, es')
      ensures s.clients == if outcome == Closed then old(s.clients) - {i} else old(s.clients)
      ensures Valid() && this in Repr && sock in Repr && fresh(Repr - old(Repr))
      ensures if outcome == Closed then Ended(sock, old(sock.input), old(sock.failures))
              else |sock.input| < |old(sock.input)|
    {
      hide Asks, Stream, Frame, Residue, RxOk, FirstTaken, Legal, Run, B.Inv, Carried, Apply, BrokerSpec.Process;
      ghost var before, view, c := Pending(r, sock), s.View(), sent;
      outcome := s.Service(i, sock, now, c.reqs[done..], c.packets[done..]);
      es' := es;
      if r.recvdata != null {
        Repr := Repr + {r.recvdata};
      }
      match outcome
      case Processed =>
        Received(view, i, c.reqs[done], now);
        OneDone(c.packets, done, before, Pending(r, sock));
        es' := es + [Receive(i, c.reqs[done], now)];
        R.RunSnoc(s0, es, Receive(i, c.reqs[done], now));
        done := done + 1;
      case Partly =>
      case Closed =>
        es' := es + [Close(i)];
        R.RunSnoc(s0, es, Close(i));
    }
  }

  /** Nothing was read, as a read failed or there was nothing left. */
  ghost predicate Ended(sock: Socket, input: Bytes, failures: nat)
    reads sock
  {
    sock.input == input && if sock.failures > failures then sock.mayFail else input == []
  }

  lemma OneDone(packets: seq<Packet>, k: nat, before: Bytes, after: Bytes)
    requires k < |packets| && FirstTaken(before, after, packets[k..])
    ensures Stream(packets[..k + 1]) + after == Stream(packets[..k]) + before
    ensures after <= Stream(packets[k + 1..])
  {
    hide Stream, Frame;
    assert packets[k..][1..] == packets[k + 1..] && packets[k..][0] == packets[k];
    HandedOver(packets, k, after);
  }

  lemma Received(s: Broker, fd: Fd, req: Request, now: Word)
    ensures Apply(s, Receive(fd, req, now)) == BrokerSpec.Process(s, fd, req, now)
  {}

  // ---- all connections ----

  ghost function Reprs(peers: map<Fd, Peer>): set<object>
    reads peers.Values
  {
    set i, o | i in peers && o in peers[i].Repr :: o
  }

  /** Every connection has parts of its own. */
  ghost predicate Separate(s: MyServer, peers: map<Fd, Peer>)
    reads peers.Values, Reprs(peers)
  {
    && (forall i :: i in peers ==>
          && peers[i].Valid() && s !in peers[i].Repr
          && peers[i] in peers[i].Repr && peers[i].sock in peers[i].Repr)
    && (forall i, j :: i in peers && j in peers && i != j ==> peers[i].Repr !! peers[j].Repr)
  }

  /** And those are the server's connections. */
  ghost predicate Connected(s: MyServer, peers: map<Fd, Peer>)
    reads s, peers.Values, Reprs(peers)
  {
    && Separate(s, peers)
    && s.clients.Keys == peers.Keys
    && (forall i :: i in peers ==> s.clients[i] == peers[i].r)
  }

  ghost function ConnOf(p: Peer): Conn
    reads p, p.sock
  {
    Conn(p.sent, p.done, |p.sock.input|)
  }

  ghost function Conns(peers: map<Fd, Peer>): map<Fd, Conn>
    reads peers.Values, set i | i in peers :: peers[i].sock
  {
    map i | i in peers :: ConnOf(peers[i])
  }

  /** A connection with all its bytes read has every whole request processed: its receiver
      holds less than a frame. */
  lemma PeerWhole(p: Peer)
    requires p.Valid()
    ensures Whole(ConnOf(p)) && p.sock.mayFail == p.sent.mayFail
  {
    hide Asks, Stream, Frame, Residue, RxOk;
    var packets, k, left := p.sent.packets, p.done, Pending(p.r, p.sock);
    if p.sock.input == [] && k < |packets| {
      SentNonEmpty(p.sent);
      assert Residue(p.r.State()) + [] == Residue(p.r.State());
      AllRead(p.r.State(), [], packets[k..]);
      HandedOver(packets, k, []);
    }
  }

  lemma SentNonEmpty(c: Sent)
    requires SentOk(c)
    ensures NonEmpty(c.packets)
  {
    hide Asks, Stream;
    RequestsNonEmpty(c.packets, c.reqs);
  }

  method AcceptOne(s: MyServer, fd: Fd, ghost s0: Broker, ghost es: seq<Event>) returns (r: TCPReceiver)
    requires Going(s, s0, es) && fd !in s.clients
    modifies s
    ensures Going(s, s0, es + [Accept(fd)]) && s.clients == old(s.clients)[fd := r]
    ensures fresh(r) && fresh(r.sizebuf) && r.recvdata == null
    ensures r.Valid() && !r.isForceExit && r.State() == Header([])
  {
    hide Legal, Run, B.Inv, Apply;
    assert BrokerSpec.Enabled(s.View(), Accept(fd));
    hide MyServer.Valid, MyServer.View;
    R.RunSnoc(s0, es, Accept(fd));
    s.AcceptClient(fd);
    r := s.clients[fd];
  }

  method AcceptPeer(s: MyServer, peers: map<Fd, Peer>, fd: Fd, sent: Sent, ghost s0: Broker, ghost es: seq<Event>)
    returns (peers': map<Fd, Peer>)
    requires Going(s, s0, es) && Connected(s, peers) && SentOk(sent)
    requires fd !in peers
    modifies s
    ensures Going(s, s0, es + [Accept(fd)]) && Connected(s, peers')
    ensures fd in peers' && peers' == peers[fd := peers'[fd]] && fresh(peers'[fd].Repr)
    ensures ConnOf(peers'[fd]) == Conn(sent, 0, |sent.input|) && Whole(ConnOf(peers'[fd]))
    ensures forall j :: j in peers ==> ConnOf(peers[j]) == old(ConnOf(peers[j]))
  {
    hide Going, SentOk, Peer.Valid, TCPReceiver.Valid, TCPReceiver.State, Whole;
    var r := AcceptOne(s, fd, s0, es);
    var p := new Peer(r, sent);
    peers' := peers[fd := p];
    PeerWhole(p);
  }

  method TurnPeer(s: MyServer, peers: map<Fd, Peer>, i: Fd, now: Word, ghost s0: Broker, ghost es: seq<Event>)
    returns (ghost outcome: Outcome, ghost es': seq<Event>)
    requires Going(s, s0, es) && Separate(s, peers) && i in peers && i in s.clients && s.clients[i] == peers[i].r
    modifies s, peers[i].Repr
    ensures Going(s, s0, es') && Separate(s, peers)
    ensures fresh(Reprs(peers) - old(Reprs(peers)))
    ensures Turned(outcome, i, now, peers[i].sent, old(peers[i].done), peers[i].done, es, es')
    ensures s.clients == if outcome == Closed then old(s.clients) - {i} else old(s.clients)
    ensures forall j :: j in peers && j != i ==> ConnOf(peers[j]) == old(ConnOf(peers[j]))
    ensures var p := peers[i];
            if outcome == Closed then Ended(p.sock, old(p.sock.input), old(p.sock.failures))
            else |p.sock.input| < |old(p.sock.input)|
  {
    hide Going, Turned, Peer.Valid, Ended;
    outcome, es' := peers[i].Turn(s, i, now, s0, es);
  }

  method ServePeer(s: MyServer, peers: map<Fd, Peer>, i: Fd, now: Word, ghost s0: Broker, ghost es: seq<Event>)
    returns (peers': map<Fd, Peer>, ghost outcome: Outcome, ghost es': seq<Event>)
    requires Going(s, s0, es) && Connected(s, peers) && i in peers
    modifies s, peers[i].Repr
    ensures Going(s, s0, es') && Connected(s, peers')
    ensures Whole(ConnOf(peers[i])) && peers[i].sock.mayFail == peers[i].sent.mayFail
    ensures fresh(Reprs(peers') - old(Reprs(peers)))
    ensures Turned(outcome, i, now, peers[i].sent, old(peers[i].done), peers[i].done, es, es')
    ensures peers' == if outcome == Closed then peers - {i} else peers
    ensures forall j :: j in peers && j != i ==> ConnOf(peers[j]) == old(ConnOf(peers[j]))
    ensures var p := peers[i];
            if outcome == Closed then Ended(p.sock, old(p.sock.input), old(p.sock.failures))
            else |p.sock.input| < |old(p.sock.input)|
  {
    hide Going, Turned, Peer.Valid, Ended, Whole, Separate, Reprs;
    outcome, es' := TurnPeer(s, peers, i, now, s0, es);
    peers' := peers;
    Fewer(s, peers, i);
    if i !in s.clients {
      peers' := peers - {i};
    }
  }

  lemma Fewer(s: MyServer, peers: map<Fd, Peer>, i: Fd)
    requires Separate(s, peers) && i in peers
    ensures Separate(s, peers - {i}) && Reprs(peers - {i}) <= Reprs(peers)
    ensures Whole(ConnOf(peers[i])) && peers[i].sock.mayFail == peers[i].sent.mayFail
  {
    PeerWhole(peers[i]);
    hide Peer.Valid, Whole;
  }

  /** The loop's state after a turn. */
  function AfterTurn(a: Snap, i: Fd, c: Conn, outcome: Outcome, es: seq<Event>, failed: bool): Snap
    requires i in a.conns
  {
    if outcome == Closed then Snap(es, a.conns - {i}, a.gone + [Gone(i, a.conns[i], |a.es|, failed)])
    else Snap(es, a.conns[i := c], a.gone)
  }

  lemma TurnDoes(a: Snap, i: Fd, now: Word, c: Conn, outcome: Outcome, es: seq<Event>, failed: bool)
    requires i in a.conns && AllWhole(a) && Whole(c) && c.sent == a.conns[i].sent
    requires Turned(outcome, i, now, c.sent, a.conns[i].done, c.done, a.es, es)
    requires if outcome == Closed then c.left == a.conns[i].left && (if failed then c.sent.mayFail else c.left == 0)
             else c.left < a.conns[i].left
    ensures var b := AfterTurn(a, i, c, outcome, es, failed); Does(Activity(i, now), a, b) && AllWhole(b)
  {
    hide Whole;
  }

  lemma AcceptDoes(a: Snap, fd: Fd, sent: Sent)
    requires fd !in a.conns && AllWhole(a) && Whole(Conn(sent, 0, |sent.input|))
    ensures var b := Snap(a.es + [Accept(fd)], a.conns[fd := Conn(sent, 0, |sent.input|)], a.gone);
            Does(Arrival(fd, sent), a, b) && AllWhole(b)
  {
    hide Whole;
  }

  // ---- rounds ----

  /** One descriptor in a round: the listening one, or a connection's. */
  method ServeReady(s: MyServer, peers: map<Fd, Peer>, ready: Ready, ghost s0: Broker, ghost a: Snap)
    returns (peers': map<Fd, Peer>, ghost b: Snap)
    requires Going(s, s0, a.es) && Connected(s, peers) && ReadyOk(ready)
    requires a.conns == Conns(peers) && AllWhole(a)
    modifies s, Reprs(peers)
    ensures Going(s, s0, b.es) && Connected(s, peers')
    ensures fresh(Reprs(peers') - old(Reprs(peers)))
    ensures b.conns == Conns(peers') && AllWhole(b)
    ensures Does(ready, a, b)
    ensures ready.Activity? && ready.fd in peers ==>
              peers' == if ready.fd in b.conns then peers else peers - {ready.fd}
    ensures ready.Activity? && ready.fd in peers && ready.fd !in b.conns ==>
              var p := peers[ready.fd];
              && Ended(p.sock, old(p.sock.input), old(p.sock.failures))
              && |b.gone| > |a.gone| && b.gone[|a.gone|].failed == (p.sock.failures > old(p.sock.failures))
  {
    hide Going, Connected, SentOk, Does, AllWhole, Whole;
    peers', b := peers, a;
    match ready
    case Arrival(fd, sent) =>
      if fd in peers {
        InUse(a, fd, sent);
      } else {
        peers' := AcceptPeer(s, peers, fd, sent, s0, a.es);
        ConnsAdded(peers, a.conns, fd, peers'[fd]);
        AcceptDoes(a, fd, sent);
        b := Snap(a.es + [Accept(fd)], a.conns[fd := Conn(sent, 0, |sent.input|)], a.gone);
      }
    case Activity(fd, now) =>
      if fd in peers {
        ghost var outcome, es';
        ghost var failures := peers[fd].sock.failures;
        peers', outcome, es' := ServePeer(s, peers, fd, now, s0, a.es);
        ConnsTurned(peers, a.conns, fd);
        TurnDoes(a, fd, now, ConnOf(peers[fd]), outcome, es', peers[fd].sock.failures > failures);
        b := AfterTurn(a, fd, ConnOf(peers[fd]), outcome, es', peers[fd].sock.failures > failures);
      } else {
        NotOpen(a, fd, now);
      }
  }

  lemma ConnsAdded(peers: map<Fd, Peer>, conns: map<Fd, Conn>, fd: Fd, p: Peer)
    requires fd !in peers && conns.Keys == peers.Keys
    requires forall j :: j in peers ==> ConnOf(peers[j]) == conns[j]
    ensures Conns(peers[fd := p]) == conns[fd := ConnOf(p)]
  {
    var after, expected := Conns(peers[fd := p]), conns[fd := ConnOf(p)];
    assert after.Keys == expected.Keys;
    forall j | j in expected ensures after[j] == expected[j] {
      assert j != fd ==> ConnOf(peers[j]) == conns[j];
    }
  }

  lemma ConnsTurned(peers: map<Fd, Peer>, conns: map<Fd, Conn>, fd: Fd)
    requires fd in peers && conns.Keys == peers.Keys
    requires forall j :: j in peers && j != fd ==> ConnOf(peers[j]) == conns[j]
    ensures Conns(peers) == conns[fd := ConnOf(peers[fd])]
    ensures Conns(peers - {fd}) == conns - {fd}
  {
    var now, expected := Conns(peers), conns[fd := ConnOf(peers[fd])];
    assert now.Keys == expected.Keys;
    forall j | j in expected ensures now[j] == expected[j] {
      assert j != fd ==> ConnOf(peers[j]) == conns[j];
    }
    assert Conns(peers - {fd}) == now - {fd} == conns - {fd};
  }

  lemma InUse(a: Snap, fd: Fd, sent: Sent)
    requires fd in a.conns
    ensures Does(Arrival(fd, sent), a, a)
  {}

  lemma NotOpen(a: Snap, fd: Fd, now: Word)
    requires fd !in a.conns
    ensures Does(Activity(fd, now), a, a)
  {}

  /** `update`: each descriptor that is ready, in turn. A descriptor closed earlier in the
      round, or not open, is passed over. */
  method Update(s: MyServer, peers: map<Fd, Peer>, round: seq<Ready>, ghost s0: Broker, ghost a: Snap)
    returns (peers': map<Fd, Peer>, ghost b: Snap)
    requires Going(s, s0, a.es) && Connected(s, peers)
    requires a.conns == Conns(peers) && AllWhole(a)
    requires forall k :: 0 <= k < |round| ==> ReadyOk(round[k])
    modifies s, Reprs(peers)
    ensures Going(s, s0, b.es) && Connected(s, peers')
    ensures fresh(Reprs(peers') - old(Reprs(peers)))
    ensures b.conns == Conns(peers') && AllWhole(b)
    ensures RoundDone(round, a, b)
  {
    hide Going, Connected, ReadyOk, RoundDone, Does, AllWhole;
    peers', b := peers, a;
    RoundNothing(a);
    assert round[..0] == [];
    for k := 0 to |round|
      invariant Going(s, s0, b.es) && Connected(s, peers')
      invariant fresh(Reprs(peers') - old(Reprs(peers)))
      invariant b.conns == Conns(peers') && AllWhole(b)
      invariant RoundDone(round[..k], a, b)
    {
      ghost var m := b;
      peers', b := ServeReady(s, peers', round[k], s0, b);
      RoundSnoc(round, k, a, m, b);
    }
    assert round[..|round|] == round;
  }

  lemma Started(s: MyServer, s0: Broker)
    requires s.Valid() && !s.down && s.curClient == None && s.clients == map[] && s.View() == s0
    ensures Going(s, s0, []) && Connected(s, map[]) && Conns(map[]) == map[]
    ensures Accounted(NOBODY) && AllWhole(NOBODY)
  {}

  method ShutDown(s: MyServer, peers: map<Fd, Peer>, ghost s0: Broker, ghost es: seq<Event>)
    requires Going(s, s0, es) && Connected(s, peers)
    modifies s
    ensures s.Valid() && Connected(s, peers) && s.View() == Apply(Run(s0, es), Stop)
    ensures Conns(peers) == old(Conns(peers))
  {
    hide Legal, Run, B.Inv, Carried, Shutdown, Peer.Valid;
    s.Shutdown();
  }

  /** A client has asked to kill the broker. */
  predicate KillAsked(es: seq<Event>) {
    exists e :: e in es && e.Receive? && e.req.KillServer?
  }

  lemma KillFlag(conv: nat -> Word, t0: Word, es: seq<Event>)
    ensures Run(Init(conv, t0), es).kill <==> KillAsked(es)
  {
    assert !Init(conv, t0).kill;
    hide Init, Run;
    E.KilledIff(Init(conv, t0), es);
  }

  /** The loop went through these rounds: from one mark to the next is one round, and before
      none of them had a client asked for a kill. */
  ghost predicate Served(rounds: seq<seq<Ready>>, marks: seq<Snap>) {
    && 0 < |marks| <= |rounds| + 1 && marks[0] == NOBODY
    && forall k :: 0 <= k < |marks| - 1 ==>
         RoundDone(rounds[k], marks[k], marks[k + 1]) && !KillAsked(marks[k].es)
  }

  lemma ServedMore(rounds: seq<seq<Ready>>, marks: seq<Snap>, b: Snap)
    requires Served(rounds, marks) && |marks| <= |rounds|
    requires RoundDone(rounds[|marks| - 1], marks[|marks| - 1], b) && !KillAsked(marks[|marks| - 1].es)
    ensures Served(rounds, marks + [b])
  {
    hide RoundDone, KillAsked;
    var after := marks + [b];
    forall k | 0 <= k < |after| - 1
      ensures RoundDone(rounds[k], after[k], after[k + 1]) && !KillAsked(after[k].es)
    {
      if k < |marks| - 1 {
        assert after[k] == marks[k] && after[k + 1] == marks[k + 1];
      }
    }
  }

  /** `server()`: rounds until the kill flag is found set after one, then a shutdown, whatever
      the peers send, in whatever order they are ready. The rounds served, `marks` being
      the state after each, do exactly what rounds do, and before none of them had a client
      asked for a kill; the broker ends in the state that their events, a legal run, lead
      to, with a shutdown after them if one has, and only then may rounds be left over. Of
      every connection, open or closed, the first requests sent were processed, in order,
      and every one whose frame arrived whole if all its bytes were read. */
  method Serve(conv: nat -> Word, t0: Word, rounds: seq<seq<Ready>>)
    returns (s: MyServer, peers: map<Fd, Peer>, ghost marks: seq<Snap>)
    requires forall k, m :: 0 <= k < |rounds| && 0 <= m < |rounds[k]| ==> ReadyOk(rounds[k][m])
    ensures s.Valid() && Connected(s, peers)
    ensures Served(rounds, marks)
    ensures var last := marks[|marks| - 1];
            var u := Run(Init(conv, t0), last.es);
            && last.conns == Conns(peers) && Accounted(last) && AllWhole(last)
            && Legal(Init(conv, t0), last.es)
            && if KillAsked(last.es) then s.View() == Apply(u, Stop)
               else s.View() == u && |marks| == |rounds| + 1
  {
    hide Legal, Run, Apply, Init, Connected, ReadyOk, RoundDone, Accounted, AllWhole, Served, KillAsked;
    ghost var s0 := Init(conv, t0);
    s := new MyServer(conv, t0);
    peers, marks := map[], [NOBODY];
    ghost var a := NOBODY;
    Started(s, s0);
    ServedNone(rounds);
    KillFlag(conv, t0, a.es);
    var served := 0;
    while served < |rounds| && !s.serverKill
      invariant fresh(s) && fresh(Reprs(peers))
      invariant 0 <= served <= |rounds| && |marks| == served + 1 && a == marks[served]
      invariant Going(s, s0, a.es) && Connected(s, peers)
      invariant a.conns == Conns(peers) && AllWhole(a) && Accounted(a)
      invariant Served(rounds, marks) && (s.serverKill <==> KillAsked(a.es))
    {
      ghost var b;
      peers, b := Update(s, peers, rounds[served], s0, a);
      RoundAccounts(rounds[served], a, b);
      ServedMore(rounds, marks, b);
      KillFlag(conv, t0, b.es);
      marks, a := marks + [b], b;
      served := served + 1;
    }
    if s.serverKill {
      ShutDown(s, peers, s0, a.es);
    }
  }

  lemma ServedNone(rounds: seq<seq<Ready>>)
    ensures Served(rounds, [NOBODY])
  {}
}
