// MyServer and the TCPServer bookkeeping under it, on bytes, proved to behave as the
// state machine of module BrokerSpec.
module Server {
  import opened Types
  import opened Ordering
  import opened Codec
  import opened Messages
  import opened Wire
  import opened Framing
  import opened Receiver
  import opened BrokerSpec
  import B = BrokerLaws
  import R = BrokerRuns

  /** Each logged send put on the wire a packet that says what the log says. */
  ghost predicate Carried(wire: seq<Bytes>, log: seq<Send>) {
    |wire| == |log| && forall i :: 0 <= i < |log| ==> Tells(wire[i], log[i].reply)
  }

  class MyServer {
    var subscribers: map<Name, set<Fd>>
    var subtopics: map<Fd, set<Name>>
    var topics: map<Name, Data>
    var clients: map<Fd, TCPReceiver>
    var curClient: Option<Fd>
    var msgssent: nat
    var msgsrecvd: nat
    var serverKill: bool
    const conv: nat -> Word              // C's conversion of a counter to a float

    ghost var log: seq<Send>             // every send, as the state machine logs it
    ghost var wire: seq<Bytes>           // the packet of each
    ghost var hist: map<Name, seq<Data>> // every value stored
    ghost var down: bool

    ghost function View(): Broker
      reads this
    {
      Broker(conv, topics, subscribers, subtopics, clients.Keys, msgssent, msgsrecvd, serverKill, down, log, hist)
    }

    ghost predicate Valid()
      reads this
    {
      Carried(wire, log) && B.Inv(View())
    }

    /** basesend, taken to write its frame completely. */
    method BaseSend(fd: Fd, packet: Bytes, ghost reply: Reply, ghost ver: nat)
      requires Carried(wire, log) && Tells(packet, reply)
      modifies this`log, this`wire
      ensures Carried(wire, log)
      ensures log == old(log) + [Send(fd, reply, ver)]
      ensures wire == old(wire) + [packet]
    {
      hide Tells;
      log := log + [Send(fd, reply, ver)];
      wire := wire + [packet];
    }

    /** The loops that send one packet to every descriptor of a set, in its order. */
    method SendEach(fds: set<Fd>, packet: Bytes, ghost reply: Reply, ghost ver: nat)
      requires Carried(wire, log) && Tells(packet, reply)
      modifies this`log, this`wire, this`msgssent
      ensures Carried(wire, log)
      ensures log == old(log) + Broadcast(fds, reply, ver)
      ensures msgssent == old(msgssent) + |fds|
    {
      hide Tells;
      var rest := fds;
      while rest != {}
        invariant rest <= fds && Carried(wire, log)
        invariant log + Broadcast(rest, reply, ver) == old(log) + Broadcast(fds, reply, ver)
        invariant msgssent + |rest| == old(msgssent) + |fds|
        decreases rest
      {
        FirstFd(rest);
        var i :| i in rest && forall j :: j in rest ==> i <= j;
        BroadcastStep(rest, i, reply, ver);
        BaseSend(i, packet, reply, ver);
        msgssent := msgssent + 1;
        rest := rest - {i};
      }
      BroadcastNobody(reply, ver);
    }

    /** Sends a packet on to the subscribers of a topic just stored. */
    method PushOn(name: Name, packet: Bytes, ghost d: Data)
      requires Carried(wire, log) && Tells(packet, Notify(name, d))
      requires name in topics && topics[name] == d
      modifies this
      ensures Carried(wire, log) && clients == old(clients) && curClient == old(curClient)
      ensures View() == Announce(old(View()), name, d)
    {
      hide Broadcast, Carried, Tells;
      ghost var s := View();
      var subs := if name in subscribers then subscribers[name] else {};
      subscribers := subscribers[name := subs];
      SendEach(subs, packet, Notify(name, d), |Hist(s, name)|);
      hist := hist[name := Hist(s, name) + [d]];
      assert topics == topics[name := d];
    }

    /** Broadcasts a topic just rebuilt. */
    method PublishInternal(name: Name, t: Data)
      requires Carried(wire, log) && |name| <= 128 && name in topics && topics[name] == t
      modifies this
      ensures Carried(wire, log) && clients == old(clients) && curClient == old(curClient)
      ensures View() == Announce(old(View()), name, t)
    {
      hide Encode, Carried, Announce;
      var p, pktsize := ToMessage(t, SC_NOTIFY, name);
      PushOn(name, p[..], t);
    }

    method RebuildTopicsTopic()
      requires Carried(wire, log)
      modifies this
      ensures Carried(wire, log) && clients == old(clients) && curClient == old(curClient)
      ensures View() == RebuildTopics(old(View()))
    {
      hide Announce, Carried, TopicList;
      topics := topics[TOPICS := []];
      assert topics.Keys == old(topics).Keys + {TOPICS};
      var t := ListTopics(topics.Keys);
      topics := topics[TOPICS := t];
      AnnounceStored(old(View()), TOPICS, t);
      assert topics == old(topics)[TOPICS := t];
      PublishInternal(TOPICS, t);
    }

    method RebuildStatsTopic(now: Word)
      requires Carried(wire, log)
      modifies this
      ensures Carried(wire, log) && clients == old(clients) && curClient == old(curClient)
      ensures View() == RebuildStats(old(View()), now)
    {
      hide Announce, Carried;
      var t: Data := [];
      t := t + [Float(conv(|subscribers|))];
      t := t + [Float(conv(msgssent))];
      t := t + [Float(conv(msgsrecvd))];
      t := t + [Float(now)];
      assert t == StatsValue(old(View()), now);
      topics := topics[STATS := t];
      PublishInternal(STATS, t);
      AnnounceStored(old(View()), STATS, t);
    }

    constructor (conv: nat -> Word, now: Word)
      ensures Valid() && !down && curClient == None && clients == map[]
      ensures View() == Init(conv, now)
    {
      hide RebuildStats, RebuildTopics, Carried, B.Inv, Tells;
      this.conv := conv;
      subscribers, subtopics, clients, curClient := map[], map[], map[], None;
      msgssent, msgsrecvd, serverKill := 0, 0, false;
      topics := map[VERSION_TOPIC := [Str(VERSION), Str(VERSION_NAME)]];
      log, wire, down := [], [], false;
      hist := map[VERSION_TOPIC := [[Str(VERSION), Str(VERSION_NAME)]]];
      new;
      assert View() == Blank(conv);
      hide Blank;
      CarriedNothing();
      hide Init;
      B.InitInv(conv, now);
      InitRebuilt(conv, now);
      RebuildStatsTopic(now);
      RebuildTopicsTopic();
    }

    method Respond(packet: Bytes, ghost reply: Reply, ghost ver: nat)
      requires curClient.Some? && Carried(wire, log) && Tells(packet, reply)
      modifies this`log, this`wire
      ensures Carried(wire, log) && log == old(log) + [Send(curClient.value, reply, ver)]
    {
      BaseSend(curClient.value, packet, reply, ver);
    }

    /** Sends the current client the retained value of a topic. */
    method SendRetained(name: Name, ghost ver: nat)
      requires Carried(wire, log) && curClient.Some? && name in topics && |name| <= 128
      modifies this`log, this`wire, this`msgssent
      ensures Carried(wire, log) && msgssent == old(msgssent) + 1
      ensures log == old(log) + [Send(curClient.value, Notify(name, topics[name]), ver)]
    {
      hide Encode, Carried;
      var t := topics[name];
      var p, size := ToMessage(t, SC_NOTIFY, name);
      Respond(p[..], Notify(name, t), ver);
      msgssent := msgssent + 1;
    }

    /** Records a subscription, both ways round. */
    method EnrolClient(fd: Fd, name: Name)
      requires Carried(wire, log)
      modifies this`subscribers, this`subtopics
      ensures View() == Enrol(old(View()), fd, name)
    {
      hide Carried;
      subscribers := subscribers[name := (if name in subscribers then subscribers[name] else {}) + {fd}];
      subtopics := subtopics[fd := (if fd in subtopics then subtopics[fd] else {}) + {name}];
    }

    method Subscribe(fd: Fd, name: Name)
      requires Carried(wire, log) && B.Retained(View()) && curClient == Some(fd)
      modifies this
      ensures Carried(wire, log) && clients == old(clients) && curClient == old(curClient)
      ensures View() == SubscribeTo(old(View()), fd, name)
    {
      hide Carried, B.Retained, Enrol, Hist;
      ghost var s := View();
      RetainedAt(s, name);
      EnrolClient(fd, name);
      EnrolKeeps(s, fd, name);
      // a retained value is sent straight away
      if name in topics {
        SendRetained(name, |Hist(s, name)| - 1);
      }
    }

    /** Takes the connection out of the subscribers of each of its topics. */
    method Unsubscribe(fd: Fd)
      requires Carried(wire, log)
      modifies this`subscribers, this`subtopics
      ensures View() == BrokerSpec.Unsubscribe(old(View()), fd)
    {
      hide Carried;
      var ts := if fd in subtopics then subtopics[fd] else {};
      subscribers := EraseFromEach(subscribers, ts, fd);
      subtopics := subtopics - {fd};
    }

    /** Takes the topic out of the subscriptions of each of its subscribers. */
    method DeleteTopic(n: Name)
      requires Carried(wire, log)
      modifies this`subscribers, this`subtopics
      ensures View() == BrokerSpec.DeleteTopic(old(View()), n)
    {
      hide Carried;
      var subs := if n in subscribers then subscribers[n] else {};
      subtopics := EraseFromEach(subtopics, subs, n);
      subscribers := subscribers - {n};
    }

    /** Reads a publication into the store; creates the topic first if it is new. An item
        of unknown type is an exception. */
    method StorePublished(p: array<Octet>) returns (name: Name, isnew: bool, thrown: bool)
      requires |p[..]| >= 9 && Decode(p[..]) != Err(Overrun)
      modifies this`topics
      ensures name == NameOf(p[..]) && isnew == (name !in old(topics))
      ensures thrown <==> Decode(p[..]).Err?
      ensures !thrown ==> topics == old(topics)[name := Decode(p[..]).value.0]
    {
      hide Decode, NameOf;
      name := NameOf(p[..]);
      isnew := name !in topics;
      if isnew {
        topics := topics[name := []];
      }
      var t := FromMessage(p);
      thrown := t.Err?;
      if !thrown {
        topics := topics[name := t.value];
      }
    }

    /** Stores the published data, then sends the packet itself on to the subscribers with
        its type overwritten, in which a client reads what was stored. If reading throws,
        nothing is sent. */
    method Publish(p: array<Octet>, ghost req: Request) returns (thrown: bool)
      requires Carried(wire, log) && (Throws(p[..]) || (req.Publish? && Asks(p[..], req)))
      modifies this, p
      ensures Carried(wire, log) && clients == old(clients) && curClient == old(curClient)
      ensures thrown <==> old(Throws(p[..]))
      ensures !thrown ==> View() == PublishTopic(old(View()), req.name, req.data)
      ensures thrown ==> log == old(log)
    {
      hide Decode, NameOf, Announce, RebuildTopics, Carried, WordAt;
      var name, isnew;
      name, isnew, thrown := StorePublished(p);
      if !thrown {
        AnnounceStored(old(View()), name, req.data);
        RetypePacket(p, name, req.data);
        PushOn(name, p[..], req.data);
        if isnew {
          RebuildTopicsTopic();
        }
      }
    }

    /** The cases of a packet's type. A type the broker does not know is ignored. */
    method DispatchPacket(packet: array<Octet>, ghost req: Request) returns (thrown: bool)
      requires Carried(wire, log) && B.Retained(View()) && curClient.Some?
      requires Throws(packet[..]) || Asks(packet[..], req)
      modifies this, packet
      ensures Carried(wire, log) && clients == old(clients) && curClient == old(curClient)
      ensures thrown <==> old(Throws(packet[..]))
      ensures !thrown ==> View() == Dispatch(old(View()), curClient.value, req)
      ensures thrown ==> log == old(log)
    {
      hide B.Retained, PublishTopic, SubscribeTo, Carried, NameOf, Decode, UpToNul, WordAt, WordBytes;
      KindOf(packet[..], req);
      thrown := false;
      var kind := WordAt(packet[..], 0);
      if kind == CS_PUBLISH {
        thrown := Publish(packet, req);
      } else if kind == CS_SUBSCRIBE {
        Subscribe(curClient.value, UpToNul(packet[..][4..]));
      } else if kind == CS_KILLSERVER {
        serverKill := true;
      } else if kind == CS_CLEARSERVER {
        topics := map[];
      }
    }

    /** One packet from the current client. A publication with an item of unknown type
        throws; nobody catches that before the broker exits, and all that has been sent by
        then is the refreshed statistics. */
    method Process(packet: array<Octet>, now: Word, ghost req: Request) returns (thrown: bool)
      requires Valid() && !down && curClient.Some? && curClient.value in clients
      requires Throws(packet[..]) || Asks(packet[..], req)
      modifies this, packet
      ensures clients == old(clients) && curClient == old(curClient) && Carried(wire, log)
      ensures thrown <==> old(Throws(packet[..]))
      ensures !thrown ==> !down && (Supported(req) ==> Valid())
      ensures !thrown ==> View() == BrokerSpec.Process(old(View()), curClient.value, req, now)
      ensures thrown ==> log == RebuildStats(old(View()).(recvd := old(View()).recvd + 1), now).log
    {
      hide B.Inv, RebuildStats, Dispatch, Carried, B.Retained, Asks, Throws;
      ghost var s, fd := View(), curClient.value;
      ghost var s0 := s.(recvd := s.recvd + 1);
      B.StatsRetained(s, now);
      msgsrecvd := msgsrecvd + 1;
      RebuildStatsTopic(now);
      thrown := DispatchPacket(packet, req);
      if !thrown {
        if Supported(req) {
          B.ProcessInv(s, fd, req, now);
        }
        StillUp(s, fd, req, now);
      }
    }

    /** Sends a kill to every client. */
    method Shutdown()
      requires Valid() && !down
      modifies this
      ensures Valid() && down && clients == old(clients)
      ensures View() == BrokerSpec.Shutdown(old(View()))
    {
      hide B.Inv, Broadcast, Carried, WordBytes, Tells;
      B.ShutdownInv(View());
      KillPacket();
      SendEach(clients.Keys, WordBytes(SC_KILLCLIENT), KillClient, 0);
      down := true;
    }

    /** A new connection on a descriptor that is not in use. */
    method AcceptClient(fd: Fd)
      requires Valid() && !down && fd !in clients
      modifies this`clients
      ensures Valid() && !down
      ensures View() == Apply(old(View()), Accept(fd))
      ensures fd in clients && clients == old(clients)[fd := clients[fd]]
      ensures fresh(clients[fd]) && fresh(clients[fd].sizebuf) && clients[fd].Valid()
      ensures clients[fd].State() == Header([]) && !clients[fd].isForceExit && clients[fd].recvdata == null
    {
      B.ApplyInv(View(), Accept(fd));
      hide B.Inv, Carried;
      var c := new TCPReceiver();
      clients := clients[fd := c];
      assert clients.Keys == old(clients.Keys) + {fd};
    }

    /** Closes a connection: out of the clients, then out of the subscriptions. */
    method CloseClient(i: Fd)
      requires Valid() && !down && i in clients
      modifies this`clients, this`subscribers, this`subtopics
      ensures Valid() && !down && clients == old(clients) - {i}
      ensures View() == Apply(old(View()), Close(i))
    {
      B.ApplyInv(View(), Close(i));
      hide B.Inv, Carried, BrokerSpec.Unsubscribe;
      clients := clients - {i};
      Unsubscribe(i);
    }

    /** One descriptor that has something to read, or whose stream has ended, in a round of
        `update`. What its receiver holds and what is still to be read are the frames of
        the requests `reqs`, carried by `packets`, up to where the peer stopped, which may
        be inside a frame. Then exactly one of these happens: the first request is
        processed, and what follows its frame is left to be read; part of its frame is
        read, and nothing else changes; or nothing could be read, as a read failed or the
        stream has ended, and the connection is closed. */
    method Service(i: Fd, sock: Socket, now: Word, ghost reqs: seq<Request>, ghost packets: seq<Packet>)
      returns (ghost outcome: Outcome)
      requires Valid() && !down && i in clients && clients[i].Valid() && !clients[i].isForceExit
      requires |packets| == |reqs| && forall k :: 0 <= k < |reqs| ==> Asks(packets[k], reqs[k])
      requires Pending(clients[i], sock) <= Stream(packets)
      modifies this, clients[i], clients[i].sizebuf, clients[i].recvdata, sock
      ensures !down && curClient == None
      ensures (outcome == Processed && reqs != [] ==> Supported(reqs[0])) ==> Valid()
      ensures clients == if outcome == Closed then old(clients) - {i} else old(clients)
      ensures var r := old(clients[i]);
              && sock.failures >= old(sock.failures) && (sock.failures > old(sock.failures) ==> sock.mayFail)
              && r.Valid() && !r.isForceExit && r.sizebuf == old(clients[i].sizebuf)
              && (r.recvdata == null || r.recvdata == old(clients[i].recvdata) || fresh(r.recvdata))
              && match outcome
                 case Processed =>
                   && reqs != [] && |sock.input| < |old(sock.input)|
                   && View() == BrokerSpec.Process(old(View()), i, reqs[0], now)
                   && FirstTaken(old(Pending(clients[i], sock)), Pending(r, sock), packets)
                 case Partly =>
                   && |sock.input| < |old(sock.input)|
                   && View() == old(View()) && Pending(r, sock) == old(Pending(clients[i], sock))
                 case Closed =>
                   && sock.input == old(sock.input)
                   && (sock.failures == old(sock.failures) ==> sock.input == [])
                   && Pending(r, sock) == old(Pending(clients[i], sock))
                   && View() == Apply(old(View()), Close(i))
    {
      hide B.Inv, Carried, Asks, BrokerSpec.Process, Stream, Frame, Residue, Taken, RxOk, Apply, Stuck;
      ghost var held, in0 := Residue(clients[i].State()), sock.input;
      curClient := Some(i);
      var rv, packet := clients[i].Update(sock);
      ShorterInput(in0, sock.input);
      outcome := Partly;
      if packet != null {
        FirstFrame(packet[..], held, in0, sock.input, packets);
        AsksNotThrows(packet[..], reqs[0]);
        var thrown := Process(packet, now, reqs[0]);
        ResidueNothing(sock.input);
        outcome := Processed;
      } else {
        ConcatAssoc(held, Taken(in0, sock.input), sock.input);
        if !rv {
          if sock.failures == old(sock.failures) {
            RequestsNonEmpty(packets, reqs);
            AllRead(clients[i].State(), sock.input, packets);
          }
          CloseClient(i);
          outcome := Closed;
        }
      }
      curClient := None;
    }
  }

  /** The first packet's frame is gone from what was pending. */
  predicate FirstTaken(before: Bytes, after: Bytes, packets: seq<Packet>) {
    packets != [] && before == Frame(packets[0]) + after && after <= Stream(packets[1..])
  }

  /** What became of a ready descriptor. */
  datatype Outcome = Processed | Partly | Closed

  lemma RequestsNonEmpty(ps: seq<Packet>, rs: seq<Request>)
    requires |ps| == |rs| && forall k :: 0 <= k < |rs| ==> Asks(ps[k], rs[k])
    ensures NonEmpty(ps)
  {
    hide Asks;
    forall k | 0 <= k < |ps| ensures ps[k] != [] {
      AsksKind(ps[k], rs[k]);
    }
  }

  lemma EnrolKeeps(s: Broker, fd: Fd, n: Name)
    ensures var t := Enrol(s, fd, n);
            t.topics == s.topics && t.sent == s.sent && t.log == s.log && t.hist == s.hist && t.clients == s.clients
  {}

  lemma RetainedAt(s: Broker, n: Name)
    requires B.Retained(s)
    ensures n in s.topics ==> |n| <= 128 && Hist(s, n) != []
  {}

  lemma StillUp(s: Broker, fd: Fd, req: Request, now: Word)
    ensures BrokerSpec.Process(s, fd, req, now).down == s.down
  {
    hide RebuildStats, Dispatch;
    B.StatsFrame(s.(recvd := s.recvd + 1), now);
    R.DispatchFrame(RebuildStats(s.(recvd := s.recvd + 1), now), fd, req);
  }

  /** The loop over one relation that erases `v` from the set of each of `keys`, creating
      the sets that are missing. */
  method EraseFromEach<K(==, !new), V(==)>(m: map<K, set<V>>, keys: set<K>, v: V) returns (after: map<K, set<V>>)
    ensures after == map k | k in m.Keys + keys ::
                       if k in keys then (if k in m then m[k] else {}) - {v} else m[k]
  {
    after := m;
    var rest := keys;
    while rest != {}
      invariant rest <= keys && after.Keys == m.Keys + (keys - rest)
      invariant forall k :: k in after ==>
                  after[k] == if k in keys - rest then (if k in m then m[k] else {}) - {v} else m[k]
      decreases rest
    {
      var k :| k in rest;
      after := after[k := (if k in after then after[k] else {}) - {v}];
      rest := rest - {k};
    }
  }

  /** The loop that adds every topic's name to the topic list, in the map's order. */
  method ListTopics(names: set<Name>) returns (t: Data)
    ensures t == TopicList(names)
  {
    hide TopicList;
    t := [];
    var rest := names;
    assert [] + TopicList(names) == TopicList(names);
    while rest != {}
      invariant t + TopicList(rest) == TopicList(names)
      decreases rest
    {
      FirstName(rest);
      var i :| i in rest && forall j :: j in rest && j != i ==> NameLess(i, j);
      TopicListStep(rest, i);
      ConcatAssoc(t, [Str(i)], TopicList(rest - {i}));
      t := t + [Str(i)];
      rest := rest - {i};
    }
    TopicListNothing();
    assert t + [] == t;
  }

  lemma KillPacket()
    ensures Tells(WordBytes(SC_KILLCLIENT), KillClient)
  {
    hide WordBytes, Encode;
  }

  lemma CarriedNothing()
    ensures Carried([], [])
  {}

  lemma FirstName(s: set<Name>)
    requires s != {}
    ensures exists i :: i in s && forall j :: j in s && j != i ==> NameLess(i, j)
  {
    var less := NameLess;
    NameOrder();
    var i := Least(s, less);
    assert forall j :: j in s && j != i ==> less(i, j);
  }

  lemma TopicListStep(s: set<Name>, i: Name)
    requires i in s && forall j :: j in s && j != i ==> NameLess(i, j)
    ensures TopicList(s) == [Str(i)] + TopicList(s - {i})
  {
    NameOrder();
    assert IsLeast(i, s, NameLess);
    ListingStep(s, NameLess, i);
    var xs, ys := Listing(s, NameLess), Listing(s - {i}, NameLess);
    assert xs[0] == i && xs[1..] == ys;
  }

  lemma TopicListNothing()
    ensures TopicList({}) == []
  {
    NameOrder();
  }

  lemma AnnounceStored(s: Broker, n: Name, d: Data)
    ensures Announce(s.(topics := s.topics[n := d]), n, d) == Announce(s, n, d)
  {
    hide Broadcast;
    var t := s.(topics := s.topics[n := d]);
    assert Subs(t, n) == Subs(s, n) && Hist(t, n) == Hist(s, n);
    assert t.topics[n := d] == s.topics[n := d];
  }

  /** A packet of a known type but an unknown item type in it. */
  predicate Throws(b: Bytes) {
    |b| >= 9 && WordAt(b, 0) == CS_PUBLISH && Decode(b) == Err(BadTag)
  }

  /** The type word tells the cases apart, whether or not reading goes on to throw. */
  lemma KindOf(b: Bytes, req: Request)
    requires Throws(b) || Asks(b, req)
    ensures |b| >= 4
    ensures Throws(b) ==> WordAt(b, 0) == CS_PUBLISH
    ensures !Throws(b) ==> Asks(b, req) && WordAt(b, 0) == Kind(req)
    ensures WordAt(b, 0) == CS_PUBLISH ==> Throws(b) || req.Publish?
    ensures req.Other? && !Throws(b) ==> req.kind !in {CS_PUBLISH, CS_SUBSCRIBE, CS_KILLSERVER, CS_CLEARSERVER}
  {
    hide Asks, WordAt, Decode;
    if Asks(b, req) {
      AsksKind(b, req);
    }
  }

  lemma AsksNotThrows(b: Bytes, req: Request)
    requires Asks(b, req)
    ensures !Throws(b)
  {
    hide WordAt, Decode, NameOf, WordBytes;
    AsksKind(b, req);
  }

  /** Overwrites the type word of a publication in place. */
  method RetypePacket(p: array<Octet>, ghost n: Name, ghost d: Data)
    requires Reads(p[..], CS_PUBLISH, n, d)
    modifies p
    ensures p[..] == Retyped(old(p[..]), SC_NOTIFY) && Reads(p[..], SC_NOTIFY, n, d)
  {
    ghost var b := p[..];
    assert |b| >= 9;
    hide Reads, WordBytes;
    RetypedReads(b, CS_PUBLISH, SC_NOTIFY, n, d);
    Put(p, 0, WordBytes(SC_NOTIFY));
    assert p[..] == p[..4] + p[4..];
    assert b[4..] == old(p[4..]);
    assert old(p[..0]) == [];
  }

  lemma FirstFd(s: set<Fd>)
    requires s != {}
    ensures exists i :: i in s && forall j :: j in s ==> i <= j
  {
    var less := FdLess;
    FdOrder();
    var i := Least(s, less);
    assert forall j :: j in s && j != i ==> less(i, j);
  }

  lemma BroadcastStep(s: set<Fd>, i: Fd, reply: Reply, ver: nat)
    requires i in s && forall j :: j in s ==> i <= j
    ensures Broadcast(s, reply, ver) == [Send(i, reply, ver)] + Broadcast(s - {i}, reply, ver)
  {
    FdOrder();
    assert IsLeast(i, s, FdLess);
    ListingStep(s, FdLess, i);
    var xs, ys := Listing(s, FdLess), Listing(s - {i}, FdLess);
    assert xs[0] == i && xs[1..] == ys;
  }

}
