// Why a channel of the composed system stands for the bytes on a connection: what the
// server object put on the wire for a descriptor is, packet by packet, what the channel
// holds.
module Channel {
  import opened Types
  import opened Ordering
  import opened Codec
  import opened Wire
  import opened Framing
  import opened BrokerSpec
  import B = BrokerLaws
  import R = BrokerRuns
  import opened SystemSpec
  import opened SystemLaws
  import opened SystemRuns
  import opened Projections
  import opened Server
  import opened LoopSpec
  import opened ClientClass

  /** The packets written to one descriptor. */
  function Written(wire: seq<Bytes>, log: seq<Send>, fd: Fd): seq<Bytes>
    requires |wire| == |log|
  {
    if log == [] then []
    else (if log[0].fd == fd then [wire[0]] else []) + Written(wire[1..], log[1..], fd)
  }

  lemma {:induction false} WrittenTells(wire: seq<Bytes>, log: seq<Send>, fd: Fd)
    requires Carried(wire, log)
    ensures |Written(wire, log, fd)| == |To(log, fd)|
    ensures forall k :: 0 <= k < |To(log, fd)| ==> Tells(Written(wire, log, fd)[k], To(log, fd)[k].reply)
  {
    hide Tells;
    if log != [] {
      assert Carried(wire[1..], log[1..]);
      WrittenTells(wire[1..], log[1..], fd);
    }
  }

  // ---- from the broker to a client ----

  /** The connection on `fd` was accepted in state `s0`, and then `rest` happened. */
  ghost predicate Opened(s0: System, rest: seq<Happening>, fd: Fd, s: System) {
    && Reachable(s0) && Possible(s0, Connect(fd))
    && Feasible(Next(s0, Connect(fd)), rest) && After(Next(s0, Connect(fd)), rest) == s
    && Disconnect(fd) !in rest
  }

  /** A channel holds what was sent to its descriptor from this place of the log on. */
  ghost predicate Since(s: System, fd: Fd, from: nat)
    requires fd in s.links
  {
    from <= |s.broker.log| && s.links[fd].log == To(s.broker.log[from..], fd)
  }

  ghost predicate SinceOpened(s: System, fd: Fd)
    requires fd in s.links
  {
    exists s0: System, rest: seq<Happening> :: Opened(s0, rest, fd, s) && Since(s, fd, |s0.broker.log|)
  }

  lemma GrowSince(b: Broker, t: Broker, fd: Fd, l: Link, from: nat)
    requires from <= |b.log| && b.log <= t.log && l.log == To(b.log[from..], fd)
    ensures Grow(l, b, t, fd).log == To(t.log[from..], fd)
  {
    hide To;
    R.LaterSends(b.log[..from], b.log, t.log, fd);
  }

  lemma NextSince(s: System, h: Happening, fd: Fd, from: nat)
    requires fd in s.links && Since(s, fd, from) && Possible(s, h) && h != Connect(fd) && h != Disconnect(fd)
    ensures fd in Next(s, h).links && Since(Next(s, h), fd, from)
  {
    hide To, BrokerSpec.Apply, BrokerSpec.Enabled, LocalPossible;
    NextBroker(s, h);
    if BrokerEvent(s, h).Some? {
      R.ApplyFrame(s.broker, BrokerEvent(s, h).value);
      GrowSince(s.broker, Next(s, h).broker, fd, s.links[fd], from);
    }
  }

  lemma ConnectSince(s: System, fd: Fd)
    requires Possible(s, Connect(fd))
    ensures var u := Next(s, Connect(fd)); fd in u.links && Since(u, fd, |s.broker.log|)
  {
    var log := Next(s, Connect(fd)).broker.log;
    assert log == s.broker.log && log[|log|..] == [];
  }

  lemma ConnectOpened(s: System, fd: Fd)
    requires Reachable(s) && Possible(s, Connect(fd))
    ensures Opened(s, [], fd, Next(s, Connect(fd)))
  {
    hide Reachable, Possible, Next;
  }

  lemma NextOpened(s0: System, rest: seq<Happening>, fd: Fd, s: System, h: Happening)
    requires Opened(s0, rest, fd, s) && Possible(s, h) && h != Disconnect(fd)
    ensures Opened(s0, rest + [h], fd, Next(s, h))
  {
    hide Reachable, Possible, Next, Feasible, After;
    AfterSnoc(Next(s0, Connect(fd)), rest, h);
  }

  lemma NextSinceOpened(s: System, h: Happening, fd: Fd)
    requires Reachable(s) && Possible(s, h) && fd in Next(s, h).links
    requires fd in s.links ==> SinceOpened(s, fd)
    ensures SinceOpened(Next(s, h), fd)
  {
    WhoseLinks(s, h, fd);
    hide Reachable, Possible, Next, Opened, Since;
    if h == Connect(fd) {
      ConnectSince(s, fd);
      ConnectOpened(s, fd);
    } else {
      var s0: System, rest: seq<Happening> :| Opened(s0, rest, fd, s) && Since(s, fd, |s0.broker.log|);
      NextSince(s, h, fd, |s0.broker.log|);
      NextOpened(s0, rest, fd, s, h);
    }
  }

  /** A link that is there after a step was there before, or has just been made. */
  lemma WhoseLinks(s: System, h: Happening, fd: Fd)
    requires Possible(s, h) && fd in Next(s, h).links
    ensures h != Disconnect(fd) && (h != Connect(fd) ==> fd in s.links)
  {
    hide BrokerSpec.Apply, BrokerSpec.Enabled, LocalPossible, LocalStep, Grow;
  }

  lemma {:induction false} RunSinceOpened(s: System, hs: seq<Happening>, fd: Fd)
    requires Reachable(s) && Feasible(s, hs) && fd in After(s, hs).links
    requires forall f :: f in s.links ==> SinceOpened(s, f)
    ensures SinceOpened(After(s, hs), fd)
    decreases |hs|
  {
    hide Reachable, SinceOpened, Possible, Next;
    if hs != [] {
      var u := Next(s, hs[0]);
      ReachableNext(s, hs[0]);
      forall f | f in u.links ensures SinceOpened(u, f) {
        NextSinceOpened(s, hs[0], f);
      }
      RunSinceOpened(u, hs[1..], fd);
    }
  }

  lemma ReachableStart(conv: nat -> Word, t0: Word)
    ensures Reachable(Start(conv, t0))
  {
    hide Start, Possible, Next;
    var hs: seq<Happening> := [];
    assert Feasible(Start(conv, t0), hs) && After(Start(conv, t0), hs) == Start(conv, t0);
  }

  lemma ReachableSinceOpened(s: System, fd: Fd)
    requires Reachable(s) && fd in s.links
    ensures SinceOpened(s, fd)
  {
    var conv: nat -> Word, t0: Word, hs: seq<Happening> :|
      Feasible(Start(conv, t0), hs) && After(Start(conv, t0), hs) == s;
    hide Feasible, After, SinceOpened, Reachable, BrokerSpec.Init;
    ReachableStart(conv, t0);
    RunSinceOpened(Start(conv, t0), hs, fd);
  }

  /** In every reachable state, for every open connection, whatever packets the server
      object wrote for the broker's log, those it wrote to the connection's descriptor
      since the moment of accepting it carry, one by one, the replies of its channel. They
      are the packets and replies that the client's receiver loop is given, in any cut of
      their stream. */
  lemma ChannelCarries(s: System, fd: Fd, wire: seq<Bytes>)
    requires Reachable(s) && fd in s.links && Carried(wire, s.broker.log)
    ensures exists s0: System, rest: seq<Happening> ::
              && Opened(s0, rest, fd, s) && Since(s, fd, |s0.broker.log|)
              && CarriedSince(s, fd, wire, |s0.broker.log|)
  {
    hide Reachable, Opened, Since, CarriedSince;
    ReachableSinceOpened(s, fd);
    var s0: System, rest: seq<Happening> :| Opened(s0, rest, fd, s) && Since(s, fd, |s0.broker.log|);
    SinceCarried(s, fd, wire, |s0.broker.log|);
  }

  /** The packets written to the descriptor from this place of the log on carry the replies
      of the channel. */
  ghost predicate CarriedSince(s: System, fd: Fd, wire: seq<Bytes>, from: nat)
    requires fd in s.links && |wire| == |s.broker.log|
  {
    && from <= |wire|
    && var packets := Written(wire[from..], s.broker.log[from..], fd);
       && |packets| == |s.links[fd].log|
       && forall k :: 0 <= k < |packets| ==> Tells(packets[k], s.links[fd].log[k].reply)
  }

  lemma SinceCarried(s: System, fd: Fd, wire: seq<Bytes>, from: nat)
    requires fd in s.links && Since(s, fd, from) && Carried(wire, s.broker.log)
    ensures CarriedSince(s, fd, wire, from)
  {
    hide Tells, To, Written;
    assert Carried(wire[from..], s.broker.log[from..]);
    WrittenTells(wire[from..], s.broker.log[from..], fd);
  }

  // ---- that a client can read what it is sent ----

  ghost predicate AllReadable(b: Broker) {
    && (forall n :: n in b.topics ==> Fits(b.topics[n]))
    && (forall i :: 0 <= i < |b.log| ==> Readable(b.log[i].reply))
  }

  predicate EventFits(e: Event) {
    e.Receive? && e.req.Publish? ==> Fits(e.req.data)
  }

  lemma AnnounceReadable(s: Broker, n: Name, d: Data)
    requires AllReadable(s) && Fits(d)
    ensures AllReadable(Announce(s, n, d)) && |Announce(s, n, d).topics| <= |s.topics| + 1
  {
    B.BroadcastAll(Subs(s, n), Notify(n, d), |Hist(s, n)|);
    hide Broadcast, Fits;
    var t := Announce(s, n, d);
    TopicCount(s.topics, n, d);
    forall i | 0 <= i < |t.log| ensures Readable(t.log[i].reply) {
      if i < |s.log| {
        assert t.log[i] == s.log[i];
      } else {
        assert t.log[i] == Broadcast(Subs(s, n), Notify(n, d), |Hist(s, n)|)[i - |s.log|];
      }
    }
  }

  lemma TopicCount(topics: map<Name, Data>, n: Name, d: Data)
    ensures |topics[n := d]| <= |topics| + 1
  {
    assert topics[n := d].Keys == topics.Keys + {n};
    assert |topics.Keys + {n}| <= |topics.Keys| + 1;
    assert |topics| == |topics.Keys| && |topics[n := d]| == |topics[n := d].Keys|;
  }

  lemma NameCount(topics: map<Name, Data>)
    ensures |topics.Keys + {TOPICS}| <= |topics| + 1
  {
    assert |topics.Keys + {TOPICS}| <= |topics.Keys| + 1;
    assert |topics| == |topics.Keys|;
  }

  lemma ListFits(names: set<Name>)
    requires |names| < 0x8000_0000 && forall n :: n in names ==> |n| < 0x8000_0000
    ensures Fits(TopicList(names))
  {
    NameOrder();
    R.TopicListLists(names);
    ListingSpec(names, NameLess);
    hide NameLess, Listing, StrictOrder;
    forall x | x in TopicList(names) ensures x.Str? && |x.s| < 0x8000_0000 {
      assert x.s in names;
    }
  }

  lemma StatsReadable(s: Broker, now: Word)
    requires AllReadable(s)
    ensures AllReadable(RebuildStats(s, now)) && |RebuildStats(s, now).topics| <= |s.topics| + 1
  {
    hide Announce;
    assert Fits(StatsValue(s, now));
    AnnounceReadable(s, STATS, StatsValue(s, now));
  }

  lemma ListReadable(s: Broker)
    requires AllReadable(s) && |s.topics| + 1 < 0x8000_0000 && forall n :: n in s.topics ==> |n| <= 128
    ensures AllReadable(RebuildTopics(s)) && |RebuildTopics(s).topics| <= |s.topics| + 1
  {
    hide Announce, Fits, AllReadable, TopicList;
    NameCount(s.topics);
    ListFits(s.topics.Keys + {TOPICS});
    AnnounceReadable(s, TOPICS, TopicList(s.topics.Keys + {TOPICS}));
  }

  lemma PublishReadable(s: Broker, n: Name, d: Data)
    requires AllReadable(s) && B.Retained(s) && Fits(d) && |n| <= 128 && |s.topics| + 2 < 0x8000_0000
    ensures AllReadable(PublishTopic(s, n, d)) && |PublishTopic(s, n, d).topics| <= |s.topics| + 2
  {
    assert forall m :: m in s.topics ==> |m| <= 128;
    hide Announce, Fits, AllReadable, B.Retained, RebuildTopics;
    AnnounceReadable(s, n, d);
    B.AnnounceKeys(s, n, d);
    if n !in s.topics {
      ListReadable(Announce(s, n, d));
    }
  }

  lemma SubscribeReadable(s: Broker, fd: Fd, n: Name)
    requires AllReadable(s)
    ensures AllReadable(SubscribeTo(s, fd, n)) && SubscribeTo(s, fd, n).topics == s.topics
  {
    hide Fits;
  }

  lemma SameReadable(s: Broker, t: Broker)
    requires AllReadable(s) && t.log == s.log && (t.topics == s.topics || t.topics == map[])
    ensures AllReadable(t) && |t.topics| <= |s.topics|
  {
    hide Fits, Readable;
  }

  lemma StopReadable(s: Broker)
    requires AllReadable(s)
    ensures AllReadable(Shutdown(s)) && Shutdown(s).topics == s.topics
  {
    B.BroadcastAll(s.clients, KillClient, 0);
    hide Broadcast, Fits;
  }

  lemma ApplyReadable(s: Broker, e: Event)
    requires AllReadable(s) && B.Inv(s) && BrokerSpec.Enabled(s, e) && EventFits(e) && |s.topics| + 3 < 0x8000_0000
    ensures AllReadable(Apply(s, e)) && |Apply(s, e).topics| <= |s.topics| + 3
  {
    hide AllReadable, B.Inv, Fits, RebuildStats, PublishTopic, SubscribeTo, Shutdown, B.Retained;
    match e
    case Receive(fd, req, now) =>
      var s0 := s.(recvd := s.recvd + 1);
      var s1 := RebuildStats(s0, now);
      SameReadable(s, s0);
      StatsReadable(s0, now);
      B.StatsRetained(s, now);
      match req {
        case Publish(n, d) => PublishReadable(s1, n, d);
        case Subscribe(n) => SubscribeReadable(s1, fd, n);
        case KillServer => SameReadable(s1, s1.(kill := true));
        case ClearServer => SameReadable(s1, s1.(topics := map[]));
        case Other(_) =>
      }
    case Stop => StopReadable(s);
    case _ => SameReadable(s, Apply(s, e));
  }

  lemma {:induction false} RunReadable(s: Broker, es: seq<Event>)
    requires AllReadable(s) && B.Inv(s) && BrokerSpec.Legal(s, es) && forall e :: e in es ==> EventFits(e)
    requires |s.topics| + 3 * |es| < 0x8000_0000
    ensures AllReadable(BrokerSpec.Run(s, es))
    decreases |es|
  {
    hide AllReadable, B.Inv, Apply, BrokerSpec.Enabled, EventFits;
    if es != [] {
      assert es[0] in es;
      B.ApplyInv(s, es[0]);
      ApplyReadable(s, es[0]);
      RunReadable(Apply(s, es[0]), es[1..]);
    }
  }

  lemma InitReadable(conv: nat -> Word, t0: Word)
    ensures AllReadable(Init(conv, t0)) && |Init(conv, t0).topics| == 3
  {
    var s := Init(conv, t0);
    assert s.topics.Keys == {STATS, TOPICS, VERSION_TOPIC};
    assert STATS[0] < TOPICS[0] < VERSION_TOPIC[0];
    assert |s.topics| == |s.topics.Keys|;
  }

  /** After any run in which what was published fits the fields of a packet, and which is too
      short for the topics to outgrow the count field of the topic list, everything sent
      can be read by a client. */
  lemma ReadableOverRuns(conv: nat -> Word, t0: Word, es: seq<Event>)
    requires BrokerSpec.Legal(Init(conv, t0), es) && forall e :: e in es ==> EventFits(e)
    requires 3 + 3 * |es| < 0x8000_0000
    ensures var b := BrokerSpec.Run(Init(conv, t0), es);
            forall i :: 0 <= i < |b.log| ==> Readable(b.log[i].reply)
  {
    InitReadable(conv, t0);
    B.InitInv(conv, t0);
    hide Init, B.Inv, BrokerSpec.Legal, BrokerSpec.Run, EventFits, Readable;
    RunReadable(Init(conv, t0), es);
  }

  // ---- from a client to the broker ----

  /** The packets a client object wrote, in any cut of their stream, are what the broker's
      loop takes for the requests they were to ask for. */
  lemma RequestsSent(c: MyClient, packets: seq<Packet>, input: Bytes, mayFail: bool)
    requires c.Written() && packets == c.requests && input <= Stream(packets)
    requires forall k :: 0 <= k < |c.asked| ==> Supported(c.asked[k])
    ensures SentOk(Sent(c.asked, packets, input, mayFail))
  {
    hide Asks, Stream;
  }
}
