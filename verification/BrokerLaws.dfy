// What every run of the broker keeps.
module BrokerLaws {
  import opened Types
  import opened Ordering
  import opened BrokerSpec

  // ---- the invariant ----

  /** `subscribers` and `subtopics` are inverse relations, between names and open
      connections. */
  ghost predicate Inverse(s: Broker) {
    && (forall fd: Fd, n: Name :: fd in Subs(s, n) <==> n in Tops(s, fd))
    && (forall fd: Fd, n: Name :: fd in Subs(s, n) ==> fd in s.clients)
  }

  /** A retained value is the last one stored. */
  ghost predicate Retained(s: Broker) {
    forall n :: n in s.topics ==>
      && Hist(s, n) != [] && Hist(s, n)[|Hist(s, n)| - 1] == s.topics[n]
      && |n| <= 128
  }

  /** Whatever was sent as a notification is the value its history has at that place. */
  ghost predicate Genuine(s: Broker, send: Send) {
    send.reply.Notify? ==>
      && send.ver < |Hist(s, send.reply.name)|
      && Hist(s, send.reply.name)[send.ver] == send.reply.data
  }

  /** What holds even before the constructor has made the broker's own topics. */
  ghost predicate Core(s: Broker) {
    && Inverse(s)
    && Retained(s)
    && (forall i :: 0 <= i < |s.log| ==> Genuine(s, s.log[i]))
    && s.sent == |s.log|
  }

  ghost predicate Inv(s: Broker) {
    && Core(s)
    && (TOPICS in s.topics ==> STATS in s.topics)
    && {STATS, TOPICS} <= s.subscribers.Keys
  }

  lemma InvRetained(s: Broker)
    requires Inv(s)
    ensures Retained(s)
  {}

  lemma {:induction false} SendsAll(fds: seq<Fd>, reply: Reply, ver: nat)
    ensures forall i :: 0 <= i < |Sends(fds, reply, ver)| ==>
              && Sends(fds, reply, ver)[i].reply == reply
              && Sends(fds, reply, ver)[i].ver == ver
  {
    if fds != [] {
      SendsAll(fds[1..], reply, ver);
    }
  }

  lemma BroadcastAll(fds: set<Fd>, reply: Reply, ver: nat)
    ensures forall i :: 0 <= i < |Broadcast(fds, reply, ver)| ==>
              && Broadcast(fds, reply, ver)[i].reply == reply
              && Broadcast(fds, reply, ver)[i].ver == ver
  {
    FdOrder();
    SendsAll(Listing(fds, FdLess), reply, ver);
  }

  lemma GenuineLater(s: Broker, t: Broker, n: Name, d: Data)
    requires t.hist == s.hist[n := Hist(s, n) + [d]]
    ensures forall send :: Genuine(s, send) ==> Genuine(t, send)
  {
    forall send | Genuine(s, send) ensures Genuine(t, send) {
      if send.reply.Notify? {
        assert Hist(s, send.reply.name) <= Hist(t, send.reply.name);
      }
    }
  }

  lemma AnnounceCore(s: Broker, n: Name, d: Data)
    requires Core(s) && |n| <= 128
    ensures Core(Announce(s, n, d))
  {
    hide Broadcast, Genuine, Inverse, Retained;
    AnnounceInverse(s, n, d);
    AnnounceRetained(s, n, d);
    AnnounceGenuine(s, n, d);
    BroadcastCount(Subs(s, n), Notify(n, d), |Hist(s, n)|);
  }

  lemma BroadcastCount(fds: set<Fd>, reply: Reply, ver: nat)
    ensures |Broadcast(fds, reply, ver)| == |fds|
  {
    BroadcastTo(fds, reply, ver, 0);
  }

  lemma AnnounceInverse(s: Broker, n: Name, d: Data)
    requires Inverse(s)
    ensures Inverse(Announce(s, n, d))
  {
    hide Broadcast;
    var t := Announce(s, n, d);
    assert forall m: Name :: Subs(t, m) == Subs(s, m);
    assert forall fd: Fd :: Tops(t, fd) == Tops(s, fd);
  }

  lemma AnnounceRetained(s: Broker, n: Name, d: Data)
    requires Retained(s) && |n| <= 128
    ensures Retained(Announce(s, n, d))
  {
    hide Broadcast;
    var t := Announce(s, n, d);
    forall m | m in t.topics
      ensures Hist(t, m) != [] && Hist(t, m)[|Hist(t, m)| - 1] == t.topics[m] && |m| <= 128
    {
      if m == n {
        assert Hist(t, m) == Hist(s, n) + [d];
      } else {
        assert Hist(t, m) == Hist(s, m);
      }
    }
  }

  lemma AnnounceGenuine(s: Broker, n: Name, d: Data)
    requires forall i :: 0 <= i < |s.log| ==> Genuine(s, s.log[i])
    ensures var t := Announce(s, n, d);
            forall i :: 0 <= i < |t.log| ==> Genuine(t, t.log[i])
  {
    hide Genuine, Broadcast;
    var t := Announce(s, n, d);
    var more := Broadcast(Subs(s, n), Notify(n, d), |Hist(s, n)|);
    GenuineLater(s, t, n, d);
    BroadcastAll(Subs(s, n), Notify(n, d), |Hist(s, n)|);
    forall i | 0 <= i < |t.log| ensures Genuine(t, t.log[i]) {
      if i < |s.log| {
        assert t.log[i] == s.log[i];
      } else {
        assert t.log[i] == more[i - |s.log|];
        NewIsGenuine(s, t, n, d, t.log[i]);
      }
    }
  }

  lemma NewIsGenuine(s: Broker, t: Broker, n: Name, d: Data, send: Send)
    requires t.hist == s.hist[n := Hist(s, n) + [d]]
    requires send.reply == Notify(n, d) && send.ver == |Hist(s, n)|
    ensures Genuine(t, send)
  {}

  lemma AnnounceInv(s: Broker, n: Name, d: Data)
    requires Inv(s) && |n| <= 128
    requires n == TOPICS ==> STATS in s.topics
    ensures Inv(Announce(s, n, d))
  {
    hide Broadcast, Inverse, Retained, Genuine;
    AnnounceCore(s, n, d);
  }

  lemma StatsInv(s: Broker, now: Word)
    requires Inv(s)
    ensures Inv(RebuildStats(s, now)) && STATS in RebuildStats(s, now).topics
  {
    hide Announce, Inv;
    AnnounceInv(s, STATS, StatsValue(s, now));
    AnnounceKeys(s, STATS, StatsValue(s, now));
  }

  lemma AnnounceKeys(s: Broker, n: Name, d: Data)
    ensures var t := Announce(s, n, d);
            && t.topics == s.topics[n := d]
            && t.topics.Keys == s.topics.Keys + {n}
            && t.subscribers.Keys == s.subscribers.Keys + {n}
            && t.clients == s.clients && t.recvd == s.recvd && t.kill == s.kill && t.down == s.down
            && t.conv == s.conv && s.log <= t.log
  {
    hide Broadcast;
  }

  lemma PublishInv(s: Broker, n: Name, d: Data)
    requires Inv(s) && |n| <= 128 && STATS in s.topics
    ensures Inv(PublishTopic(s, n, d))
  {
    hide Announce, Inv;
    AnnounceInv(s, n, d);
    AnnounceKeys(s, n, d);
    var t := Announce(s, n, d);
    if n !in s.topics {
      AnnounceInv(t, TOPICS, TopicList(t.topics.Keys + {TOPICS}));
    }
  }

  lemma EnrolInverse(s: Broker, fd: Fd, n: Name)
    requires Inverse(s) && fd in s.clients
    ensures Inverse(Enrol(s, fd, n))
  {
    var t := Enrol(s, fd, n);
    assert forall m: Name :: Subs(t, m) == if m == n then Subs(s, n) + {fd} else Subs(s, m);
    assert forall f: Fd :: Tops(t, f) == if f == fd then Tops(s, fd) + {n} else Tops(s, f);
  }

  lemma SubscribeInv(s: Broker, fd: Fd, n: Name)
    requires Inv(s) && fd in s.clients
    ensures Inv(SubscribeTo(s, fd, n))
  {
    var t := SubscribeTo(s, fd, n);
    EnrolInverse(s, fd, n);
    InverseSame(Enrol(s, fd, n), t);
    hide Inverse, Subs, Tops;
    SameHistory(s, t);
    hide Genuine;
    forall i | 0 <= i < |t.log| ensures Genuine(t, t.log[i]) {
      if i < |s.log| {
        assert Genuine(s, s.log[i]);
      } else {
        RetainedIsGenuine(s, n, t.log[i]);
      }
    }
  }

  lemma SameHistory(s: Broker, t: Broker)
    requires t.hist == s.hist
    ensures forall m: Name :: Hist(t, m) == Hist(s, m)
    ensures forall send :: Genuine(s, send) ==> Genuine(t, send)
  {}

  lemma RetainedIsGenuine(s: Broker, n: Name, send: Send)
    requires Retained(s) && n in s.topics
    requires send.reply == Notify(n, s.topics[n]) && send.ver == |Hist(s, n)| - 1
    ensures Genuine(s, send)
  {}

  lemma InverseSame(s: Broker, t: Broker)
    requires Inverse(s) && t.subscribers == s.subscribers && t.subtopics == s.subtopics && t.clients == s.clients
    ensures Inverse(t)
  {
    assert forall m: Name :: Subs(t, m) == Subs(s, m);
    assert forall f: Fd :: Tops(t, f) == Tops(s, f);
  }

  lemma UnsubscribeInverse(s: Broker, fd: Fd)
    requires forall f: Fd, n: Name :: f in Subs(s, n) <==> n in Tops(s, f)
    requires forall f: Fd, n: Name :: f in Subs(s, n) ==> f in s.clients || f == fd
    requires fd !in s.clients
    ensures Inverse(Unsubscribe(s, fd))
  {
    var t := Unsubscribe(s, fd);
    assert forall m: Name :: Subs(t, m) == Subs(s, m) - {fd};
    assert forall f: Fd :: Tops(t, f) == if f == fd then {} else Tops(s, f);
  }

  lemma CloseInv(s: Broker, fd: Fd)
    requires Inv(s)
    ensures Inv(Unsubscribe(s.(clients := s.clients - {fd}), fd))
  {
    var u := s.(clients := s.clients - {fd});
    var t := Unsubscribe(u, fd);
    assert Inverse(t) by {
      assert forall m: Name :: Subs(u, m) == Subs(s, m);
      assert forall f: Fd :: Tops(u, f) == Tops(s, f);
      UnsubscribeInverse(u, fd);
    }
    hide Inverse;
    assert forall m: Name :: Hist(t, m) == Hist(s, m);
    assert forall send :: Genuine(s, send) ==> Genuine(t, send);
  }

  /** Deleting a topic also keeps the relations inverse. */
  lemma DeleteTopicInverse(s: Broker, n: Name)
    requires Inverse(s)
    ensures Inverse(DeleteTopic(s, n))
    ensures Subs(DeleteTopic(s, n), n) == {}
    ensures forall m: Name :: m != n ==> Subs(DeleteTopic(s, n), m) == Subs(s, m)
  {
    var t := DeleteTopic(s, n);
    assert forall m: Name :: Subs(t, m) == if m == n then {} else Subs(s, m);
    assert forall f: Fd :: Tops(t, f) == Tops(s, f) - {n};
  }

  /** The parts of the state the invariant looks at are the same but for what is named. */
  lemma SmallStepsInv(s: Broker, t: Broker)
    requires Inv(s)
    requires t.subscribers == s.subscribers && t.subtopics == s.subtopics && s.clients <= t.clients
    requires t.hist == s.hist && t.log == s.log && t.sent == s.sent
    requires t.topics == s.topics || t.topics == map[]
    ensures Inv(t)
  {
    assert forall m: Name :: Subs(t, m) == Subs(s, m);
    assert forall f: Fd :: Tops(t, f) == Tops(s, f);
    assert forall m: Name :: Hist(t, m) == Hist(s, m);
    assert forall send :: Genuine(s, send) ==> Genuine(t, send);
  }

  lemma ShutdownInv(s: Broker)
    requires Inv(s)
    ensures Inv(Shutdown(s))
  {
    hide Broadcast;
    var t := Shutdown(s);
    var more := Broadcast(s.clients, KillClient, 0);
    InverseSame(s, t);
    hide Inverse;
    BroadcastCount(s.clients, KillClient, 0);
    BroadcastAll(s.clients, KillClient, 0);
    assert forall m: Name :: Hist(t, m) == Hist(s, m);
    forall i | 0 <= i < |t.log| ensures Genuine(t, t.log[i]) {
      if i < |s.log| {
        assert Genuine(s, s.log[i]);
      } else {
        assert t.log[i] == more[i - |s.log|];
      }
    }
  }

  lemma ProcessInv(s: Broker, fd: Fd, req: Request, now: Word)
    requires Inv(s) && Enabled(s, Receive(fd, req, now))
    ensures Inv(Process(s, fd, req, now))
  {
    hide Inv, RebuildStats, PublishTopic, SubscribeTo;
    var s0 := s.(recvd := s.recvd + 1);
    SmallStepsInv(s, s0);
    StatsInv(s0, now);
    StatsFrame(s0, now);
    var s1 := RebuildStats(s0, now);
    match req
    case Publish(n, d) => PublishInv(s1, n, d);
    case Subscribe(n) => SubscribeInv(s1, fd, n);
    case KillServer => SmallStepsInv(s1, s1.(kill := true));
    case ClearServer => SmallStepsInv(s1, s1.(topics := map[]));
    case Other(_) =>
  }

  lemma StatsFrame(s: Broker, now: Word)
    ensures var t := RebuildStats(s, now);
            && t.topics.Keys == s.topics.Keys + {STATS}
            && (forall n :: n in s.topics && n != STATS ==> t.topics[n] == s.topics[n])
            && t.subscribers.Keys == s.subscribers.Keys + {STATS}
            && t.clients == s.clients && t.recvd == s.recvd && t.kill == s.kill && t.down == s.down
            && t.conv == s.conv && s.log <= t.log
  {
    hide Announce;
    AnnounceKeys(s, STATS, StatsValue(s, now));
  }

  lemma StatsRetained(s: Broker, now: Word)
    requires Inv(s)
    ensures Retained(RebuildStats(s.(recvd := s.recvd + 1), now))
  {
    hide RebuildStats, Inv, Retained;
    var s0 := s.(recvd := s.recvd + 1);
    SmallStepsInv(s, s0);
    StatsInv(s0, now);
    InvRetained(RebuildStats(s0, now));
  }

  lemma ApplyInv(s: Broker, e: Event)
    requires Inv(s) && Enabled(s, e)
    ensures Inv(Apply(s, e))
  {
    hide Inv, Process, Unsubscribe, Shutdown;
    match e
    case Accept(fd) => SmallStepsInv(s, s.(clients := s.clients + {fd}));
    case Receive(fd, req, now) => ProcessInv(s, fd, req, now);
    case Close(fd) => CloseInv(s, fd);
    case Stop => ShutdownInv(s);
  }

  lemma InitInv(conv: nat -> Word, now: Word)
    ensures Inv(Init(conv, now))
    ensures Init(conv, now).clients == {} && !Init(conv, now).down
  {
    hide Init, Announce;
    InitRebuilt(conv, now);
    var s := Blank(conv);
    var v := StatsValue(s, now);
    var t := Announce(s, STATS, v);
    var list := TopicList(t.topics.Keys + {TOPICS});
    BlankCore(conv);
    hide Core, Blank, TopicList, StatsValue;
    AnnounceCore(s, STATS, v);
    AnnounceKeys(s, STATS, v);
    AnnounceCore(t, TOPICS, list);
    AnnounceKeys(t, TOPICS, list);
  }

  lemma BlankCore(conv: nat -> Word)
    ensures Core(Blank(conv))
    ensures Blank(conv).clients == {} && !Blank(conv).down
  {}

  /** Every state a legal run reaches satisfies the invariant. */
  lemma {:induction false} RunInv(s: Broker, es: seq<Event>)
    requires Inv(s) && Legal(s, es)
    ensures Inv(Run(s, es))
    decreases |es|
  {
    hide Inv, Apply, Enabled;
    if es != [] {
      ApplyInv(s, es[0]);
      RunInv(Apply(s, es[0]), es[1..]);
    }
  }
}
