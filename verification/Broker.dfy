// The broker of server.cpp as a state machine: its handlers as functions from state to
// state, with a log of every send and a history of every value stored.
module BrokerSpec {
  import opened Types
  import opened Ordering

  /** One call of basesend. `ver` is not on the wire: it is the place of the value in
      its topic's history. */
  datatype Send = Send(fd: Fd, reply: Reply, ver: nat)

  datatype Broker = Broker(
    conv: nat -> Word,                  // C's conversion of a counter to a float
    topics: map<Name, Data>,            // retained values
    subscribers: map<Name, set<Fd>>,
    subtopics: map<Fd, set<Name>>,
    clients: set<Fd>,                   // open connections
    sent: nat,
    recvd: nat,
    kill: bool,
    down: bool,                         // shut down and deleted
    log: seq<Send>,                     // every send so far
    hist: map<Name, seq<Data>>          // every value stored so far, by topic
  )

  function Subs(s: Broker, n: Name): set<Fd> {
    if n in s.subscribers then s.subscribers[n] else {}
  }

  function Tops(s: Broker, fd: Fd): set<Name> {
    if fd in s.subtopics then s.subtopics[fd] else {}
  }

  function Hist(s: Broker, n: Name): seq<Data> {
    if n in s.hist then s.hist[n] else []
  }

  // ---- sends ----

  function Sends(fds: seq<Fd>, reply: Reply, ver: nat): seq<Send> {
    if fds == [] then [] else [Send(fds[0], reply, ver)] + Sends(fds[1..], reply, ver)
  }

  /** One copy for each descriptor, in ascending order. */
  ghost function Broadcast(fds: set<Fd>, reply: Reply, ver: nat): seq<Send> {
    FdOrder();
    Sends(Listing(fds, FdLess), reply, ver)
  }

  /** What was sent to one descriptor. */
  function To(sends: seq<Send>, fd: Fd): seq<Send> {
    if sends == [] then []
    else (if sends[0].fd == fd then [sends[0]] else []) + To(sends[1..], fd)
  }

  lemma {:induction false} ToConcat(a: seq<Send>, b: seq<Send>, fd: Fd)
    ensures To(a + b, fd) == To(a, fd) + To(b, fd)
  {
    if a == [] {
      assert a + b == b;
    } else {
      var head := if a[0].fd == fd then [a[0]] else [];
      assert (a + b)[1..] == a[1..] + b && (a + b)[0] == a[0];
      ToConcat(a[1..], b, fd);
      ConcatAssoc(head, To(a[1..], fd), To(b, fd));
    }
  }

  lemma {:induction false} ToSends(fds: seq<Fd>, reply: Reply, ver: nat, fd: Fd)
    requires forall i, j :: 0 <= i < j < |fds| ==> fds[i] < fds[j]
    ensures To(Sends(fds, reply, ver), fd) == if fd in fds then [Send(fd, reply, ver)] else []
    ensures |Sends(fds, reply, ver)| == |fds|
  {
    if fds != [] {
      ToSends(fds[1..], reply, ver, fd);
      assert Sends(fds, reply, ver)[1..] == Sends(fds[1..], reply, ver);
    }
  }

  /** A broadcast sends each descriptor of the set one copy, and nobody else any. */
  lemma BroadcastTo(fds: set<Fd>, reply: Reply, ver: nat, fd: Fd)
    ensures To(Broadcast(fds, reply, ver), fd) == if fd in fds then [Send(fd, reply, ver)] else []
    ensures |Broadcast(fds, reply, ver)| == |fds|
  {
    FdOrder();
    ListingSpec(fds, FdLess);
    var xs := Listing(fds, FdLess);
    assert forall i, j :: 0 <= i < j < |xs| ==> xs[i] < xs[j];
    ToSends(xs, reply, ver, fd);
  }

  // ---- handlers ----

  /** Stores a value and sends it to the topic's subscribers. */
  ghost function Announce(s: Broker, n: Name, d: Data): Broker {
    s.(topics := s.topics[n := d],
       hist := s.hist[n := Hist(s, n) + [d]],
       subscribers := s.subscribers[n := Subs(s, n)],
       sent := s.sent + |Subs(s, n)|,
       log := s.log + Broadcast(Subs(s, n), Notify(n, d), |Hist(s, n)|))
  }

  function StatsValue(s: Broker, now: Word): Data {
    [Float(s.conv(|s.subscribers|)), Float(s.conv(s.sent)), Float(s.conv(s.recvd)), Float(now)]
  }

  ghost function RebuildStats(s: Broker, now: Word): Broker {
    Announce(s, STATS, StatsValue(s, now))
  }

  function Strings(names: seq<Name>): (d: Data)
    ensures |d| == |names| && forall i :: 0 <= i < |d| ==> d[i] == Str(names[i])
  {
    if names == [] then [] else [Str(names[0])] + Strings(names[1..])
  }

  ghost function TopicList(names: set<Name>): Data {
    NameOrder();
    Strings(Listing(names, NameLess))
  }

  ghost function RebuildTopics(s: Broker): Broker {
    Announce(s, TOPICS, TopicList(s.topics.Keys + {TOPICS}))
  }

  ghost function PublishTopic(s: Broker, n: Name, d: Data): Broker {
    if n in s.topics then Announce(s, n, d) else RebuildTopics(Announce(s, n, d))
  }

  function Enrol(s: Broker, fd: Fd, n: Name): Broker {
    s.(subscribers := s.subscribers[n := Subs(s, n) + {fd}],
       subtopics := s.subtopics[fd := Tops(s, fd) + {n}])
  }

  function SubscribeTo(s: Broker, fd: Fd, n: Name): Broker {
    if n in s.topics then
      var last := if Hist(s, n) == [] then 0 else |Hist(s, n)| - 1;
      Enrol(s, fd, n).(sent := s.sent + 1, log := s.log + [Send(fd, Notify(n, s.topics[n]), last)])
    else Enrol(s, fd, n)
  }

  function Unsubscribe(s: Broker, fd: Fd): Broker {
    s.(subscribers := map n | n in s.subscribers.Keys + Tops(s, fd) ::
         if n in Tops(s, fd) then Subs(s, n) - {fd} else Subs(s, n),
       subtopics := s.subtopics - {fd})
  }

  function DeleteTopic(s: Broker, n: Name): Broker {
    s.(subtopics := map fd | fd in s.subtopics.Keys + Subs(s, n) ::
         if fd in Subs(s, n) then Tops(s, fd) - {n} else Tops(s, fd),
       subscribers := s.subscribers - {n})
  }

  ghost function Dispatch(s: Broker, fd: Fd, req: Request): Broker {
    match req
    case Publish(n, d) => PublishTopic(s, n, d)
    case Subscribe(n) => SubscribeTo(s, fd, n)
    case KillServer => s.(kill := true)
    case ClearServer => s.(topics := map[])
    case Other(_) => s
  }

  ghost function Process(s: Broker, fd: Fd, req: Request, now: Word): Broker {
    Dispatch(RebuildStats(s.(recvd := s.recvd + 1), now), fd, req)
  }

  const VERSION_VALUE: Data := [Str(VERSION), Str(VERSION_NAME)]

  /** A broker with nothing but the version topic, for which nothing is broadcast. */
  function Blank(conv: nat -> Word): Broker {
    Broker(conv, map[VERSION_TOPIC := VERSION_VALUE], map[], map[], {}, 0, 0, false, false, [],
           map[VERSION_TOPIC := [VERSION_VALUE]])
  }

  /** A broker just constructed: three topics, the broker's own two with subscriber lists
      that nobody is on, nothing sent or received. */
  function Init(conv: nat -> Word, now: Word): Broker {
    var stats := [Float(conv(0)), Float(conv(0)), Float(conv(0)), Float(now)];
    var list := [Str(STATS), Str(TOPICS), Str(VERSION_TOPIC)];
    Broker(conv,
           map[VERSION_TOPIC := VERSION_VALUE, STATS := stats, TOPICS := list],
           map[STATS := {}, TOPICS := {}],
           map[], {}, 0, 0, false, false, [],
           map[VERSION_TOPIC := [VERSION_VALUE], STATS := [stats], TOPICS := [list]])
  }

  lemma FirstByteLess(a: Name, b: Name)
    requires a != [] && b != [] && a[0] < b[0]
    ensures NameLess(a, b)
  {}

  lemma ListOfThree(a: Name, b: Name, c: Name)
    requires a != [] && b != [] && c != [] && a[0] < b[0] < c[0]
    ensures TopicList({a, b, c}) == [Str(a), Str(b), Str(c)]
  {
    hide NameLess, StrictOrder, Listing;
    var xs := [a, b, c];
    NameOrder();
    FirstByteLess(a, b);
    FirstByteLess(b, c);
    FirstByteLess(a, c);
    ListingUnique({a, b, c}, NameLess, xs);
    assert xs[1..] == [b, c] && [b, c][1..] == [c] && [c][1..] == [];
  }

  lemma BroadcastNobody(reply: Reply, ver: nat)
    ensures Broadcast({}, reply, ver) == []
  {
    FdOrder();
  }

  /** What a broker retains at first. */
  lemma InitialStore(conv: nat -> Word, now: Word)
    ensures Init(conv, now).topics ==
            map["version" := [Str("1.1.2"), Str("YELLOW ACKNOWLEDGEMENT")],
                "stats" := [Float(conv(0)), Float(conv(0)), Float(conv(0)), Float(now)],
                "topics" := [Str("stats"), Str("topics"), Str("version")]]
  {}

  /** What the constructor does, to rebuild the statistics and then the list of topics,
      gives that state. */
  lemma InitRebuilt(conv: nat -> Word, now: Word)
    ensures RebuildTopics(RebuildStats(Blank(conv), now)) == Init(conv, now)
  {
    hide TopicList, Broadcast;
    var s := Blank(conv);
    var v := StatsValue(s, now);
    assert v == [Float(conv(0)), Float(conv(0)), Float(conv(0)), Float(now)];
    BroadcastNobody(Notify(STATS, v), 0);
    var t := RebuildStats(s, now);
    assert t.topics.Keys + {TOPICS} == {STATS, TOPICS, VERSION_TOPIC};
    var list := TopicList(t.topics.Keys + {TOPICS});
    ListOfThree(STATS, TOPICS, VERSION_TOPIC);
    BroadcastNobody(Notify(TOPICS, list), 0);
    var u, i := RebuildTopics(t), Init(conv, now);
    assert u.log == [];
    assert u.sent == 0;
    assert u.topics == i.topics;
    assert u.subscribers == i.subscribers;
    assert STATS[0] < TOPICS[0] < VERSION_TOPIC[0];
    assert Hist(s, STATS) + [v] == [v] && Hist(t, TOPICS) + [list] == [list];
    assert u.hist == i.hist;
  }

  ghost function Shutdown(s: Broker): Broker {
    s.(sent := s.sent + |s.clients|, log := s.log + Broadcast(s.clients, KillClient, 0), down := true)
  }

  // ---- runs ----

  datatype Event =
    | Accept(fd: Fd)
    | Receive(fd: Fd, req: Request, now: Word)
    | Close(fd: Fd)
    | Stop

  /** A topic is published under a name that a packet can hold in full. */
  predicate Supported(req: Request) {
    req.Publish? ==> |req.name| <= 128
  }

  /** A descriptor is accepted only while it is not open; packets and closes come from
      open ones; a shutdown follows a kill, or a signal at any time. */
  predicate Enabled(s: Broker, e: Event) {
    && !s.down
    && match e
       case Accept(fd) => fd !in s.clients
       case Receive(fd, req, _) => fd in s.clients && Supported(req)
       case Close(fd) => fd in s.clients
       case Stop => true
  }

  ghost function Apply(s: Broker, e: Event): Broker {
    match e
    case Accept(fd) => s.(clients := s.clients + {fd})
    case Receive(fd, req, now) => Process(s, fd, req, now)
    case Close(fd) => Unsubscribe(s.(clients := s.clients - {fd}), fd)
    case Stop => Shutdown(s)
  }

  ghost predicate Legal(s: Broker, es: seq<Event>)
    decreases |es|
  {
    es == [] || (Enabled(s, es[0]) && Legal(Apply(s, es[0]), es[1..]))
  }

  ghost function Run(s: Broker, es: seq<Event>): Broker
    decreases |es|
  {
    if es == [] then s else Run(Apply(s, es[0]), es[1..])
  }
}
