// Theorems about whole runs of the broker, from its construction.
module BrokerRuns {
  import opened Types
  import opened Ordering
  import opened BrokerSpec
  import opened BrokerLaws

  // ---- relations and counters ----

  /** After any run, who subscribes to what is recorded the same way round both ways,
      only for open connections; a descriptor that is not open, whoever used it before,
      has no subscriptions. */
  lemma RelationsOverRuns(conv: nat -> Word, t0: Word, es: seq<Event>)
    requires Legal(Init(conv, t0), es)
    ensures var s := Run(Init(conv, t0), es);
            && (forall fd: Fd, n: Name :: fd in Subs(s, n) <==> n in Tops(s, fd))
            && (forall fd: Fd, n: Name :: fd !in s.clients ==> fd !in Subs(s, n) && Tops(s, fd) == {})
  {
    hide Init, Run, Legal;
    InitInv(conv, t0);
    RunInv(Init(conv, t0), es);
    var s := Run(Init(conv, t0), es);
    assert Inverse(s);
    forall fd: Fd | fd !in s.clients ensures Tops(s, fd) == {} {
      forall n: Name ensures n !in Tops(s, fd) {
        assert fd !in Subs(s, n);
      }
    }
  }

  function Received(es: seq<Event>): nat {
    if es == [] then 0 else (if es[0].Receive? then 1 else 0) + Received(es[1..])
  }

  lemma PublishFrame(s: Broker, n: Name, d: Data)
    ensures var t := PublishTopic(s, n, d);
            && t.recvd == s.recvd && t.clients == s.clients && t.down == s.down && t.kill == s.kill
            && t.conv == s.conv && s.log <= t.log
            && t.topics.Keys == s.topics.Keys + (if n in s.topics then {} else {n, TOPICS})
            && t.subscribers.Keys == s.subscribers.Keys + (if n in s.topics then {n} else {n, TOPICS})
  {
    hide Announce, TopicList;
    AnnounceKeys(s, n, d);
    var t := Announce(s, n, d);
    if n !in s.topics {
      AnnounceKeys(t, TOPICS, TopicList(t.topics.Keys + {TOPICS}));
    }
  }

  lemma DispatchFrame(s: Broker, fd: Fd, req: Request)
    ensures var t := Dispatch(s, fd, req);
            && t.recvd == s.recvd && t.clients == s.clients && t.down == s.down
            && t.conv == s.conv && s.log <= t.log
            && t.subscribers.Keys == s.subscribers.Keys
                 + (match req
                    case Publish(n, _) => if n in s.topics then {n} else {n, TOPICS}
                    case Subscribe(n) => {n}
                    case _ => {})
  {
    hide PublishTopic;
    if req.Publish? {
      PublishFrame(s, req.name, req.data);
    }
  }

  lemma ApplyFrame(s: Broker, e: Event)
    ensures var t := Apply(s, e);
            && t.recvd == s.recvd + (if e.Receive? then 1 else 0)
            && t.conv == s.conv && s.log <= t.log
  {
    hide Dispatch, RebuildStats, Broadcast;
    if e.Receive? {
      var s0 := s.(recvd := s.recvd + 1);
      StatsFrame(s0, e.now);
      DispatchFrame(RebuildStats(s0, e.now), e.fd, e.req);
    }
  }

  /** `msgssent` counts every send there has ever been, `msgsrecvd` every packet
      processed. */
  lemma CountersOverRuns(conv: nat -> Word, t0: Word, es: seq<Event>)
    requires Legal(Init(conv, t0), es)
    ensures var s := Run(Init(conv, t0), es);
            s.sent == |s.log| && s.recvd == Received(es)
  {
    hide Init, Run, Legal;
    InitInv(conv, t0);
    RunInv(Init(conv, t0), es);
    RunReceived(Init(conv, t0), es);
    InitReceived(conv, t0);
  }

  lemma InitReceived(conv: nat -> Word, t0: Word)
    ensures Init(conv, t0).recvd == 0
    ensures Init(conv, t0).subscribers.Keys == {STATS, TOPICS}
    ensures Init(conv, t0).conv == conv
  {}

  lemma {:induction false} RunReceived(s: Broker, es: seq<Event>)
    ensures Run(s, es).recvd == s.recvd + Received(es)
    ensures Run(s, es).conv == s.conv
    decreases |es|
  {
    hide Apply;
    if es != [] {
      ApplyFrame(s, es[0]);
      RunReceived(Apply(s, es[0]), es[1..]);
    }
  }

  /** Each packet makes the broker store, and send to the subscribers of "stats" before
      anything else, a value whose counters are those just before that broadcast: the
      topics with a subscriber list, the sends made so far, the packets received
      including this one. */
  lemma StatsAreFresh(s: Broker, fd: Fd, req: Request, now: Word)
    requires Inv(s)
    ensures var t := Process(s, fd, req, now);
            var v := [Float(s.conv(|s.subscribers|)), Float(s.conv(|s.log|)), Float(s.conv(s.recvd + 1)), Float(now)];
            var h := Hist(s, STATS);
            && h + [v] <= Hist(t, STATS)
            && s.log + Broadcast(Subs(s, STATS), Notify(STATS, v), |h|) <= t.log
  {
    hide Broadcast, Dispatch, Inverse, Retained, Genuine;
    var s0 := s.(recvd := s.recvd + 1);
    var s1 := RebuildStats(s0, now);
    assert Hist(s0, STATS) == Hist(s, STATS) && Subs(s0, STATS) == Subs(s, STATS);
    DispatchFrame(s1, fd, req);
    DispatchHistory(s1, fd, req, STATS);
  }

  lemma AnnounceHistory(s: Broker, n: Name, d: Data, m: Name)
    ensures Hist(Announce(s, n, d), m) == Hist(s, m) + (if m == n then [d] else [])
    ensures Subs(Announce(s, n, d), m) == Subs(s, m)
  {
    hide Broadcast;
  }

  lemma DispatchHistory(s: Broker, fd: Fd, req: Request, m: Name)
    ensures Hist(s, m) <= Hist(Dispatch(s, fd, req), m)
  {
    hide Announce;
    if req.Publish? {
      AnnounceHistory(s, req.name, req.data, m);
      var t := Announce(s, req.name, req.data);
      AnnounceHistory(t, TOPICS, TopicList(t.topics.Keys + {TOPICS}), m);
    }
  }

  /** Histories only ever grow. */
  lemma ApplyHistory(s: Broker, e: Event, m: Name)
    ensures Hist(s, m) <= Hist(Apply(s, e), m)
  {
    hide Announce, Dispatch, Broadcast, StatsValue;
    if e.Receive? {
      var s0 := s.(recvd := s.recvd + 1);
      AnnounceHistory(s0, STATS, StatsValue(s0, e.now), m);
      DispatchHistory(RebuildStats(s0, e.now), e.fd, e.req, m);
    }
  }

  /** The data that clients publish under `n`, in order. */
  function Published(es: seq<Event>, n: Name): seq<Data> {
    if es == [] then [] else PublishedBy(es[0], n) + Published(es[1..], n)
  }

  function PublishedBy(e: Event, n: Name): seq<Data> {
    if e.Receive? && e.req.Publish? && e.req.name == n then [e.req.data] else []
  }

  lemma DispatchPublished(s: Broker, fd: Fd, req: Request, n: Name)
    requires n != TOPICS
    ensures Hist(Dispatch(s, fd, req), n) ==
            Hist(s, n) + if req.Publish? && req.name == n then [req.data] else []
  {
    hide Announce, TopicList;
    if req.Publish? {
      AnnounceHistory(s, req.name, req.data, n);
      var t := Announce(s, req.name, req.data);
      AnnounceHistory(t, TOPICS, TopicList(t.topics.Keys + {TOPICS}), n);
    }
  }

  lemma ApplyPublished(s: Broker, e: Event, n: Name)
    requires n != STATS && n != TOPICS
    ensures Hist(Apply(s, e), n) == Hist(s, n) + PublishedBy(e, n)
  {
    hide Announce, Broadcast, StatsValue, Dispatch;
    if e.Receive? {
      var s0 := s.(recvd := s.recvd + 1);
      AnnounceHistory(s0, STATS, StatsValue(s0, e.now), n);
      DispatchPublished(RebuildStats(s0, e.now), e.fd, e.req, n);
    }
  }

  /** The history of any topic but the broker's own two is exactly what clients have
      published under its name, in order. */
  lemma {:induction false} HistoryIsPublished(s: Broker, es: seq<Event>, n: Name)
    requires n != STATS && n != TOPICS
    ensures Hist(Run(s, es), n) == Hist(s, n) + Published(es, n)
    decreases |es|
  {
    hide Apply, Hist, PublishedBy;
    if es == [] {
      assert Hist(s, n) + [] == Hist(s, n);
    } else {
      ApplyPublished(s, es[0], n);
      HistoryIsPublished(Apply(s, es[0]), es[1..], n);
      ConcatAssoc(Hist(s, n), PublishedBy(es[0], n), Published(es[1..], n));
    }
  }

  /** The value is announced to a descriptor once, however often it subscribed. */
  ghost function Copy(fds: set<Fd>, f: Fd, n: Name, d: Data, ver: nat): seq<Send> {
    if f in fds then [Send(f, Notify(n, d), ver)] else []
  }

  lemma AnnounceCopies(s: Broker, n: Name, d: Data, f: Fd)
    ensures var t := Announce(s, n, d);
            && s.log <= t.log
            && To(t.log[|s.log|..], f) == Copy(Subs(s, n), f, n, d, |Hist(s, n)|)
  {
    BroadcastTo(Subs(s, n), Notify(n, d), |Hist(s, n)|, f);
    hide Broadcast;
    var t := Announce(s, n, d);
    assert t.log[|s.log|..] == Broadcast(Subs(s, n), Notify(n, d), |Hist(s, n)|);
  }

  lemma LaterSends(a: seq<Send>, b: seq<Send>, c: seq<Send>, f: Fd)
    requires a <= b <= c
    ensures To(c[|a|..], f) == To(b[|a|..], f) + To(c[|b|..], f)
  {
    assert c[|a|..] == b[|a|..] + c[|b|..];
    ToConcat(b[|a|..], c[|b|..], f);
  }

  /** The topic list sent when publishing `n` makes a new topic, if `f` subscribes to it. */
  ghost function ListCopy(s: Broker, n: Name, f: Fd): seq<Send> {
    if n in s.topics then []
    else Copy(Subs(s, TOPICS), f, TOPICS, TopicList(s.topics.Keys + {n} + {TOPICS}),
              |Hist(s, TOPICS)| + if n == TOPICS then 1 else 0)
  }

  lemma PublishTopicSends(s: Broker, n: Name, d: Data, f: Fd)
    ensures var t := PublishTopic(s, n, d);
            && s.log <= t.log
            && To(t.log[|s.log|..], f) == Copy(Subs(s, n), f, n, d, |Hist(s, n)|) + ListCopy(s, n, f)
  {
    hide To, TopicList, Copy, Announce;
    var s1 := Announce(s, n, d);
    var l := TopicList(s1.topics.Keys + {TOPICS});
    AnnounceCopies(s, n, d, f);
    AnnounceHistory(s, n, d, TOPICS);
    AnnounceKeys(s, n, d);
    if n !in s.topics {
      AnnounceCopies(s1, TOPICS, l, f);
      LaterSends(s.log, s1.log, Announce(s1, TOPICS, l).log, f);
    }
  }

  /** What a publication sends to each descriptor: the refreshed statistics if it
      subscribes to those, the published value exactly once if it subscribes to that
      topic, and, when the topic is new, the topic list if it subscribes to that. */
  lemma PublishSends(s: Broker, fd: Fd, n: Name, d: Data, now: Word, f: Fd)
    ensures var t := Process(s, fd, Publish(n, d), now);
            var s0 := s.(recvd := s.recvd + 1);
            var s1 := RebuildStats(s0, now);
            && s.log <= t.log
            && To(t.log[|s.log|..], f) ==
                 Copy(Subs(s, STATS), f, STATS, StatsValue(s0, now), |Hist(s, STATS)|)
                 + (Copy(Subs(s, n), f, n, d, |Hist(s1, n)|) + ListCopy(s1, n, f))
  {
    hide To, ListCopy, Copy, PublishTopic, StatsValue;
    var s0 := s.(recvd := s.recvd + 1);
    assert Subs(s0, STATS) == Subs(s, STATS) && Subs(s0, n) == Subs(s, n) && Hist(s0, STATS) == Hist(s, STATS);
    hide Subs, Hist;
    var v := StatsValue(s0, now);
    var s1 := Announce(s0, STATS, v);
    AnnounceCopies(s0, STATS, v, f);
    AnnounceHistory(s0, STATS, v, n);
    hide Announce;
    PublishTopicSends(s1, n, d, f);
    LaterSends(s0.log, s1.log, PublishTopic(s1, n, d).log, f);
  }

  // ---- the domain of the subscriber map ----

  /** The event publishes or subscribes to `n`. */
  predicate Mentions(e: Event, n: Name) {
    e.Receive? && (e.req.Publish? || e.req.Subscribe?) && e.req.name == n
  }

  lemma ApplyDomain(s: Broker, e: Event, n: Name)
    requires Inv(s) && Enabled(s, e)
    ensures n in Apply(s, e).subscribers <==> n in s.subscribers || Mentions(e, n)
  {
    hide Dispatch, RebuildStats, Broadcast, Unsubscribe, Inv;
    match e
    case Receive(fd, req, now) =>
      ReceiveDomain(s, fd, req, now, n);
    case Close(fd) =>
      CloseDomain(s, fd);
      assert n in s.subscribers <==> n in s.subscribers.Keys;
    case _ =>
  }

  lemma CloseDomain(s: Broker, fd: Fd)
    requires Inv(s)
    ensures Unsubscribe(s.(clients := s.clients - {fd}), fd).subscribers.Keys == s.subscribers.Keys
  {
    hide Retained, Genuine;
    forall n | n in Tops(s, fd) ensures n in s.subscribers.Keys {
      assert fd in Subs(s, n);
    }
    assert Tops(s.(clients := s.clients - {fd}), fd) == Tops(s, fd);
  }

  lemma ReceiveDomain(s: Broker, fd: Fd, req: Request, now: Word, n: Name)
    requires Inv(s)
    ensures n in Process(s, fd, req, now).subscribers <==> n in s.subscribers || Mentions(Receive(fd, req, now), n)
  {
    hide Dispatch, RebuildStats, Inverse, Retained, Genuine;
    var s0 := s.(recvd := s.recvd + 1);
    StatsFrame(s0, now);
    DispatchFrame(RebuildStats(s0, now), fd, req);
  }

  lemma {:induction false} RunDomain(s: Broker, es: seq<Event>, n: Name)
    requires Inv(s) && Legal(s, es)
    ensures n in Run(s, es).subscribers <==> n in s.subscribers || exists e :: e in es && Mentions(e, n)
    decreases |es|
  {
    hide Inv, Apply, Enabled, Mentions;
    if es != [] {
      ApplyInv(s, es[0]);
      ApplyDomain(s, es[0], n);
      RunDomain(Apply(s, es[0]), es[1..], n);
      assert forall e :: e in es <==> e == es[0] || e in es[1..];
    }
  }

  /** The names with a subscriber list are the broker's own two and every name a client
      has published or subscribed to. */
  lemma DomainOverRuns(conv: nat -> Word, t0: Word, es: seq<Event>, n: Name)
    requires Legal(Init(conv, t0), es)
    ensures n in Run(Init(conv, t0), es).subscribers <==>
            n == STATS || n == TOPICS || exists e :: e in es && Mentions(e, n)
  {
    hide Run, Legal, Inv, Mentions;
    InitInv(conv, t0);
    RunDomain(Init(conv, t0), es, n);
  }

  /** So the count that the statistics report as their first field never decreases. */
  lemma DomainGrows(conv: nat -> Word, t0: Word, es: seq<Event>, more: seq<Event>)
    requires Legal(Init(conv, t0), es) && Legal(Run(Init(conv, t0), es), more)
    ensures var s := Run(Init(conv, t0), es);
            |s.subscribers| <= |Run(s, more).subscribers|
  {
    hide Init, Run, Legal, Inv, Mentions;
    InitInv(conv, t0);
    RunInv(Init(conv, t0), es);
    var s := Run(Init(conv, t0), es);
    var t := Run(s, more);
    forall n | n in s.subscribers.Keys ensures n in t.subscribers.Keys {
      RunDomain(s, more, n);
    }
    SubsetSize(s.subscribers.Keys, t.subscribers.Keys);
    assert |s.subscribers| == |s.subscribers.Keys| && |t.subscribers| == |t.subscribers.Keys|;
  }

  /** The first field of the value of "stats" that the event stores. */
  ghost function CountStored(s: Broker, e: Event): Option<Datum> {
    var h, k := Hist(s, STATS), Hist(Apply(s, e), STATS);
    if |h| < |k| && k[|h|] != [] then Some(k[|h|][0]) else None
  }

  /** So, for any two packets of a run, the first fields of the statistics they make the
      broker store are the conversions of two numbers that do not decrease. */
  lemma StatsNeverDecrease(conv: nat -> Word, t0: Word, es: seq<Event>, i: nat, j: nat)
    requires Legal(Init(conv, t0), es) && i < j < |es| && es[i].Receive? && es[j].Receive?
    ensures exists a: nat, b: nat ::
              && a <= b
              && CountStored(Run(Init(conv, t0), es[..i]), es[i]) == Some(Float(conv(a)))
              && CountStored(Run(Init(conv, t0), es[..j]), es[j]) == Some(Float(conv(b)))
  {
    hide Init, Run, Legal, Inv, CountStored, Apply;
    var s0 := Init(conv, t0);
    InitInv(conv, t0);
    InitReceived(conv, t0);
    RunSplit(s0, es, i);
    RunSplit(s0, es, j);
    RunSplit(s0, es[..j], i);
    assert es[..j][..i] == es[..i];
    var s, t := Run(s0, es[..i]), Run(s0, es[..j]);
    CountIsKeys(s0, es[..i], es[i]);
    CountIsKeys(s0, es[..j], es[j]);
    DomainGrows(conv, t0, es[..i], es[..j][i..]);
    assert |s.subscribers| <= |t.subscribers|;
  }

  lemma {:induction false} RunSplit(s: Broker, es: seq<Event>, i: nat)
    requires Legal(s, es) && i <= |es|
    ensures Legal(s, es[..i]) && Legal(Run(s, es[..i]), es[i..])
    ensures Run(s, es) == Run(Run(s, es[..i]), es[i..])
    decreases |es|
  {
    hide Apply, Enabled;
    if i == 0 {
      assert es[..0] == [] && es[0..] == es;
    } else {
      RunSplit(Apply(s, es[0]), es[1..], i - 1);
      assert es[..i][1..] == es[1..][..i - 1] && es[i..] == es[1..][i - 1..];
    }
  }

  lemma {:induction false} RunSnoc(s: Broker, es: seq<Event>, e: Event)
    requires Legal(s, es) && Enabled(Run(s, es), e)
    ensures Legal(s, es + [e]) && Run(s, es + [e]) == Apply(Run(s, es), e)
    decreases |es|
  {
    hide Apply, Enabled;
    if es == [] {
      assert [] + [e] == [e] && [e][1..] == [];
      assert Legal(Apply(s, e), []);
    } else {
      RunSnoc(Apply(s, es[0]), es[1..], e);
      assert (es + [e])[1..] == es[1..] + [e];
    }
  }

  lemma CountIsKeys(s0: Broker, es: seq<Event>, e: Event)
    requires Inv(s0) && Legal(s0, es) && e.Receive?
    ensures var s := Run(s0, es); CountStored(s, e) == Some(Float(s0.conv(|s.subscribers|)))
  {
    hide Run, Legal, Inv, Process, Broadcast;
    RunInv(s0, es);
    RunReceived(s0, es);
    var s := Run(s0, es);
    StatsAreFresh(s, e.fd, e.req, e.now);
  }

  lemma SubsetSize<T>(a: set<T>, b: set<T>)
    requires a <= b
    ensures |a| <= |b|
  {
    assert b == a + (b - a);
    assert a !! (b - a);
  }

  // ---- the topic list ----

  /** `d` lists exactly these names, as strings, in strictly ascending order. */
  ghost predicate Lists(d: Data, names: set<Name>) {
    && (forall x :: x in d <==> x.Str? && x.s in names)
    && (forall i, j :: 0 <= i < j < |d| ==> d[i].Str? && d[j].Str? && NameLess(d[i].s, d[j].s))
  }

  ghost predicate Agrees(s: Broker) {
    TOPICS in s.topics ==> Lists(s.topics[TOPICS], s.topics.Keys)
  }

  lemma TopicListLists(names: set<Name>)
    ensures Lists(TopicList(names), names)
  {
    NameOrder();
    hide NameLess, StrictOrder, Listing;
    var xs := Listing(names, NameLess);
    var d := TopicList(names);
    ListingSpec(names, NameLess);
    assert |d| == |xs| && forall i :: 0 <= i < |d| ==> d[i] == Str(xs[i]);
    forall x ensures x in d <==> x.Str? && x.s in names {
      if x in d {
        var i :| 0 <= i < |d| && d[i] == x;
        assert xs[i] in xs;
      }
      if x.Str? && x.s in names {
        assert x.s in xs;
        var i :| 0 <= i < |xs| && xs[i] == x.s;
        assert d[i] == x;
      }
    }
  }

  /** When a step of the broker leaves the topic list agreeing with the store. It does
      after a clear, and whenever the list was rebuilt because a topic was new; any other
      step keeps agreement as it was, but for a client publishing under the name
      "topics" while that topic exists: then the list agrees just if the client's own
      data does. */
  lemma AgreementStep(s: Broker, e: Event)
    requires Inv(s) && Enabled(s, e)
    ensures Agrees(Apply(s, e)) <==>
            match e
            case Receive(_, Publish(n, d), _) =>
              if n == TOPICS && TOPICS in s.topics then Lists(d, s.topics.Keys)
              else (n in s.topics || n == STATS) ==> Agrees(s)
            case Receive(_, ClearServer, _) => true
            case _ => Agrees(s)
  {
    hide Lists, Dispatch, RebuildStats, Inverse, Retained, Genuine, Broadcast;
    if e.Receive? {
      var s0 := s.(recvd := s.recvd + 1);
      StatsFrame(s0, e.now);
      var s1 := RebuildStats(s0, e.now);
      assert TOPICS in s.topics ==> s1.topics.Keys == s.topics.Keys;
      assert Agrees(s1) == Agrees(s);
      AgreementDispatch(s1, e.fd, e.req);
    }
  }

  lemma AgreementDispatch(s: Broker, fd: Fd, req: Request)
    ensures Agrees(Dispatch(s, fd, req)) <==>
            match req
            case Publish(n, d) =>
              if n !in s.topics then true
              else if n == TOPICS then Lists(d, s.topics.Keys) else Agrees(s)
            case ClearServer => true
            case _ => Agrees(s)
  {
    hide Lists, Announce, TopicList;
    match req
    case Publish(n, d) =>
      AnnounceKeys(s, n, d);
      var t := Announce(s, n, d);
      var names := t.topics.Keys + {TOPICS};
      AnnounceKeys(t, TOPICS, TopicList(names));
      TopicListLists(names);
      if n in s.topics {
        assert t.topics.Keys == s.topics.Keys;
      } else {
        assert Dispatch(s, fd, req).topics.Keys == names;
      }
    case _ =>
  }

  predicate Overwrites(e: Event) {
    e.Receive? && e.req.Publish? && e.req.name == TOPICS
  }

  lemma {:induction false} RunAgrees(s: Broker, es: seq<Event>)
    requires Inv(s) && Legal(s, es) && Agrees(s)
    requires forall e :: e in es ==> !Overwrites(e)
    ensures Agrees(Run(s, es))
    decreases |es|
  {
    hide Inv, Apply, Enabled, Agrees;
    if es != [] {
      ApplyInv(s, es[0]);
      assert es[0] in es;
      AgreementStep(s, es[0]);
      RunAgrees(Apply(s, es[0]), es[1..]);
    }
  }

  lemma InitAgrees(conv: nat -> Word, t0: Word)
    ensures Agrees(Init(conv, t0)) && TOPICS in Init(conv, t0).topics
  {
    hide Lists, TopicList;
    var names := {STATS, TOPICS, VERSION_TOPIC};
    assert Init(conv, t0).topics.Keys == names;
    ListOfThree(STATS, TOPICS, VERSION_TOPIC);
    TopicListLists(names);
  }

  /** In every run in which no client publishes under the name "topics", whenever that
      topic exists its data is the strictly ascending list of all the topics there are. */
  lemma TopicListOverRuns(conv: nat -> Word, t0: Word, es: seq<Event>)
    requires Legal(Init(conv, t0), es)
    requires forall e :: e in es ==> !Overwrites(e)
    ensures var s := Run(Init(conv, t0), es);
            TOPICS in s.topics ==> Lists(s.topics[TOPICS], s.topics.Keys)
  {
    hide Init, Run, Legal, Lists, Inv;
    InitInv(conv, t0);
    InitAgrees(conv, t0);
    RunAgrees(Init(conv, t0), es);
  }

  /** A client that publishes nothing under "topics" leaves a list that does not agree. */
  lemma TopicListCanBeOverwritten(conv: nat -> Word, t0: Word)
    ensures var es := [Accept(5), Receive(5, Publish(TOPICS, []), t0)];
            Legal(Init(conv, t0), es) && !Agrees(Run(Init(conv, t0), es))
  {
    hide Init, Inv, Agrees, Process;
    var s := Init(conv, t0);
    InitInv(conv, t0);
    InitAgrees(conv, t0);
    var e, f := Accept(5), Receive(5, Publish(TOPICS, []), t0);
    var t := Apply(s, e);
    ApplyInv(s, e);
    AgreementStep(t, f);
    var nothing: Data := [];
    assert !Lists(nothing, t.topics.Keys) by {
      assert Str(TOPICS) !in nothing && TOPICS in t.topics.Keys;
    }
    assert [e, f][1..] == [f] && [f][1..] == [];
    assert Enabled(s, e) && Enabled(t, f) && Legal(Apply(t, f), []);
    assert Legal(t, [f]);
    assert Run(s, [e, f]) == Run(t, [f]) == Run(Apply(t, f), []) == Apply(t, f);
  }
}
