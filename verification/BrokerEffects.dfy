// What each request does to the broker, told from the events of a run alone.
module BrokerEffects {
  import opened Types
  import opened BrokerSpec
  import opened BrokerLaws
  import opened BrokerRuns

  // ---- what was done and not undone ----

  /** Some event did it, and none after that undid it. */
  ghost predicate Standing(es: seq<Event>, does: Event -> bool, undoes: Event -> bool) {
    exists i :: 0 <= i < |es| && does(es[i]) && forall j :: i < j < |es| ==> !undoes(es[j])
  }

  ghost predicate Never(es: seq<Event>, undoes: Event -> bool) {
    forall j :: 0 <= j < |es| ==> !undoes(es[j])
  }

  /** The first event can be taken into what held before. */
  lemma StandingCons(es: seq<Event>, does: Event -> bool, undoes: Event -> bool, before: bool)
    requires es != []
    ensures Standing(es, does, undoes) || (before && Never(es, undoes)) <==>
            || Standing(es[1..], does, undoes)
            || ((does(es[0]) || (before && !undoes(es[0]))) && Never(es[1..], undoes))
  {
    var rest := es[1..];
    if Standing(rest, does, undoes) {
      var i :| 0 <= i < |rest| && does(rest[i]) && forall j :: i < j < |rest| ==> !undoes(rest[j]);
      assert does(es[i + 1]);
      forall j | i + 1 < j < |es| ensures !undoes(es[j]) {
        assert es[j] == rest[j - 1];
      }
    }
    if Standing(es, does, undoes) {
      var i :| 0 <= i < |es| && does(es[i]) && forall j :: i < j < |es| ==> !undoes(es[j]);
      forall j | i - 1 < j < |rest| ensures !undoes(rest[j]) {
        assert rest[j] == es[j + 1];
      }
      if i > 0 {
        assert does(rest[i - 1]);
      }
    }
    if Never(rest, undoes) {
      forall j | 0 < j < |es| ensures !undoes(es[j]) {
        assert es[j] == rest[j - 1];
      }
    }
    if Never(es, undoes) {
      forall j | 0 <= j < |rest| ensures !undoes(rest[j]) {
        assert rest[j] == es[j + 1];
      }
    }
  }

  lemma StandingNothing(does: Event -> bool, undoes: Event -> bool)
    ensures !Standing([], does, undoes) && Never([], undoes)
  {}

  function Publishing(n: Name): Event -> bool {
    (e: Event) => e.Receive? && e.req.Publish? && e.req.name == n
  }

  function Clearing(): Event -> bool {
    (e: Event) => e.Receive? && e.req.ClearServer?
  }

  function Subscribing(fd: Fd, n: Name): Event -> bool {
    (e: Event) => e.Receive? && e.fd == fd && e.req == Subscribe(n)
  }

  function Accepting(fd: Fd): Event -> bool {
    (e: Event) => e == Accept(fd)
  }

  function Closing(fd: Fd): Event -> bool {
    (e: Event) => e == Close(fd)
  }

  function Killing(): Event -> bool {
    (e: Event) => e.Receive? && e.req.KillServer?
  }

  // ---- killing ----

  lemma DispatchKill(s: Broker, fd: Fd, req: Request)
    ensures Dispatch(s, fd, req).kill <==> s.kill || req.KillServer?
  {
    hide PublishTopic;
    if req.Publish? {
      PublishFrame(s, req.name, req.data);
    }
  }

  lemma ApplyKill(s: Broker, e: Event)
    ensures Apply(s, e).kill <==> s.kill || Killing()(e)
  {
    hide Dispatch, RebuildStats, Broadcast;
    if e.Receive? {
      var s0 := s.(recvd := s.recvd + 1);
      StatsFrame(s0, e.now);
      DispatchKill(RebuildStats(s0, e.now), e.fd, e.req);
    }
  }

  /** The kill flag is set exactly by a request to kill. */
  lemma {:induction false} KilledIff(s: Broker, es: seq<Event>)
    ensures Run(s, es).kill <==> s.kill || exists e :: e in es && e.Receive? && e.req.KillServer?
    decreases |es|
  {
    hide Apply;
    if es != [] {
      ApplyKill(s, es[0]);
      KilledIff(Apply(s, es[0]), es[1..]);
      assert forall e :: e in es <==> e == es[0] || e in es[1..];
    }
  }

  // ---- clearing ----

  /** A request to clear leaves nothing retained. */
  lemma ClearEmpties(s: Broker, fd: Fd, now: Word)
    ensures Apply(s, Receive(fd, ClearServer, now)).topics == map[]
  {
    hide RebuildStats;
  }

  lemma ApplyRetained(s: Broker, e: Event, n: Name)
    requires n != STATS && n != TOPICS
    ensures n in Apply(s, e).topics <==> Publishing(n)(e) || (n in s.topics && !Clearing()(e))
  {
    hide Dispatch, RebuildStats, Broadcast;
    if e.Receive? {
      var s0 := s.(recvd := s.recvd + 1);
      var s1 := RebuildStats(s0, e.now);
      StatsFrame(s0, e.now);
      assert n in s1.topics.Keys <==> n in s.topics.Keys;
      DispatchRetained(s1, e.fd, e.req, n);
    }
  }

  lemma DispatchRetained(s: Broker, fd: Fd, req: Request, n: Name)
    requires n != STATS && n != TOPICS
    ensures n in Dispatch(s, fd, req).topics <==>
            (req.Publish? && req.name == n) || (n in s.topics && !req.ClearServer?)
  {
    hide PublishTopic;
    if req.Publish? {
      PublishFrame(s, req.name, req.data);
      assert n in PublishTopic(s, req.name, req.data).topics.Keys <==> n in s.topics.Keys || n == req.name;
    }
  }

  lemma {:induction false} RunRetained(s: Broker, es: seq<Event>, n: Name)
    requires n != STATS && n != TOPICS
    ensures n in Run(s, es).topics <==>
            Standing(es, Publishing(n), Clearing()) || (n in s.topics && Never(es, Clearing()))
    decreases |es|
  {
    hide Apply, Standing, Never, Publishing, Clearing;
    if es == [] {
      StandingNothing(Publishing(n), Clearing());
    } else {
      ApplyRetained(s, es[0], n);
      RunRetained(Apply(s, es[0]), es[1..], n);
      StandingCons(es, Publishing(n), Clearing(), n in s.topics);
    }
  }

  /** After any run, a topic other than the broker's two is retained if and only if it was
      published after the last clear, or is the version and there was no clear; and if it
      is not the version, its value is the last one published. */
  lemma RetainedIff(conv: nat -> Word, t0: Word, es: seq<Event>, n: Name)
    requires Legal(Init(conv, t0), es) && n != STATS && n != TOPICS
    ensures var s := Run(Init(conv, t0), es);
            && (n in s.topics <==>
                  Standing(es, Publishing(n), Clearing()) || (n == VERSION_TOPIC && Never(es, Clearing())))
            && (n in s.topics && n != VERSION_TOPIC ==>
                  Published(es, n) != [] && s.topics[n] == Published(es, n)[|Published(es, n)| - 1])
  {
    var s0 := Init(conv, t0);
    assert n in s0.topics <==> n == VERSION_TOPIC;
    assert n != VERSION_TOPIC ==> Hist(s0, n) == [];
    hide Init, Run, Legal, Standing, Never, Publishing, Clearing, Published;
    RunRetained(s0, es, n);
    HistoryIsPublished(s0, es, n);
    InitInv(conv, t0);
    RunInv(s0, es);
    InvRetained(Run(s0, es));
    assert [] + Published(es, n) == Published(es, n);
  }

  /** The two topics of the broker's own: the statistics are stored anew by every packet,
      and are gone only after a clear; the topic list is made when a new topic is, and else
      kept till a clear. */
  lemma OwnTopics(s: Broker, fd: Fd, req: Request, now: Word)
    ensures var t := Process(s, fd, req, now);
            && (STATS in t.topics <==> !req.ClearServer?)
            && (!req.ClearServer? && !(req.Publish? && req.name == STATS) ==>
                  t.topics[STATS] == StatsValue(s.(recvd := s.recvd + 1), now))
            && (TOPICS in t.topics <==>
                  && !req.ClearServer?
                  && (TOPICS in s.topics || (req.Publish? && req.name !in s.topics && req.name != STATS)))
  {
    hide Announce, StatsValue, Dispatch;
    var s0 := s.(recvd := s.recvd + 1);
    AnnounceKeys(s0, STATS, StatsValue(s0, now));
    OwnNames();
    DispatchOwn(RebuildStats(s0, now), fd, req);
  }

  lemma OwnNames()
    ensures STATS != TOPICS && VERSION_TOPIC != STATS && VERSION_TOPIC != TOPICS
  {
    assert STATS[0] < TOPICS[0] < VERSION_TOPIC[0];
  }

  lemma DispatchOwn(s: Broker, fd: Fd, req: Request)
    requires STATS in s.topics
    ensures var t := Dispatch(s, fd, req);
            && (STATS in t.topics <==> !req.ClearServer?)
            && (!req.ClearServer? && !(req.Publish? && req.name == STATS) ==> t.topics[STATS] == s.topics[STATS])
            && (TOPICS in t.topics <==>
                  !req.ClearServer? && (TOPICS in s.topics || (req.Publish? && req.name !in s.topics)))
  {
    hide PublishTopic;
    OwnNames();
    if req.Publish? {
      var t := PublishTopic(s, req.name, req.data);
      PublishFrame(s, req.name, req.data);
      if req.name != STATS {
        PublishKeeps(s, req.name, req.data, STATS);
      }
      assert STATS in t.topics.Keys && (TOPICS in t.topics.Keys <==> TOPICS in s.topics.Keys || req.name !in s.topics);
    }
  }

  lemma PublishKeeps(s: Broker, n: Name, d: Data, m: Name)
    requires m in s.topics && m != n && m != TOPICS
    ensures m in PublishTopic(s, n, d).topics && PublishTopic(s, n, d).topics[m] == s.topics[m]
  {
    AnnounceKeys(s, n, d);
    var t := Announce(s, n, d);
    hide Announce, TopicList;
    if n !in s.topics {
      AnnounceKeys(t, TOPICS, TopicList(t.topics.Keys + {TOPICS}));
    }
  }

  // ---- connections and subscriptions ----

  lemma ApplyOpen(s: Broker, e: Event, fd: Fd)
    ensures fd in Apply(s, e).clients <==> Accepting(fd)(e) || (fd in s.clients && !Closing(fd)(e))
  {
    hide Dispatch, RebuildStats, Broadcast;
    if e.Receive? {
      var s0 := s.(recvd := s.recvd + 1);
      StatsFrame(s0, e.now);
      DispatchFrame(RebuildStats(s0, e.now), e.fd, e.req);
    }
  }

  /** A descriptor is open if and only if it was accepted and not closed since. */
  lemma {:induction false} OpenIff(s: Broker, es: seq<Event>, fd: Fd)
    ensures fd in Run(s, es).clients <==>
            Standing(es, Accepting(fd), Closing(fd)) || (fd in s.clients && Never(es, Closing(fd)))
    decreases |es|
  {
    hide Apply, Standing, Never, Accepting, Closing;
    if es == [] {
      StandingNothing(Accepting(fd), Closing(fd));
    } else {
      ApplyOpen(s, es[0], fd);
      OpenIff(Apply(s, es[0]), es[1..], fd);
      StandingCons(es, Accepting(fd), Closing(fd), fd in s.clients);
    }
  }

  lemma DispatchSubs(s: Broker, fd0: Fd, req: Request, n: Name)
    ensures Subs(Dispatch(s, fd0, req), n) == Subs(s, n) + if req == Subscribe(n) then {fd0} else {}
  {
    hide Announce, TopicList;
    if req.Publish? {
      AnnounceHistory(s, req.name, req.data, n);
      var t := Announce(s, req.name, req.data);
      AnnounceHistory(t, TOPICS, TopicList(t.topics.Keys + {TOPICS}), n);
    }
  }

  lemma ApplySubscribed(s: Broker, e: Event, fd: Fd, n: Name)
    requires Inverse(s)
    ensures fd in Subs(Apply(s, e), n) <==> Subscribing(fd, n)(e) || (fd in Subs(s, n) && !Closing(fd)(e))
  {
    hide Process, Unsubscribe, Broadcast, Inverse;
    match e
    case Receive(fd0, req, now) =>
      ReceiveSubs(s, fd0, req, now, n);
    case Close(fd0) =>
      CloseSubs(s, fd0, n);
    case _ =>
      assert Subs(Apply(s, e), n) == Subs(s, n);
  }

  lemma ReceiveSubs(s: Broker, fd0: Fd, req: Request, now: Word, n: Name)
    ensures Subs(Process(s, fd0, req, now), n) == Subs(s, n) + if req == Subscribe(n) then {fd0} else {}
  {
    hide Subs, Dispatch, RebuildStats;
    var s0 := s.(recvd := s.recvd + 1);
    CountedSame(s, n);
    StatsSubs(s0, now, n);
    DispatchSubs(RebuildStats(s0, now), fd0, req, n);
  }

  lemma CountedSame(s: Broker, n: Name)
    ensures var s0 := s.(recvd := s.recvd + 1); Subs(s0, n) == Subs(s, n) && Hist(s0, n) == Hist(s, n)
  {}

  lemma StatsSubs(s: Broker, now: Word, n: Name)
    ensures Subs(RebuildStats(s, now), n) == Subs(s, n)
  {
    hide Announce;
    AnnounceHistory(s, STATS, StatsValue(s, now), n);
  }

  lemma CloseSubs(s: Broker, fd: Fd, n: Name)
    requires Inverse(s)
    ensures Subs(Unsubscribe(s.(clients := s.clients - {fd}), fd), n) == Subs(s, n) - {fd}
  {
    var u := s.(clients := s.clients - {fd});
    assert Subs(u, n) == Subs(s, n) && Tops(u, fd) == Tops(s, fd);
  }

  lemma InvInverse(s: Broker)
    requires Inv(s)
    ensures Inverse(s)
  {}

  lemma {:induction false} RunSubscribed(s: Broker, es: seq<Event>, fd: Fd, n: Name)
    requires Inv(s) && Legal(s, es)
    ensures fd in Subs(Run(s, es), n) <==>
            Standing(es, Subscribing(fd, n), Closing(fd)) || (fd in Subs(s, n) && Never(es, Closing(fd)))
    decreases |es|
  {
    hide Apply, Enabled, Inv, Inverse, Subs, Standing, Never, Subscribing, Closing;
    if es == [] {
      StandingNothing(Subscribing(fd, n), Closing(fd));
    } else {
      ApplyInv(s, es[0]);
      InvInverse(s);
      ApplySubscribed(s, es[0], fd, n);
      RunSubscribed(Apply(s, es[0]), es[1..], fd, n);
      StandingCons(es, Subscribing(fd, n), Closing(fd), fd in Subs(s, n));
    }
  }

  /** After any run, a descriptor subscribes to a topic if and only if it asked to, and has
      not been closed since. */
  lemma SubscribedIff(conv: nat -> Word, t0: Word, es: seq<Event>, fd: Fd, n: Name)
    requires Legal(Init(conv, t0), es)
    ensures fd in Subs(Run(Init(conv, t0), es), n) <==> Standing(es, Subscribing(fd, n), Closing(fd))
  {
    assert Subs(Init(conv, t0), n) == {};
    hide Init, Run, Legal, Inv, Subs, Standing, Never, Subscribing, Closing;
    InitInv(conv, t0);
    RunSubscribed(Init(conv, t0), es, fd, n);
  }

  // ---- what a request that is not a publication sends ----

  /** What subscribing sends: the retained value of the topic, if there is one. */
  ghost function Retrieved(s: Broker, fd: Fd, n: Name, f: Fd): seq<Send> {
    if f == fd && n in s.topics && Hist(s, n) != [] then [Send(fd, Notify(n, s.topics[n]), |Hist(s, n)| - 1)] else []
  }

  lemma DispatchSends(s: Broker, fd: Fd, req: Request, f: Fd)
    requires !req.Publish? && Retained(s)
    ensures var t := Dispatch(s, fd, req);
            && s.log <= t.log
            && To(t.log[|s.log|..], f) == if req.Subscribe? then Retrieved(s, fd, req.name, f) else []
  {
    var t := Dispatch(s, fd, req);
    var more := t.log[|s.log|..];
    if req.Subscribe? && req.name in s.topics {
      assert more == [Send(fd, Notify(req.name, s.topics[req.name]), |Hist(s, req.name)| - 1)];
      assert more[1..] == [];
    } else {
      assert more == [];
    }
  }

  /** Any other request sends each descriptor the refreshed statistics, if it subscribes to
      those; and then, if it is a subscription, whoever asked the value retained for the
      topic, if there is one; and nothing else. */
  lemma RequestSends(s: Broker, fd: Fd, req: Request, now: Word, f: Fd)
    requires Inv(s) && !req.Publish?
    ensures var t := Process(s, fd, req, now);
            var s0 := s.(recvd := s.recvd + 1);
            var s1 := RebuildStats(s0, now);
            && s.log <= t.log
            && To(t.log[|s.log|..], f) ==
                 Copy(Subs(s, STATS), f, STATS, StatsValue(s0, now), |Hist(s, STATS)|)
                 + if req.Subscribe? then Retrieved(s1, fd, req.name, f) else []
  {
    hide Subs, Hist, Inv, To, Copy, Retrieved, Retained, StatsValue, Announce, Dispatch;
    var s0 := s.(recvd := s.recvd + 1);
    CountedSame(s, STATS);
    var s1 := RebuildStats(s0, now);
    StatsRetained(s, now);
    AnnounceCopies(s0, STATS, StatsValue(s0, now), f);
    DispatchSends(s1, fd, req, f);
    LaterSends(s.log, s1.log, Dispatch(s1, fd, req).log, f);
  }
}
