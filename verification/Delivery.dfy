// A connection that subscribes to a topic once gets a contiguous stretch of its history.
module Delivery {
  import opened Types
  import opened BrokerSpec
  import B = BrokerLaws
  import R = BrokerRuns
  import opened SystemSpec
  import opened SystemLaws
  import opened SystemRuns

  /** The descriptor subscribes, and was sent each value from place `start` on, once. */
  ghost predicate Suffix(b: Broker, fd: Fd, l: Link, n: Name, start: nat) {
    && fd in Subs(b, n)
    && Numbered(For(l.log, n), start, |Hist(b, n)|)
  }

  predicate Numbered(xs: seq<Send>, start: nat, stored: nat) {
    start + |xs| == stored && forall i :: 0 <= i < |xs| ==> xs[i].ver == start + i
  }

  lemma AnnounceSuffix(b: Broker, m: Name, d: Data, fd: Fd, l: Link, n: Name, start: nat)
    requires Suffix(b, fd, l, n, start)
    ensures var t := Announce(b, m, d); Suffix(t, fd, Grow(l, b, t, fd), n, start)
  {
    AnnounceGrows(b, m, d, fd, l);
    hide Announce, Grow, For, Subs, Hist;
    var more := R.Copy(Subs(b, m), fd, m, d, |Hist(b, m)|);
    ForConcat(l.log, more, n);
    ForCopy(Subs(b, m), fd, m, d, |Hist(b, m)|, n);
    assert For(l.log, n) + [] == For(l.log, n);
  }

  lemma SubscribeSuffix(b: Broker, fd0: Fd, m: Name, fd: Fd, l: Link, n: Name, start: nat)
    requires Suffix(b, fd, l, n, start) && (fd0 != fd || m != n)
    ensures var t := SubscribeTo(b, fd0, m); Suffix(t, fd, Grow(l, b, t, fd), n, start)
  {
    SubscribeGrows(b, fd0, m, fd, l);
    SubscribeFrame(b, fd0, m);
    B.SameHistory(b, SubscribeTo(b, fd0, m));
    var more := Answer(b, fd0, m);
    assert m != n ==> For(more, n) == [];
    hide SubscribeTo, Grow, Answer, For, Subs, Hist;
    ForConcat(l.log, more, n);
    assert For(l.log, n) + [] == For(l.log, n);
  }

  lemma PublishSuffix(b: Broker, m: Name, d: Data, fd: Fd, l: Link, n: Name, start: nat)
    requires Suffix(b, fd, l, n, start)
    ensures var t := PublishTopic(b, m, d); Suffix(t, fd, Grow(l, b, t, fd), n, start)
  {
    hide Announce, Grow, Suffix, TopicList;
    AnnounceSuffix(b, m, d, fd, l, n, start);
    B.AnnounceKeys(b, m, d);
    if m !in b.topics {
      var b1 := Announce(b, m, d);
      var names := TopicList(b1.topics.Keys + {TOPICS});
      AnnounceSuffix(b1, TOPICS, names, fd, Grow(l, b, b1, fd), n, start);
      B.AnnounceKeys(b1, TOPICS, names);
      GrowTwice(l, b, b1, Announce(b1, TOPICS, names), fd);
    }
  }

  /** Nothing that the suffix looks at has changed. */
  lemma SameSuffix(b: Broker, t: Broker, fd: Fd, l: Link, k: Link, n: Name, start: nat)
    requires Suffix(b, fd, l, n, start)
    requires (fd in Subs(b, n) ==> fd in Subs(t, n)) && t.hist == b.hist && k.log == l.log
    ensures Suffix(t, fd, k, n, start)
  {
    B.SameHistory(b, t);
    hide Subs, Hist, For, Numbered;
  }

  lemma DispatchSuffix(b: Broker, fd0: Fd, req: Request, fd: Fd, l: Link, n: Name, start: nat)
    requires Suffix(b, fd, l, n, start) && (fd0 != fd || req != Subscribe(n))
    ensures var t := Dispatch(b, fd0, req); Suffix(t, fd, Grow(l, b, t, fd), n, start)
  {
    hide Suffix, Grow, PublishTopic, SubscribeTo;
    match req
    case Publish(m, d) => PublishSuffix(b, m, d, fd, l, n, start);
    case Subscribe(m) => SubscribeSuffix(b, fd0, m, fd, l, n, start);
    case _ =>
      var t := Dispatch(b, fd0, req);
      SameSuffix(b, t, fd, l, l, n, start);
      GrowNot(l, b, t, fd);
  }

  lemma StatsSuffix(b: Broker, now: Word, fd: Fd, l: Link, n: Name, start: nat)
    requires Suffix(b, fd, l, n, start)
    ensures var t := RebuildStats(b.(recvd := b.recvd + 1), now);
            Suffix(t, fd, Grow(l, b, t, fd), n, start) && b.log <= t.log
  {
    var b0 := b.(recvd := b.recvd + 1);
    SameSuffix(b, b0, fd, l, l, n, start);
    hide Suffix, Grow, Announce, StatsValue;
    AnnounceSuffix(b0, STATS, StatsValue(b0, now), fd, l, n, start);
    B.AnnounceKeys(b0, STATS, StatsValue(b0, now));
    GrowFrom(l, b, b0, RebuildStats(b0, now), fd);
  }

  lemma ProcessSuffix(b: Broker, fd0: Fd, req: Request, now: Word, fd: Fd, l: Link, n: Name, start: nat)
    requires Suffix(b, fd, l, n, start) && (fd0 != fd || req != Subscribe(n))
    ensures var t := Process(b, fd0, req, now); Suffix(t, fd, Grow(l, b, t, fd), n, start)
  {
    hide Suffix, Grow, RebuildStats, Dispatch;
    var t1 := RebuildStats(b.(recvd := b.recvd + 1), now);
    StatsSuffix(b, now, fd, l, n, start);
    DispatchSuffix(t1, fd0, req, fd, Grow(l, b, t1, fd), n, start);
    R.DispatchFrame(t1, fd0, req);
    GrowTwice(l, b, t1, Dispatch(t1, fd0, req), fd);
  }

  lemma GrowSame(l: Link, k: Link, b: Broker, t: Broker, fd: Fd)
    requires l.log == k.log
    ensures Grow(l, b, t, fd).log == Grow(k, b, t, fd).log
  {}

  /** The connection is not closed, and does not subscribe to the topic again. */
  predicate Leaves(s: System, h: Happening, fd: Fd, n: Name)
    requires Possible(s, h)
  {
    && h != Disconnect(fd)
    && (h.Serve? && h.fd == fd ==> s.links[fd].reqs[s.links[fd].served] != Subscribe(n))
  }

  lemma ServeSuffix(s: System, h: Happening, fd: Fd, n: Name, start: nat)
    requires Inv(s) && Possible(s, h) && fd in s.links && Leaves(s, h, fd, n) && h.Serve?
    requires Suffix(s.broker, fd, s.links[fd], n, start)
    ensures var u := Next(s, h); fd in u.links && Suffix(u.broker, fd, u.links[fd], n, start)
  {
    hide Inv, Suffix, Grow, Process;
    var l := s.links[h.fd];
    ProcessSuffix(s.broker, h.fd, l.reqs[l.served], h.now, fd, s.links[fd], n, start);
    var t := Process(s.broker, h.fd, l.reqs[l.served], h.now);
    if h.fd == fd {
      GrowSame(l, l.(served := l.served + 1), s.broker, t, fd);
    }
    SameLog(t, fd, Grow(s.links[fd], s.broker, t, fd), Next(s, h).links[fd], n, start);
  }

  lemma SameLog(b: Broker, fd: Fd, l: Link, k: Link, n: Name, start: nat)
    requires Suffix(b, fd, l, n, start) && k.log == l.log
    ensures Suffix(b, fd, k, n, start)
  {}

  lemma HaltSuffix(b: Broker, fd: Fd, l: Link, n: Name, start: nat)
    requires Suffix(b, fd, l, n, start) && fd in b.clients
    ensures Suffix(Shutdown(b), fd, Grow(l, b, Shutdown(b), fd), n, start)
  {
    HaltGrows(b, fd, l);
    var t := Shutdown(b);
    B.SameHistory(b, t);
    assert Subs(t, n) == Subs(b, n);
    var last := [Send(fd, KillClient, 0)];
    ForConcat(l.log, last, n);
    assert For(last, n) == [];
    hide Shutdown, Grow, For, Hist, Subs;
    assert For(l.log, n) + [] == For(l.log, n);
  }

  lemma NextSuffix(s: System, h: Happening, fd: Fd, n: Name, start: nat)
    requires Inv(s) && Possible(s, h) && fd in s.links && Leaves(s, h, fd, n)
    requires Suffix(s.broker, fd, s.links[fd], n, start)
    ensures var u := Next(s, h); fd in u.links && Suffix(u.broker, fd, u.links[fd], n, start)
  {
    hide B.Inv, LinkInv, Suffix, Grow, Process, Shutdown;
    var b, l := s.broker, s.links[fd];
    match h
    case Serve(_, _) => ServeSuffix(s, h, fd, n, start);
    case Halt => HaltSuffix(b, fd, l, n, start);
    case Connect(fd0) =>
      var t := BrokerSpec.Apply(b, Accept(fd0));
      GrowNot(l, b, t, fd);
      SameSuffix(b, t, fd, l, l, n, start);
    case Disconnect(fd0) =>
      var t := BrokerSpec.Apply(b, Close(fd0));
      GrowNot(l, b, t, fd);
      SameSuffix(b, t, fd, l, l, n, start);
    case Local(fd0, m) => SameLog(b, fd, l, Next(s, h).links[fd], n, start);
    case Ask(fd0, _) => SameLog(b, fd, l, Next(s, h).links[fd], n, start);
    case Late(_, _) =>
  }

  /** No step of the run closes the connection or serves a subscription to the topic. */
  ghost predicate LeavesAll(s: System, hs: seq<Happening>, fd: Fd, n: Name)
    requires Feasible(s, hs)
    decreases |hs|
  {
    hs == [] || (Leaves(s, hs[0], fd, n) && LeavesAll(Next(s, hs[0]), hs[1..], fd, n))
  }

  lemma {:induction false} AfterSuffix(s: System, hs: seq<Happening>, fd: Fd, n: Name, start: nat)
    requires Inv(s) && Feasible(s, hs) && fd in s.links && LeavesAll(s, hs, fd, n)
    requires Suffix(s.broker, fd, s.links[fd], n, start)
    ensures var u := After(s, hs); Inv(u) && fd in u.links && Suffix(u.broker, fd, u.links[fd], n, start)
    decreases |hs|
  {
    hide Inv, Possible, Next, Suffix, Leaves;
    if hs != [] {
      NextInv(s, hs[0]);
      NextSuffix(s, hs[0], fd, n, start);
      AfterSuffix(Next(s, hs[0]), hs[1..], fd, n, start);
    }
  }

  // ---- the first subscription ----

  /** Where the values begin: at the retained one if there is one when the subscription is
      served, which is after the statistics were refreshed, else at the next stored. */
  ghost function StartOf(b: Broker, n: Name, now: Word): nat {
    var b1 := RebuildStats(b.(recvd := b.recvd + 1), now);
    if n in b1.topics && Hist(b1, n) != [] then |Hist(b1, n)| - 1 else |Hist(b1, n)|
  }

  lemma FirstSubscription(b: Broker, fd: Fd, n: Name, now: Word, l: Link)
    requires LinkInv(b, fd, l) && B.Inv(b) && !b.down && fd !in Subs(b, n)
    ensures var t := Process(b, fd, Subscribe(n), now);
            Suffix(t, fd, Grow(l, b, t, fd), n, StartOf(b, n, now))
  {
    hide RebuildStats, LinkInv, Grow, B.Inv, B.Retained, SubscribeTo, Subs, Hist, Suffix, For;
    var b1 := RebuildStats(b.(recvd := b.recvd + 1), now);
    var l1 := Grow(l, b, b1, fd);
    StatsLink(b, now, fd, l);
    StatsKeepsSubs(b, now, n);
    NothingYet(b1, fd, l1, n);
    B.InvRetained(b1);
    AnswerSuffix(b1, fd, n, l1);
    SubscribeGrows(b1, fd, n, fd, l1);
    GrowTwice(l, b, b1, SubscribeTo(b1, fd, n), fd);
  }

  lemma StatsKeepsSubs(b: Broker, now: Word, n: Name)
    ensures Subs(RebuildStats(b.(recvd := b.recvd + 1), now), n) == Subs(b, n)
  {
    hide Broadcast, StatsValue;
  }

  lemma NothingYet(b: Broker, fd: Fd, l: Link, n: Name)
    requires LinkInv(b, fd, l) && fd !in Subs(b, n)
    ensures For(l.log, n) == []
  {
    hide Enrolled, Gapless, Converges, InStep, KillsLast;
    NothingFor(b, fd, l, n);
  }

  lemma AnswerSuffix(b: Broker, fd: Fd, n: Name, l: Link)
    requires For(l.log, n) == [] && B.Retained(b)
    ensures var t := SubscribeTo(b, fd, n);
            Suffix(t, fd, Grow(l, b, t, fd), n,
                   if n in b.topics && Hist(b, n) != [] then |Hist(b, n)| - 1 else |Hist(b, n)|)
  {
    var t := SubscribeTo(b, fd, n);
    SubscribeGrows(b, fd, n, fd, l);
    SubscribeFrame(b, fd, n);
    B.SameHistory(b, t);
    var more := Answer(b, fd, n);
    ForConcat(l.log, more, n);
    assert For(more, n) == more;
    hide SubscribeTo, Grow, For, Subs;
    assert [] + more == more;
  }

  /** From the state in which the broker serves a connection's first subscription to a
      topic, and for as long as that connection stays open and does not subscribe to it
      again, whatever else happens in the system, the values sent to it for the topic
      are, in order and without duplicates, the topic's history from the value retained
      then, or else from the next one stored, up to the last one stored. */
  lemma GaplessDelivery(s: System, fd: Fd, n: Name, now: Word, hs: seq<Happening>)
    requires Reachable(s) && Possible(s, Serve(fd, now))
    requires s.links[fd].reqs[s.links[fd].served] == Subscribe(n) && fd !in Subs(s.broker, n)
    requires var u := Next(s, Serve(fd, now)); Feasible(u, hs) && LeavesAll(u, hs, fd, n)
    ensures var e := After(Next(s, Serve(fd, now)), hs);
            fd in e.links && Follows(e.broker, e.links[fd], n, StartOf(s.broker, n, now))
  {
    hide Reachable, Inv, Possible, Next, Feasible, LeavesAll, After, StartOf, Suffix, Follows;
    ReachableInv(s);
    var u := Next(s, Serve(fd, now));
    ServedFirst(s, fd, n, now);
    NextInv(s, Serve(fd, now));
    AfterSuffix(u, hs, fd, n, StartOf(s.broker, n, now));
    LinkOf(After(u, hs), fd);
    hide LinkInv;
    SuffixMeans(After(u, hs).broker, fd, After(u, hs).links[fd], n, StartOf(s.broker, n, now));
  }

  /** The values of topic `n` sent on the link are its history from place `start` on. */
  ghost predicate Follows(b: Broker, l: Link, n: Name, start: nat) {
    var xs, h := For(l.log, n), Hist(b, n);
    start + |xs| == |h| && forall i :: 0 <= i < |xs| ==> xs[i].reply == Notify(n, h[start + i])
  }

  lemma SuffixMeans(b: Broker, fd: Fd, l: Link, n: Name, start: nat)
    requires LinkInv(b, fd, l) && Suffix(b, fd, l, n, start)
    ensures Follows(b, l, n, start)
  {
    hide LinkInv, For, Hist, Subs;
    LinkDelivers(b, fd, l, n);
  }

  lemma LinkOf(s: System, fd: Fd)
    requires Inv(s) && fd in s.links
    ensures LinkInv(s.broker, fd, s.links[fd])
  {
    hide LinkInv, B.Inv;
  }

  lemma ServedFirst(s: System, fd: Fd, n: Name, now: Word)
    requires Inv(s) && Possible(s, Serve(fd, now))
    requires s.links[fd].reqs[s.links[fd].served] == Subscribe(n) && fd !in Subs(s.broker, n)
    ensures var u := Next(s, Serve(fd, now));
            fd in u.links && Suffix(u.broker, fd, u.links[fd], n, StartOf(s.broker, n, now))
  {
    hide B.Inv, LinkInv, Grow, Process, Suffix, StartOf;
    var l := s.links[fd];
    FirstSubscription(s.broker, fd, n, now, l);
    var t := Process(s.broker, fd, Subscribe(n), now);
    GrowSame(l, l.(served := l.served + 1), s.broker, t, fd);
    SameLog(t, fd, Grow(l, s.broker, t, fd), Next(s, Serve(fd, now)).links[fd], n, StartOf(s.broker, n, now));
  }
}
