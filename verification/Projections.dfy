// A run of the composed system is a run of the broker and a run of each client, so what is
// proved of those holds of the system.
module Projections {
  import opened Types
  import opened BrokerSpec
  import B = BrokerLaws
  import R = BrokerRuns
  import C = ClientSpec
  import L = ClientLaws
  import opened SystemSpec
  import opened SystemLaws
  import opened SystemRuns

  // ---- the broker ----

  ghost function EventOf(s: System, h: Happening): seq<Event>
    requires Possible(s, h)
  {
    if BrokerEvent(s, h).Some? then [BrokerEvent(s, h).value] else []
  }

  /** The broker's part of a run. */
  ghost function Events(s: System, hs: seq<Happening>): seq<Event>
    requires Feasible(s, hs)
    decreases |hs|
  {
    if hs == [] then [] else EventOf(s, hs[0]) + Events(Next(s, hs[0]), hs[1..])
  }

  lemma EventEnabled(s: System, h: Happening)
    requires Possible(s, h)
    ensures BrokerEvent(s, h).Some? ==> BrokerSpec.Enabled(s.broker, BrokerEvent(s, h).value)
  {}

  lemma {:induction false} BrokerOfRun(s: System, hs: seq<Happening>)
    requires Feasible(s, hs)
    ensures BrokerSpec.Legal(s.broker, Events(s, hs))
    ensures BrokerSpec.Run(s.broker, Events(s, hs)) == After(s, hs).broker
    decreases |hs|
  {
    hide Possible, Next, BrokerSpec.Apply, BrokerSpec.Enabled, BrokerEvent;
    if hs != [] {
      var u := Next(s, hs[0]);
      EventEnabled(s, hs[0]);
      NextBroker(s, hs[0]);
      BrokerOfRun(u, hs[1..]);
      var rest := Events(u, hs[1..]);
      if BrokerEvent(s, hs[0]).Some? {
        var e := BrokerEvent(s, hs[0]).value;
        assert ([e] + rest)[1..] == rest;
      } else {
        assert [] + rest == rest;
      }
    }
  }

  // ---- the clients ----

  /** A client that some legal run leads to. */
  ghost predicate Reached(c: C.Client) {
    exists ms: seq<C.Move> :: C.Legal(C.FRESH, ms) && C.Run(C.FRESH, ms) == c
  }

  ghost predicate AllReached(s: System) {
    && (forall fd :: fd in s.links ==> Reached(s.links[fd].client))
    && (forall k :: 0 <= k < |s.closed| ==> Reached(s.closed[k].client))
  }

  lemma ReachedStep(c: C.Client, m: C.Move)
    requires Reached(c) && C.Enabled(c, m)
    ensures Reached(C.Step(c, m))
  {
    hide C.Legal, C.Run, C.Step, C.Enabled;
    var ms: seq<C.Move> :| C.Legal(C.FRESH, ms) && C.Run(C.FRESH, ms) == c;
    L.RunSnoc(C.FRESH, ms, m);
  }

  lemma ReachedFresh()
    ensures Reached(C.FRESH)
  {
    var ms: seq<C.Move> := [];
    assert C.Legal(C.FRESH, ms) && C.Run(C.FRESH, ms) == C.FRESH;
  }

  lemma GrowClient(l: Link, b: Broker, t: Broker, fd: Fd)
    ensures Grow(l, b, t, fd).client == l.client
  {}

  lemma LocalClient(l: Link, m: C.Move)
    ensures LocalStep(l, m).client == C.Step(l.client, m)
  {
    hide C.Step;
  }

  lemma NextReached(s: System, h: Happening)
    requires AllReached(s) && Possible(s, h)
    ensures AllReached(Next(s, h))
  {
    hide Reached, BrokerSpec.Apply, BrokerSpec.Enabled, Grow, LocalStep, C.Step, C.Enabled;
    var u := Next(s, h);
    if h.Local? || h.Late? {
      var l := if h.Local? then s.links[h.fd] else s.closed[h.k];
      LocalClient(l, h.move);
      ReachedStep(l.client, h.move);
    }
    ReachedFresh();
    forall fd | fd in u.links ensures Reached(u.links[fd].client) {
      if fd in s.links {
        GrowClient(s.links[fd], s.broker, u.broker, fd);
        if h.Serve? {
          GrowClient(s.links[fd].(served := s.links[fd].served + 1), s.broker, u.broker, fd);
        }
      }
    }
  }

  lemma {:induction false} RunReached(s: System, hs: seq<Happening>)
    requires AllReached(s) && Feasible(s, hs)
    ensures AllReached(After(s, hs))
    decreases |hs|
  {
    hide AllReached, Possible, Next;
    if hs != [] {
      NextReached(s, hs[0]);
      RunReached(Next(s, hs[0]), hs[1..]);
    }
  }

  /** In every reachable state the broker is where a legal run from its construction leads,
      and the client of every connection, open or closed, where a legal run from its start
      does. */
  lemma ReachableRuns(s: System, l: Link)
    requires Reachable(s) && Has(s, l)
    ensures exists conv: nat -> Word, t0: Word, es: seq<Event> ::
              BrokerSpec.Legal(Init(conv, t0), es) && BrokerSpec.Run(Init(conv, t0), es) == s.broker
    ensures exists ms: seq<C.Move> :: C.Legal(C.FRESH, ms) && C.Run(C.FRESH, ms) == l.client
  {
    var conv: nat -> Word, t0: Word, hs: seq<Happening> :|
      Feasible(Start(conv, t0), hs) && After(Start(conv, t0), hs) == s;
    hide Feasible, After, Init, BrokerSpec.Legal, BrokerSpec.Run, Events, Reachable, Reached;
    BrokerOfRun(Start(conv, t0), hs);
    assert BrokerSpec.Legal(Init(conv, t0), Events(Start(conv, t0), hs));
    RunReached(Start(conv, t0), hs);
    assert Reached(l.client);
    assert exists ms: seq<C.Move> :: C.Legal(C.FRESH, ms) && C.Run(C.FRESH, ms) == l.client by { ReachedBy(l.client); }
  }

  lemma ReachedBy(c: C.Client)
    requires Reached(c)
    ensures exists ms: seq<C.Move> :: C.Legal(C.FRESH, ms) && C.Run(C.FRESH, ms) == c
  {}

  // ---- the topic list at the clients ----

  /** A client asks to publish under the name "topics". */
  predicate Meddles(h: Happening) {
    h.Ask? && h.req.Publish? && h.req.name == TOPICS
  }

  /** No request made so far meddles with the topic list. */
  ghost predicate Unmeddled(s: System) {
    forall fd, i :: fd in s.links && 0 <= i < |s.links[fd].reqs| ==>
      !(s.links[fd].reqs[i].Publish? && s.links[fd].reqs[i].name == TOPICS)
  }

  lemma NextUnmeddled(s: System, h: Happening)
    requires Unmeddled(s) && Possible(s, h) && !Meddles(h)
    ensures Unmeddled(Next(s, h))
    ensures BrokerEvent(s, h).Some? ==> !R.Overwrites(BrokerEvent(s, h).value)
  {
    hide BrokerSpec.Apply, BrokerSpec.Enabled, C.Step, C.Enabled;
  }

  lemma {:induction false} RunUnmeddled(s: System, hs: seq<Happening>)
    requires Unmeddled(s) && Feasible(s, hs) && forall h :: h in hs ==> !Meddles(h)
    ensures forall e :: e in Events(s, hs) ==> !R.Overwrites(e)
    decreases |hs|
  {
    hide Unmeddled, Possible, Next, Meddles, R.Overwrites, BrokerEvent;
    if hs != [] {
      assert hs[0] in hs;
      NextUnmeddled(s, hs[0]);
      RunUnmeddled(Next(s, hs[0]), hs[1..]);
    }
  }

  /** In a run in which no client publishes under "topics", the cached "topics" of every
      client that has been subscribed to it settles, once what is in flight is handled, on
      the strictly ascending list of all the topics there are. */
  lemma TopicListSettles(conv: nat -> Word, t0: Word, hs: seq<Happening>, fd: Fd)
    requires Feasible(Start(conv, t0), hs) && forall h :: h in hs ==> !Meddles(h)
    requires var s := After(Start(conv, t0), hs);
             && fd in s.links && fd in Subs(s.broker, TOPICS) && TOPICS in s.broker.topics
             && var l := s.links[fd];
                l.served <= |l.reqs| ==> Subscribe(TOPICS) !in l.reqs[l.served..]
    ensures var s := After(Start(conv, t0), hs);
            var l := s.links[fd];
            && l.pos <= |l.log|
            && var caught := CatchUp(l.client.cache, l.log[l.pos..]);
               TOPICS in caught && R.Lists(caught[TOPICS].data, s.broker.topics.Keys)
  {
    hide Feasible, After, Init, BrokerSpec.Legal, BrokerSpec.Run, Events, R.Lists, Meddles, CatchUp, Subs;
    var s := After(Start(conv, t0), hs);
    assert Reachable(s);
    hide Reachable;
    BrokerOfRun(Start(conv, t0), hs);
    RunUnmeddled(Start(conv, t0), hs);
    R.TopicListOverRuns(conv, t0, Events(Start(conv, t0), hs));
    Convergence(s, fd, TOPICS);
  }

  // ---- reads are publications ----

  /** Every valid result of `get` for a topic other than the broker's three is the data of
      some publication that the broker has processed. */
  lemma ReadsArePublications(conv: nat -> Word, t0: Word, hs: seq<Happening>, l: Link, n: Name, t: nat)
    requires Feasible(Start(conv, t0), hs) && Has(After(Start(conv, t0), hs), l)
    requires n !in {STATS, TOPICS, VERSION_TOPIC}
    requires t < |l.client.trace| && ValidReturn(l.client.trace[t], n)
    ensures l.client.trace[t].data in R.Published(Events(Start(conv, t0), hs), n)
  {
    hide Feasible, After, BrokerSpec.Legal, BrokerSpec.Run, Events, Has, Version, Handled, R.Published;
    var s := After(Start(conv, t0), hs);
    assert Reachable(s);
    hide Reachable;
    var es := Events(Start(conv, t0), hs);
    BrokerOfRun(Start(conv, t0), hs);
    R.HistoryIsPublished(Init(conv, t0), es, n);
    assert Hist(Init(conv, t0), n) == [];
    hide Init;
    assert Hist(s.broker, n) == R.Published(es, n);
    MonotoneReads(s, l, n, t, t);
  }
}
