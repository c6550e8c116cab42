// Theorems about whole runs of the composed system.
module SystemRuns {
  import opened Types
  import opened BrokerSpec
  import B = BrokerLaws
  import R = BrokerRuns
  import C = ClientSpec
  import L = ClientLaws
  import opened SystemSpec
  import opened SystemLaws

  // ---- the invariant holds in every reachable state ----

  lemma ServeLinks(b: Broker, links: map<Fd, Link>, fd: Fd, now: Word)
    requires B.Inv(b) && !b.down && fd in links && links[fd].served < |links[fd].reqs|
    requires forall f :: f in links ==> LinkInv(b, f, links[f])
    ensures var l := links[fd];
            var t := Process(b, fd, l.reqs[l.served], now);
            var after := GrowAll(links[fd := l.(served := l.served + 1)], b, t);
            after.Keys == links.Keys && forall f :: f in after ==> LinkInv(t, f, after[f])
  {
    hide B.Inv, LinkInv, Grow, Process;
    var l := links[fd];
    var t := Process(b, fd, l.reqs[l.served], now);
    forall f | f in links
      ensures LinkInv(t, f, Grow(Counted(links[f], f == fd), b, t, f))
    {
      ProcessLink(b, fd, l.reqs[l.served], now, f, links[f]);
    }
  }

  lemma ServeInv(s: System, fd: Fd, now: Word)
    requires Live(s) && Possible(s, Serve(fd, now))
    ensures Live(Next(s, Serve(fd, now)))
  {
    hide B.Inv, LinkInv, Grow, Process, GrowAll;
    var l := s.links[fd];
    B.ApplyInv(s.broker, Receive(fd, l.reqs[l.served], now));
    ServeLinks(s.broker, s.links, fd, now);
    ProcessClients(s.broker, fd, l.reqs[l.served], now);
  }

  lemma ProcessClients(b: Broker, fd: Fd, req: Request, now: Word)
    ensures Process(b, fd, req, now).clients == b.clients
  {
    hide Dispatch, RebuildStats;
    var b0 := b.(recvd := b.recvd + 1);
    B.StatsFrame(b0, now);
    R.DispatchFrame(RebuildStats(b0, now), fd, req);
  }

  lemma ConnectInv(s: System, fd: Fd)
    requires Live(s) && Possible(s, Connect(fd))
    ensures Live(Next(s, Connect(fd)))
  {
    var t := BrokerSpec.Apply(s.broker, Accept(fd));
    B.ApplyInv(s.broker, Accept(fd));
    InverseOf(s.broker);
    NewLinkIn(t, s.broker, fd);
    hide B.Inv, B.Inverse, LinkInv, Grow;
    var u := Next(s, Connect(fd));
    forall f | f in u.links ensures LinkInv(t, f, u.links[f]) {
      if f != fd {
        AcceptLink(s.broker, fd, f, s.links[f]);
      }
    }
  }

  /** Every link goes with the broker, but for those in `gone`. */
  lemma GrowAllInv(b: Broker, t: Broker, links: map<Fd, Link>, gone: set<Fd>)
    requires forall f :: f in links && f !in gone ==> LinkInv(t, f, Grow(links[f], b, t, f))
    ensures var after := GrowAll(links, b, t) - gone;
            after.Keys == links.Keys - gone && forall f :: f in after ==> LinkInv(t, f, after[f])
  {
    hide LinkInv, Grow;
  }

  lemma DisconnectInv(s: System, fd: Fd)
    requires Live(s) && Possible(s, Disconnect(fd))
    ensures Live(Next(s, Disconnect(fd)))
  {
    var b := s.broker;
    var t := BrokerSpec.Apply(b, Close(fd));
    B.ApplyInv(b, Close(fd));
    assert t.clients == b.clients - {fd};
    hide B.Inv, LinkInv, Grow, BrokerSpec.Apply, GrowAll;
    forall f | f in s.links && f !in {fd} ensures LinkInv(t, f, Grow(s.links[f], b, t, f)) {
      CloseLink(b, fd, f, s.links[f]);
    }
    GrowAllInv(b, t, s.links, {fd});
  }

  lemma HaltLinks(b: Broker, links: map<Fd, Link>)
    requires !b.down && links.Keys <= b.clients
    requires forall f :: f in links ==> LinkInv(b, f, links[f])
    ensures var after := GrowAll(links, b, Shutdown(b));
            after.Keys == links.Keys && forall f :: f in after ==> LinkInv(Shutdown(b), f, after[f])
  {
    hide LinkInv, Grow, Shutdown;
    forall f | f in links ensures LinkInv(Shutdown(b), f, Grow(links[f], b, Shutdown(b), f)) {
      HaltLink(b, f, links[f]);
    }
  }

  lemma HaltInv(s: System)
    requires Live(s) && Possible(s, Halt)
    ensures Live(Next(s, Halt))
  {
    hide B.Inv, LinkInv, Grow, GrowAll, Broadcast;
    B.ApplyInv(s.broker, Stop);
    HaltLinks(s.broker, s.links);
  }

  lemma InverseOf(b: Broker)
    requires B.Inv(b)
    ensures B.Inverse(b)
  {}

  lemma NewLinkIn(t: Broker, b: Broker, fd: Fd)
    requires t == BrokerSpec.Apply(b, Accept(fd)) && B.Inverse(b) && fd !in b.clients && !b.down
    ensures LinkInv(t, fd, NEW)
  {
    NewLink(b, fd);
    assert forall n: Name :: Subs(t, n) == Subs(b, n);
    hide LinkInv, Subs;
    SameLink(b, t, fd, NEW);
  }

  lemma NextLive(s: System, h: Happening)
    requires Live(s) && Possible(s, h)
    ensures Live(Next(s, h))
  {
    hide B.Inv, LinkInv, LocalStep, LocalPossible;
    match h
    case Serve(fd, now) => ServeInv(s, fd, now);
    case Local(fd, m) => LocalLink(s.broker, fd, s.links[fd], m);
    case Ask(fd, req) => AskLink(s.broker, fd, s.links[fd], req);
    case Connect(fd) => ConnectInv(s, fd);
    case Disconnect(fd) => DisconnectInv(s, fd);
    case Halt => HaltInv(s);
    case Late(_, _) =>
  }

  /** The broker's part of a happening, if it has one. */
  function BrokerEvent(s: System, h: Happening): Option<Event>
    requires Possible(s, h)
  {
    match h
    case Connect(fd) => Some(Accept(fd))
    case Disconnect(fd) => Some(Close(fd))
    case Serve(fd, now) => Some(Receive(fd, s.links[fd].reqs[s.links[fd].served], now))
    case Halt => Some(Stop)
    case _ => None
  }

  lemma NextBroker(s: System, h: Happening)
    requires Possible(s, h)
    ensures Next(s, h).broker ==
            if BrokerEvent(s, h).None? then s.broker else BrokerSpec.Apply(s.broker, BrokerEvent(s, h).value)
  {
    hide BrokerSpec.Apply, GrowAll;
  }

  lemma NextClosed(s: System, h: Happening)
    requires Inv(s) && Possible(s, h)
    ensures var u := Next(s, h); forall k :: 0 <= k < |u.closed| ==> Sound(u.broker, u.closed[k])
  {
    hide B.Inv, LinkInv, Sound, BrokerSpec.Apply, GrowAll, LocalStep, LocalPossible;
    var u := Next(s, h);
    NextBroker(s, h);
    forall n: Name ensures Hist(s.broker, n) <= Hist(u.broker, n) {
      if BrokerEvent(s, h).Some? {
        R.ApplyHistory(s.broker, BrokerEvent(s, h).value, n);
      }
    }
    hide Hist;
    forall k | 0 <= k < |u.closed| ensures Sound(u.broker, u.closed[k]) {
      if h.Disconnect? && k == |s.closed| {
        SoundFromLink(s.broker, h.fd, s.links[h.fd]);
        SoundLater(s.broker, u.broker, s.links[h.fd]);
      } else if h.Late? && h.k == k {
        SoundStep(s.broker, s.closed[k], h.move);
      } else {
        SoundLater(s.broker, u.broker, s.closed[k]);
      }
    }
  }

  lemma NextInv(s: System, h: Happening)
    requires Inv(s) && Possible(s, h)
    ensures Inv(Next(s, h))
  {
    hide Live, Possible, Next, Sound;
    NextLive(s, h);
    NextClosed(s, h);
  }

  lemma {:induction false} RunInv(s: System, hs: seq<Happening>)
    requires Inv(s) && Feasible(s, hs)
    ensures Inv(After(s, hs))
    decreases |hs|
  {
    hide Inv, Possible, Next;
    if hs != [] {
      NextInv(s, hs[0]);
      RunInv(Next(s, hs[0]), hs[1..]);
    }
  }

  /** A state some run from the start reaches. */
  ghost predicate Reachable(s: System) {
    exists conv: nat -> Word, t0: Word, hs: seq<Happening> ::
      Feasible(Start(conv, t0), hs) && After(Start(conv, t0), hs) == s
  }

  lemma {:induction false} AfterSnoc(s: System, hs: seq<Happening>, h: Happening)
    requires Feasible(s, hs) && Possible(After(s, hs), h)
    ensures Feasible(s, hs + [h]) && After(s, hs + [h]) == Next(After(s, hs), h)
    decreases |hs|
  {
    hide Possible, Next;
    if hs == [] {
      assert [] + [h] == [h] && [h][1..] == [];
      assert Feasible(Next(s, h), []);
    } else {
      AfterSnoc(Next(s, hs[0]), hs[1..], h);
      assert (hs + [h])[1..] == hs[1..] + [h];
    }
  }

  lemma ReachableNext(s: System, h: Happening)
    requires Reachable(s) && Possible(s, h)
    ensures Reachable(Next(s, h))
  {
    hide Possible, Next, Feasible, After, Start;
    var conv: nat -> Word, t0: Word, hs: seq<Happening> :|
      Feasible(Start(conv, t0), hs) && After(Start(conv, t0), hs) == s;
    AfterSnoc(Start(conv, t0), hs, h);
  }

  lemma ReachableInv(s: System)
    requires Reachable(s)
    ensures Inv(s)
  {
    var conv: nat -> Word, t0: Word, hs: seq<Happening> :|
      Feasible(Start(conv, t0), hs) && After(Start(conv, t0), hs) == s;
    B.InitInv(conv, t0);
    hide B.Inv, Feasible, After;
    RunInv(Start(conv, t0), hs);
  }

  // ---- convergence ----

  /** A client's cache after it has handled the replies in flight. */
  function CatchUp(cache: map<Name, C.Cached>, flight: seq<Send>): map<Name, C.Cached> {
    if flight == [] then cache else CatchUp(C.Absorb(cache, flight[0].reply), flight[1..])
  }

  lemma {:induction false} CatchUpPointwise(cache: map<Name, C.Cached>, flight: seq<Send>, n: Name)
    requires n in cache
    ensures n in CatchUp(cache, flight)
    ensures CatchUp(cache, flight)[n] == Eventual(cache[n], flight, n)
    decreases |flight|
  {
    if flight != [] {
      CatchUpPointwise(C.Absorb(cache, flight[0].reply), flight[1..], n);
    }
  }

  /** In every reachable state, if the broker has a connection as subscriber of a topic it
      retains, and no subscription to it from there is still to be served, then handling
      what is in flight leaves the client with exactly the retained value. */
  lemma Convergence(s: System, fd: Fd, n: Name)
    requires Reachable(s) && fd in s.links
    requires fd in Subs(s.broker, n) && n in s.broker.topics
    requires var l := s.links[fd]; l.served <= |l.reqs| ==> Subscribe(n) !in l.reqs[l.served..]
    ensures var l := s.links[fd];
            && l.pos <= |l.log|
            && var caught := CatchUp(l.client.cache, l.log[l.pos..]);
               n in caught && caught[n].data == s.broker.topics[n] && caught[n].state != C.NoData
  {
    ReachableInv(s);
    var l := s.links[fd];
    hide Reachable, B.Inv, Enrolled, Expected, Gapless, InStep, KillsLast, Subs;
    assert LinkInv(s.broker, fd, l);
    assert SettlesOn(l, n, s.broker.topics[n]);
    CatchUpPointwise(l.client.cache, l.log[l.pos..], n);
  }

  lemma {:induction false} EventualNone(k: C.Cached, flight: seq<Send>, n: Name)
    requires For(flight, n) == []
    ensures Eventual(k, flight, n) == k
    decreases |flight|
  {
    if flight != [] {
      EventualNone(k, flight[1..], n);
    }
  }

  /** The moves by which a receiver handles these packets. */
  function Moves(flight: seq<Send>): seq<C.Move> {
    if flight == [] then [] else [C.Recv(flight[0].reply)] + Moves(flight[1..])
  }

  /** Handling notifications, one of them for the topic a thread waits for, signals it. */
  lemma {:induction false} FlightWakes(c: C.Client, n: Name, w: C.Wait, p: C.Loop, flight: seq<Send>)
    requires c.running && n in c.cache
    requires c.app == C.Signalled(n, w, p)
             || (c.app == C.Parked(n, w, p) && c.waiting == Some(n) && For(flight, n) != [])
    requires forall i :: 0 <= i < |flight| ==> flight[i].reply.Notify?
    ensures C.Legal(c, Moves(flight)) && C.Run(c, Moves(flight)).app == C.Signalled(n, w, p)
    decreases |flight|
  {
    if flight != [] {
      var m := C.Recv(flight[0].reply);
      assert ([m] + Moves(flight[1..]))[1..] == Moves(flight[1..]);
      FlightWakes(C.Step(c, m), n, w, p, flight[1..]);
    }
  }

  lemma {:induction false} FirstFor(flight: seq<Send>, n: Name) returns (k: nat)
    requires For(flight, n) != []
    ensures k < |flight| && flight[k].reply.Notify? && flight[k].reply.name == n
    ensures For(flight[..k], n) == [] && For(flight[..k + 1], n) != []
  {
    if flight[0].reply.Notify? && flight[0].reply.name == n {
      k := 0;
    } else {
      k := FirstFor(flight[1..], n);
      k := k + 1;
      assert flight[..k][1..] == flight[1..][..k - 1] && flight[..k + 1][1..] == flight[1..][..k];
    }
  }

  /** So no `get` waits in vain for a topic's first data: in every reachable state, if the
      broker has the connection as subscriber of a topic it retains, and no subscription
      is still to be served, then a notification for the topic is in flight; and, unless
      the client has lost the connection, handling what is in flight up to that is
      possible and leaves the thread signalled. */
  lemma WakeupInFlight(s: System, fd: Fd, n: Name, w: C.Wait) returns (k: nat)
    requires Reachable(s) && fd in s.links
    requires s.links[fd].client.app == C.Parked(n, w, C.FirstData)
    requires fd in Subs(s.broker, n) && n in s.broker.topics
    requires var l := s.links[fd]; l.served <= |l.reqs| ==> Subscribe(n) !in l.reqs[l.served..]
    ensures var l := s.links[fd];
            && l.pos <= k < |l.log| && l.log[k].reply.Notify? && l.log[k].reply.name == n
            && For(l.log[l.pos..k], n) == []
    ensures var l := s.links[fd];
            l.client.running ==>
              && C.Legal(l.client, Moves(l.log[l.pos..k + 1]))
              && C.Run(l.client, Moves(l.log[l.pos..k + 1])).app == C.Signalled(n, w, C.FirstData)
  {
    hide Reachable, LinkInv, Subs, For, C.Legal, C.Run, Moves;
    ReachableLink(s, fd);
    StillToCome(s.broker, fd, s.links[fd], n, w);
    k := LinkWakes(s.broker, fd, s.links[fd], n, w, C.FirstData);
  }

  lemma StillToCome(b: Broker, fd: Fd, l: Link, n: Name, w: C.Wait)
    requires LinkInv(b, fd, l) && l.client.app == C.Parked(n, w, C.FirstData)
    requires fd in Subs(b, n) && n in b.topics
    requires l.served <= |l.reqs| ==> Subscribe(n) !in l.reqs[l.served..]
    ensures l.pos <= |l.log| && For(l.log[l.pos..], n) != []
    ensures n in l.client.cache && l.client.waiting == Some(n)
  {
    hide Enrolled, Expected, Gapless, KillsLast, Subs, For, L.CacheTold, L.ResultsJustified;
    assert SettlesOn(l, n, b.topics[n]);
    if For(l.log[l.pos..], n) == [] {
      EventualNone(l.client.cache[n], l.log[l.pos..], n);
    }
  }

  lemma LinkWakes(b: Broker, fd: Fd, l: Link, n: Name, w: C.Wait, p: C.Loop) returns (k: nat)
    requires LinkInv(b, fd, l) && l.client.app == C.Parked(n, w, p)
    requires n in l.client.cache && l.client.waiting == Some(n)
    requires l.pos <= |l.log| && For(l.log[l.pos..], n) != []
    ensures l.pos <= k < |l.log| && l.log[k].reply.Notify? && l.log[k].reply.name == n
    ensures For(l.log[l.pos..k], n) == []
    ensures l.client.running ==>
              && C.Legal(l.client, Moves(l.log[l.pos..k + 1]))
              && C.Run(l.client, Moves(l.log[l.pos..k + 1])).app == C.Signalled(n, w, p)
  {
    hide LinkInv, For, C.Legal, C.Run, Moves;
    var flight := l.log[l.pos..];
    var i := FirstFor(flight, n);
    k := l.pos + i;
    assert flight[..i] == l.log[l.pos..k] && flight[..i + 1] == l.log[l.pos..k + 1];
    NoKillBefore(b, fd, l, k);
    if l.client.running {
      FlightWakes(l.client, n, w, p, flight[..i + 1]);
    }
  }

  lemma NoKillBefore(b: Broker, fd: Fd, l: Link, k: nat)
    requires LinkInv(b, fd, l) && k < |l.log| && l.log[k].reply.Notify?
    ensures forall i :: 0 <= i <= k ==> l.log[i].reply.Notify?
  {
    hide Enrolled, Expected, Gapless, Converges, InStep;
  }

  // ---- delivery ----

  /** Whatever a connection did, the values sent to it for a topic are values of the
      topic's history, in order, none left out between the first and the last; each is
      the one before or the next, and the last is the last stored. */
  lemma OrderedDelivery(s: System, fd: Fd, n: Name)
    requires Reachable(s) && fd in s.links
    ensures var xs := For(s.links[fd].log, n);
            var h := Hist(s.broker, n);
            && (forall i :: 0 <= i < |xs| ==> xs[i].ver < |h| && xs[i].reply == Notify(n, h[xs[i].ver]))
            && (forall i :: 0 < i < |xs| ==> xs[i - 1].ver <= xs[i].ver <= xs[i - 1].ver + 1)
            && (xs != [] ==> xs[|xs| - 1].ver == |h| - 1)
  {
    hide Reachable, LinkInv;
    ReachableLink(s, fd);
    LinkDelivers(s.broker, fd, s.links[fd], n);
  }

  /** A connection, open or closed. */
  ghost predicate Has(s: System, l: Link) {
    (exists fd :: fd in s.links && s.links[fd] == l) || l in s.closed
  }

  lemma ReachableSound(s: System, l: Link)
    requires Reachable(s) && Has(s, l)
    ensures Sound(s.broker, l)
  {
    hide Reachable, B.Inv, LinkInv, Sound;
    ReachableInv(s);
    if l in s.closed {
      var k :| 0 <= k < |s.closed| && s.closed[k] == l;
    } else {
      var fd :| fd in s.links && s.links[fd] == l;
      SoundFromLink(s.broker, fd, l);
    }
  }

  /** Up to the last one, the same holds of what was sent to a connection since closed. */
  lemma DeliveryBeforeClose(s: System, l: Link, n: Name)
    requires Reachable(s) && Has(s, l)
    ensures var xs := For(l.log, n);
            var h := Hist(s.broker, n);
            && (forall i :: 0 <= i < |xs| ==> xs[i].ver < |h| && xs[i].reply == Notify(n, h[xs[i].ver]))
            && (forall i :: 0 < i < |xs| ==> xs[i - 1].ver <= xs[i].ver <= xs[i - 1].ver + 1)
  {
    hide Reachable, Sound, For, Hist;
    ReachableSound(s, l);
    SoundDelivers(s.broker, l, n);
  }

  lemma SoundDelivers(b: Broker, l: Link, n: Name)
    requires Sound(b, l)
    ensures var xs := For(l.log, n);
            var h := Hist(b, n);
            && Climbs(xs)
            && (forall i :: 0 <= i < |xs| ==> xs[i].ver < |h| && xs[i].reply == Notify(n, h[xs[i].ver]))
  {
    hide InStep, For, Hist, Climbs;
    var xs := For(l.log, n);
    ForMembers(l.log, n);
    forall i | 0 <= i < |xs|
      ensures xs[i].ver < |Hist(b, n)| && xs[i].reply == Notify(n, Hist(b, n)[xs[i].ver])
    {
      assert xs[i] in xs;
      assert B.Genuine(b, xs[i]);
    }
  }

  lemma ReachableLink(s: System, fd: Fd)
    requires Reachable(s) && fd in s.links
    ensures LinkInv(s.broker, fd, s.links[fd])
  {
    hide Reachable, B.Inv, LinkInv;
    ReachableInv(s);
  }

  lemma LinkDelivers(b: Broker, fd: Fd, l: Link, n: Name)
    requires LinkInv(b, fd, l)
    ensures var xs := For(l.log, n);
            var h := Hist(b, n);
            && (forall i :: 0 <= i < |xs| ==> xs[i].ver < |h| && xs[i].reply == Notify(n, h[xs[i].ver]))
            && (forall i :: 0 < i < |xs| ==> xs[i - 1].ver <= xs[i].ver <= xs[i - 1].ver + 1)
            && (xs != [] ==> xs[|xs| - 1].ver == |h| - 1)
  {
    hide Enrolled, Expected, InStep, Converges, KillsLast, For, Subs, InOrder, Hist, Sound;
    SoundFromLink(b, fd, l);
    SoundDelivers(b, l, n);
    InOrderMeans(For(l.log, n), |Hist(b, n)|);
  }

  lemma InOrderMeans(xs: seq<Send>, stored: nat)
    requires InOrder(xs, stored)
    ensures forall i :: 0 < i < |xs| ==> xs[i - 1].ver <= xs[i].ver <= xs[i - 1].ver + 1
    ensures xs != [] ==> xs[|xs| - 1].ver == stored - 1
  {}

  // ---- reads ----

  predicate ValidReturn(e: C.Event, n: Name) {
    e.Returned? && e.name == n && C.Valid(e.state)
  }

  lemma {:induction false} HandledPrefix(tr: seq<C.Event>, t: nat)
    requires t <= |tr|
    ensures Handled(tr[..t]) <= Handled(tr)
  {
    if t == |tr| {
      assert tr[..t] == tr;
    } else {
      HandledPrefix(tr[..|tr| - 1], t);
      assert tr[..|tr| - 1][..t] == tr[..t];
    }
  }

  lemma {:induction false} RepliesLength(log: seq<Send>)
    ensures |Replies(log)| == |log|
    ensures forall i :: 0 <= i < |log| ==> Replies(log)[i] == log[i].reply
  {
    if log != [] {
      RepliesLength(log[..|log| - 1]);
    }
  }

  /** The last payload applied is the last one for the topic among the packets handled. */
  lemma {:induction false} LatestIsLast(tr: seq<C.Event>, log: seq<Send>, n: Name, d: Data)
    requires C.Latest(tr, n) == Some(d) && Handled(tr) == Replies(log)
    requires forall i :: 0 <= i < |tr| ==> !tr[i].Ignored?
    ensures For(log, n) != [] && For(log, n)[|For(log, n)| - 1].reply == Notify(n, d)
  {
    var e, before := tr[|tr| - 1], tr[..|tr| - 1];
    if PacketOf(e) == [] {
      assert Handled(tr) == Handled(before);
      LatestIsLast(before, log, n, d);
    } else {
      assert Handled(tr) == Handled(before) + PacketOf(e);
      RepliesLength(log);
      var x, rest := log[|log| - 1], log[..|log| - 1];
      assert log == rest + [x];
      assert Replies(log) == Replies(rest) + [x.reply];
      assert Handled(before) == Handled(tr)[..|Handled(tr)| - 1] == Replies(rest);
      ForConcat(rest, [x], n);
      assert For([x], n) == if x.reply.Notify? && x.reply.name == n then [x] else [];
      if e != C.Applied(n, d) {
        LatestIsLast(before, rest, n, d);
      }
    }
  }

  /** The place in the topic's history of what `get` returned at place `t` of the trace:
      that of the last value for the topic handled by then. */
  function Version(l: Link, t: nat, n: Name): nat
    requires t <= |l.client.trace| && |Handled(l.client.trace[..t])| <= |l.log|
  {
    var xs := For(l.log[..|Handled(l.client.trace[..t])|], n);
    if xs == [] then 0 else xs[|xs| - 1].ver
  }

  lemma HandledInLog(l: Link, t: nat)
    requires InStep(l) && t <= |l.client.trace|
    ensures var p := |Handled(l.client.trace[..t])|;
            p <= l.pos <= |l.log| && Handled(l.client.trace[..t]) == Replies(l.log[..p])
  {
    hide L.Inv;
    var tr, p := l.client.trace, |Handled(l.client.trace[..t])|;
    HandledPrefix(tr, t);
    RepliesLength(l.log[..l.pos]);
    RepliesLength(l.log[..p]);
    assert forall i :: 0 <= i < p ==> Handled(tr[..t])[i] == Handled(tr)[i];
  }

  /** What a valid result has to do with the packets handled before it. */
  lemma ReadOf(l: Link, t: nat, n: Name)
    requires InStep(l)
    requires t < |l.client.trace| && ValidReturn(l.client.trace[t], n)
    ensures |Handled(l.client.trace[..t])| <= |l.log|
    ensures var xs := For(l.log[..|Handled(l.client.trace[..t])|], n);
            xs != [] && xs[|xs| - 1].reply == Notify(n, l.client.trace[t].data)
  {
    hide L.CacheTold, L.PointOk;
    var tr, e := l.client.trace, l.client.trace[t];
    HandledInLog(l, t);
    assert C.Justified(tr[..t], n, e.wait, e.state, e.data);
    hide InStep, Handled, Replies, For, C.Since, C.Latest;
    L.SinceLatest(tr[..t], n);
    NoneIgnored(l, t);
    LatestIsLast(tr[..t], l.log[..|Handled(tr[..t])|], n, e.data);
  }

  lemma NoneIgnored(l: Link, t: nat)
    requires InStep(l) && t <= |l.client.trace|
    ensures forall i :: 0 <= i < t ==> !l.client.trace[..t][i].Ignored?
  {
    hide L.Inv, Handled;
  }

  /** In every reachable state, every valid result of `get`, even one after the broker has
      closed the connection, is a value that the broker stored for the topic, and a later
      result, however often the client subscribed again and whatever was cleared between,
      is never an earlier value. */
  lemma MonotoneReads(s: System, l: Link, n: Name, t: nat, u: nat)
    requires Reachable(s) && Has(s, l)
    requires t <= u < |l.client.trace| && ValidReturn(l.client.trace[t], n) && ValidReturn(l.client.trace[u], n)
    ensures var h := Hist(s.broker, n);
            && |Handled(l.client.trace[..t])| <= |l.log| && |Handled(l.client.trace[..u])| <= |l.log|
            && Version(l, t, n) <= Version(l, u, n) < |h|
            && h[Version(l, t, n)] == l.client.trace[t].data
            && h[Version(l, u, n)] == l.client.trace[u].data
  {
    hide Reachable, Has, Sound, Version, For, Hist, Handled;
    ReachableSound(s, l);
    SoundReads(s.broker, l, n, t, u);
  }

  lemma SoundReads(b: Broker, l: Link, n: Name, t: nat, u: nat)
    requires Sound(b, l)
    requires t <= u < |l.client.trace| && ValidReturn(l.client.trace[t], n) && ValidReturn(l.client.trace[u], n)
    ensures var h := Hist(b, n);
            && |Handled(l.client.trace[..t])| <= |l.log| && |Handled(l.client.trace[..u])| <= |l.log|
            && Version(l, t, n) <= Version(l, u, n) < |h|
            && h[Version(l, t, n)] == l.client.trace[t].data
            && h[Version(l, u, n)] == l.client.trace[u].data
  {
    assert InStep(l);
    hide Sound, InStep, For, Hist, Handled, Version;
    var i := ReadPlace(l, t, n);
    var j := ReadPlace(l, u, n);
    SoundDelivers(b, l, n);
    LaterPlace(l, t, u, n);
    assert i < j ==> For(l.log, n)[i].ver <= For(l.log, n)[j].ver;
  }

  /** The place, among the values sent for the topic, of the one that `get` returned. */
  lemma ReadPlace(l: Link, t: nat, n: Name) returns (i: nat)
    requires InStep(l) && t < |l.client.trace| && ValidReturn(l.client.trace[t], n)
    ensures |Handled(l.client.trace[..t])| <= |l.log|
    ensures i + 1 == |For(l.log[..|Handled(l.client.trace[..t])|], n)| && i < |For(l.log, n)|
    ensures For(l.log, n)[i].ver == Version(l, t, n)
    ensures For(l.log, n)[i].reply == Notify(n, l.client.trace[t].data)
  {
    hide InStep, For, Handled;
    ReadOf(l, t, n);
    var p := |Handled(l.client.trace[..t])|;
    ForPrefix(l.log, p, n);
    i := |For(l.log[..p], n)| - 1;
    assert For(l.log[..p], n)[i] == For(l.log, n)[i];
  }

  lemma LaterPlace(l: Link, t: nat, u: nat, n: Name)
    requires t <= u <= |l.client.trace| && |Handled(l.client.trace[..u])| <= |l.log|
    ensures |Handled(l.client.trace[..t])| <= |l.log|
    ensures |For(l.log[..|Handled(l.client.trace[..t])|], n)| <= |For(l.log[..|Handled(l.client.trace[..u])|], n)|
  {
    hide For, Handled;
    var tr := l.client.trace;
    var p, q := |Handled(tr[..t])|, |Handled(tr[..u])|;
    HandledPrefix(tr[..u], t);
    assert tr[..u][..t] == tr[..t];
    ForPrefix(l.log[..q], p, n);
    assert l.log[..q][..p] == l.log[..p];
  }

  lemma ForPrefix(log: seq<Send>, p: nat, n: Name)
    requires p <= |log|
    ensures For(log[..p], n) <= For(log, n)
  {
    assert log == log[..p] + log[p..];
    ForConcat(log[..p], log[p..], n);
  }

  // ---- waiting for new data ----

  /** Nor does a `get` wait in vain for new data: in every reachable state, if it waits for
      that, either what the client has is the last value stored for the topic, or there is
      one in flight, and, unless the client has lost the connection, handling what is in
      flight up to that is possible and leaves the thread signalled. */
  lemma NewDataInFlight(s: System, fd: Fd, n: Name, w: C.Wait)
    requires Reachable(s) && fd in s.links
    requires s.links[fd].client.app == C.Parked(n, w, C.NewData)
    ensures var l := s.links[fd];
            var h := Hist(s.broker, n);
            && l.pos <= |l.log| && n in l.client.cache
            && (For(l.log[l.pos..], n) == [] ==> h != [] && l.client.cache[n].data == h[|h| - 1])
            && (For(l.log[l.pos..], n) != [] && l.client.running ==>
                  exists k: nat :: l.pos <= k < |l.log| && WokenBy(l, n, w, k))
  {
    hide Reachable, LinkInv, For, Hist, WokenBy;
    ReachableLink(s, fd);
    var l := s.links[fd];
    LastHandled(s.broker, fd, l, n, w);
    if For(l.log[l.pos..], n) == [] {
      assert l.log == l.log[..l.pos] + l.log[l.pos..];
      ForConcat(l.log[..l.pos], l.log[l.pos..], n);
      assert For(l.log[..l.pos], n) + [] == For(l.log[..l.pos], n);
      LinkDelivers(s.broker, fd, l, n);
    } else if l.client.running {
      var k := LinkWakes(s.broker, fd, l, n, w, C.NewData);
      WokenIs(l, n, w, k);
    }
  }

  /** The reply at place `k` is the next for `n`, and handling what is in flight up to it
      signals the thread that waits for new data. */
  ghost predicate WokenBy(l: Link, n: Name, w: C.Wait, k: nat)
    requires l.pos <= k < |l.log|
  {
    && l.log[k].reply.Notify? && l.log[k].reply.name == n && For(l.log[l.pos..k], n) == []
    && C.Legal(l.client, Moves(l.log[l.pos..k + 1]))
    && C.Run(l.client, Moves(l.log[l.pos..k + 1])).app == C.Signalled(n, w, C.NewData)
  }

  lemma WokenIs(l: Link, n: Name, w: C.Wait, k: nat)
    requires l.pos <= k < |l.log| && l.log[k].reply.Notify? && l.log[k].reply.name == n
    requires For(l.log[l.pos..k], n) == []
    requires C.Legal(l.client, Moves(l.log[l.pos..k + 1]))
    requires C.Run(l.client, Moves(l.log[l.pos..k + 1])).app == C.Signalled(n, w, C.NewData)
    ensures WokenBy(l, n, w, k)
  {}

  /** What a client that waits for new data has is the last value it has handled. */
  lemma LastHandled(b: Broker, fd: Fd, l: Link, n: Name, w: C.Wait)
    requires LinkInv(b, fd, l) && l.client.app == C.Parked(n, w, C.NewData)
    ensures l.pos <= |l.log| && n in l.client.cache && l.client.waiting == Some(n)
    ensures var xs := For(l.log[..l.pos], n);
            xs != [] && xs[|xs| - 1].reply == Notify(n, l.client.cache[n].data)
  {
    hide Enrolled, Expected, Gapless, Converges, KillsLast, L.ResultsJustified;
    assert L.PointOk(l.client);
    assert L.Told(l.client.trace, n, l.client.cache[n]);
    hide L.CacheTold, Handled, Replies, For, C.Latest, C.Since;
    LatestIsLast(l.client.trace, l.log[..l.pos], n, l.client.cache[n].data);
  }

  // ---- packets arrive where they are expected ----

  /** No client ever gets a notification for a topic it has not in its map: none has been
      ignored, and any in flight is of a topic already there; even on a connection that
      the broker has closed. */
  lemma EveryNotificationExpected(s: System, l: Link)
    requires Reachable(s) && Has(s, l)
    ensures forall i :: 0 <= i < |l.client.trace| ==> !l.client.trace[i].Ignored?
    ensures forall i :: 0 <= i < |l.log| && l.log[i].reply.Notify? ==> l.log[i].reply.name in l.client.cache
  {
    hide Reachable, Has, L.Inv, B.Genuine, Climbs;
    ReachableSound(s, l);
  }

  /** A kill is sent exactly when the broker has shut down, once, to every connection there
      was then, as its last packet; a client that has handled it has stopped, and there
      is nothing left for it to handle. */
  lemma OrderlyKill(s: System, fd: Fd)
    requires Reachable(s) && fd in s.links
    ensures var l := s.links[fd];
            && (s.broker.down ==> l.log != [] && l.log[|l.log| - 1].reply == KillClient)
            && (forall i :: 0 <= i < |l.log| && l.log[i].reply == KillClient ==> s.broker.down && i == |l.log| - 1)
            && (C.Killed in l.client.trace ==> !l.client.running && l.pos == |l.log|)
  {
    hide Reachable, LinkInv;
    ReachableLink(s, fd);
    LinkKills(s.broker, fd, s.links[fd]);
  }

  lemma LinkKills(b: Broker, fd: Fd, l: Link)
    requires LinkInv(b, fd, l)
    ensures b.down ==> l.log != [] && l.log[|l.log| - 1].reply == KillClient
    ensures forall i :: 0 <= i < |l.log| && l.log[i].reply == KillClient ==> b.down && i == |l.log| - 1
    ensures C.Killed in l.client.trace ==> !l.client.running && l.pos == |l.log|
  {
    hide Gapless, Converges, Expected, Enrolled, L.CacheTold, L.ResultsJustified, L.PointOk, Handled, Replies;
    if C.Killed in l.client.trace {
      HandledHas(l.client.trace);
      RepliesLength(l.log[..l.pos]);
    }
  }

  lemma {:induction false} HandledHas(tr: seq<C.Event>)
    requires C.Killed in tr
    ensures KillClient in Handled(tr)
  {
    if tr[|tr| - 1] != C.Killed {
      assert C.Killed in tr[..|tr| - 1];
      HandledHas(tr[..|tr| - 1]);
    }
  }
}
