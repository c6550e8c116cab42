// The invariant of the composed system: what each connection keeps.
module SystemLaws {
  import opened Types
  import opened BrokerSpec
  import B = BrokerLaws
  import R = BrokerRuns
  import C = ClientSpec
  import L = ClientLaws
  import opened SystemSpec

  // ---- what is in a channel ----

  /** The sends that carry a value of topic `n`. */
  function For(log: seq<Send>, n: Name): seq<Send> {
    if log == [] then []
    else (if log[0].reply.Notify? && log[0].reply.name == n then [log[0]] else []) + For(log[1..], n)
  }

  lemma {:induction false} ForConcat(a: seq<Send>, b: seq<Send>, n: Name)
    ensures For(a + b, n) == For(a, n) + For(b, n)
  {
    if a == [] {
      assert a + b == b;
    } else {
      var head := if a[0].reply.Notify? && a[0].reply.name == n then [a[0]] else [];
      assert (a + b)[1..] == a[1..] + b && (a + b)[0] == a[0];
      ForConcat(a[1..], b, n);
      ConcatAssoc(head, For(a[1..], n), For(b, n));
    }
  }

  lemma {:induction false} ForMembers(log: seq<Send>, n: Name)
    ensures forall x :: x in For(log, n) <==> x in log && x.reply.Notify? && x.reply.name == n
  {
    if log != [] {
      ForMembers(log[1..], n);
      assert log == [log[0]] + log[1..];
    }
  }

  lemma {:induction false} ForNone(log: seq<Send>, n: Name)
    requires forall i :: 0 <= i < |log| && log[i].reply.Notify? ==> log[i].reply.name != n
    ensures For(log, n) == []
  {
    if log != [] {
      ForNone(log[1..], n);
    }
  }

  /** A cached topic once the replies in flight have been handled. */
  function Eventual(k: C.Cached, flight: seq<Send>, n: Name): C.Cached
    decreases |flight|
  {
    if flight == [] then k
    else
      var r := flight[0].reply;
      Eventual(if r.Notify? && r.name == n then C.Cached(r.data, C.Changed) else k, flight[1..], n)
  }

  lemma {:induction false} EventualConcat(k: C.Cached, a: seq<Send>, b: seq<Send>, n: Name)
    ensures Eventual(k, a + b, n) == Eventual(Eventual(k, a, n), b, n)
    decreases |a|
  {
    if a == [] {
      assert a + b == b;
    } else {
      assert (a + b)[1..] == a[1..] + b && (a + b)[0] == a[0];
      var r := a[0].reply;
      EventualConcat(if r.Notify? && r.name == n then C.Cached(r.data, C.Changed) else k, a[1..], b, n);
    }
  }

  /** Two views of a topic with the same data, both filled or neither. */
  predicate SameData(j: C.Cached, k: C.Cached) {
    j.data == k.data && (j.state == C.NoData <==> k.state == C.NoData)
  }

  lemma {:induction false} EventualSame(j: C.Cached, k: C.Cached, flight: seq<Send>, n: Name)
    requires SameData(j, k)
    ensures SameData(Eventual(j, flight, n), Eventual(k, flight, n))
    decreases |flight|
  {
    if flight != [] {
      var r := flight[0].reply;
      var hit := r.Notify? && r.name == n;
      EventualSame(if hit then C.Cached(r.data, C.Changed) else j,
                   if hit then C.Cached(r.data, C.Changed) else k, flight[1..], n);
    }
  }

  // ---- what a link keeps ----

  /** The broker has the link's descriptor as a subscriber of `n` exactly when it has
      served a subscription to `n` from it; the client has every topic it asked for. */
  ghost predicate Enrolled(b: Broker, fd: Fd, l: Link) {
    && l.served <= |l.reqs|
    && (forall n: Name :: fd in Subs(b, n) <==> Subscribe(n) in l.reqs[..l.served])
    && (forall n: Name :: Subscribe(n) in l.reqs ==> n in l.client.cache)
    && (forall i :: 0 <= i < |l.reqs| && l.reqs[i].Publish? ==> |l.reqs[i].name| <= 128)
  }

  /** Only topics subscribed to are sent, and values of those were really stored. */
  ghost predicate Expected(b: Broker, fd: Fd, l: Link) {
    forall i :: 0 <= i < |l.log| ==>
      && B.Genuine(b, l.log[i])
      && (l.log[i].reply.Notify? ==> fd in Subs(b, l.log[i].reply.name))
  }

  /** The values go through a history in order and leave none out: each is at the place of
      the one before or the next. */
  predicate Climbs(xs: seq<Send>) {
    forall i, j :: 0 <= i < j < |xs| ==> xs[i].ver <= xs[j].ver <= xs[i].ver + (j - i)
  }

  /** And the last one sent is the last one stored. */
  predicate InOrder(xs: seq<Send>, stored: nat) {
    && Climbs(xs)
    && (xs != [] ==> xs[|xs| - 1].ver + 1 == stored)
  }

  ghost predicate Gapless(b: Broker, l: Link) {
    forall n: Name :: InOrder(For(l.log, n), |Hist(b, n)|)
  }

  ghost predicate SettlesOn(l: Link, n: Name, d: Data)
    requires l.pos <= |l.log|
  {
    && n in l.client.cache
    && Eventual(l.client.cache[n], l.log[l.pos..], n).data == d
    && Eventual(l.client.cache[n], l.log[l.pos..], n).state != C.NoData
  }

  /** The cached copy of a retained topic, after what is in flight, is the retained one. */
  ghost predicate Converges(b: Broker, fd: Fd, l: Link) {
    && l.pos <= |l.log| && l.served <= |l.reqs|
    && forall n: Name ::
         fd in Subs(b, n) && n in b.topics && Subscribe(n) !in l.reqs[l.served..]
         ==> SettlesOn(l, n, b.topics[n])
  }

  function Replies(log: seq<Send>): seq<Reply> {
    if log == [] then [] else Replies(log[..|log| - 1]) + [log[|log| - 1].reply]
  }

  /** The packets handled, by a client's trace. */
  function Handled(tr: seq<C.Event>): seq<Reply> {
    if tr == [] then []
    else
      var before := Handled(tr[..|tr| - 1]);
      match tr[|tr| - 1]
      case Applied(n, d) => before + [Notify(n, d)]
      case Ignored(n, d) => before + [Notify(n, d)]
      case Killed => before + [KillClient]
      case _ => before
  }

  /** The client has handled the channel's first `pos` packets, and ignored none. */
  ghost predicate InStep(l: Link) {
    && L.Inv(l.client)
    && l.pos <= |l.log|
    && Handled(l.client.trace) == Replies(l.log[..l.pos])
    && (forall i :: 0 <= i < |l.client.trace| ==> !l.client.trace[i].Ignored?)
  }

  /** A kill is the last thing sent, once, when the broker shuts down. */
  predicate KillsLast(b: Broker, l: Link) {
    && (forall i :: 0 <= i < |l.log| - 1 ==> l.log[i].reply != KillClient)
    && (l.log != [] && l.log[|l.log| - 1].reply == KillClient ==> b.down)
    && (b.down ==> l.log != [] && l.log[|l.log| - 1].reply == KillClient)
  }

  ghost predicate LinkInv(b: Broker, fd: Fd, l: Link) {
    && Enrolled(b, fd, l)
    && Expected(b, fd, l)
    && Gapless(b, l)
    && Converges(b, fd, l)
    && InStep(l)
    && KillsLast(b, l)
  }

  ghost predicate Live(s: System) {
    && B.Inv(s.broker)
    && s.links.Keys == s.broker.clients
    && forall fd :: fd in s.links ==> LinkInv(s.broker, fd, s.links[fd])
  }

  /** What holds of a connection even after it is closed: everything sent is a value of
      its topic's history, for a topic the client has; of each topic, in order and none
      left out; and the client has handled them in that order. */
  ghost predicate Sound(b: Broker, l: Link) {
    && InStep(l)
    && (forall i :: 0 <= i < |l.log| ==>
          && B.Genuine(b, l.log[i])
          && (l.log[i].reply.Notify? ==> l.log[i].reply.name in l.client.cache))
    && (forall n: Name :: Climbs(For(l.log, n)))
  }

  ghost predicate Inv(s: System) {
    Live(s) && forall k :: 0 <= k < |s.closed| ==> Sound(s.broker, s.closed[k])
  }

  // ---- the broker stores a value ----

  lemma AnnounceGrows(b: Broker, n: Name, d: Data, fd: Fd, l: Link)
    ensures var t := Announce(b, n, d);
            && |b.log| <= |t.log|
            && Grow(l, b, t, fd) == l.(log := l.log + R.Copy(Subs(b, n), fd, n, d, |Hist(b, n)|))
            && (forall m: Name :: Subs(t, m) == Subs(b, m))
            && (forall m: Name :: Hist(t, m) == Hist(b, m) + (if m == n then [d] else []))
            && t.topics == b.topics[n := d] && t.down == b.down && t.hist == b.hist[n := Hist(b, n) + [d]]
  {
    R.AnnounceCopies(b, n, d, fd);
    hide Broadcast;
    forall m: Name
      ensures Subs(Announce(b, n, d), m) == Subs(b, m)
      ensures Hist(Announce(b, n, d), m) == Hist(b, m) + (if m == n then [d] else [])
    {
      R.AnnounceHistory(b, n, d, m);
    }
  }

  lemma InOrderMore(xs: seq<Send>, x: Send, stored: nat, stored': nat)
    requires InOrder(xs, stored)
    requires x.ver + 1 == stored' && (xs != [] ==> stored <= stored' <= stored + 1)
    ensures InOrder(xs + [x], stored')
  {}

  lemma AnnounceGapless(b: Broker, n: Name, d: Data, fd: Fd, l: Link)
    requires Gapless(b, l) && Expected(b, fd, l)
    ensures var t := Announce(b, n, d); Gapless(t, Grow(l, b, t, fd))
  {
    AnnounceGrows(b, n, d, fd, l);
    hide Announce, Grow, InOrder;
    var t := Announce(b, n, d);
    var more := R.Copy(Subs(b, n), fd, n, d, |Hist(b, n)|);
    forall m: Name ensures InOrder(For(l.log + more, m), |Hist(t, m)|) {
      ForConcat(l.log, more, m);
      ForCopy(Subs(b, n), fd, n, d, |Hist(b, n)|, m);
      assert For(l.log, m) + [] == For(l.log, m);
      if m == n {
        if fd in Subs(b, n) {
          InOrderMore(For(l.log, n), more[0], |Hist(b, n)|, |Hist(t, n)|);
        } else {
          NothingFor(b, fd, l, n);
          NoneInOrder(|Hist(t, n)|);
        }
      }
    }
  }

  lemma ForCopy(fds: set<Fd>, fd: Fd, n: Name, d: Data, ver: nat, m: Name)
    ensures var more := R.Copy(fds, fd, n, d, ver);
            For(more, m) == if m == n then more else []
  {}

  lemma NoneInOrder(stored: nat)
    ensures InOrder([], stored)
  {}

  lemma NothingFor(b: Broker, fd: Fd, l: Link, n: Name)
    requires Expected(b, fd, l) && fd !in Subs(b, n)
    ensures For(l.log, n) == []
  {
    ForNone(l.log, n);
  }

  lemma AnnounceConverges(b: Broker, n: Name, d: Data, fd: Fd, l: Link)
    requires Converges(b, fd, l) && Enrolled(b, fd, l)
    ensures var t := Announce(b, n, d); Converges(t, fd, Grow(l, b, t, fd))
  {
    AnnounceGrows(b, n, d, fd, l);
    hide Announce, Grow;
    var t := Announce(b, n, d);
    var more := R.Copy(Subs(b, n), fd, n, d, |Hist(b, n)|);
    var l1 := l.(log := l.log + more);
    assert l1.log[l1.pos..] == l.log[l.pos..] + more;
    forall m: Name | fd in Subs(t, m) && m in t.topics && Subscribe(m) !in l.reqs[l.served..]
      ensures SettlesOn(l1, m, t.topics[m])
    {
      assert Subscribe(m) in l.reqs;
      EventualConcat(l.client.cache[m], l.log[l.pos..], more, m);
      if m != n {
        assert SettlesOn(l, m, b.topics[m]);
      }
    }
  }

  lemma AnnounceLink(b: Broker, n: Name, d: Data, fd: Fd, l: Link)
    requires LinkInv(b, fd, l) && !b.down
    ensures var t := Announce(b, n, d); LinkInv(t, fd, Grow(l, b, t, fd))
  {
    AnnounceGapless(b, n, d, fd, l);
    AnnounceConverges(b, n, d, fd, l);
    AnnounceExpected(b, n, d, fd, l);
    AnnounceRest(b, n, d, fd, l);
    hide Announce, Grow, Gapless, Converges, Expected, Enrolled, InStep, KillsLast;
  }

  lemma AnnounceRest(b: Broker, n: Name, d: Data, fd: Fd, l: Link)
    requires Enrolled(b, fd, l) && InStep(l) && KillsLast(b, l) && !b.down
    ensures var t := Announce(b, n, d);
            var l1 := Grow(l, b, t, fd);
            Enrolled(t, fd, l1) && InStep(l1) && KillsLast(t, l1)
  {
    AnnounceGrows(b, n, d, fd, l);
    hide Announce, Grow, Enrolled, InStep, KillsLast;
    var t := Announce(b, n, d);
    var more := R.Copy(Subs(b, n), fd, n, d, |Hist(b, n)|);
    EnrolledSame(b, t, fd, l, more);
    InStepMore(l, more);
    KillsLater(b, t, l, more);
  }

  lemma EnrolledSame(b: Broker, t: Broker, fd: Fd, l: Link, more: seq<Send>)
    requires Enrolled(b, fd, l) && forall m: Name :: Subs(t, m) == Subs(b, m)
    ensures Enrolled(t, fd, l.(log := l.log + more))
  {
    hide Subs;
  }

  lemma InStepMore(l: Link, more: seq<Send>)
    requires InStep(l)
    ensures InStep(l.(log := l.log + more))
  {
    hide L.Inv;
    assert (l.log + more)[..l.pos] == l.log[..l.pos];
  }

  lemma KillsLater(b: Broker, t: Broker, l: Link, more: seq<Send>)
    requires KillsLast(b, l) && !b.down && !t.down
    requires forall i :: 0 <= i < |more| ==> more[i].reply != KillClient
    ensures KillsLast(t, l.(log := l.log + more))
  {
    var log := l.log + more;
    forall i | 0 <= i < |log| ensures log[i].reply != KillClient {
      if i >= |l.log| {
        assert log[i] == more[i - |l.log|];
      }
    }
  }

  lemma AnnounceExpected(b: Broker, n: Name, d: Data, fd: Fd, l: Link)
    requires Expected(b, fd, l)
    ensures var t := Announce(b, n, d); Expected(t, fd, Grow(l, b, t, fd))
  {
    AnnounceGrows(b, n, d, fd, l);
    var t := Announce(b, n, d);
    B.GenuineLater(b, t, n, d);
    hide Announce, Grow, B.Genuine;
    var more := R.Copy(Subs(b, n), fd, n, d, |Hist(b, n)|);
    var log := l.log + more;
    forall i | 0 <= i < |log|
      ensures B.Genuine(t, log[i]) && (log[i].reply.Notify? ==> fd in Subs(t, log[i].reply.name))
    {
      if i < |l.log| {
        assert log[i] == l.log[i];
      } else {
        assert log[i] == more[0] == Send(fd, Notify(n, d), |Hist(b, n)|);
        B.NewIsGenuine(b, t, n, d, log[i]);
      }
    }
  }

  // ---- the broker serves a request ----

  lemma GrowTwice(l: Link, a: Broker, b: Broker, c: Broker, fd: Fd)
    requires a.log <= b.log <= c.log
    ensures Grow(Grow(l, a, b, fd), b, c, fd) == Grow(l, a, c, fd)
  {
    R.LaterSends(a.log, b.log, c.log, fd);
    hide To;
    ConcatAssoc(l.log, To(b.log[|a.log|..], fd), To(c.log[|b.log|..], fd));
  }

  lemma GrowNot(l: Link, b: Broker, t: Broker, fd: Fd)
    requires t.log == b.log
    ensures Grow(l, b, t, fd) == l
  {
    assert t.log[|b.log|..] == [];
    assert l.log + [] == l.log;
  }

  /** A link's invariant looks only at these parts of the broker. */
  lemma SameLink(b: Broker, t: Broker, fd: Fd, l: Link)
    requires LinkInv(b, fd, l)
    requires forall n: Name :: fd in Subs(t, n) <==> fd in Subs(b, n)
    requires t.hist == b.hist && t.down == b.down
    requires t.topics == b.topics || t.topics == map[]
    ensures LinkInv(t, fd, l)
  {
    hide InStep, KillsLast, Enrolled, Gapless, Converges, Expected, Subs;
    SameEnrolled(b, t, fd, l);
    SameValues(b, t, fd, l);
    SameConverges(b, t, fd, l);
    KillsDown(b, t, l);
  }

  lemma SameEnrolled(b: Broker, t: Broker, fd: Fd, l: Link)
    requires Enrolled(b, fd, l) && forall n: Name :: fd in Subs(t, n) <==> fd in Subs(b, n)
    ensures Enrolled(t, fd, l)
  {
    hide Subs;
  }

  lemma SameValues(b: Broker, t: Broker, fd: Fd, l: Link)
    requires Expected(b, fd, l) && Gapless(b, l) && t.hist == b.hist
    requires forall n: Name :: fd in Subs(t, n) <==> fd in Subs(b, n)
    ensures Expected(t, fd, l) && Gapless(t, l)
  {
    B.SameHistory(b, t);
    hide Subs, Hist, B.Genuine, InOrder, For;
  }

  lemma SameConverges(b: Broker, t: Broker, fd: Fd, l: Link)
    requires Converges(b, fd, l) && (t.topics == b.topics || t.topics == map[])
    requires forall n: Name :: fd in Subs(t, n) <==> fd in Subs(b, n)
    ensures Converges(t, fd, l)
  {
    hide Subs, SettlesOn;
  }

  lemma KillsDown(b: Broker, t: Broker, l: Link)
    requires KillsLast(b, l) && t.down == b.down
    ensures KillsLast(t, l)
  {}

  /** Serving anything but a subscription changes nothing about the link itself. */
  lemma ServedOther(b: Broker, fd: Fd, l: Link)
    requires LinkInv(b, fd, l) && l.served < |l.reqs| && !l.reqs[l.served].Subscribe?
    ensures LinkInv(b, fd, l.(served := l.served + 1))
  {
    hide InStep, KillsLast, Gapless, Expected;
    var l1 := l.(served := l.served + 1);
    assert l.reqs[..l1.served] == l.reqs[..l.served] + [l.reqs[l.served]];
    assert l.reqs[l.served..] == [l.reqs[l.served]] + l.reqs[l1.served..];
    assert InStep(l1) by { InStepSame(l, l1); }
    assert KillsLast(b, l1) by { KillsSame(b, l, l1); }
    assert Gapless(b, l1) by { GaplessSame(b, l, l1); }
    assert Expected(b, fd, l1) by { ExpectedSame(b, fd, l, l1); }
    forall n: Name | fd in Subs(b, n) && n in b.topics && Subscribe(n) !in l1.reqs[l1.served..]
      ensures SettlesOn(l1, n, b.topics[n])
    {
      assert Subscribe(n) !in l.reqs[l.served..];
      assert SettlesOn(l, n, b.topics[n]);
    }
  }

  lemma InStepSame(l: Link, l1: Link)
    requires InStep(l) && l1.client == l.client && l1.log == l.log && l1.pos == l.pos
    ensures InStep(l1)
  {}

  lemma KillsSame(b: Broker, l: Link, l1: Link)
    requires KillsLast(b, l) && l1.log == l.log
    ensures KillsLast(b, l1)
  {}

  lemma GaplessSame(b: Broker, l: Link, l1: Link)
    requires Gapless(b, l) && l1.log == l.log
    ensures Gapless(b, l1)
  {}

  lemma ExpectedSame(b: Broker, fd: Fd, l: Link, l1: Link)
    requires Expected(b, fd, l) && l1.log == l.log
    ensures Expected(b, fd, l1)
  {}

  // ---- a subscription is served ----

  /** What the broker answers to a subscription. */
  function Answer(b: Broker, fd: Fd, n: Name): seq<Send> {
    if n in b.topics then
      [Send(fd, Notify(n, b.topics[n]), if Hist(b, n) == [] then 0 else |Hist(b, n)| - 1)]
    else []
  }

  lemma SubscribeGrows(b: Broker, fd0: Fd, n: Name, fd: Fd, l: Link)
    ensures var t := SubscribeTo(b, fd0, n);
            && b.log <= t.log
            && Grow(l, b, t, fd) == (if fd == fd0 then l.(log := l.log + Answer(b, fd0, n)) else l)
  {
    var t := SubscribeTo(b, fd0, n);
    assert t.log == b.log + Answer(b, fd0, n);
    assert t.log[|b.log|..] == Answer(b, fd0, n);
    ToAnswer(b, fd0, n, fd);
    hide Answer, Grow, SubscribeTo;
    assert l.log + [] == l.log;
    assert l.(log := l.log) == l;
    GrowBy(l, b, t, fd);
  }

  lemma SubscribeFrame(b: Broker, fd0: Fd, n: Name)
    ensures var t := SubscribeTo(b, fd0, n);
            && (forall m: Name :: Subs(t, m) == Subs(b, m) + (if m == n then {fd0} else {}))
            && t.hist == b.hist && t.topics == b.topics && t.down == b.down
  {}

  lemma GrowBy(l: Link, b: Broker, t: Broker, fd: Fd)
    requires b.log <= t.log
    ensures Grow(l, b, t, fd) == l.(log := l.log + To(t.log[|b.log|..], fd))
  {}

  lemma ToAnswer(b: Broker, fd0: Fd, n: Name, fd: Fd)
    ensures To(Answer(b, fd0, n), fd) == if fd == fd0 then Answer(b, fd0, n) else []
  {
    var a := Answer(b, fd0, n);
    if a != [] {
      assert a[1..] == [];
    }
  }

  lemma SubscribeGapless(b: Broker, fd: Fd, n: Name, l: Link)
    requires Gapless(b, l) && B.Retained(b)
    ensures Gapless(SubscribeTo(b, fd, n), l.(log := l.log + Answer(b, fd, n)))
  {
    var t := SubscribeTo(b, fd, n);
    B.SameHistory(b, t);
    hide InOrder, SubscribeTo, Answer, B.Retained;
    forall m: Name ensures InOrder(For(l.log + Answer(b, fd, n), m), |Hist(t, m)|) {
      AnswerInOrder(b, fd, n, l, m);
    }
  }

  lemma AnswerInOrder(b: Broker, fd: Fd, n: Name, l: Link, m: Name)
    requires InOrder(For(l.log, m), |Hist(b, m)|) && B.Retained(b)
    ensures InOrder(For(l.log + Answer(b, fd, n), m), |Hist(b, m)|)
  {
    var more := Answer(b, fd, n);
    ForConcat(l.log, more, m);
    assert For(l.log, m) + [] == For(l.log, m);
    assert For(more, m) == if m == n then more else [];
    hide InOrder, For;
    if m == n && n in b.topics {
      InOrderMore(For(l.log, n), more[0], |Hist(b, n)|, |Hist(b, n)|);
    }
  }

  lemma SubscribeExpected(b: Broker, fd: Fd, n: Name, l: Link)
    requires Expected(b, fd, l) && B.Retained(b)
    ensures Expected(SubscribeTo(b, fd, n), fd, l.(log := l.log + Answer(b, fd, n)))
  {
    SubscribeFrame(b, fd, n);
    var t := SubscribeTo(b, fd, n);
    B.SameHistory(b, t);
    var more := Answer(b, fd, n);
    var log := l.log + more;
    hide SubscribeTo, B.Genuine, Subs, Grow;
    forall i | 0 <= i < |log|
      ensures B.Genuine(t, log[i]) && (log[i].reply.Notify? ==> fd in Subs(t, log[i].reply.name))
    {
      if i < |l.log| {
        assert log[i] == l.log[i];
      } else {
        assert log[i] == more[0];
        B.RetainedIsGenuine(b, n, more[0]);
      }
    }
  }

  lemma SubscribeEnrolled(b: Broker, fd: Fd, n: Name, l: Link, l1: Link)
    requires Enrolled(b, fd, l) && l.served < |l.reqs| && l.reqs[l.served] == Subscribe(n)
    requires l1.served == l.served + 1 && l1.reqs == l.reqs && l1.client == l.client
    ensures Enrolled(SubscribeTo(b, fd, n), fd, l1)
  {
    SubscribeFrame(b, fd, n);
    hide SubscribeTo, Subs, Grow, Answer;
    assert l.reqs[..l1.served] == l.reqs[..l.served] + [Subscribe(n)];
  }

  lemma SubscribeConverges(b: Broker, fd: Fd, n: Name, l: Link, l1: Link)
    requires Converges(b, fd, l) && Enrolled(b, fd, l) && l.served < |l.reqs| && l.reqs[l.served] == Subscribe(n)
    requires l1 == l.(served := l.served + 1, log := l.log + Answer(b, fd, n))
    ensures Converges(SubscribeTo(b, fd, n), fd, l1)
  {
    SubscribeFrame(b, fd, n);
    var t := SubscribeTo(b, fd, n);
    var more := Answer(b, fd, n);
    hide SubscribeTo, Subs, Grow;
    assert l.reqs[l.served..] == [Subscribe(n)] + l.reqs[l1.served..];
    assert l1.log[l1.pos..] == l.log[l.pos..] + more;
    forall m: Name | fd in Subs(t, m) && m in t.topics && Subscribe(m) !in l1.reqs[l1.served..]
      ensures SettlesOn(l1, m, t.topics[m])
    {
      assert Subscribe(m) in l.reqs;
      EventualConcat(l.client.cache[m], l.log[l.pos..], more, m);
      if m != n {
        assert SettlesOn(l, m, b.topics[m]);
      }
    }
  }

  lemma SubscribeOwn(b: Broker, fd: Fd, n: Name, l: Link)
    requires LinkInv(b, fd, l) && B.Retained(b) && !b.down
    requires l.served < |l.reqs| && l.reqs[l.served] == Subscribe(n)
    ensures var t := SubscribeTo(b, fd, n);
            LinkInv(t, fd, Grow(l.(served := l.served + 1), b, t, fd))
  {
    var l0 := l.(served := l.served + 1);
    SubscribeGrows(b, fd, n, fd, l0);
    SubscribeOwnLog(b, fd, n, l, l0.(log := l0.log + Answer(b, fd, n)));
    hide LinkInv, SubscribeTo, Grow, Answer;
  }

  lemma SubscribeOwnLog(b: Broker, fd: Fd, n: Name, l: Link, l1: Link)
    requires LinkInv(b, fd, l) && B.Retained(b) && !b.down
    requires l.served < |l.reqs| && l.reqs[l.served] == Subscribe(n)
    requires l1 == l.(served := l.served + 1, log := l.log + Answer(b, fd, n))
    ensures LinkInv(SubscribeTo(b, fd, n), fd, l1)
  {
    hide SubscribeTo, Answer, Gapless, Expected, Enrolled, Converges, InStep, KillsLast, B.Retained;
    AnswerFacts(b, fd, n);
    var t := SubscribeTo(b, fd, n);
    var more := Answer(b, fd, n);
    var l2 := l.(log := l.log + more);
    SubscribeGapless(b, fd, n, l);
    SubscribeExpected(b, fd, n, l);
    SubscribeEnrolled(b, fd, n, l, l1);
    SubscribeConverges(b, fd, n, l, l1);
    InStepMore(l, more);
    InStepSame(l2, l1);
    KillsLater(b, t, l, more);
    KillsSame(t, l2, l1);
    GaplessSame(t, l2, l1);
    ExpectedSame(t, fd, l2, l1);
  }

  lemma AnswerFacts(b: Broker, fd: Fd, n: Name)
    ensures forall i :: 0 <= i < |Answer(b, fd, n)| ==> Answer(b, fd, n)[i].reply != KillClient
    ensures SubscribeTo(b, fd, n).down == b.down
  {}

  lemma SubscribeOther(b: Broker, fd0: Fd, n: Name, fd: Fd, l: Link)
    requires LinkInv(b, fd, l) && fd != fd0
    ensures var t := SubscribeTo(b, fd0, n); LinkInv(t, fd, Grow(l, b, t, fd))
  {
    SubscribeGrows(b, fd0, n, fd, l);
    SubscribeFrame(b, fd0, n);
    var t := SubscribeTo(b, fd0, n);
    hide SubscribeTo, Subs, Grow, Answer, LinkInv;
    SameLink(b, t, fd, l);
  }

  // ---- a whole packet ----

  lemma PublishLink(b: Broker, n: Name, d: Data, fd: Fd, l: Link)
    requires LinkInv(b, fd, l) && !b.down
    ensures var t := PublishTopic(b, n, d); LinkInv(t, fd, Grow(l, b, t, fd)) && b.log <= t.log
  {
    hide Announce, LinkInv, Grow, TopicList;
    AnnounceLink(b, n, d, fd, l);
    B.AnnounceKeys(b, n, d);
    if n !in b.topics {
      var b1 := Announce(b, n, d);
      var names := TopicList(b1.topics.Keys + {TOPICS});
      AnnounceLink(b1, TOPICS, names, fd, Grow(l, b, b1, fd));
      B.AnnounceKeys(b1, TOPICS, names);
      GrowTwice(l, b, b1, Announce(b1, TOPICS, names), fd);
    }
  }

  /** The link after its own request, if it is its own, has been counted as served. */
  function Counted(l: Link, own: bool): Link {
    if own then l.(served := l.served + 1) else l
  }

  lemma DispatchLink(b: Broker, fd0: Fd, req: Request, fd: Fd, l: Link)
    requires LinkInv(b, fd, l) && B.Retained(b) && !b.down
    requires fd == fd0 ==> l.served < |l.reqs| && l.reqs[l.served] == req
    ensures var t := Dispatch(b, fd0, req);
            b.log <= t.log && LinkInv(t, fd, Grow(Counted(l, fd == fd0), b, t, fd))
  {
    hide LinkInv, PublishTopic, SubscribeTo, Grow, B.Retained;
    if req.Subscribe? {
      SubscribeGrows(b, fd0, req.name, fd, l);
      if fd == fd0 {
        SubscribeOwn(b, fd, req.name, l);
      } else {
        SubscribeOther(b, fd0, req.name, fd, l);
      }
    } else {
      var l1 := Counted(l, fd == fd0);
      if fd == fd0 {
        ServedOther(b, fd, l);
      }
      if req.Publish? {
        PublishLink(b, req.name, req.data, fd, l1);
      } else {
        var t := Dispatch(b, fd0, req);
        assert forall n: Name :: Subs(t, n) == Subs(b, n);
        SameLink(b, t, fd, l1);
        GrowNot(l1, b, t, fd);
      }
    }
  }

  lemma GrowCounted(l: Link, b: Broker, t: Broker, fd: Fd, own: bool)
    ensures Counted(Grow(l, b, t, fd), own) == Grow(Counted(l, own), b, t, fd)
  {}

  /** The part of a packet's processing that is the same for all packets. */
  lemma StatsLink(b: Broker, now: Word, fd: Fd, l: Link)
    requires LinkInv(b, fd, l) && B.Inv(b) && !b.down
    ensures var t := RebuildStats(b.(recvd := b.recvd + 1), now);
            LinkInv(t, fd, Grow(l, b, t, fd)) && B.Inv(t) && !t.down && b.log <= t.log
  {
    var b0 := b.(recvd := b.recvd + 1);
    assert forall n: Name :: Subs(b0, n) == Subs(b, n);
    hide LinkInv, Announce, Grow, B.Inv, Subs, StatsValue;
    B.SmallStepsInv(b, b0);
    B.StatsInv(b0, now);
    SameLink(b, b0, fd, l);
    var v := StatsValue(b0, now);
    AnnounceLink(b0, STATS, v, fd, l);
    B.AnnounceKeys(b0, STATS, v);
    GrowFrom(l, b, b0, Announce(b0, STATS, v), fd);
  }

  lemma ProcessLink(b: Broker, fd0: Fd, req: Request, now: Word, fd: Fd, l: Link)
    requires LinkInv(b, fd, l) && B.Inv(b) && !b.down
    requires fd == fd0 ==> l.served < |l.reqs| && l.reqs[l.served] == req
    ensures var t := Process(b, fd0, req, now);
            LinkInv(t, fd, Grow(Counted(l, fd == fd0), b, t, fd))
  {
    hide LinkInv, RebuildStats, Dispatch, Grow, B.Inv, Counted;
    var t1 := RebuildStats(b.(recvd := b.recvd + 1), now);
    var l1 := Grow(l, b, t1, fd);
    StatsLink(b, now, fd, l);
    B.InvRetained(t1);
    GrowReqs(l, b, t1, fd);
    DispatchLink(t1, fd0, req, fd, l1);
    GrowCounted(l, b, t1, fd, fd == fd0);
    GrowTwice(Counted(l, fd == fd0), b, t1, Dispatch(t1, fd0, req), fd);
  }

  lemma GrowReqs(l: Link, b: Broker, t: Broker, fd: Fd)
    ensures var l1 := Grow(l, b, t, fd); l1.reqs == l.reqs && l1.served == l.served
  {}

  lemma GrowFrom(l: Link, b: Broker, b0: Broker, t: Broker, fd: Fd)
    requires b.log == b0.log
    ensures Grow(l, b, t, fd) == Grow(l, b0, t, fd)
  {}

  // ---- shutting down ----

  lemma HaltLink(b: Broker, fd: Fd, l: Link)
    requires LinkInv(b, fd, l) && !b.down && fd in b.clients
    ensures var t := Shutdown(b); LinkInv(t, fd, Grow(l, b, t, fd))
  {
    var t := Shutdown(b);
    var last := Send(fd, KillClient, 0);
    HaltGrows(b, fd, l);
    hide Grow, Broadcast;
    assert t.down && t.topics == b.topics;
    assert forall n: Name :: Subs(t, n) == Subs(b, n);
    B.SameHistory(b, t);
    hide Shutdown, Subs, Hist, LinkInv;
    KillAdded(b, t, fd, l, last);
  }

  lemma HaltGrows(b: Broker, fd: Fd, l: Link)
    requires fd in b.clients
    ensures Grow(l, b, Shutdown(b), fd) == l.(log := l.log + [Send(fd, KillClient, 0)])
  {
    BroadcastTo(b.clients, KillClient, 0, fd);
    hide Broadcast;
    assert Shutdown(b).log[|b.log|..] == Broadcast(b.clients, KillClient, 0);
  }

  lemma KillAdded(b: Broker, t: Broker, fd: Fd, l: Link, last: Send)
    requires LinkInv(b, fd, l) && !b.down && t.down && last.reply == KillClient
    requires t.topics == b.topics && forall n: Name :: Subs(t, n) == Subs(b, n) && Hist(t, n) == Hist(b, n)
    requires forall x :: B.Genuine(b, x) ==> B.Genuine(t, x)
    ensures LinkInv(t, fd, l.(log := l.log + [last]))
  {
    hide InStep, KillsLast, Enrolled, Gapless, Converges, Expected, Subs, Hist;
    EnrolledSame(b, t, fd, l, [last]);
    InStepMore(l, [last]);
    KillAddedValues(b, t, fd, l, last);
    KillAddedLast(b, t, l, last);
  }

  lemma KillAddedLast(b: Broker, t: Broker, l: Link, last: Send)
    requires KillsLast(b, l) && !b.down && t.down && last.reply == KillClient
    ensures KillsLast(t, l.(log := l.log + [last]))
  {
    var log := l.log + [last];
    forall i | 0 <= i < |log| - 1 ensures log[i].reply != KillClient {
      assert log[i] == l.log[i];
    }
  }

  lemma KillAddedValues(b: Broker, t: Broker, fd: Fd, l: Link, last: Send)
    requires Gapless(b, l) && Converges(b, fd, l) && Enrolled(b, fd, l) && Expected(b, fd, l)
    requires last.reply == KillClient
    requires t.topics == b.topics && forall n: Name :: Subs(t, n) == Subs(b, n) && Hist(t, n) == Hist(b, n)
    requires forall x :: B.Genuine(b, x) ==> B.Genuine(t, x)
    ensures var l1 := l.(log := l.log + [last]); Gapless(t, l1) && Converges(t, fd, l1) && Expected(t, fd, l1)
  {
    hide InOrder, Subs, Hist;
    var l1 := l.(log := l.log + [last]);
    assert l1.log[l1.pos..] == l.log[l.pos..] + [last];
    forall n: Name ensures InOrder(For(l1.log, n), |Hist(t, n)|) {
      ForConcat(l.log, [last], n);
      assert For([last], n) == [];
      assert For(l.log, n) + [] == For(l.log, n);
    }
    forall n: Name | fd in Subs(t, n) && n in t.topics && Subscribe(n) !in l.reqs[l.served..]
      ensures SettlesOn(l1, n, t.topics[n])
    {
      assert SettlesOn(l, n, b.topics[n]);
      EventualConcat(l.client.cache[n], l.log[l.pos..], [last], n);
    }
    assert Expected(t, fd, l1) by {
      hide B.Genuine;
      forall i | 0 <= i < |l1.log|
        ensures B.Genuine(t, l1.log[i]) && (l1.log[i].reply.Notify? ==> fd in Subs(t, l1.log[i].reply.name))
      {
        if i < |l.log| {
          assert l1.log[i] == l.log[i];
        } else {
          KillIsGenuine(t, l1.log[i]);
        }
      }
    }
  }

  lemma KillIsGenuine(t: Broker, x: Send)
    requires x.reply == KillClient
    ensures B.Genuine(t, x)
  {}

  // ---- a client's own steps ----

  /** The packet an event says was handled, if it does. */
  function PacketOf(e: C.Event): seq<Reply> {
    match e
    case Applied(n, d) => [Notify(n, d)]
    case Ignored(n, d) => [Notify(n, d)]
    case Killed => [KillClient]
    case _ => []
  }

  /** The one event, if any, that a step adds to the trace. */
  lemma StepEvent(c: C.Client, m: C.Move)
    requires C.Enabled(c, m)
    ensures var t := C.Step(c, m);
            || (t.trace == c.trace && !m.Recv?)
            || (&& |t.trace| > 0 && t.trace == c.trace + [t.trace[|t.trace| - 1]]
                && var e := t.trace[|t.trace| - 1];
                   && PacketOf(e) == (if m.Recv? then [m.reply] else [])
                   && (e.Ignored? ==> m.Recv? && m.reply.Notify? && m.reply.name !in c.cache))
  {}

  lemma HandledSnoc(tr: seq<C.Event>, e: C.Event)
    ensures Handled(tr + [e]) == Handled(tr) + PacketOf(e)
  {
    assert (tr + [e])[..|tr|] == tr;
    assert Handled(tr) + [] == Handled(tr);
  }

  /** What a step adds to the packets handled, and to the packets ignored. */
  lemma StepHandled(c: C.Client, m: C.Move)
    requires C.Enabled(c, m)
    ensures var t := C.Step(c, m);
            && Handled(t.trace) == Handled(c.trace) + (if m.Recv? then [m.reply] else [])
            && (forall i :: 0 <= i < |t.trace| && t.trace[i].Ignored? ==>
                  || (i < |c.trace| && c.trace[i].Ignored?)
                  || (m.Recv? && m.reply.Notify? && m.reply.name !in c.cache))
  {
    StepEvent(c, m);
    hide C.Step, C.Enabled, Handled, PacketOf;
    var t := C.Step(c, m);
    assert Handled(c.trace) + [] == Handled(c.trace);
    if t.trace != c.trace {
      HandledSnoc(c.trace, t.trace[|t.trace| - 1]);
    }
  }

  /** Apart from subscribing and handling packets, a step leaves every topic's data. */
  lemma StepKeepsData(c: C.Client, m: C.Move)
    requires L.Inv(c) && C.Enabled(c, m) && !m.DoSubscribe? && !m.Recv?
    ensures var t := C.Step(c, m);
            && t.cache.Keys == c.cache.Keys
            && (forall n :: n in c.cache ==> SameData(c.cache[n], t.cache[n]))
  {
    hide L.ResultsJustified, L.PointOk;
    if m.Proceed? && (c.app.Holding? || c.app.HoldingAgain?) && c.app.name in c.cache {
      L.CacheStates(c, c.app.name);
      hide L.CacheTold;
      if c.app.HoldingAgain? {
        assert L.PointOk(c) by { PointFromInv(c); }
      }
    }
  }

  lemma PointFromInv(c: C.Client)
    requires L.Inv(c)
    ensures L.PointOk(c)
  {}

  lemma LocalInStep(l: Link, m: C.Move)
    requires InStep(l) && LocalPossible(l, m)
    requires l.pos < |l.log| && l.log[l.pos].reply.Notify? ==> l.log[l.pos].reply.name in l.client.cache
    ensures InStep(LocalStep(l, m))
  {
    hide L.Inv, C.Step, C.Enabled, Handled, Replies;
    L.StepInv(l.client, m);
    StepHandled(l.client, m);
    if m.Recv? {
      RepliesStep(l.log, l.pos);
      HandledOneMore(l, m.reply, LocalStep(l, m));
    } else {
      HandledNoMore(l, LocalStep(l, m));
    }
  }

  lemma HandledOneMore(l: Link, r: Reply, l1: Link)
    requires InStep(l) && l1.log == l.log && l1.pos == l.pos + 1 <= |l.log| && L.Inv(l1.client)
    requires Handled(l1.client.trace) == Handled(l.client.trace) + [r]
    requires Replies(l.log[..l.pos + 1]) == Replies(l.log[..l.pos]) + [r]
    requires forall i :: 0 <= i < |l1.client.trace| && l1.client.trace[i].Ignored? ==>
               i < |l.client.trace| && l.client.trace[i].Ignored?
    ensures InStep(l1)
  {
    hide L.Inv, Handled, Replies;
  }

  lemma HandledNoMore(l: Link, l1: Link)
    requires InStep(l) && l1.log == l.log && l1.pos == l.pos && L.Inv(l1.client)
    requires Handled(l1.client.trace) == Handled(l.client.trace) + []
    requires forall i :: 0 <= i < |l1.client.trace| && l1.client.trace[i].Ignored? ==>
               i < |l.client.trace| && l.client.trace[i].Ignored?
    ensures InStep(l1)
  {
    hide L.Inv, Handled, Replies;
    assert Handled(l.client.trace) + [] == Handled(l.client.trace);
  }

  lemma RepliesStep(log: seq<Send>, pos: nat)
    requires pos < |log|
    ensures Replies(log[..pos + 1]) == Replies(log[..pos]) + [log[pos].reply]
  {
    assert log[..pos + 1][..pos] == log[..pos];
  }

  /** A notification sent is for a topic the client has. */
  lemma NotifiedIsKnown(b: Broker, fd: Fd, l: Link, i: nat)
    requires Enrolled(b, fd, l) && Expected(b, fd, l)
    requires i < |l.log| && l.log[i].reply.Notify?
    ensures l.log[i].reply.name in l.client.cache
  {
    hide B.Genuine, Subs;
    var n := l.log[i].reply.name;
    assert fd in Subs(b, n);
    assert Subscribe(n) in l.reqs[..l.served];
    assert Subscribe(n) in l.reqs;
  }

  lemma LocalEnrolled(b: Broker, fd: Fd, l: Link, m: C.Move)
    requires InStep(l) && Enrolled(b, fd, l) && LocalPossible(l, m)
    ensures Enrolled(b, fd, LocalStep(l, m))
  {
    var l1 := LocalStep(l, m);
    if m.DoSubscribe? {
      assert l1.reqs[..l1.served] == l.reqs[..l.served];
      assert l1.client.cache == l.client.cache[m.name := C.Cached([], C.NoData)];
    } else if m.Recv? {
      assert l1.client.cache == C.Absorb(l.client.cache, m.reply);
    } else {
      StepKeepsData(l.client, m);
    }
    hide C.Step, L.Inv, Subs, SameData;
  }

  lemma LocalConverges(b: Broker, fd: Fd, l: Link, m: C.Move)
    requires InStep(l) && Enrolled(b, fd, l) && Converges(b, fd, l) && LocalPossible(l, m)
    ensures Converges(b, fd, LocalStep(l, m))
  {
    var l1 := LocalStep(l, m);
    if m.DoSubscribe? {
      assert l1.client.cache == l.client.cache[m.name := C.Cached([], C.NoData)];
      assert l1.reqs[l1.served..] == l.reqs[l.served..] + [Subscribe(m.name)];
    } else if m.Recv? {
      assert l1.client.cache == C.Absorb(l.client.cache, m.reply);
      assert l.log[l.pos..] == [l.log[l.pos]] + l.log[l1.pos..];
    } else {
      StepKeepsData(l.client, m);
    }
    hide C.Step, L.Inv, Subs, C.Enabled;
    forall n: Name | fd in Subs(b, n) && n in b.topics && Subscribe(n) !in l1.reqs[l1.served..]
      ensures SettlesOn(l1, n, b.topics[n])
    {
      assert SettlesOn(l, n, b.topics[n]);
      if !m.DoSubscribe? && !m.Recv? {
        EventualSame(l.client.cache[n], l1.client.cache[n], l.log[l.pos..], n);
      }
    }
  }

  lemma LocalLink(b: Broker, fd: Fd, l: Link, m: C.Move)
    requires LinkInv(b, fd, l) && LocalPossible(l, m)
    ensures LinkInv(b, fd, LocalStep(l, m))
  {
    var l1 := LocalStep(l, m);
    assert l1.log == l.log;
    hide InStep, KillsLast, Enrolled, Gapless, Converges, Expected, LocalStep, LocalPossible;
    if l.pos < |l.log| && l.log[l.pos].reply.Notify? {
      NotifiedIsKnown(b, fd, l, l.pos);
    }
    LocalInStep(l, m);
    LocalEnrolled(b, fd, l, m);
    LocalConverges(b, fd, l, m);
    KillsSame(b, l, l1);
    GaplessSame(b, l, l1);
    ExpectedSame(b, fd, l, l1);
  }

  /** Asking for anything but a subscription only adds to the requests in flight. */
  lemma AskLink(b: Broker, fd: Fd, l: Link, req: Request)
    requires LinkInv(b, fd, l) && !req.Subscribe? && (req.Publish? ==> |req.name| <= 128)
    ensures LinkInv(b, fd, l.(reqs := l.reqs + [req]))
  {
    hide InStep, KillsLast, Gapless, Expected, Converges, Enrolled;
    var l1 := l.(reqs := l.reqs + [req]);
    InStepSame(l, l1);
    KillsSame(b, l, l1);
    GaplessSame(b, l, l1);
    ExpectedSame(b, fd, l, l1);
    AskEnrolled(b, fd, l, req);
    AskConverges(b, fd, l, req);
  }

  lemma AskEnrolled(b: Broker, fd: Fd, l: Link, req: Request)
    requires Enrolled(b, fd, l) && !req.Subscribe? && (req.Publish? ==> |req.name| <= 128)
    ensures Enrolled(b, fd, l.(reqs := l.reqs + [req]))
  {
    hide Subs;
    assert (l.reqs + [req])[..l.served] == l.reqs[..l.served];
  }

  lemma AskConverges(b: Broker, fd: Fd, l: Link, req: Request)
    requires Converges(b, fd, l) && !req.Subscribe?
    ensures Converges(b, fd, l.(reqs := l.reqs + [req]))
  {
    hide Subs, Eventual;
    var l1 := l.(reqs := l.reqs + [req]);
    assert l1.reqs[l1.served..] == l.reqs[l.served..] + [req];
    forall n: Name | fd in Subs(b, n) && n in b.topics && Subscribe(n) !in l1.reqs[l1.served..]
      ensures SettlesOn(l1, n, b.topics[n])
    {
      assert SettlesOn(l, n, b.topics[n]);
    }
  }

  // ---- closed connections ----

  lemma SoundFromLink(b: Broker, fd: Fd, l: Link)
    requires LinkInv(b, fd, l)
    ensures Sound(b, l)
  {
    hide Enrolled, Expected, Converges, KillsLast, InStep;
    forall i | 0 <= i < |l.log|
      ensures B.Genuine(b, l.log[i])
      ensures l.log[i].reply.Notify? ==> l.log[i].reply.name in l.client.cache
    {
      ExpectedAt(b, fd, l, i);
      if l.log[i].reply.Notify? {
        NotifiedIsKnown(b, fd, l, i);
      }
    }
    forall n: Name ensures Climbs(For(l.log, n)) {
      assert InOrder(For(l.log, n), |Hist(b, n)|);
    }
  }

  lemma ExpectedAt(b: Broker, fd: Fd, l: Link, i: nat)
    requires Expected(b, fd, l) && i < |l.log|
    ensures B.Genuine(b, l.log[i])
  {}

  lemma GenuineLonger(b: Broker, t: Broker, x: Send)
    requires B.Genuine(b, x) && forall n: Name :: Hist(b, n) <= Hist(t, n)
    ensures B.Genuine(t, x)
  {}

  lemma SoundLater(b: Broker, t: Broker, l: Link)
    requires Sound(b, l) && forall n: Name :: Hist(b, n) <= Hist(t, n)
    ensures Sound(t, l)
  {
    hide InStep, Climbs, For, B.Genuine, Hist;
    forall i | 0 <= i < |l.log| ensures B.Genuine(t, l.log[i]) {
      GenuineLonger(b, t, l.log[i]);
    }
  }

  lemma StepKeepsTopics(c: C.Client, m: C.Move)
    requires C.Enabled(c, m)
    ensures c.cache.Keys <= C.Step(c, m).cache.Keys
  {}

  lemma SoundStep(b: Broker, l: Link, m: C.Move)
    requires Sound(b, l) && LocalPossible(l, m)
    ensures Sound(b, LocalStep(l, m))
  {
    hide InStep, Climbs, For, B.Genuine, C.Step, C.Enabled;
    StepKeepsTopics(l.client, m);
    LocalInStep(l, m);
    assert LocalStep(l, m).log == l.log;
  }

  // ---- connections come and go ----

  lemma NewLink(b: Broker, fd: Fd)
    requires B.Inverse(b) && fd !in b.clients && !b.down
    ensures LinkInv(b, fd, NEW)
  {
    L.FreshInv();
    hide L.Inv;
    assert forall n: Name :: fd !in Subs(b, n);
    assert forall n: Name :: For(NEW.log, n) == [];
  }

  lemma CloseLink(b: Broker, fd0: Fd, fd: Fd, l: Link)
    requires LinkInv(b, fd, l) && fd != fd0
    ensures var t := BrokerSpec.Apply(b, Close(fd0)); LinkInv(t, fd, Grow(l, b, t, fd))
  {
    var u := b.(clients := b.clients - {fd0});
    var t := Unsubscribe(u, fd0);
    assert forall n: Name :: fd in Subs(t, n) <==> fd in Subs(b, n) by {
      assert forall n: Name :: Subs(u, n) == Subs(b, n);
    }
    hide LinkInv, Unsubscribe, Subs;
    SameLink(b, t, fd, l);
    GrowNot(l, b, t, fd);
  }

  lemma AcceptLink(b: Broker, fd0: Fd, fd: Fd, l: Link)
    requires LinkInv(b, fd, l)
    ensures var t := BrokerSpec.Apply(b, Accept(fd0)); LinkInv(t, fd, Grow(l, b, t, fd))
  {
    var t := BrokerSpec.Apply(b, Accept(fd0));
    assert forall n: Name :: Subs(t, n) == Subs(b, n);
    hide LinkInv, Subs;
    SameLink(b, t, fd, l);
    GrowNot(l, b, t, fd);
  }
}
