// What rounds over ready descriptors do, as relations between the states of the loop: the
// specification of the loops in module ServerLoop, and its laws.
module LoopSpec {
  import opened Types
  import opened Wire
  import opened Framing
  import opened BrokerSpec

  /** What the peer of a connection sends: requests, the packets that carry them, and the
      bytes that arrive of their frames, which may end inside one; and whether a read of the
      connection can fail. */
  datatype Sent = Sent(reqs: seq<Request>, packets: seq<Packet>, input: Bytes, mayFail: bool)

  predicate SentOk(c: Sent) {
    && |c.packets| == |c.reqs|
    && (forall k :: 0 <= k < |c.reqs| ==> Asks(c.packets[k], c.reqs[k]) && Supported(c.reqs[k]))
    && c.input <= Stream(c.packets)
  }

  /** What `select` reports: somebody to accept, or a descriptor with something to read. */
  datatype Ready = Arrival(fd: Fd, sent: Sent) | Activity(fd: Fd, now: Word)

  predicate ReadyOk(ready: Ready) {
    ready.Arrival? ==> SentOk(ready.sent)
  }

  /** A connection: what is sent on it, how many requests of that have been processed, and
      how many bytes have not been read. */
  datatype Conn = Conn(sent: Sent, done: nat, left: nat)

  /** A connection closed by the event at place `at`, for its last read failed or there was
      nothing left to read. */
  datatype Gone = Gone(fd: Fd, conn: Conn, at: nat, failed: bool)

  /** The events so far, the open connections, and the closed ones. */
  datatype Snap = Snap(es: seq<Event>, conns: map<Fd, Conn>, gone: seq<Gone>)

  const NOBODY := Snap([], map[], [])

  /** A turn that reads something: the next request is processed, or none. */
  predicate HasTurn(fd: Fd, now: Word, c: Conn, c': Conn, es: seq<Event>, es': seq<Event>) {
    && c'.sent == c.sent && c'.left < c.left
    && if c'.done == c.done then es' == es
       else c.done < |c.sent.reqs| && c'.done == c.done + 1 && es' == es + [Receive(fd, c.sent.reqs[c.done], now)]
  }

  /** A turn that closes the connection. */
  predicate Closes(fd: Fd, a: Snap, b: Snap)
    requires fd in a.conns
  {
    && b.es == a.es + [Close(fd)] && b.conns == a.conns - {fd}
    && |b.gone| == |a.gone| + 1
    && var g := b.gone[|a.gone|];
       && b.gone == a.gone + [g] && g == Gone(fd, a.conns[fd], |a.es|, g.failed)
       && (if g.failed then a.conns[fd].sent.mayFail else a.conns[fd].left == 0)
  }

  /** What one ready descriptor brings about: somebody is accepted, unless the descriptor is
      in use; an open connection has its turn; a descriptor not open is passed over; and
      nothing else changes. */
  predicate Does(ready: Ready, a: Snap, b: Snap) {
    match ready
    case Arrival(fd, sent) =>
      b == if fd in a.conns then a else Snap(a.es + [Accept(fd)], a.conns[fd := Conn(sent, 0, |sent.input|)], a.gone)
    case Activity(fd, now) =>
      if fd !in a.conns then b == a
      else if fd in b.conns then
        && b == Snap(b.es, a.conns[fd := b.conns[fd]], a.gone)
        && HasTurn(fd, now, a.conns[fd], b.conns[fd], a.es, b.es)
      else Closes(fd, a, b)
  }

  /** A round: its ready descriptors, one after the other. */
  ghost predicate RoundDone(round: seq<Ready>, a: Snap, b: Snap)
    decreases |round|
  {
    if round == [] then b == a
    else
      var before, last := round[..|round| - 1], round[|round| - 1];
      exists m: Snap :: RoundDone(before, a, m) && Does(last, m, b)
  }

  lemma RoundNothing(a: Snap)
    ensures RoundDone([], a, a)
  {}

  lemma RoundSnoc(round: seq<Ready>, k: nat, a: Snap, m: Snap, b: Snap)
    requires k < |round| && RoundDone(round[..k], a, m) && Does(round[k], m, b)
    ensures RoundDone(round[..k + 1], a, b)
  {
    hide Does;
    assert round[..k + 1][..k] == round[..k];
  }

  // ---- requests are processed in order ----

  /** The requests processed from a descriptor since its connection was accepted. */
  function Asked(es: seq<Event>, fd: Fd): seq<Request> {
    if es == [] then []
    else
      var before, e := Asked(es[..|es| - 1], fd), es[|es| - 1];
      if e == Accept(fd) then []
      else if e.Receive? && e.fd == fd then before + [e.req]
      else before
  }

  lemma AskedSnoc(es: seq<Event>, e: Event, fd: Fd)
    ensures Asked(es + [e], fd) ==
            if e == Accept(fd) then []
            else if e.Receive? && e.fd == fd then Asked(es, fd) + [e.req]
            else Asked(es, fd)
  {
    assert (es + [e])[..|es|] == es;
  }

  /** The requests processed of a connection whose descriptor is open at this point are the
      first of those sent on it, in order. */
  predicate InTurn(es: seq<Event>, fd: Fd, c: Conn) {
    c.done <= |c.sent.reqs| && Asked(es, fd) == c.sent.reqs[..c.done]
  }

  /** That holds of each open connection now, and of each closed one it held when it was
      closed; and nothing has shut the broker down. */
  ghost predicate Accounted(a: Snap) {
    && (forall fd :: fd in a.conns ==> InTurn(a.es, fd, a.conns[fd]))
    && (forall k :: 0 <= k < |a.gone| ==> GoneInTurn(a.es, a.gone[k]))
    && Stop !in a.es
  }

  predicate GoneInTurn(es: seq<Event>, g: Gone) {
    g.at < |es| && es[g.at] == Close(g.fd) && InTurn(es[..g.at], g.fd, g.conn)
  }

  lemma GoneLater(es: seq<Event>, e: Event, g: Gone)
    requires GoneInTurn(es, g)
    ensures GoneInTurn(es + [e], g)
  {
    hide InTurn;
    assert (es + [e])[..g.at] == es[..g.at];
  }

  /** One more event keeps the account of every connection it is not about. */
  lemma OtherInTurn(es: seq<Event>, e: Event, fd: Fd, c: Conn)
    requires InTurn(es, fd, c) && e != Accept(fd) && (e.Receive? ==> e.fd != fd)
    ensures InTurn(es + [e], fd, c)
  {
    hide Asked;
    AskedSnoc(es, e, fd);
  }

  lemma EventAccounts(a: Snap, e: Event, conns: map<Fd, Conn>, gone: seq<Gone>, fd: Fd)
    requires Accounted(a) && e != Stop && a.gone <= gone
    requires e == Accept(fd) || (e.Receive? && e.fd == fd) || e == Close(fd)
    requires forall i :: i in conns && i != fd ==> i in a.conns && conns[i] == a.conns[i]
    requires fd in conns ==> InTurn(a.es + [e], fd, conns[fd])
    requires forall k :: |a.gone| <= k < |gone| ==> GoneInTurn(a.es + [e], gone[k])
    ensures Accounted(Snap(a.es + [e], conns, gone))
  {
    hide InTurn, GoneInTurn;
    forall i | i in conns ensures InTurn(a.es + [e], i, conns[i]) {
      if i != fd {
        OtherInTurn(a.es, e, i, conns[i]);
      }
    }
    forall k | 0 <= k < |gone| ensures GoneInTurn(a.es + [e], gone[k]) {
      if k < |a.gone| {
        GoneLater(a.es, e, a.gone[k]);
      }
    }
  }

  lemma DoesAccounts(ready: Ready, a: Snap, b: Snap)
    requires Accounted(a) && Does(ready, a, b)
    ensures Accounted(b)
  {
    hide Asked;
    var fd := ready.fd;
    match ready
    case Arrival(_, sent) =>
      if fd !in a.conns {
        AskedSnoc(a.es, Accept(fd), fd);
        EventAccounts(a, Accept(fd), b.conns, a.gone, fd);
      }
    case Activity(_, now) =>
      if fd in a.conns && fd in b.conns {
        var c, c' := a.conns[fd], b.conns[fd];
        if b.es != a.es {
          var e := Receive(fd, c.sent.reqs[c.done], now);
          AskedSnoc(a.es, e, fd);
          assert c.sent.reqs[..c'.done] == c.sent.reqs[..c.done] + [c.sent.reqs[c.done]];
          EventAccounts(a, e, b.conns, a.gone, fd);
        }
      } else if fd in a.conns {
        assert (a.es + [Close(fd)])[..|a.es|] == a.es;
        EventAccounts(a, Close(fd), b.conns, b.gone, fd);
      }
  }

  /** So whatever the rounds, the requests processed of every connection, open or closed, are
      the first of those sent on it, in order. */
  lemma {:induction false} RoundAccounts(round: seq<Ready>, a: Snap, b: Snap)
    requires Accounted(a) && RoundDone(round, a, b)
    ensures Accounted(b)
    decreases |round|
  {
    hide Accounted, Does;
    if round != [] {
      var n := |round| - 1;
      var m: Snap :| RoundDone(round[..n], a, m) && Does(round[n], m, b);
      RoundAccounts(round[..n], a, m);
      DoesAccounts(round[n], m, b);
    }
  }

  // ---- and everything that arrives is read ----

  /** Whoever arrives is accepted, unless the descriptor is in use. */
  lemma {:induction false} RoundAccepts(round: seq<Ready>, a: Snap, b: Snap)
    requires RoundDone(round, a, b)
    ensures a.es <= b.es
    ensures forall fd :: fd in b.conns ==> fd in a.conns || Accept(fd) in b.es[|a.es|..]
    ensures forall k :: 0 <= k < |round| && round[k].Arrival? ==>
              round[k].fd in a.conns || Accept(round[k].fd) in b.es[|a.es|..]
    decreases |round|
  {
    hide Does;
    if round != [] {
      var n := |round| - 1;
      var m: Snap :| RoundDone(round[..n], a, m) && Does(round[n], m, b);
      RoundAccepts(round[..n], a, m);
      DoesAccepts(round[n], m, b);
      SinceSplits(a.es, m.es, b.es);
      forall k | 0 <= k < |round| && round[k].Arrival?
        ensures round[k].fd in a.conns || Accept(round[k].fd) in b.es[|a.es|..]
      {
        if k < n {
          assert round[..n][k] == round[k];
        }
      }
    }
  }

  lemma SinceSplits(a: seq<Event>, m: seq<Event>, b: seq<Event>)
    requires a <= m <= b
    ensures b[|a|..] == m[|a|..] + b[|m|..]
  {
    assert b == m + b[|m|..];
  }

  lemma DoesAccepts(ready: Ready, a: Snap, b: Snap)
    requires Does(ready, a, b)
    ensures a.es <= b.es
    ensures forall fd :: fd in b.conns ==> fd in a.conns || Accept(fd) in b.es[|a.es|..]
    ensures ready.Arrival? ==> ready.fd in a.conns || Accept(ready.fd) in b.es[|a.es|..]
  {
    if b.es != a.es {
      assert b.es[|a.es|..][0] == b.es[|a.es|];
    }
  }

  function Turns(round: seq<Ready>, fd: Fd): nat {
    if round == [] then 0
    else Turns(round[..|round| - 1], fd) + if round[|round| - 1].Activity? && round[|round| - 1].fd == fd then 1 else 0
  }

  /** Closed connections stay closed, and what is not read only becomes less. */
  lemma DoesReads(ready: Ready, a: Snap, b: Snap, fd: Fd)
    requires Does(ready, a, b) && fd in a.conns
    ensures a.gone <= b.gone
    ensures b.gone == a.gone ==>
              && fd in b.conns
              && b.conns[fd].left + (if ready.Activity? && ready.fd == fd then 1 else 0) <= a.conns[fd].left
  {}

  lemma DoesKeepsGone(ready: Ready, a: Snap, b: Snap)
    requires Does(ready, a, b)
    ensures a.gone <= b.gone
  {}

  lemma {:induction false} RoundKeepsGone(round: seq<Ready>, a: Snap, b: Snap)
    requires RoundDone(round, a, b)
    ensures a.gone <= b.gone
    decreases |round|
  {
    hide Does;
    if round != [] {
      var n := |round| - 1;
      var m: Snap :| RoundDone(round[..n], a, m) && Does(round[n], m, b);
      RoundKeepsGone(round[..n], a, m);
      DoesKeepsGone(round[n], m, b);
    }
  }

  /** In a round in which nobody is closed, a connection has at least as many bytes read as
      it has turns. */
  lemma {:induction false} RoundReads(round: seq<Ready>, a: Snap, b: Snap, fd: Fd)
    requires RoundDone(round, a, b) && fd in a.conns && b.gone == a.gone
    ensures fd in b.conns && b.conns[fd].left + Turns(round, fd) <= a.conns[fd].left
    decreases |round|
  {
    hide Does;
    if round != [] {
      var n := |round| - 1;
      var m: Snap :| RoundDone(round[..n], a, m) && Does(round[n], m, b);
      RoundKeepsGone(round[..n], a, m);
      DoesKeepsGone(round[n], m, b);
      RoundReads(round[..n], a, m, fd);
      DoesReads(round[n], m, b, fd);
    }
  }

  /** If all its bytes are read, every request whose frame arrived whole is processed. */
  predicate Whole(c: Conn) {
    c.left == 0 && c.done < |c.sent.packets| ==> |c.sent.input| < |Stream(c.sent.packets[..c.done + 1])|
  }

  ghost predicate AllWhole(a: Snap) {
    && (forall fd :: fd in a.conns ==> Whole(a.conns[fd]))
    && (forall k :: 0 <= k < |a.gone| ==> Whole(a.gone[k].conn))
  }
}
