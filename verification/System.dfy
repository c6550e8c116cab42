// The composed system: the broker, any number of clients, and a FIFO channel each way
// between the broker and each client.
module SystemSpec {
  import opened Types
  import opened BrokerSpec
  import C = ClientSpec

  /** One connection. Channels keep what has passed: the requests not yet served are
      `reqs[served..]`, the replies not yet handled are `log[pos..]`. */
  datatype Link = Link(
    client: C.Client,
    reqs: seq<Request>,
    served: nat,
    log: seq<Send>,
    pos: nat
  )

  const NEW := Link(C.FRESH, [], 0, [], 0)

  /** `closed` are the connections that the broker has closed, in that order: their
      clients still run, and may still handle what was sent to them. */
  datatype System = System(broker: Broker, links: map<Fd, Link>, closed: seq<Link>)

  datatype Happening =
    | Connect(fd: Fd)
    | Disconnect(fd: Fd)
    | Serve(fd: Fd, now: Word)          // the broker processes one packet
    | Halt                              // the broker shuts down
    | Local(fd: Fd, move: C.Move)       // a step of a client
    | Ask(fd: Fd, req: Request)         // a client publishes, clears or kills
    | Late(k: nat, move: C.Move)        // a step of the client of a closed connection

  /** A packet is served if there is one; a client's threads move as module ClientSpec
      says, the receiver taking the next reply of its channel. */
  predicate Possible(s: System, h: Happening) {
    match h
    case Connect(fd) => BrokerSpec.Enabled(s.broker, Accept(fd))
    case Disconnect(fd) => BrokerSpec.Enabled(s.broker, Close(fd)) && fd in s.links
    case Serve(fd, now) =>
      && fd in s.links && s.links[fd].served < |s.links[fd].reqs|
      && BrokerSpec.Enabled(s.broker, Receive(fd, s.links[fd].reqs[s.links[fd].served], now))
    case Halt => BrokerSpec.Enabled(s.broker, Stop)
    case Local(fd, m) => fd in s.links && LocalPossible(s.links[fd], m)
    case Ask(fd, req) =>
      && fd in s.links
      && s.links[fd].client.app.Outside? && s.links[fd].client.running
      && (req.KillServer? || req.ClearServer? || (req.Publish? && |req.name| <= 128))
    case Late(k, m) => k < |s.closed| && LocalPossible(s.closed[k], m)
  }

  predicate LocalPossible(l: Link, m: C.Move) {
    && C.Enabled(l.client, m)
    && (m.Recv? ==> l.pos < |l.log| && l.log[l.pos].reply == m.reply)
  }

  /** A link after the broker goes from `b` to `t`: what was sent to it is in its channel. */
  function Grow(l: Link, b: Broker, t: Broker, fd: Fd): Link {
    if |b.log| <= |t.log| then l.(log := l.log + To(t.log[|b.log|..], fd)) else l
  }

  function GrowAll(links: map<Fd, Link>, b: Broker, t: Broker): map<Fd, Link> {
    map fd | fd in links :: Grow(links[fd], b, t, fd)
  }

  /** A client's own step; a subscription is also a request, and handling a packet takes
      it from the channel. */
  function LocalStep(l: Link, m: C.Move): Link {
    var l1 := l.(client := C.Step(l.client, m));
    match m
    case DoSubscribe(n) => l1.(reqs := l.reqs + [Subscribe(n)])
    case Recv(_) => l1.(pos := l.pos + 1)
    case _ => l1
  }

  ghost function Next(s: System, h: Happening): System
    requires Possible(s, h)
  {
    match h
    case Connect(fd) =>
      var t := BrokerSpec.Apply(s.broker, Accept(fd));
      System(t, GrowAll(s.links, s.broker, t)[fd := NEW], s.closed)
    case Disconnect(fd) =>
      var t := BrokerSpec.Apply(s.broker, Close(fd));
      System(t, GrowAll(s.links, s.broker, t) - {fd}, s.closed + [s.links[fd]])
    case Serve(fd, now) =>
      var l := s.links[fd];
      var t := BrokerSpec.Apply(s.broker, Receive(fd, l.reqs[l.served], now));
      System(t, GrowAll(s.links[fd := l.(served := l.served + 1)], s.broker, t), s.closed)
    case Halt =>
      var t := BrokerSpec.Apply(s.broker, Stop);
      System(t, GrowAll(s.links, s.broker, t), s.closed)
    case Local(fd, m) => s.(links := s.links[fd := LocalStep(s.links[fd], m)])
    case Ask(fd, req) => s.(links := s.links[fd := s.links[fd].(reqs := s.links[fd].reqs + [req])])
    case Late(k, m) => s.(closed := s.closed[k := LocalStep(s.closed[k], m)])
  }

  ghost predicate Feasible(s: System, hs: seq<Happening>)
    decreases |hs|
  {
    hs == [] || (Possible(s, hs[0]) && Feasible(Next(s, hs[0]), hs[1..]))
  }

  ghost function After(s: System, hs: seq<Happening>): System
    requires Feasible(s, hs)
    decreases |hs|
  {
    if hs == [] then s else After(Next(s, hs[0]), hs[1..])
  }

  /** A broker just constructed, and nobody connected. */
  ghost function Start(conv: nat -> Word, t0: Word): System {
    System(BrokerSpec.Init(conv, t0), map[], [])
  }
}
