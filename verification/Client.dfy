// The client of client.cpp as interleaved steps of its two threads: the receiver, which
// handles packets and sees the end of the stream, and one application thread.
module ClientSpec {
  import opened Types

  datatype TopicState = NoData | Unchanged | Changed | NotFound | NotConnected

  datatype Cached = Cached(data: Data, state: TopicState)

  datatype Wait = WaitNone | WaitNew | WaitAny

  /** The two wait loops of `get`: until there is data at all, or until it is new. */
  datatype Loop = FirstData | NewData

  /** Where the application thread is. It holds the mutex at the points named so; it is
      `Parked` from the moment the condition wait releases the mutex until a signal, and
      `Signalled` from then until it has the mutex back. */
  datatype Point =
    | Outside
    | Entering(name: Name, wait: Wait)
    | Holding(name: Name, wait: Wait)
    | Parked(name: Name, wait: Wait, loop: Loop)
    | Signalled(name: Name, wait: Wait, loop: Loop)
    | HoldingAgain(name: Name, wait: Wait, loop: Loop)
    | AnyEntering
    | AnyHolding
    | AnyParked
    | AnySignalled
    | AnyHoldingAgain

  /** What has happened, in order: subscriptions made, packets handled, the stream's end,
      and results returned by `get`. */
  datatype Event =
    | Subscribed(name: Name)
    | Applied(name: Name, data: Data)
    | Ignored(name: Name, data: Data)
    | Killed
    | Lost
    | Returned(name: Name, wait: Wait, state: TopicState, data: Data)

  datatype Client = Client(
    cache: map<Name, Cached>,
    waiting: Option<Name>,        // `waittopic`; Some("") means any topic
    running: bool,
    app: Point,
    trace: seq<Event>
  )

  const FRESH := Client(map[], None, true, Outside, [])

  datatype Move =
    | DoSubscribe(name: Name)
    | Recv(reply: Reply)
    | EndOfStream
    | CallGet(name: Name, wait: Wait)
    | CallWaitForAny
    | Lock                        // the application thread gets the mutex
    | Proceed                     // and goes on to where it releases it
    | Spurious                    // a condition wait ends without a signal

  predicate AppHolds(c: Client) {
    c.app.Holding? || c.app.HoldingAgain? || c.app.AnyHolding? || c.app.AnyHoldingAgain?
  }

  /** The receiver handles a packet only while `running`, and under the mutex; the end of
      the stream is noted without it. `get` re-tests after a wait, so it may be woken
      spuriously; `waitForAny` does not, and is taken not to be. */
  predicate Enabled(c: Client, m: Move) {
    match m
    case DoSubscribe(_) => c.app.Outside? && c.running
    case Recv(_) => c.running && !AppHolds(c)
    case EndOfStream => c.running
    case CallGet(_, _) => c.app.Outside?
    case CallWaitForAny => c.app.Outside?
    case Lock => c.app.Entering? || c.app.Signalled? || c.app.AnyEntering? || c.app.AnySignalled?
    case Proceed => AppHolds(c)
    case Spurious => c.app.Parked?
  }

  // ---- the receiver ----

  function Wake(p: Point): Point {
    match p
    case Parked(n, w, l) => Signalled(n, w, l)
    case AnyParked => AnySignalled
    case _ => p
  }

  function Absorb(cache: map<Name, Cached>, r: Reply): map<Name, Cached> {
    match r
    case Notify(n, d) => if n in cache then cache[n := Cached(d, Changed)] else cache
    case KillClient => cache
  }

  function NotifyStep(c: Client, n: Name, d: Data): Client {
    if n !in c.cache then c.(trace := c.trace + [Ignored(n, d)])
    else
      var c1 := c.(cache := Absorb(c.cache, Notify(n, d)), trace := c.trace + [Applied(n, d)]);
      if c.waiting.Some? && (c.waiting.value == [] || c.waiting.value == n)
      then c1.(waiting := None, app := Wake(c.app))
      else c1
  }

  function KillStep(c: Client): Client {
    var c1 := c.(running := false, trace := c.trace + [Killed]);
    if c.waiting.Some? then c1.(waiting := None, app := Wake(c.app)) else c1
  }

  function RecvStep(c: Client, r: Reply): Client {
    match r
    case Notify(n, d) => NotifyStep(c, n, d)
    case KillClient => KillStep(c)
  }

  // ---- the application thread ----

  function Return(c: Client, n: Name, w: Wait, state: TopicState, data: Data): Client {
    c.(app := Outside, trace := c.trace + [Returned(n, w, state, data)])
  }

  function Park(c: Client, n: Name, w: Wait, l: Loop): Client {
    c.(waiting := Some(n), app := Parked(n, w, l))
  }

  /** Returns the cached topic and marks it as seen. */
  function Take(c: Client, n: Name, w: Wait): Client
    requires n in c.cache
  {
    Return(c, n, w, c.cache[n].state, c.cache[n].data)
    .(cache := c.cache[n := c.cache[n].(state := Unchanged)])
  }

  /** `get` from taking the mutex to releasing it. */
  function Examine(c: Client, n: Name, w: Wait): Client {
    if n !in c.cache then Return(c, n, w, NotFound, [])
    else
      var c1 := c.(waiting := None);
      if c.cache[n].state == NoData then
        if w == WaitNone then Return(c1, n, w, NotFound, []) else Park(c1, n, w, FirstData)
      else if w == WaitNew && c.cache[n].state != Changed then Park(c1, n, w, NewData)
      else Take(c1, n, w)
  }

  predicate MustWait(c: Client, n: Name, l: Loop) {
    n in c.cache && match l
                    case FirstData => c.cache[n].state == NoData
                    case NewData => c.cache[n].state != Changed
  }

  /** `get` after a condition wait, from having the mutex again to releasing it. */
  function Retest(c: Client, n: Name, w: Wait, l: Loop): Client {
    var c1 := c.(waiting := None);
    if !c.running then Return(c1, n, w, NotConnected, [])
    else if MustWait(c, n, l) then Park(c1, n, w, l)
    else if n in c.cache then Take(c1, n, w)
    else c1
  }

  function LockStep(c: Client): Client {
    match c.app
    case Entering(n, w) => c.(app := Holding(n, w))
    case Signalled(n, w, l) => c.(app := HoldingAgain(n, w, l))
    case AnyEntering => c.(app := AnyHolding)
    case AnySignalled => c.(app := AnyHoldingAgain)
    case _ => c
  }

  function ProceedStep(c: Client): Client {
    match c.app
    case Holding(n, w) => Examine(c, n, w)
    case HoldingAgain(n, w, l) => Retest(c, n, w, l)
    case AnyHolding => c.(waiting := Some([]), app := AnyParked)
    case AnyHoldingAgain => c.(waiting := None, app := Outside)
    case _ => c
  }

  function Step(c: Client, m: Move): Client {
    match m
    case DoSubscribe(n) => c.(cache := c.cache[n := Cached([], NoData)], trace := c.trace + [Subscribed(n)])
    case Recv(r) => RecvStep(c, r)
    case EndOfStream => c.(running := false, trace := c.trace + [Lost])
    case CallGet(n, w) =>
      if !c.running then Return(c, n, w, NotConnected, []) else c.(app := Entering(n, w))
    case CallWaitForAny => c.(app := AnyEntering)
    case Lock => LockStep(c)
    case Proceed => ProceedStep(c)
    case Spurious => c.(app := Wake(c.app))
  }

  // ---- runs ----

  ghost predicate Legal(c: Client, ms: seq<Move>)
    decreases |ms|
  {
    ms == [] || (Enabled(c, ms[0]) && Legal(Step(c, ms[0]), ms[1..]))
  }

  ghost function Run(c: Client, ms: seq<Move>): Client
    decreases |ms|
  {
    if ms == [] then c else Run(Step(c, ms[0]), ms[1..])
  }

  // ---- reading a trace ----

  predicate Valid(state: TopicState) {
    state == Unchanged || state == Changed
  }

  predicate Known(tr: seq<Event>, n: Name) {
    Subscribed(n) in tr
  }

  /** The payloads applied to `n` since it was last subscribed to or returned with data. */
  function Since(tr: seq<Event>, n: Name): seq<Data> {
    if tr == [] then []
    else
      var before := Since(tr[..|tr| - 1], n);
      match tr[|tr| - 1]
      case Subscribed(m) => if m == n then [] else before
      case Applied(m, d) => if m == n then before + [d] else before
      case Returned(m, _, state, _) => if m == n && Valid(state) then [] else before
      case _ => before
  }

  /** The last payload applied to `n` since it was last subscribed to. */
  function Latest(tr: seq<Event>, n: Name): Option<Data> {
    if tr == [] then None
    else
      var before := Latest(tr[..|tr| - 1], n);
      match tr[|tr| - 1]
      case Subscribed(m) => if m == n then None else before
      case Applied(m, d) => if m == n then Some(d) else before
      case _ => before
  }

  predicate Disconnected(tr: seq<Event>) {
    Killed in tr || Lost in tr
  }

  /** What a result of `get` says about all that happened before it. */
  predicate Justified(tr: seq<Event>, n: Name, w: Wait, state: TopicState, data: Data) {
    match state
    case Changed => Since(tr, n) != [] && data == Since(tr, n)[|Since(tr, n)| - 1]
    case Unchanged => Since(tr, n) == [] && Latest(tr, n) == Some(data) && w != WaitNew
    case NotFound => data == [] && (!Known(tr, n) || (w == WaitNone && Latest(tr, n) == None))
    case NotConnected => data == [] && Disconnected(tr)
    case NoData => false
  }
}
