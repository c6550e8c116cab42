// What each stretch of the application thread does, told from the client's trace alone.
module ClientEffects {
  import opened Types
  import opened ClientSpec
  import opened ClientLaws
  import opened ClientRuns

  // ---- get ----

  /** In every interleaving, a call of `get` fails at once if the connection has ended, and
      else goes on to ask for the mutex. */
  lemma CallDecides(ms: seq<Move>, n: Name, w: Wait)
    requires Legal(FRESH, ms) && Run(FRESH, ms).app == Outside
    ensures var c := Run(FRESH, ms);
            Step(c, CallGet(n, w)) ==
              if Disconnected(c.trace) then c.(trace := c.trace + [Returned(n, w, NotConnected, [])])
              else c.(app := Entering(n, w))
  {
    hide Run, Legal, CacheTold, ResultsJustified;
    FreshInv();
    RunInv(FRESH, ms);
  }

  /** What `get` does once it has the mutex. */
  datatype Decision = Gives(state: TopicState, data: Data) | Waits(loop: Loop)

  /** At first: without a subscription there is no topic; without data it waits, unless it
      was told not to; with data it waits only for new data, if that was asked for and
      there is none; else it gives the last payload, as CHANGED if it is new. */
  function Decide(tr: seq<Event>, n: Name, w: Wait): Decision {
    if !Known(tr, n) then Gives(NotFound, [])
    else if Latest(tr, n).None? then if w == WaitNone then Gives(NotFound, []) else Waits(FirstData)
    else if Since(tr, n) != [] then Gives(Changed, Latest(tr, n).value)
    else if w == WaitNew then Waits(NewData)
    else Gives(Unchanged, Latest(tr, n).value)
  }

  /** After a wait: NOTCONNECTED if the connection has ended, else it waits on for what it
      waited for, or gives it. */
  function DecideAgain(tr: seq<Event>, n: Name, l: Loop): Decision {
    if Disconnected(tr) then Gives(NotConnected, [])
    else if Since(tr, n) == [] then Waits(l)
    else Gives(Changed, Since(tr, n)[|Since(tr, n)| - 1])
  }

  /** The step that carries a decision out. */
  predicate CarriedOut(d: Decision, c: Client, t: Client, n: Name, w: Wait) {
    match d
    case Gives(state, data) => t.app == Outside && t.trace == c.trace + [Returned(n, w, state, data)]
    case Waits(l) => t.app == Parked(n, w, l) && t.trace == c.trace && t.waiting == Some(n)
  }

  /** In every interleaving, `get` does exactly that. */
  lemma GetDecides(ms: seq<Move>, n: Name, w: Wait)
    requires Legal(FRESH, ms) && Run(FRESH, ms).app == Holding(n, w)
    ensures var c := Run(FRESH, ms);
            CarriedOut(Decide(c.trace, n, w), c, Step(c, Proceed), n, w)
  {
    hide Run, Legal, ResultsJustified;
    FreshInv();
    RunInv(FRESH, ms);
    ExamineDecides(Run(FRESH, ms), n, w);
  }

  lemma ExamineDecides(c: Client, n: Name, w: Wait)
    requires Inv(c) && c.app == Holding(n, w)
    ensures CarriedOut(Decide(c.trace, n, w), c, Step(c, Proceed), n, w)
  {
    assert n in c.cache <==> Known(c.trace, n);
    if n in c.cache {
      assert Told(c.trace, n, c.cache[n]);
      CacheStates(c, n);
    }
    hide CacheTold, ResultsJustified, Since, Latest, Known;
  }

  lemma GetDecidesAgain(ms: seq<Move>, n: Name, w: Wait, l: Loop)
    requires Legal(FRESH, ms) && Run(FRESH, ms).app == HoldingAgain(n, w, l)
    ensures var c := Run(FRESH, ms);
            CarriedOut(DecideAgain(c.trace, n, l), c, Step(c, Proceed), n, w)
  {
    hide Run, Legal, ResultsJustified;
    FreshInv();
    RunInv(FRESH, ms);
    RetestDecides(Run(FRESH, ms), n, w, l);
  }

  lemma RetestDecides(c: Client, n: Name, w: Wait, l: Loop)
    requires Inv(c) && c.app == HoldingAgain(n, w, l)
    ensures CarriedOut(DecideAgain(c.trace, n, l), c, Step(c, Proceed), n, w)
  {
    assert n in c.cache;
    assert Told(c.trace, n, c.cache[n]);
    hide CacheTold, ResultsJustified, Since, Latest, Known, Disconnected;
  }

  // ---- from asking for the mutex ----

  /** With the mutex obtained and nothing in between, a call goes on as it was made. */
  lemma CallGoesOn(ms: seq<Move>)
    requires Legal(FRESH, ms) && Enabled(Run(FRESH, ms), Lock)
    ensures var c := Run(FRESH, ms);
            var t := Step(Step(c, Lock), Proceed);
            match c.app
            case Entering(n, w) => CarriedOut(Decide(c.trace, n, w), c, t, n, w)
            case Signalled(n, w, l) => CarriedOut(DecideAgain(c.trace, n, l), c, t, n, w)
            case AnyEntering => t == c.(waiting := Some([]), app := AnyParked)
            case _ => t == c.(waiting := None, app := Outside)
  {
    hide Run, Legal, Inv, Decide, DecideAgain;
    var c := Run(FRESH, ms);
    FreshInv();
    RunInv(FRESH, ms);
    StepInv(c, Lock);
    match c.app
    case Entering(n, w) => ExamineDecides(Step(c, Lock), n, w);
    case Signalled(n, w, l) => RetestDecides(Step(c, Lock), n, w, l);
    case _ =>
  }

  // ---- signals ----

  /** A reply that ends a wait for `n`: a kill, or a notification of it. The empty name
      stands for any topic. */
  predicate Rouses(c: Client, n: Name, r: Reply) {
    r.KillClient? || (r.name in c.cache && (n == [] || r.name == n))
  }

  /** In every interleaving, a waiting `get(n)` is signalled by exactly the packets that
      rouse it, and by a spurious wakeup; nothing else moves it. */
  lemma SignalledIff(ms: seq<Move>, m: Move, n: Name, w: Wait, l: Loop)
    requires Legal(FRESH, ms) && Run(FRESH, ms).app == Parked(n, w, l) && Enabled(Run(FRESH, ms), m)
    ensures var c := Run(FRESH, ms);
            Step(c, m).app == if m == Spurious || (m.Recv? && Rouses(c, n, m.reply)) then Signalled(n, w, l) else c.app
  {
    hide Run, Legal, CacheTold, ResultsJustified;
    FreshInv();
    RunInv(FRESH, ms);
  }

  // ---- waitForAny ----

  /** `waitForAny` is being called and has not been signalled. */
  predicate AwaitingAny(c: Client) {
    c.app.AnyEntering? || c.app.AnyHolding? || c.app.AnyParked?
  }

  /** In every interleaving, exactly a kill, or a notification of a topic that the client
      has, handled while the thread waits, gets `waitForAny` out of its wait. */
  lemma AnyWaitIff(ms: seq<Move>, m: Move)
    requires Legal(FRESH, ms) && AwaitingAny(Run(FRESH, ms)) && Enabled(Run(FRESH, ms), m)
    ensures var c := Run(FRESH, ms);
            AwaitingAny(Step(c, m)) <==> !(c.app.AnyParked? && m.Recv? && Rouses(c, [], m.reply))
  {
    hide Run, Legal, CacheTold, ResultsJustified;
    FreshInv();
    RunInv(FRESH, ms);
  }

  /** So it waits as long as no such packet is handled, whatever else happens. */
  lemma {:induction false} AnyWaits(c: Client, ms: seq<Move>)
    requires Inv(c) && AwaitingAny(c) && Legal(c, ms)
    requires forall m :: m in ms && m.Recv? ==> !Rouses(c, [], m.reply)
    ensures AwaitingAny(Run(c, ms)) && Run(c, ms).cache == c.cache
    decreases |ms|
  {
    if ms != [] {
      var t := Step(c, ms[0]);
      assert ms[0] in ms;
      StepInv(c, ms[0]);
      AnyStays(c, ms[0]);
      hide Step, Enabled, Inv, AwaitingAny;
      AnyWaits(t, ms[1..]);
    }
  }

  lemma AnyStays(c: Client, m: Move)
    requires Inv(c) && AwaitingAny(c) && Enabled(c, m) && (m.Recv? ==> !Rouses(c, [], m.reply))
    ensures AwaitingAny(Step(c, m)) && Step(c, m).cache == c.cache
  {
    hide CacheTold, ResultsJustified, Disconnected;
  }

  /** In every interleaving, after a call of `waitForAny` and before any packet that could
      end it, the call has not returned. */
  lemma WaitForAnyWaits(ms: seq<Move>, rs: seq<Move>)
    requires Legal(FRESH, ms) && Run(FRESH, ms).app == Outside
    requires Legal(Step(Run(FRESH, ms), CallWaitForAny), rs)
    requires forall m :: m in rs && m.Recv? ==> !Rouses(Run(FRESH, ms), [], m.reply)
    ensures AwaitingAny(Run(Step(Run(FRESH, ms), CallWaitForAny), rs))
  {
    hide Run, Legal, Inv;
    var c := Run(FRESH, ms);
    FreshInv();
    RunInv(FRESH, ms);
    StepInv(c, CallWaitForAny);
    AnyWaits(Step(c, CallWaitForAny), rs);
  }
}
