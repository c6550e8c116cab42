// Theorems about whole runs of a client, from its start.
module ClientRuns {
  import opened Types
  import opened ClientSpec
  import opened ClientLaws

  lemma {:induction false} LatestApplied(tr: seq<Event>, n: Name, d: Data)
    requires Latest(tr, n) == Some(d)
    ensures Applied(n, d) in tr
  {
    if tr[|tr| - 1] != Applied(n, d) {
      LatestApplied(tr[..|tr| - 1], n, d);
      assert Applied(n, d) in tr[..|tr| - 1];
    }
  }

  // ---- results ----

  /** In every interleaving, every result of `get` is right about all that went before:
      CHANGED says that some payload was applied since the topic was last returned or
      subscribed to, and carries the last of them; UNCHANGED that there was one but none
      since; NOTFOUND that the topic is not subscribed to, or that there is no data and
      the caller would not wait; NOTCONNECTED that the connection has ended. */
  lemma ResultsOverRuns(ms: seq<Move>)
    requires Legal(FRESH, ms)
    ensures var tr := Run(FRESH, ms).trace;
            forall i :: 0 <= i < |tr| && tr[i].Returned? ==>
              Justified(tr[..i], tr[i].name, tr[i].wait, tr[i].state, tr[i].data)
  {
    hide Run, Legal, CacheTold, Justified, FRESH;
    FreshInv();
    RunInv(FRESH, ms);
  }

  /** While connected, CHANGED is returned exactly when there is something new; waiting
      for new data on a subscribed topic returns nothing else; NODATA is never returned. */
  lemma FreshnessOverRuns(ms: seq<Move>, i: nat)
    requires Legal(FRESH, ms) && i < |Run(FRESH, ms).trace| && Run(FRESH, ms).trace[i].Returned?
    ensures var tr := Run(FRESH, ms).trace;
            var r := tr[i];
            && (r.state != NotConnected ==> (r.state == Changed <==> Since(tr[..i], r.name) != []))
            && (r.wait == WaitNew && Known(tr[..i], r.name) ==> r.state in {Changed, NotConnected})
            && r.state != NoData
  {
    hide Run, Legal, FRESH;
    ResultsOverRuns(ms);
    var tr := Run(FRESH, ms).trace;
    assert Justified(tr[..i], tr[i].name, tr[i].wait, tr[i].state, tr[i].data);
    SinceLatest(tr[..i], tr[i].name);
    SinceKnown(ms, i, tr[i].name);
  }

  /** Nothing is new about a topic before it is subscribed to. */
  lemma SinceKnown(ms: seq<Move>, i: nat, n: Name)
    requires Legal(FRESH, ms) && i <= |Run(FRESH, ms).trace|
    ensures var tr := Run(FRESH, ms).trace[..i];
            Since(tr, n) != [] ==> Known(tr, n)
  {
    hide Inv, Run, Legal, Known, Applies;
    FreshInv();
    FreshApplies();
    RunApplies(FRESH, ms);
    var whole := Run(FRESH, ms).trace;
    var tr := whole[..i];
    if Since(tr, n) != [] {
      SinceLatest(tr, n);
      var d := Latest(tr, n).value;
      LatestApplied(tr, n, d);
      var j :| 0 <= j < i && tr[j] == Applied(n, d);
      assert whole[j] == Applied(n, d);
      AppliesAt(whole, j, n, d);
      KnownLonger(whole, j, i, n);
    }
  }

  lemma KnownLonger(tr: seq<Event>, j: nat, i: nat, n: Name)
    requires j <= i <= |tr| && Known(tr[..j], n)
    ensures Known(tr[..i], n)
  {
    var k :| 0 <= k < j && tr[..j][k] == Subscribed(n);
    assert tr[..i][k] == Subscribed(n);
  }

  /** Whatever is applied was subscribed to before, and while connected. */
  ghost predicate Applies(tr: seq<Event>) {
    forall j :: 0 <= j < |tr| && tr[j].Applied? ==> Known(tr[..j], tr[j].name) && !Disconnected(tr[..j])
  }

  lemma AppliesAt(tr: seq<Event>, j: nat, n: Name, d: Data)
    requires Applies(tr) && j < |tr| && tr[j] == Applied(n, d)
    ensures Known(tr[..j], n) && !Disconnected(tr[..j])
  {}

  lemma FreshApplies()
    ensures Applies(FRESH.trace)
  {}

  lemma AppliesSnoc(tr: seq<Event>, e: Event)
    requires Applies(tr)
    requires e.Applied? ==> Known(tr, e.name) && !Disconnected(tr)
    ensures Applies(tr + [e])
  {
    hide Known, Disconnected;
    var t := tr + [e];
    forall j | 0 <= j < |t| && t[j].Applied?
      ensures Known(t[..j], t[j].name) && !Disconnected(t[..j])
    {
      if j < |tr| {
        assert t[..j] == tr[..j] && t[j] == tr[j];
      } else {
        assert t[..j] == tr;
      }
    }
  }

  /** A step adds at most one event, and an application only of a known topic while
      connected. */
  lemma StepTrace(c: Client, m: Move)
    requires Inv(c) && Enabled(c, m)
    ensures var t := Step(c, m);
            || t.trace == c.trace
            || (&& |t.trace| == |c.trace| + 1
                && t.trace == c.trace + [t.trace[|c.trace|]]
                && (t.trace[|c.trace|].Applied? ==>
                      Known(c.trace, t.trace[|c.trace|].name) && !Disconnected(c.trace)))
  {
    hide ResultsJustified, PointOk, Known, Disconnected, Told, Since, Latest;
  }

  lemma StepApplies(c: Client, m: Move)
    requires Inv(c) && Enabled(c, m) && Applies(c.trace)
    ensures Applies(Step(c, m).trace)
  {
    hide Inv, Enabled, Step, Applies, Known, Disconnected;
    StepTrace(c, m);
    var t := Step(c, m);
    if t.trace != c.trace {
      AppliesSnoc(c.trace, t.trace[|c.trace|]);
    }
  }

  lemma {:induction false} RunApplies(c: Client, ms: seq<Move>)
    requires Inv(c) && Legal(c, ms) && Applies(c.trace)
    ensures Applies(Run(c, ms).trace)
    decreases |ms|
  {
    hide Inv, Enabled, Step, Applies;
    if ms != [] {
      StepInv(c, ms[0]);
      StepApplies(c, ms[0]);
      RunApplies(Step(c, ms[0]), ms[1..]);
    }
  }

  /** Once a kill has been handled, or the stream has ended, no later packet changes the
      cache. */
  lemma NothingAppliedAfterKill(ms: seq<Move>, i: nat, j: nat)
    requires Legal(FRESH, ms) && i < j < |Run(FRESH, ms).trace|
    requires Run(FRESH, ms).trace[i] in {Killed, Lost}
    ensures !Run(FRESH, ms).trace[j].Applied?
  {
    hide Inv, Run, Legal, Known, Applies;
    FreshInv();
    FreshApplies();
    RunApplies(FRESH, ms);
    var tr := Run(FRESH, ms).trace;
    assert tr[..j][i] == tr[i];
    if tr[j].Applied? {
      AppliesAt(tr, j, tr[j].name, tr[j].data);
    }
  }

  // ---- waking ----

  /** In every interleaving, while `get(n)` waits unsignalled, `waittopic` names `n` and
      there is still nothing to return; so a notification for `n`, or a kill, signals it. */
  lemma NoLostWakeup(ms: seq<Move>, n: Name, w: Wait, l: Loop, d: Data)
    requires Legal(FRESH, ms) && Run(FRESH, ms).app == Parked(n, w, l)
    ensures var c := Run(FRESH, ms);
            && c.waiting == Some(n) && MustWait(c, n, l)
            && Step(c, Recv(Notify(n, d))).app == Signalled(n, w, l)
            && Step(c, Recv(Notify(n, d))).cache == c.cache[n := Cached(d, Changed)]
            && Step(c, Recv(KillClient)).app == Signalled(n, w, l)
            && !Step(c, Recv(KillClient)).running
  {
    hide Run, Legal, CacheTold, ResultsJustified;
    FreshInv();
    RunInv(FRESH, ms);
  }

  /** A thread waiting for any topic is signalled by a notification of any topic it
      subscribes to, and by a kill. */
  lemma NoLostWakeupForAny(ms: seq<Move>, n: Name, d: Data)
    requires Legal(FRESH, ms) && Run(FRESH, ms).app == AnyParked
    ensures var c := Run(FRESH, ms);
            && (n in c.cache <==> Step(c, Recv(Notify(n, d))).app == AnySignalled)
            && Step(c, Recv(KillClient)).app == AnySignalled
  {
    hide Run, Legal, CacheTold, ResultsJustified;
    FreshInv();
    RunInv(FRESH, ms);
  }

  predicate ReceiverMove(m: Move) {
    m.Recv? || m.EndOfStream?
  }

  /** Data waits in the cache for a thread that has been signalled. */
  predicate Ready(c: Client, n: Name, w: Wait, l: Loop) {
    c.app == Signalled(n, w, l) && n in c.cache && c.cache[n].state == Changed
  }

  lemma {:induction false} ReadyStays(c: Client, n: Name, w: Wait, l: Loop, rs: seq<Move>)
    requires Ready(c, n, w, l) && Legal(c, rs) && forall m :: m in rs ==> ReceiverMove(m)
    ensures Ready(Run(c, rs), n, w, l)
    decreases |rs|
  {
    if rs != [] {
      assert ReceiverMove(rs[0]);
      assert Ready(Step(c, rs[0]), n, w, l);
      hide Step, Ready, Enabled;
      ReadyStays(Step(c, rs[0]), n, w, l, rs[1..]);
    }
  }

  /** The wakeup is worth having: from a notification that reaches a waiting `get`,
      whatever packets the receiver handles before the thread has the mutex again, `get`
      then returns CHANGED with the last payload applied; it returns NOTCONNECTED just if
      the connection ended meanwhile. */
  lemma WakeupDelivers(ms: seq<Move>, n: Name, w: Wait, l: Loop, d: Data, rs: seq<Move>, c: Client)
    requires Legal(FRESH, ms) && Run(FRESH, ms).app == Parked(n, w, l) && Run(FRESH, ms).running
    requires Legal(Step(Run(FRESH, ms), Recv(Notify(n, d))), rs)
    requires forall m :: m in rs ==> ReceiverMove(m)
    requires c == Run(Step(Run(FRESH, ms), Recv(Notify(n, d))), rs)
    ensures Legal(c, [Lock, Proceed])
    ensures Latest(c.trace, n).Some?
    ensures var e := Run(c, [Lock, Proceed]);
            && e.app == Outside
            && e.trace == c.trace + [if c.running then Returned(n, w, Changed, Latest(c.trace, n).value)
                                     else Returned(n, w, NotConnected, [])]
  {
    hide Run, Legal, Inv;
    var c0 := Run(FRESH, ms);
    var c1 := Step(c0, Recv(Notify(n, d)));
    FreshInv();
    RunInv(FRESH, ms);
    NoLostWakeup(ms, n, w, l, d);
    StepInv(c0, Recv(Notify(n, d)));
    ReadyStays(c1, n, w, l, rs);
    RunInv(c1, rs);
    ReadyReturns(c, n, w, l);
  }

  lemma ReadyReturns(c: Client, n: Name, w: Wait, l: Loop)
    requires Inv(c) && Ready(c, n, w, l)
    ensures Legal(c, [Lock, Proceed])
    ensures Latest(c.trace, n).Some?
    ensures var e := Run(c, [Lock, Proceed]);
            && e.app == Outside
            && e.trace == c.trace + [if c.running then Returned(n, w, Changed, Latest(c.trace, n).value)
                                     else Returned(n, w, NotConnected, [])]
  {
    hide ResultsJustified, Since, Latest, Known;
    assert Told(c.trace, n, c.cache[n]);
    assert [Lock, Proceed][1..] == [Proceed] && [Proceed][1..] == [];
    var c1 := Step(c, Lock);
    assert Legal(Step(c1, Proceed), []);
    assert Enabled(c1, Proceed) && Legal(c1, [Proceed]);
    assert Run(c1, [Proceed]) == Run(Step(c1, Proceed), []) == Step(c1, Proceed);
  }

  // ---- waits that never end ----

  /** The application thread waits unsignalled, and nobody is left to signal it. */
  predicate Stranded(c: Client) {
    !c.running && (c.app.Parked? || c.app.AnyParked?)
  }

  /** `get(n)` from the mutex goes on to wait. */
  predicate WillWait(c: Client, n: Name, w: Wait) {
    n in c.cache && if c.cache[n].state == NoData then w != WaitNone
                    else w == WaitNew && c.cache[n].state != Changed
  }

  /** Two ways to strand the application thread: the stream ends while it waits, as the
      receiver then exits without signalling; or it goes on to wait after the connection
      has ended, by a kill or not, having passed the test of `running` before. */
  predicate Strands(c: Client, m: Move) {
    || (m == EndOfStream && (c.app.Parked? || c.app.AnyParked?))
    || (m == Proceed && !c.running
        && (c.app.AnyHolding? || (c.app.Holding? && WillWait(c, c.app.name, c.app.wait))))
  }

  /** In every interleaving, a step leaves the thread stranded exactly if it is one of
      those. */
  lemma StrandedIff(ms: seq<Move>, m: Move)
    requires Legal(FRESH, ms) && Enabled(Run(FRESH, ms), m)
    ensures Stranded(Step(Run(FRESH, ms), m)) <==> Strands(Run(FRESH, ms), m)
  {
    hide Run, Legal, CacheTold, ResultsJustified;
    FreshInv();
    RunInv(FRESH, ms);
  }

  /** A stranded thread waits for ever: nothing but a spurious wakeup of `get` can happen
      to the client, and nothing at all in `waitForAny`. */
  lemma StrandedForEver(c: Client, m: Move)
    requires Stranded(c) && Enabled(c, m)
    ensures m == Spurious && c.app.Parked?
  {}

  lemma RunOne(c: Client, m: Move, ms: seq<Move>)
    requires Enabled(c, m) && Legal(Step(c, m), ms)
    ensures Legal(c, [m] + ms) && Run(c, [m] + ms) == Run(Step(c, m), ms)
  {
    hide Enabled, Step;
    assert ([m] + ms)[1..] == ms;
  }

  /** A `get` that waits for its first data when the stream ends. */
  lemma StrandedByEnd(n: Name)
    ensures var ms := [DoSubscribe(n), CallGet(n, WaitAny), Lock, Proceed, EndOfStream];
            Legal(FRESH, ms) && Stranded(Run(FRESH, ms))
  {
    var c1 := Step(FRESH, DoSubscribe(n));
    var c2 := Step(c1, CallGet(n, WaitAny));
    var c3 := Step(c2, Lock);
    var c4 := Step(c3, Proceed);
    assert c4.app == Parked(n, WaitAny, FirstData) && c4.running;
    assert Stranded(Step(c4, EndOfStream));
    assert Enabled(c1, CallGet(n, WaitAny)) && Enabled(c2, Lock) && Enabled(c3, Proceed);
    hide Step, Stranded;
    RunOne(c4, EndOfStream, []);
    RunOne(c3, Proceed, [EndOfStream]);
    RunOne(c2, Lock, [Proceed, EndOfStream]);
    RunOne(c1, CallGet(n, WaitAny), [Lock, Proceed, EndOfStream]);
    RunOne(FRESH, DoSubscribe(n), [CallGet(n, WaitAny), Lock, Proceed, EndOfStream]);
  }

  /** A `get` that has found the client running when a kill is handled, and only then gets
      the mutex. */
  lemma StrandedByKill(n: Name)
    ensures var ms := [DoSubscribe(n), CallGet(n, WaitAny), Recv(KillClient), Lock, Proceed];
            && Legal(FRESH, ms) && Stranded(Run(FRESH, ms))
            && Lost !in Run(FRESH, ms).trace
  {
    var c1 := Step(FRESH, DoSubscribe(n));
    var c2 := Step(c1, CallGet(n, WaitAny));
    var c3 := Step(c2, Recv(KillClient));
    var c4 := Step(c3, Lock);
    var c5 := Step(c4, Proceed);
    assert c2.app == Entering(n, WaitAny) && c2.running;
    assert c5.app == Parked(n, WaitAny, FirstData) && !c5.running && Lost !in c5.trace;
    assert Enabled(c1, CallGet(n, WaitAny)) && Enabled(c2, Recv(KillClient)) && Enabled(c3, Lock) && Enabled(c4, Proceed);
    hide Step, Enabled;
    RunOne(c4, Proceed, []);
    RunOne(c3, Lock, [Proceed]);
    RunOne(c2, Recv(KillClient), [Lock, Proceed]);
    RunOne(c1, CallGet(n, WaitAny), [Recv(KillClient), Lock, Proceed]);
    RunOne(FRESH, DoSubscribe(n), [CallGet(n, WaitAny), Recv(KillClient), Lock, Proceed]);
  }
}
