// Theorems about every interleaving of a client's two threads.
module ClientLaws {
  import opened Types
  import opened ClientSpec

  // ---- the invariant ----

  /** The cache is what the trace says it should be. */
  ghost predicate CacheTold(c: Client) {
    forall n: Name ::
      && (n in c.cache <==> Known(c.trace, n))
      && (n !in c.cache ==> Latest(c.trace, n) == None)
      && (n in c.cache ==> Told(c.trace, n, c.cache[n]))
  }

  predicate Told(tr: seq<Event>, n: Name, k: Cached) {
    match k.state
    case NoData => Latest(tr, n) == None && Since(tr, n) == []
    case Changed => Latest(tr, n) == Some(k.data) && Since(tr, n) != [] && Since(tr, n)[|Since(tr, n)| - 1] == k.data
    case Unchanged => Latest(tr, n) == Some(k.data) && Since(tr, n) == []
    case _ => false
  }

  /** The application thread's place agrees with `waittopic` and with the cache. */
  predicate PointOk(c: Client) {
    match c.app
    case Parked(n, w, l) => c.waiting == Some(n) && MustWait(c, n, l) && LoopOk(c, n, w, l)
    case Signalled(n, w, l) => LoopOk(c, n, w, l) && (c.waiting == None || c.waiting == Some(n))
    case HoldingAgain(n, w, l) => LoopOk(c, n, w, l) && (c.waiting == None || c.waiting == Some(n))
    case AnyParked => c.waiting == Some([])
    case _ => c.waiting == None
  }

  predicate LoopOk(c: Client, n: Name, w: Wait, l: Loop) {
    && n in c.cache
    && match l
       case FirstData => w != WaitNone && c.cache[n].state in {NoData, Changed}
       case NewData => w == WaitNew && c.cache[n].state in {Unchanged, Changed}
  }

  ghost predicate ResultsJustified(tr: seq<Event>) {
    forall i :: 0 <= i < |tr| && tr[i].Returned? ==>
      Justified(tr[..i], tr[i].name, tr[i].wait, tr[i].state, tr[i].data)
  }

  ghost predicate Inv(c: Client) {
    && CacheTold(c)
    && PointOk(c)
    && ResultsJustified(c.trace)
    && (!c.running <==> Disconnected(c.trace))
  }

  // ---- traces grow at the end ----

  /** After this event nothing applied to `n` before it counts as new. */
  predicate Resets(e: Event, n: Name) {
    e == Subscribed(n) || (e.Returned? && e.name == n && Valid(e.state))
  }

  lemma Snoc(tr: seq<Event>, e: Event, n: Name)
    ensures Known(tr + [e], n) <==> Known(tr, n) || e == Subscribed(n)
    ensures Disconnected(tr + [e]) <==> Disconnected(tr) || e == Killed || e == Lost
    ensures Since(tr + [e], n) ==
            if Resets(e, n) then []
            else if e.Applied? && e.name == n then Since(tr, n) + [e.data]
            else Since(tr, n)
    ensures Latest(tr + [e], n) ==
            if e == Subscribed(n) then None
            else if e.Applied? && e.name == n then Some(e.data)
            else Latest(tr, n)
  {
    assert (tr + [e])[..|tr|] == tr;
  }

  lemma {:induction false} SinceLatest(tr: seq<Event>, n: Name)
    ensures Since(tr, n) != [] ==> Latest(tr, n) == Some(Since(tr, n)[|Since(tr, n)| - 1])
  {
    if tr != [] {
      SinceLatest(tr[..|tr| - 1], n);
    }
  }

  /** The cache that event `e` leaves, given the one before. */
  predicate Follows(e: Event, before: map<Name, Cached>, after: map<Name, Cached>) {
    match e
    case Subscribed(n) => after == before[n := Cached([], NoData)]
    case Applied(n, d) => n in before && after == before[n := Cached(d, Changed)]
    case Returned(n, _, state, _) =>
      if Valid(state) then n in before && Valid(before[n].state) && after == before[n := before[n].(state := Unchanged)]
      else after == before
    case _ => after == before
  }

  lemma ToldAfter(c: Client, t: Client, e: Event)
    requires CacheTold(c) && t.trace == c.trace + [e] && Follows(e, c.cache, t.cache)
    ensures CacheTold(t)
  {
    hide Since, Latest, Known, Told, Follows;
    forall n: Name
      ensures n in t.cache <==> Known(t.trace, n)
      ensures n !in t.cache ==> Latest(t.trace, n) == None
      ensures n in t.cache ==> Told(t.trace, n, t.cache[n])
    {
      ToldAt(c, t, e, n);
    }
  }

  lemma ToldAt(c: Client, t: Client, e: Event, n: Name)
    requires n in c.cache <==> Known(c.trace, n)
    requires n !in c.cache ==> Latest(c.trace, n) == None
    requires n in c.cache ==> Told(c.trace, n, c.cache[n])
    requires t.trace == c.trace + [e] && Follows(e, c.cache, t.cache)
    ensures n in t.cache <==> Known(t.trace, n)
    ensures n !in t.cache ==> Latest(t.trace, n) == None
    ensures n in t.cache ==> Told(t.trace, n, t.cache[n])
  {
    Snoc(c.trace, e, n);
    hide Since, Latest, Known;
  }

  lemma JustifiedAfter(tr: seq<Event>, e: Event)
    requires ResultsJustified(tr)
    requires e.Returned? ==> Justified(tr, e.name, e.wait, e.state, e.data)
    ensures ResultsJustified(tr + [e])
  {
    hide Justified;
    var t := tr + [e];
    forall i | 0 <= i < |t| && t[i].Returned?
      ensures Justified(t[..i], t[i].name, t[i].wait, t[i].state, t[i].data)
    {
      if i < |tr| {
        assert t[..i] == tr[..i] && t[i] == tr[i];
      } else {
        assert t[..i] == tr;
      }
    }
  }

  /** One event keeps the invariant, if its effect on the cache, on `running` and on the
      application thread's place is right and a result is justified. */
  lemma EventInv(c: Client, t: Client, e: Event)
    requires Inv(c) && t.trace == c.trace + [e] && Follows(e, c.cache, t.cache) && PointOk(t)
    requires t.running == (c.running && e != Killed && e != Lost)
    requires e.Returned? ==> Justified(c.trace, e.name, e.wait, e.state, e.data)
    ensures Inv(t)
  {
    ToldAfter(c, t, e);
    JustifiedAfter(c.trace, e);
    Snoc(c.trace, e, []);
    hide CacheTold, ResultsJustified, Since, Latest, Known, Follows, Justified;
  }

  lemma QuietInv(c: Client, t: Client)
    requires Inv(c) && t.trace == c.trace && t.cache == c.cache && t.running == c.running && PointOk(t)
    ensures Inv(t)
  {
    hide ResultsJustified, Since, Latest, Known;
  }

  // ---- each step ----

  lemma RecvInv(c: Client, r: Reply)
    requires Inv(c) && Enabled(c, Recv(r))
    ensures Inv(RecvStep(c, r))
  {
    hide CacheTold, ResultsJustified, Disconnected;
    match r
    case Notify(n, d) => EventInv(c, NotifyStep(c, n, d), if n in c.cache then Applied(n, d) else Ignored(n, d));
    case KillClient => EventInv(c, KillStep(c), Killed);
  }

  /** What is in the cache under a name is justified as the result of a `get`. */
  lemma TakeInv(c: Client, n: Name, w: Wait)
    requires Inv(c) && n in c.cache && Valid(c.cache[n].state)
    requires c.cache[n].state == Unchanged ==> w != WaitNew
    ensures Inv(Take(c.(waiting := None), n, w))
  {
    var e := Returned(n, w, c.cache[n].state, c.cache[n].data);
    assert Told(c.trace, n, c.cache[n]);
    assert Justified(c.trace, n, w, c.cache[n].state, c.cache[n].data);
    hide CacheTold, ResultsJustified, Disconnected, Justified, Told;
    EventInv(c, Take(c.(waiting := None), n, w), e);
  }

  lemma RefuseInv(c: Client, n: Name, w: Wait, state: TopicState)
    requires Inv(c)
    requires match state
             case NotFound => n !in c.cache || (w == WaitNone && c.cache[n].state == NoData)
             case NotConnected => !c.running
             case _ => false
    ensures Inv(Return(c.(waiting := None), n, w, state, []))
  {
    assert n in c.cache ==> Told(c.trace, n, c.cache[n]);
    assert Justified(c.trace, n, w, state, []);
    hide CacheTold, ResultsJustified, Disconnected, Justified, Told;
    EventInv(c, Return(c.(waiting := None), n, w, state, []), Returned(n, w, state, []));
  }

  lemma CacheStates(c: Client, n: Name)
    requires CacheTold(c) && n in c.cache
    ensures c.cache[n].state in {NoData, Unchanged, Changed}
  {
    assert Told(c.trace, n, c.cache[n]);
  }

  lemma ExamineInv(c: Client, n: Name, w: Wait)
    requires Inv(c) && c.app == Holding(n, w)
    ensures Inv(Examine(c, n, w))
  {
    if n in c.cache {
      CacheStates(c, n);
    }
    assert c.(waiting := None) == c;
    hide CacheTold, ResultsJustified, Disconnected;
    if n !in c.cache || (c.cache[n].state == NoData && w == WaitNone) {
      RefuseInv(c, n, w, NotFound);
    } else if c.cache[n].state == NoData {
      QuietInv(c, Park(c, n, w, FirstData));
    } else if w == WaitNew && c.cache[n].state != Changed {
      QuietInv(c, Park(c, n, w, NewData));
    } else {
      TakeInv(c, n, w);
    }
  }

  lemma RetestInv(c: Client, n: Name, w: Wait, l: Loop)
    requires Inv(c) && c.app == HoldingAgain(n, w, l)
    ensures Inv(Retest(c, n, w, l))
  {
    CacheStates(c, n);
    hide CacheTold, ResultsJustified, Disconnected;
    if !c.running {
      RefuseInv(c, n, w, NotConnected);
    } else if MustWait(c, n, l) {
      QuietInv(c, Park(c.(waiting := None), n, w, l));
    } else {
      TakeInv(c, n, w);
    }
  }

  lemma StepInv(c: Client, m: Move)
    requires Inv(c) && Enabled(c, m)
    ensures Inv(Step(c, m))
  {
    hide CacheTold, ResultsJustified, Disconnected, Examine, Retest, RecvStep;
    match m
    case DoSubscribe(n) => EventInv(c, Step(c, m), Subscribed(n));
    case Recv(r) => RecvInv(c, r);
    case EndOfStream => EventInv(c, Step(c, m), Lost);
    case CallGet(n, w) =>
      if c.running {
        QuietInv(c, Step(c, m));
      } else {
        assert c.(waiting := None) == c;
        RefuseInv(c, n, w, NotConnected);
      }
    case CallWaitForAny => QuietInv(c, Step(c, m));
    case Lock => QuietInv(c, Step(c, m));
    case Proceed =>
      match c.app {
        case Holding(n, w) => ExamineInv(c, n, w);
        case HoldingAgain(n, w, l) => RetestInv(c, n, w, l);
        case _ => QuietInv(c, Step(c, m));
      }
    case Spurious => QuietInv(c, Step(c, m));
  }

  lemma {:induction false} RunSnoc(c: Client, ms: seq<Move>, m: Move)
    requires Legal(c, ms) && Enabled(Run(c, ms), m)
    ensures Legal(c, ms + [m]) && Run(c, ms + [m]) == Step(Run(c, ms), m)
    decreases |ms|
  {
    hide Step, Enabled;
    if ms == [] {
      assert [] + [m] == [m] && [m][1..] == [];
      assert Legal(Step(c, m), []);
    } else {
      RunSnoc(Step(c, ms[0]), ms[1..], m);
      assert (ms + [m])[1..] == ms[1..] + [m];
    }
  }

  lemma FreshInv()
    ensures Inv(FRESH)
  {}

  lemma {:induction false} RunInv(c: Client, ms: seq<Move>)
    requires Inv(c) && Legal(c, ms)
    ensures Inv(Run(c, ms))
    decreases |ms|
  {
    hide Inv, Enabled, Step;
    if ms != [] {
      StepInv(c, ms[0]);
      RunInv(Step(c, ms[0]), ms[1..]);
    }
  }
}
