/**
  The pool told from its events alone: each ticket has the class it came with, counts as large
  exactly when it came for a large file that is not one being opened, and waits or is
  granted a slot as the numbers of such tickets say.
*/
module PoolArrivals {
  import opened Wrappers
  import opened PoolRules
  import opened PoolAccounting
  import opened PoolHolders
  import opened PoolFairness

  /** A request for a slot, as its caller makes it. */
  datatype Arrival = Arrival(class_: Class, isLargeFile: bool)

  function ArrivalOf(event: Event): seq<Arrival> {
    match event
    case Arrive(class_, isLargeFile) => [Arrival(class_, isLargeFile)]
    case TryAcquire(class_, isLargeFile) => [Arrival(class_, isLargeFile)]
    case _ => []
  }

  /** The requests of a run in their order: the n-th has the ticket n. */
  function Arrivals(events: seq<Timed>): seq<Arrival>
    decreases |events|
  {
    if events == [] then [] else Arrivals(events[..|events| - 1]) + ArrivalOf(events[|events| - 1].event)
  }

  ghost predicate IsLineOf(l: Line, came: Arrival) {
    l.class_ == came.class_ && (l.large <==> came.isLargeFile && came.class_ != Open)
  }

  /** Every ticket that waits or holds a slot is of the class it came with, and large as it came. */
  ghost predicate AllAreAsTheyCame(w: World, came: seq<Arrival>) {
    && w.inner.nextId == |came|
    && (forall t <- w.inner.waiters :: t.number < |came| && IsLineOf(w.inner.waiters[t].line, came[t.number]))
    && (forall t <- w.live :: t.number < |came| && IsLineOf(w.live[t], came[t.number]))
  }

  // ---------------------------------------------------------------- the lines

  /** Handing out changes nobody's line. */
  lemma {:induction false} HandOutKeepsLineOf(s: Inner)
    requires LinesOk(s)
    ensures HandOut(s).waiters.Keys == s.waiters.Keys && HandOut(s).nextId == s.nextId
    ensures forall t <- s.waiters :: HandOut(s).waiters[t].line == s.waiters[t].line
    decreases Waiting(s)
  {
    if NextGrant(s).Some? {
      NextIsWaiting(s);
      GrantKeepsLines(s);
      HandOutKeepsLineOf(PoolRules.Grant(s, NextGrant(s).value));
    }
  }

  lemma DispatchKeepsLineOf(s: Inner, now: nat)
    requires LinesOk(s)
    ensures Dispatch(s, now).waiters.Keys == s.waiters.Keys && Dispatch(s, now).nextId == s.nextId
    ensures forall t <- s.waiters :: Dispatch(s, now).waiters[t].line == s.waiters[t].line
  {
    HandOutKeepsLineOf(s);
  }

  /** Waiters of these lines, and slots of these. */
  ghost predicate AreAsTheyCame(s: Inner, came: seq<Arrival>) {
    s.nextId == |came| && forall t <- s.waiters :: t.number < |came| && IsLineOf(s.waiters[t].line, came[t.number])
  }

  lemma ArrivedAsItCame(s: Inner, came: seq<Arrival>, class_: Class, isLargeFile: bool, now: nat)
    requires LinesOk(s) && AreAsTheyCame(s, came)
    ensures AreAsTheyCame(Arrived(s, class_, isLargeFile, now), came + [Arrival(class_, isLargeFile)])
  {
    var l := LineFor(class_, isLargeFile);
    AddKeepsLines(s, l);
    DispatchKeepsLineOf(AddWaiter(s, l), now);
    hide LinesOk, Dispatch;
  }

  lemma SameAsItCame(s: Inner, u: Inner, came: seq<Arrival>, now: nat)
    requires AreAsTheyCame(s, came) && LinesOk(u) && u.nextId == s.nextId
    requires forall t <- u.waiters :: t in s.waiters && u.waiters[t].line == s.waiters[t].line
    ensures AreAsTheyCame(Dispatch(u, now), came)
  {
    DispatchKeepsLineOf(u, now);
    hide LinesOk, Dispatch, IsLineOf;
  }

  lemma TakenAsItCame(w: World, t: Ticket, came: seq<Arrival>)
    requires t in w.inner.waiters && AllAreAsTheyCame(w, came)
    ensures AllAreAsTheyCame(TakeGranted(w, t), came) && AllAreAsTheyCame(TakenOrGone(w, t), came)
  {
    hide IsLineOf;
  }

  lemma StepAsTheyCame(w: World, event: Event, now: nat, came: seq<Arrival>)
    requires Inv(w) && AllAreAsTheyCame(w, came)
    ensures AllAreAsTheyCame(Step(w, event, now), came + ArrivalOf(event))
  {
    hide LinesOk, Accounted, Sized, Quiet, IsLineOf, Dispatch, Arrived, TakeGranted, TakenOrGone, Grow, Throttle, RemoveWaiter;
    var s := w.inner;
    match event
    case Arrive(class_, isLargeFile) =>
      ArrivedAsItCame(s, came, class_, isLargeFile, now);
      TakenAsItCame(w.(inner := Arrived(s, class_, isLargeFile, now)), Ticket(s.nextId), came + [Arrival(class_, isLargeFile)]);
    case TryAcquire(class_, isLargeFile) =>
      ArrivedAsItCame(s, came, class_, isLargeFile, now);
      TryUnfolds(w, class_, isLargeFile, now);
      TakenAsItCame(w.(inner := Arrived(s, class_, isLargeFile, now)), Ticket(s.nextId), came + [Arrival(class_, isLargeFile)]);
    case Collect(t) => if t in s.waiters { TakenAsItCame(w, t, came); }
    case _ => StepAsTheyCameElse(w, event, now, came);
  }

  lemma StepAsTheyCameElse(w: World, event: Event, now: nat, came: seq<Arrival>)
    requires Inv(w) && AllAreAsTheyCame(w, came) && !event.Arrive? && !event.TryAcquire? && !event.Collect?
    ensures AllAreAsTheyCame(Step(w, event, now), came + ArrivalOf(event))
  {
    hide LinesOk, Accounted, Sized, Quiet, IsLineOf, Dispatch, Grow, Throttle, RemoveWaiter;
    var s := w.inner;
    match event
    case GiveUp(t) => if t in s.waiters {
      var _ := DispatchGivenUp(s, t, now);
      GivenUpKeepsLineOf(s, t);
      SameAsItCame(s, GivenUp(s, t), came, now);
    }
    case Release(t, succeeded) => if t in w.live {
      var _ := DispatchReleased(s, w.live[t], succeeded, now);
      GrowKeepsLines(s, now);
      SameAsItCame(s, Released(s, w.live[t], succeeded, now), came, now);
    }
    case SetPaused(paused) =>
      var _ := DispatchSame(s, WithPaused(s, paused), now);
      SameAsItCame(s, WithPaused(s, paused), came, now);
    case SetLimits(ceiling, large) =>
      var _ := DispatchSame(s, WithLimits(s, ceiling, large), now);
      SameAsItCame(s, WithLimits(s, ceiling, large), came, now);
    case Throttled(wait) => ThrottleKeepsWaiters(s, if wait.Some? then wait.value else DEFAULT_THROTTLE_WAIT, now);
    case Unblock =>
      var _ := DispatchSame(s, s.(blockedUntil := None), now);
      SameAsItCame(s, s.(blockedUntil := None), came, now);
  }

  lemma ThrottleKeepsWaiters(s: Inner, wait: nat, now: nat)
    ensures Throttle(s, wait, now).waiters == s.waiters && Throttle(s, wait, now).nextId == s.nextId
  {
  }

  lemma GivenUpKeepsLineOf(s: Inner, t: Ticket)
    requires t in s.waiters
    ensures GivenUp(s, t).nextId == s.nextId
    ensures forall o <- GivenUp(s, t).waiters :: o in s.waiters && GivenUp(s, t).waiters[o].line == s.waiters[o].line
  {
  }

  /** A pool as it is made, in which nobody waits. */
  ghost function Made(start: nat, ceiling: nat): (w: World)
    ensures Inv(w)
  {
    NewKeeps(start, ceiling);
    World(New(start, ceiling), map[])
  }

  /** Over every run: what a ticket counts as is what it came as. */
  lemma {:induction false} RunAsTheyCame(start: nat, ceiling: nat, events: seq<Timed>)
    ensures AllAreAsTheyCame(Run(Made(start, ceiling), events), Arrivals(events))
    decreases |events|
  {
    var w := Made(start, ceiling);
    hide Inv, Step;
    if events != [] {
      var before, last := events[..|events| - 1], events[|events| - 1];
      assert events == before + [last];
      RunAsTheyCame(start, ceiling, before);
      RunOneMore(w, before, last);
      StepAsTheyCame(Run(w, before), last.event, last.now, Arrivals(before));
    }
  }

  // ---------------------------------------------------------------- who waits

  ghost predicate Waits(w: World, t: Ticket) {
    t in w.inner.waiters && !w.inner.waiters[t].granted
  }

  /** The holders that came for a large file, other than to open it. */
  ghost function LargeHolders(w: World, came: seq<Arrival>): set<Ticket> {
    set t | t in Holders(w) && t.number < |came| && came[t.number].isLargeFile && came[t.number].class_ != Open
  }

  ghost predicate CameToOpen(t: Ticket, came: seq<Arrival>) {
    t.number < |came| && came[t.number].class_ == Open
  }

  lemma HeldAsTheyCame(w: World, came: seq<Arrival>)
    requires Inv(w) && AllAreAsTheyCame(w, came)
    ensures w.inner.Total() == |Holders(w)|
    ensures w.inner.largeHeld == |LargeHolders(w, came)|
    ensures w.inner.Held(Open) >= 0
    ensures w.inner.Held(Open) > 0 <==> exists t <- Holders(w) :: CameToOpen(t, came)
    ensures MayGo(w.inner, Open) != {} <==> exists t :: Waits(w, t) && CameToOpen(t, came)
  {
    hide Inner.Total, Inner.Held, LinesOk, Accounted, Sized, Quiet, Holders, LargeHolders, AllAreAsTheyCame, MayGo, Waits, CameToOpen, LineOf;
    CountsAreHolders(w);
    HoldersAsTheyCame(w, came);
    OpensWait(w, came);
  }

  lemma HoldersAsTheyCame(w: World, came: seq<Arrival>)
    requires AllAreAsTheyCame(w, came)
    ensures LargeHolders(w, came) == set t | t in Holders(w) && LineOf(w, t).large
    ensures forall t <- Holders(w) :: LineOf(w, t).class_ == Open <==> CameToOpen(t, came)
  {
    assert forall t <- Holders(w) :: t.number < |came| && IsLineOf(LineOf(w, t), came[t.number]);
  }

  lemma OpensWait(w: World, came: seq<Arrival>)
    requires AllAreAsTheyCame(w, came)
    ensures MayGo(w.inner, Open) != {} <==> exists t :: Waits(w, t) && CameToOpen(t, came)
  {
    if t :| Waits(w, t) && CameToOpen(t, came) {
      assert t in MayGo(w.inner, Open);
    }
    if t :| t in MayGo(w.inner, Open) {
      assert Waits(w, t) && CameToOpen(t, came);
    }
  }

  /**
    In every reached state with no wait of a throttle set, whoever waits has a reason. To open a
    file: two more hold a slot than there are. For other work: somebody opens a file or waits to,
    the pool is paused, all slots are held, or it came for a large file and as many of those hold
    a slot as may.
  */
  lemma NobodyWaitsInVain(start: nat, ceiling: nat, events: seq<Timed>, t: Ticket)
    requires var w := Run(Made(start, ceiling), events); Waits(w, t) && w.inner.blockedUntil.None?
    ensures var w, came := Run(Made(start, ceiling), events), Arrivals(events);
            && t.number < |came|
            && if came[t.number].class_ == Open then |Holders(w)| >= w.inner.size + 2
               else
                 || (exists o <- Holders(w) :: CameToOpen(o, came))
                 || (exists o :: Waits(w, o) && CameToOpen(o, came))
                 || w.inner.paused
                 || |Holders(w)| >= w.inner.size
                 || (came[t.number].isLargeFile && |LargeHolders(w, came)| >= w.inner.largeLimit)
  {
    var w, came := Run(Made(start, ceiling), events), Arrivals(events);
    RunAsTheyCame(start, ceiling, events);
    RunKeeps(Made(start, ceiling), events);
    hide Run, Arrivals, Made;
    HeldAsTheyCame(w, came);
    IsWaitingFor(w, t);
    hide Inv, MayGo, CameToOpen, Inner.Total, Inner.Held, Holders, LargeHolders;
    IsAsItCameIn(w, came, t);
  }

  lemma IsWaitingFor(w: World, t: Ticket)
    requires Inv(w) && Waits(w, t) && w.inner.blockedUntil.None?
    ensures var s, l := w.inner, w.inner.waiters[t].line;
            if l.class_ == Open then s.Total() >= s.size + 2 || l.large
            else s.Held(Open) > 0 || MayGo(s, Open) != {} || s.paused || s.Total() >= s.size || (l.large && s.largeHeld >= s.largeLimit)
  {
    NobodyIsNextIff(w.inner);
    hide LinesOk, Accounted, Sized, NextGrant, Inner.Total, Inner.Held;
    var class_ := w.inner.waiters[t].line.class_;
    assert (w.inner.waiters[t].line.large && w.inner.largeHeld >= w.inner.largeLimit) || t in MayGo(w.inner, class_);
    assert class_ == Open || class_ == Metadata || class_ == Download || class_ == Upload;
  }

  // ---------------------------------------------------------------- who is granted

  /** From the first grant of work other than an opening on, no more slots are held than there are. */
  lemma {:induction false} HandOutOfBackground(s: Inner)
    requires LinesOk(s) && s.Held(Open) <= 0 && MayGo(s, Open) == {}
    ensures var u := HandOut(s); u.Held(Open) == s.Held(Open) && u.Total() <= Max2(s.Total(), s.size)
    decreases Waiting(s)
  {
    if NextGrant(s).Some? {
      NextIsWaiting(s);
      GrantKeepsLines(s);
      GrantIsWithinBounds(s);
      var t := NextGrant(s).value.ticket;
      assert t in MayGo(s, s.waiters[t].line.class_);
      GrantOfBackground(s);
      hide LinesOk, NextGrant, PoolRules.Grant, MayGo, Inner.Total, Inner.Held;
      HandOutOfBackground(PoolRules.Grant(s, NextGrant(s).value));
    }
  }

  function Max2(a: int, b: int): int {
    if a >= b then a else b
  }

  lemma GrantOfBackground(s: Inner)
    requires LinesOk(s) && NextGrant(s).Some? && NextGrant(s).value.ticket in s.waiters && s.waiters[NextGrant(s).value.ticket].line.class_ != Open
    requires MayGo(s, Open) == {}
    ensures var u := PoolRules.Grant(s, NextGrant(s).value);
            u.Held(Open) == s.Held(Open) && u.Total() == s.Total() + 1 && MayGo(u, Open) == {} && u.size == s.size
  {
    hide LinesOk, NextGrant;
    var u := PoolRules.Grant(s, NextGrant(s).value);
    GrantCounts(s, NextGrant(s).value);
    hide Inner.Total;
    forall t
      ensures t !in MayGo(u, Open)
    {
      assert t !in MayGo(s, Open);
    }
    assert MayGo(u, Open) == {};
  }

  lemma GrantCounts(s: Inner, next: Next)
    requires next.ticket in s.waiters
    ensures var u := PoolRules.Grant(s, next);
            && u.Total() == s.Total() + 1 && u.size == s.size && u.largeLimit == s.largeLimit && u.paused == s.paused
            && u.largeHeld == s.largeHeld + if s.waiters[next.ticket].line.large then 1 else 0
  {
    var u, class_ := PoolRules.Grant(s, next), s.waiters[next.ticket].line.class_;
    assert forall c: Class :: u.Held(c) == s.Held(c) + if c == class_ then 1 else 0;
    hide Inner.Held;
    match class_
    case Open =>
    case Metadata =>
    case Download =>
    case Upload =>
  }

  /** Handing out goes to the bounds, unless more was held before. */
  lemma {:induction false} HandOutIsWithinBounds(s: Inner)
    requires LinesOk(s)
    ensures var u := HandOut(s); u.Total() <= Max2(s.Total(), s.size + 2) && u.largeHeld <= Max2(s.largeHeld, s.largeLimit)
    decreases Waiting(s)
  {
    if NextGrant(s).Some? {
      NextIsWaiting(s);
      GrantKeepsLines(s);
      GrantIsWithinBounds(s);
      GrantCounts(s, NextGrant(s).value);
      hide LinesOk, NextGrant, PoolRules.Grant, Inner.Total;
      HandOutIsWithinBounds(PoolRules.Grant(s, NextGrant(s).value));
    }
  }

  /** What holds when handing out is over, if it granted this one. */
  ghost predicate IsGrantedIn(s: Inner, u: Inner, l: Line) {
    && (l.class_ == Open ==> u.Total() <= s.size + 2)
    && (l.class_ != Open ==> u.Total() <= s.size && u.Held(Open) <= 0 && !s.paused)
    && (l.large ==> u.largeHeld <= s.largeLimit)
  }

  lemma {:induction false} HandedOut(s: Inner, t: Ticket)
    requires LinesOk(s) && t in s.waiters && !s.waiters[t].granted
    requires t in HandOut(s).waiters && HandOut(s).waiters[t].granted
    ensures IsGrantedIn(s, HandOut(s), s.waiters[t].line)
    decreases Waiting(s)
  {
    NextIsWaiting(s);
    GrantKeepsLines(s);
    var next := NextGrant(s).value;
    var u := PoolRules.Grant(s, next);
    GrantCounts(s, next);
    if next.ticket == t {
      GrantIsWithinBounds(s);
      HandOutIsWithinBounds(u);
      if s.waiters[t].line.class_ != Open {
        GrantOfBackground(s);
        HandOutOfBackground(u);
      }
    } else {
      assert u.waiters[t] == s.waiters[t];
      HandedOut(u, t);
    }
    hide LinesOk, NextGrant, Inner.Total, Inner.Held, PoolRules.Grant;
  }

  /** Whoever holds a slot after a step and did not before was handed it in that step. */
  ghost predicate WasHanded(w: World, u: World, d: Option<Inner>, now: nat, t: Ticket) {
    && d.Some? && LinesOk(d.value) && !d.value.Blocked(now)
    && t in d.value.waiters && !d.value.waiters[t].granted
    && var v := HandOut(d.value);
       && t in v.waiters && v.waiters[t].granted
       && u.inner.held == v.held && u.inner.largeHeld == v.largeHeld
       && u.inner.size == d.value.size && u.inner.largeLimit == d.value.largeLimit && u.inner.paused == d.value.paused
       && (t in u.live || t in u.inner.waiters) && LineOf(u, t) == d.value.waiters[t].line
  }

  /** One more waits, and nothing else is new. */
  ghost predicate Joins(w: World, d: Inner, arrived: Ticket) {
    && LinesOk(d) && w.live.Keys !! d.waiters.Keys
    && arrived in d.waiters && !d.waiters[arrived].granted
    && forall o <- d.waiters :: o != arrived ==> o in w.inner.waiters && w.inner.waiters[o] == d.waiters[o]
  }

  lemma TakenIsHanded(w: World, d: Inner, now: nat, t: Ticket, arrived: Ticket)
    requires Joins(w, d, arrived)
    ensures arrived in Dispatch(d, now).waiters
    ensures var u := TakeGranted(w.(inner := Dispatch(d, now)), arrived);
            t in Holders(u) && t !in Holders(w) ==> WasHanded(w, u, Some(d), now, t)
  {
    HandOutKeepsLineOf(d);
    HandOutKeepsRest(d);
    hide LinesOk, HandOut;
  }

  lemma TriedIsHanded(w: World, d: Inner, now: nat, t: Ticket, arrived: Ticket)
    requires Joins(w, d, arrived)
    ensures arrived in Dispatch(d, now).waiters
    ensures var u := TakenOrGone(w.(inner := Dispatch(d, now)), arrived);
            t in Holders(u) && t !in Holders(w) ==> WasHanded(w, u, Some(d), now, t)
  {
    HandOutKeepsLineOf(d);
    HandOutKeepsRest(d);
    hide LinesOk, HandOut;
  }

  lemma SameIsHanded(w: World, d: Inner, live: map<Ticket, Line>, now: nat, t: Ticket)
    requires LinesOk(d) && live.Keys <= w.live.Keys && w.live.Keys !! w.inner.waiters.Keys && (forall o <- d.waiters :: o in w.inner.waiters && w.inner.waiters[o] == d.waiters[o])
    ensures t in Holders(World(Dispatch(d, now), live)) && t !in Holders(w) ==> WasHanded(w, World(Dispatch(d, now), live), Some(d), now, t)
  {
    HandOutKeepsLineOf(d);
    HandOutKeepsRest(d);
    hide LinesOk, HandOut;
  }

  lemma JoinedWasHanded(w: World, class_: Class, isLargeFile: bool, now: nat, t: Ticket)
    requires Inv(w)
    ensures Joins(w, AddWaiter(w.inner, LineFor(class_, isLargeFile)), Ticket(w.inner.nextId))
  {
    assert w.live.Keys !! w.inner.waiters.Keys && forall o <- w.live :: o.number < w.inner.nextId;
    assert forall o <- w.inner.waiters :: o.number < w.inner.nextId;
    AddKeepsLines(w.inner, LineFor(class_, isLargeFile));
    hide LinesOk, Accounted;
  }

  lemma NewHolderWasHanded(w: World, event: Event, now: nat, t: Ticket)
    requires Inv(w)
    ensures t in Holders(Step(w, event, now)) && t !in Holders(w) ==> WasHanded(w, Step(w, event, now), Dispatched(w, event, now), now, t)
  {
    var s := w.inner;
    hide LinesOk, Accounted, Sized, Quiet, Dispatch, Holders, WasHanded, TakeGranted, TakenOrGone, Grow, Throttle, RemoveWaiter, AddWaiter, Joins;
    match event
    case Arrive(class_, isLargeFile) =>
      JoinedWasHanded(w, class_, isLargeFile, now, t);
      TakenIsHanded(w, AddWaiter(s, LineFor(class_, isLargeFile)), now, t, Ticket(s.nextId));
    case TryAcquire(class_, isLargeFile) =>
      JoinedWasHanded(w, class_, isLargeFile, now, t);
      TryUnfolds(w, class_, isLargeFile, now);
      TriedIsHanded(w, AddWaiter(s, LineFor(class_, isLargeFile)), now, t, Ticket(s.nextId));
    case Collect(o) => CollectedHolds(w, o);
    case _ => NewHolderWasHandedElse(w, event, now, t);
  }

  lemma NewHolderWasHandedElse(w: World, event: Event, now: nat, t: Ticket)
    requires Inv(w) && !event.Arrive? && !event.TryAcquire? && !event.Collect?
    ensures t in Holders(Step(w, event, now)) && t !in Holders(w) ==> WasHanded(w, Step(w, event, now), Dispatched(w, event, now), now, t)
  {
    var s := w.inner;
    assert w.live.Keys !! s.waiters.Keys;
    hide LinesOk, Accounted, Sized, Quiet, Dispatch, Holders, WasHanded, Grow, Throttle, RemoveWaiter;
    match event
    case GiveUp(o) => if o in s.waiters {
      var _ := DispatchGivenUp(s, o, now);
      GivenUpStays(s, o);
      SameIsHanded(w, GivenUp(s, o), w.live, now, t);
    }
    case Release(o, succeeded) => if o in w.live {
      var _ := DispatchReleased(s, w.live[o], succeeded, now);
      GrowKeepsLines(s, now);
      SameIsHanded(w, Released(s, w.live[o], succeeded, now), w.live - {o}, now, t);
    }
    case SetPaused(paused) =>
      var _ := DispatchSame(s, WithPaused(s, paused), now);
      if s.paused != paused { SameIsHanded(w, WithPaused(s, paused), w.live, now, t); }
    case SetLimits(ceiling, large) =>
      var _ := DispatchSame(s, WithLimits(s, ceiling, large), now);
      SameIsHanded(w, WithLimits(s, ceiling, large), w.live, now, t);
    case Throttled(wait) =>
      ThrottleKeepsWaiters(s, if wait.Some? then wait.value else DEFAULT_THROTTLE_WAIT, now);
      SameHolders(w, Step(w, event, now));
    case Unblock =>
      var _ := DispatchSame(s, s.(blockedUntil := None), now);
      if !s.Blocked(now) { SameIsHanded(w, s.(blockedUntil := None), w.live, now, t); }
  }

  lemma SameHolders(w: World, u: World)
    requires u.live == w.live && u.inner.waiters == w.inner.waiters
    ensures Holders(u) == Holders(w)
  {
  }

  lemma CollectedHolds(w: World, t: Ticket)
    ensures Holders(if t in w.inner.waiters then TakeGranted(w, t) else w) == Holders(w)
  {
  }

  lemma GivenUpStays(s: Inner, t: Ticket)
    requires t in s.waiters
    ensures forall o <- GivenUp(s, t).waiters :: o in s.waiters && GivenUp(s, t).waiters[o] == s.waiters[o]
  {
  }

  /**
    Over every run, of a slot that a step hands out: one to open a file goes to at most two holders
    more than there are slots; any other to at most as many, while nobody opens a file and the
    pool is not paused; and one for a large file only within as many as may be of those.
  */
  lemma GrantsAreWithinBounds(start: nat, ceiling: nat, events: seq<Timed>, last: Timed, t: Ticket)
    requires t !in Holders(Run(Made(start, ceiling), events)) && t in Holders(Run(Made(start, ceiling), events + [last]))
    ensures var u, came := Run(Made(start, ceiling), events + [last]), Arrivals(events + [last]);
            && t.number < |came|
            && (came[t.number].class_ == Open ==> |Holders(u)| <= u.inner.size + 2)
            && (came[t.number].class_ != Open ==> |Holders(u)| <= u.inner.size && !u.inner.paused && forall o <- Holders(u) :: !CameToOpen(o, came))
            && (came[t.number].isLargeFile && came[t.number].class_ != Open ==> |LargeHolders(u, came)| <= u.inner.largeLimit)
  {
    var w, u, came := Run(Made(start, ceiling), events), Run(Made(start, ceiling), events + [last]), Arrivals(events + [last]);
    RunAsTheyCame(start, ceiling, events + [last]);
    RunKeeps(Made(start, ceiling), events + [last]);
    RunOneMore(Made(start, ceiling), events, last);
    hide Run, Arrivals, Made, Inv, Step, Holders, LargeHolders, Dispatched, AllAreAsTheyCame, CameToOpen;
    NewHolderWasHanded(w, last.event, last.now, t);
    var d := Dispatched(w, last.event, last.now).value;
    HandedOut(d, t);
    InvIsAccounted(u);
    HeldAsTheyCame(u, came);
    IsAsItCameIn(u, came, t);
    SameTotals(u.inner, HandOut(d));
  }

  lemma InvIsAccounted(w: World)
    requires Inv(w)
    ensures LinesOk(w.inner) && Accounted(w)
  {
  }

  lemma IsAsItCameIn(w: World, came: seq<Arrival>, t: Ticket)
    requires AllAreAsTheyCame(w, came) && (t in w.live || t in w.inner.waiters)
    ensures t.number < |came| && IsLineOf(LineOf(w, t), came[t.number])
  {
  }

  lemma SameTotals(s: Inner, u: Inner)
    requires s.held == u.held
    ensures s.Total() == u.Total() && s.Held(Open) == u.Held(Open)
  {
  }
}
