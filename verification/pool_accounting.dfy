/**
  What every step of the pool keeps: the counts of held slots, the lines, the bounds of the
  size, and that nobody waits whom the rules would let go.
*/
module PoolAccounting {
  import opened Wrappers
  import opened PoolRules

  /** Every slot that is held, or granted and not collected yet, by its ticket. */
  function HoldingOf(live: map<Ticket, Line>, waiters: map<Ticket, Waiter>): map<Ticket, Line> {
    map t | t in live.Keys + waiters.Keys && (t in live || waiters[t].granted) :: if t in live then live[t] else waiters[t].line
  }

  function Holding(w: World): map<Ticket, Line> {
    HoldingOf(w.live, w.inner.waiters)
  }

  /** A granted waiter is collected: its slot is held as before. */
  lemma HoldingOfTaken(live: map<Ticket, Line>, waiters: map<Ticket, Waiter>, t: Ticket)
    requires t in waiters && waiters[t].granted && t !in live
    ensures HoldingOf(live[t := waiters[t].line], waiters - {t}) == HoldingOf(live, waiters)
  {
  }

  /** A waiter goes: with it the slot it was granted, if it was. */
  lemma HoldingOfGone(live: map<Ticket, Line>, waiters: map<Ticket, Waiter>, t: Ticket)
    requires t in waiters && t !in live
    ensures HoldingOf(live, waiters - {t}) == if waiters[t].granted then HoldingOf(live, waiters) - {t} else HoldingOf(live, waiters)
    ensures t in HoldingOf(live, waiters) <==> waiters[t].granted
    ensures waiters[t].granted ==> HoldingOf(live, waiters)[t] == waiters[t].line
  {
  }

  lemma HoldingOfNew(live: map<Ticket, Line>, waiters: map<Ticket, Waiter>, t: Ticket, l: Line)
    requires t !in waiters && t !in live
    ensures HoldingOf(live, waiters[t := Waiter(l, false)]) == HoldingOf(live, waiters)
  {
  }

  lemma HoldingOfGranted(live: map<Ticket, Line>, waiters: map<Ticket, Waiter>, t: Ticket)
    requires t in waiters && !waiters[t].granted && t !in live
    ensures t !in HoldingOf(live, waiters)
    ensures HoldingOf(live, waiters[t := Waiter(waiters[t].line, true)]) == HoldingOf(live, waiters)[t := waiters[t].line]
  {
  }

  lemma HoldingOfReleased(live: map<Ticket, Line>, waiters: map<Ticket, Waiter>, t: Ticket)
    requires t in live && t !in waiters
    ensures HoldingOf(live - {t}, waiters) == HoldingOf(live, waiters) - {t}
    ensures t in HoldingOf(live, waiters) && HoldingOf(live, waiters)[t] == live[t]
  {
  }

  ghost function OfClass(m: map<Ticket, Line>, class_: Class): set<Ticket> {
    set t | t in m && m[t].class_ == class_
  }

  ghost function Larges(m: map<Ticket, Line>): set<Ticket> {
    set t | t in m && m[t].large
  }

  /** `held` counts exactly the slots out, class by class, and `large_held` the large ones among them. */
  ghost predicate Accounts(s: Inner, holding: map<Ticket, Line>) {
    && (forall c: Class :: s.Held(c) == |OfClass(holding, c)|)
    && s.largeHeld == |Larges(holding)|
  }

  ghost predicate Accounted(w: World) {
    && Accounts(w.inner, Holding(w))
    && w.live.Keys !! w.inner.waiters.Keys
    && (forall t <- w.live :: t.number < w.inner.nextId && (w.live[t].large ==> w.live[t].class_ != Open))
  }

  ghost predicate Sized(s: Inner) {
    1 <= s.largeLimit <= s.ceiling <= CEILING_MAX && 1 <= s.size <= s.ceiling
  }

  /** Nobody is left whom the rules would let go, whenever no throttle's wait is set. */
  ghost predicate Quiet(s: Inner) {
    s.blockedUntil.None? ==> NextGrant(s).None?
  }

  ghost predicate Inv(w: World) {
    LinesOk(w.inner) && Accounted(w) && Sized(w.inner) && Quiet(w.inner)
  }

  // ---------------------------------------------------------------- counting

  lemma OneMoreOfClass(m: map<Ticket, Line>, t: Ticket, l: Line, c: Class)
    requires t !in m
    ensures |OfClass(m[t := l], c)| == |OfClass(m, c)| + if c == l.class_ then 1 else 0
  {
    assert OfClass(m[t := l], c) == if c == l.class_ then OfClass(m, c) + {t} else OfClass(m, c);
  }

  lemma OneMoreLarge(m: map<Ticket, Line>, t: Ticket, l: Line)
    requires t !in m
    ensures |Larges(m[t := l])| == |Larges(m)| + if l.large then 1 else 0
  {
    assert Larges(m[t := l]) == if l.large then Larges(m) + {t} else Larges(m);
  }

  /** One more slot out, and one more counted. */
  lemma AccountsOneMore(s: Inner, u: Inner, m: map<Ticket, Line>, t: Ticket, l: Line)
    requires Accounts(s, m) && t !in m
    requires forall c: Class :: u.Held(c) == s.Held(c) + if c == l.class_ then 1 else 0
    requires u.largeHeld == s.largeHeld + if l.large then 1 else 0
    ensures Accounts(u, m[t := l])
  {
    forall c: Class
      ensures u.Held(c) == |OfClass(m[t := l], c)|
    {
      OneMoreOfClass(m, t, l, c);
    }
    OneMoreLarge(m, t, l);
  }

  /** One less out and one less counted; it was counted, so no count goes below nothing. */
  lemma AccountsOneLess(s: Inner, u: Inner, m: map<Ticket, Line>, t: Ticket)
    requires Accounts(s, m) && t in m
    requires forall c: Class :: u.Held(c) == s.Held(c) - if c == m[t].class_ then 1 else 0
    requires u.largeHeld == s.largeHeld - if m[t].large then 1 else 0
    ensures Accounts(u, m - {t})
    ensures s.Held(m[t].class_) >= 1 && (m[t].large ==> s.largeHeld >= 1)
  {
    var less := m - {t};
    assert less[t := m[t]] == m;
    forall c: Class
      ensures u.Held(c) == |OfClass(less, c)|
    {
      OneMoreOfClass(less, t, m[t], c);
    }
    OneMoreOfClass(less, t, m[t], m[t].class_);
    OneMoreLarge(less, t, m[t]);
  }

  lemma GrantAccounts(w: World)
    requires LinesOk(w.inner) && Accounted(w) && NextGrant(w.inner).Some? && NextGrant(w.inner).value.ticket in w.inner.waiters
    ensures Accounted(w.(inner := Grant(w.inner, NextGrant(w.inner).value)))
  {
    var next := NextGrant(w.inner).value;
    NextIsWaiting(w.inner);
    hide LinesOk, NextGrant, Accounts, HoldingOf;
    var l := w.inner.waiters[next.ticket].line;
    var u := w.(inner := Grant(w.inner, next));
    HoldingOfGranted(w.live, w.inner.waiters, next.ticket);
    AccountsOneMore(w.inner, u.inner, Holding(w), next.ticket, l);
  }

  lemma HandOutAccounts(w: World)
    requires LinesOk(w.inner) && Accounted(w)
    ensures Accounted(w.(inner := HandOut(w.inner)))
    decreases Waiting(w.inner)
  {
    if NextGrant(w.inner).Some? {
      NextIsWaiting(w.inner);
      GrantKeepsLines(w.inner);
      GrantAccounts(w);
      HandOutAccounts(w.(inner := Grant(w.inner, NextGrant(w.inner).value)));
    }
  }

  lemma {:induction false} HandOutKeepsRest(s: Inner)
    requires LinesOk(s)
    ensures var u := HandOut(s);
            && u.size == s.size && u.ceiling == s.ceiling && u.largeLimit == s.largeLimit && u.credit == s.credit && u.nextId == s.nextId
            && u.paused == s.paused && u.blockedUntil == s.blockedUntil && u.rememberedUntil == s.rememberedUntil
    decreases Waiting(s)
  {
    if NextGrant(s).Some? {
      NextIsWaiting(s);
      GrantKeepsLines(s);
      HandOutKeepsRest(Grant(s, NextGrant(s).value));
    }
  }

  /** Handing out keeps all but that somebody may still be next, and then nobody is. */
  lemma DispatchKeeps(w: World, now: nat)
    requires LinesOk(w.inner) && Accounted(w) && Sized(w.inner)
    ensures Inv(w.(inner := Dispatch(w.inner, now)))
  {
    HandOutAccounts(w);
    HandOutKeepsRest(w.inner);
    HandOutKeepsWaiters(w.inner);
  }

  // ---------------------------------------------------------------- each step

  lemma AddAccounts(w: World, l: Line)
    requires LinesOk(w.inner) && Accounted(w)
    ensures Accounted(w.(inner := AddWaiter(w.inner, l)))
  {
    assert forall t <- w.live :: t.number < w.inner.nextId;
    HoldingOfNew(w.live, w.inner.waiters, Ticket(w.inner.nextId), l);
    hide HoldingOf, Sized;
  }

  lemma ArriveKeeps(w: World, class_: Class, isLargeFile: bool, now: nat)
    requires Inv(w)
    ensures Inv(w.(inner := Arrived(w.inner, class_, isLargeFile, now)))
  {
    var l := LineFor(class_, isLargeFile);
    AddKeepsLines(w.inner, l);
    AddAccounts(w, l);
    DispatchKeeps(w.(inner := AddWaiter(w.inner, l)), now);
  }

  /** A granted waiter that is collected is a slot that is held: nothing counted changes. */
  lemma TakeKeeps(w: World, t: Ticket)
    requires Inv(w) && t in w.inner.waiters
    ensures Inv(TakeGranted(w, t))
  {
    if w.inner.waiters[t].granted {
      RemoveKeepsLines(w.inner, t);
      HoldingOfTaken(w.live, w.inner.waiters, t);
      if w.inner.blockedUntil.None? {
        RemovedIsQuiet(w.inner, t);
      }
      hide LinesOk, NextGrant, HoldingOf;
    }
  }

  /** A waiter that goes lets nobody go who could not: whatever kept the others keeps them. */
  lemma RemovedIsQuiet(s: Inner, t: Ticket)
    requires LinesOk(s) && t in s.waiters && NextGrant(s).None?
    ensures NextGrant(RemoveWaiter(s, t)).None?
  {
    assert StandsRight(s, s.waiters[t].line, t);
    var u := RemoveWaiter(s, t);
    forall c: Class
      ensures First(s, c).None? ==> First(u, c).None?
    {
    }
  }

  lemma TryKeeps(w: World, class_: Class, isLargeFile: bool, now: nat)
    requires Inv(w)
    ensures Inv(Step(w, TryAcquire(class_, isLargeFile), now))
  {
    hide *;
    TryUnfolds(w, class_, isLargeFile, now);
    ArriveKeeps(w, class_, isLargeFile, now);
    TakeOrGo(w.(inner := Arrived(w.inner, class_, isLargeFile, now)), Ticket(w.inner.nextId));
  }

  /** A waiter that does not stay: collected when it was granted, and gone when not. */
  function TakenOrGone(w: World, t: Ticket): World
    requires t in w.inner.waiters
  {
    World(RemoveWaiter(w.inner, t), if w.inner.waiters[t].granted then w.live[t := w.inner.waiters[t].line] else w.live)
  }

  lemma TryUnfolds(w: World, class_: Class, isLargeFile: bool, now: nat)
    requires Inv(w)
    ensures LinesOk(w.inner)
    ensures Step(w, TryAcquire(class_, isLargeFile), now) == TakenOrGone(w.(inner := Arrived(w.inner, class_, isLargeFile, now)), Ticket(w.inner.nextId))
  {
  }

  lemma TakeOrGo(w: World, t: Ticket)
    requires Inv(w) && t in w.inner.waiters
    ensures Inv(TakenOrGone(w, t))
  {
    if w.inner.waiters[t].granted {
      TakeKeeps(w, t);
    } else {
      UngrantedGoes(w, t);
    }
    hide Inv, RemoveWaiter;
  }

  /** A waiter that was granted nothing goes. */
  lemma UngrantedGoes(w: World, t: Ticket)
    requires Inv(w) && t in w.inner.waiters && !w.inner.waiters[t].granted
    ensures Inv(w.(inner := RemoveWaiter(w.inner, t)))
  {
    RemoveKeepsLines(w.inner, t);
    HoldingOfGone(w.live, w.inner.waiters, t);
    if w.inner.blockedUntil.None? {
      RemovedIsQuiet(w.inner, t);
    }
    hide LinesOk, NextGrant, HoldingOf;
  }

  lemma GiveUpAccounts(w: World, t: Ticket)
    requires Inv(w) && t in w.inner.waiters
    ensures Accounted(w.(inner := GivenUp(w.inner, t)))
    ensures w.inner.waiters[t].granted ==> w.inner.Held(w.inner.waiters[t].line.class_) >= 1
    ensures w.inner.waiters[t].granted && w.inner.waiters[t].line.large ==> w.inner.largeHeld >= 1
  {
    hide LinesOk, NextGrant, Accounts, HoldingOf;
    HoldingOfGone(w.live, w.inner.waiters, t);
    if w.inner.waiters[t].granted {
      AccountsOneLess(w.inner, GivenUp(w.inner, t), Holding(w), t);
    } else {
      SameAccounts(w.inner, GivenUp(w.inner, t), Holding(w));
    }
  }

  lemma SameAccounts(s: Inner, u: Inner, m: map<Ticket, Line>)
    requires Accounts(s, m) && u.held == s.held && u.largeHeld == s.largeHeld
    ensures Accounts(u, m)
  {
  }

  lemma GrowKeepsSized(s: Inner, now: nat)
    requires Sized(s)
    ensures Sized(Grow(s, now)) && s.size <= Grow(s, now).size
    ensures Grow(s, now) == s.(size := Grow(s, now).size, credit := Grow(s, now).credit, rememberedUntil := Grow(s, now).rememberedUntil)
  {
  }

  /** A slot given back was counted: no count goes below nothing. */
  lemma ReleaseAccounts(w: World, t: Ticket, succeeded: bool, now: nat)
    requires Inv(w) && t in w.live
    ensures Accounted(World(Released(w.inner, w.live[t], succeeded, now), w.live - {t}))
    ensures w.inner.Held(w.live[t].class_) >= 1 && (w.live[t].large ==> w.inner.largeHeld >= 1)
  {
    hide LinesOk, NextGrant, Accounts, HoldingOf, Grow;
    GrowKeepsSized(w.inner, now);
    var u := World(Released(w.inner, w.live[t], succeeded, now), w.live - {t});
    HoldingOfReleased(w.live, w.inner.waiters, t);
    AccountsOneLess(w.inner, u.inner, Holding(w), t);
  }

  lemma SameCounts(w: World, u: Inner)
    requires Inv(w) && u.waiters == w.inner.waiters && u.line == w.inner.line && u.nextId == w.inner.nextId
    requires u.held == w.inner.held && u.largeHeld == w.inner.largeHeld
    ensures LinesOk(u) && Accounted(w.(inner := u))
  {
    SameLines(w.inner, u);
    assert Holding(w.(inner := u)) == Holding(w);
  }

  /** Every step, of whatever caller, in whatever order. */
  lemma StepKeeps(w: World, event: Event, now: nat)
    requires Inv(w)
    ensures Inv(Step(w, event, now))
  {
    hide LinesOk, NextGrant, Accounted, Quiet, HandOut, Dispatch, RemoveWaiter, TakeGranted, Arrived, Grow, Throttle;
    match event
    case Arrive(class_, isLargeFile) =>
      ArriveKeeps(w, class_, isLargeFile, now);
      TakeKeeps(w.(inner := Arrived(w.inner, class_, isLargeFile, now)), Ticket(w.inner.nextId));
    case Collect(t) => if t in w.inner.waiters { TakeKeeps(w, t); }
    case GiveUp(t) => if t in w.inner.waiters { GiveUpKeeps(w, t, now); }
    case TryAcquire(class_, isLargeFile) => TryKeeps(w, class_, isLargeFile, now);
    case Release(t, succeeded) => if t in w.live { ReleaseKeeps(w, t, succeeded, now); }
    case SetPaused(paused) => SameThenDispatch(w, WithPaused(w.inner, paused), now);
    case SetLimits(ceiling, large) => SameThenDispatch(w, WithLimits(w.inner, ceiling, large), now);
    case Throttled(wait) => ThrottleKeeps(w, if wait.Some? then wait.value else DEFAULT_THROTTLE_WAIT, now);
    case Unblock => SameThenDispatch(w, w.inner.(blockedUntil := None), now);
  }

  lemma GiveUpKeeps(w: World, t: Ticket, now: nat)
    requires Inv(w) && t in w.inner.waiters
    ensures Inv(w.(inner := DispatchGivenUp(w.inner, t, now)))
  {
    var u := DispatchGivenUp(w.inner, t, now);
    GiveUpAccounts(w, t);
    DispatchKeeps(w.(inner := GivenUp(w.inner, t)), now);
  }

  lemma ReleaseKeeps(w: World, t: Ticket, succeeded: bool, now: nat)
    requires Inv(w) && t in w.live
    ensures Released(w.inner, w.live[t], succeeded, now).line == w.inner.line && Released(w.inner, w.live[t], succeeded, now).waiters == w.inner.waiters
    ensures Inv(World(DispatchSame(w.inner, Released(w.inner, w.live[t], succeeded, now), now), w.live - {t}))
  {
    GrowKeepsSized(w.inner, now);
    ReleaseAccounts(w, t, succeeded, now);
    hide Grow, Accounted, NextGrant;
    var u := DispatchSame(w.inner, Released(w.inner, w.live[t], succeeded, now), now);
    DispatchKeeps(World(Released(w.inner, w.live[t], succeeded, now), w.live - {t}), now);
  }

  lemma SameThenDispatch(w: World, u: Inner, now: nat)
    requires Inv(w) && u.waiters == w.inner.waiters && u.line == w.inner.line && u.nextId == w.inner.nextId
    requires u.held == w.inner.held && u.largeHeld == w.inner.largeHeld && Sized(u)
    ensures Inv(w.(inner := DispatchSame(w.inner, u, now)))
  {
    SameCounts(w, u);
    DispatchKeeps(w.(inner := u), now);
  }

  lemma ThrottleKeeps(w: World, wait: nat, now: nat)
    requires Inv(w)
    ensures Inv(w.(inner := Throttle(w.inner, wait, now)))
  {
    SameCounts(w, Throttle(w.inner, wait, now));
  }

  // ---------------------------------------------------------------- whole runs

  datatype Timed = Timed(event: Event, now: nat)

  ghost function Run(w: World, events: seq<Timed>): World
    requires Inv(w)
    decreases |events|
  {
    if events == [] then w
    else
      StepKeeps(w, events[0].event, events[0].now);
      Run(Step(w, events[0].event, events[0].now), events[1..])
  }

  lemma NewKeeps(start: nat, ceiling: nat)
    ensures Inv(World(New(start, ceiling), map[]))
  {
    NewIsAccounted(start, ceiling);
    NewIsQuiet(start, ceiling);
    NewIsSized(start, ceiling);
    hide LinesOk, Accounted, Sized, Quiet, New;
  }

  lemma NewIsAccounted(start: nat, ceiling: nat)
    ensures Accounted(World(New(start, ceiling), map[]))
  {
    var w := World(New(start, ceiling), map[]);
    assert Holding(w) == map[];
    assert Larges(map[]) == {};
    forall c: Class
      ensures w.inner.Held(c) == |OfClass(map[], c)|
    {
      assert OfClass(map[], c) == {};
    }
    hide OfClass, Larges, Holding;
  }

  lemma NewIsQuiet(start: nat, ceiling: nat)
    ensures LinesOk(New(start, ceiling)) && Quiet(New(start, ceiling))
  {
    hide LinesOk, NextGrant;
    NoneIsNextInEmpty(New(start, ceiling));
  }

  lemma NoneIsNextInEmpty(s: Inner)
    requires s.waiters == map[] && s.line == map[]
    ensures LinesOk(s) && NextGrant(s).None?
  {
    forall class_: Class
      ensures First(s, class_).None?
    {
      assert s.InLine(Line(class_, false)) == {} && s.InLine(Line(class_, true)) == {};
    }
    hide First;
  }

  lemma NewIsSized(start: nat, ceiling: nat)
    ensures Sized(New(start, ceiling))
  {
  }

  lemma {:induction false} RunKeeps(w: World, events: seq<Timed>)
    requires Inv(w)
    ensures Inv(Run(w, events))
    decreases |events|
  {
    if events != [] {
      StepKeeps(w, events[0].event, events[0].now);
      RunKeeps(Step(w, events[0].event, events[0].now), events[1..]);
    }
  }

  lemma {:induction false} RunOneMore(w: World, events: seq<Timed>, last: Timed)
    requires Inv(w)
    ensures Inv(Run(w, events)) && Run(w, events + [last]) == Step(Run(w, events), last.event, last.now)
    decreases |events|
  {
    hide Accounted, LinesOk, Sized, Quiet, Step;
    var longer := events + [last];
    StepKeeps(w, longer[0].event, longer[0].now);
    if events == [] {
      assert longer[1..] == [];
    } else {
      assert longer[1..] == events[1..] + [last];
      RunOneMore(Step(w, events[0].event, events[0].now), events[1..], last);
    }
  }

  // ---------------------------------------------------------------- what it means

  ghost function LiveOf(w: World, class_: Class): set<Ticket> {
    set t | t in w.live && w.live[t].class_ == class_
  }

  ghost function UncollectedOf(w: World, class_: Class): set<Ticket> {
    set t | t in w.inner.waiters && w.inner.waiters[t].granted && w.inner.waiters[t].line.class_ == class_
  }

  lemma OfClassSplits(live: map<Ticket, Line>, waiters: map<Ticket, Waiter>, class_: Class)
    requires live.Keys !! waiters.Keys
    ensures var held := set t | t in live && live[t].class_ == class_;
            var uncollected := set t | t in waiters && waiters[t].granted && waiters[t].line.class_ == class_;
            held !! uncollected && OfClass(HoldingOf(live, waiters), class_) == held + uncollected
  {
  }

  lemma HeldIs(w: World, class_: Class)
    requires Accounted(w)
    ensures w.inner.Held(class_) == |LiveOf(w, class_)| + |UncollectedOf(w, class_)|
  {
    hide HoldingOf, OfClass;
    OfClassSplits(w.live, w.inner.waiters, class_);
    SizeOfBoth(LiveOf(w, class_), UncollectedOf(w, class_));
  }

  lemma SizeOfBoth(a: set<Ticket>, b: set<Ticket>)
    requires a !! b
    ensures |a + b| == |a| + |b|
  {
  }

  /** In every reachable state: what is held is the slots alive and the grants not collected yet. */
  lemma HeldIsLiveAndUncollected(start: nat, ceiling: nat, events: seq<Timed>, class_: Class)
    ensures Inv(World(New(start, ceiling), map[]))
    ensures var w := Run(World(New(start, ceiling), map[]), events);
            w.inner.Held(class_) == |LiveOf(w, class_)| + |UncollectedOf(w, class_)|
  {
    hide Run, LiveOf, UncollectedOf, OfClass, Holding;
    NewKeeps(start, ceiling);
    RunKeeps(World(New(start, ceiling), map[]), events);
    HeldIs(Run(World(New(start, ceiling), map[]), events), class_);
  }

  /** The waiters of a class that the large-stream limit does not hold back. */
  ghost function MayGo(s: Inner, class_: Class): set<Ticket> {
    set t | t in s.waiters && !s.waiters[t].granted && s.waiters[t].line.class_ == class_
            && (s.waiters[t].line.large ==> s.largeHeld < s.largeLimit)
  }

  lemma FirstIsLeastThatMayGo(s: Inner, class_: Class)
    requires LinesOk(s)
    ensures First(s, class_).None? <==> MayGo(s, class_) == {}
    ensures First(s, class_).Some? ==> First(s, class_).value in MayGo(s, class_) && forall t <- MayGo(s, class_) :: First(s, class_).value.number <= t.number
  {
    var small, large := Line(class_, false), Line(class_, true);
    forall t: Ticket
      ensures t in MayGo(s, class_) <==> t in s.InLine(small) || (t in s.InLine(large) && s.largeHeld < s.largeLimit)
    {
      assert StandsRight(s, small, t) && StandsRight(s, large, t);
    }
    if First(s, class_).Some? {
      assert First(s, class_).value in MayGo(s, class_);
    } else {
      assert forall t :: t !in MayGo(s, class_);
    }
  }

  /**
    Nobody is next exactly when every file being opened waits for the pool and its reserve to
    have room, and all other work for an opening to end, the pause, a slot, or the large limit.
  */
  lemma NobodyIsNextIff(s: Inner)
    requires LinesOk(s)
    ensures NextGrant(s).None? <==>
              && (MayGo(s, Open) != {} ==> s.Total() >= s.size + RESERVE)
              && (MayGo(s, Metadata) + MayGo(s, Download) + MayGo(s, Upload) != {} ==>
                    s.Held(Open) > 0 || MayGo(s, Open) != {} || s.paused || s.Total() >= s.size)
  {
    FirstIsLeastThatMayGo(s, Open);
    FirstIsLeastThatMayGo(s, Metadata);
    FirstIsLeastThatMayGo(s, Download);
    FirstIsLeastThatMayGo(s, Upload);
  }

  /** No grant goes beyond the bounds; it goes to the first of its class that may go. */
  lemma GrantIsWithinBounds(s: Inner)
    requires LinesOk(s) && NextGrant(s).Some?
    ensures var t := NextGrant(s).value.ticket;
            && t in s.waiters && !s.waiters[t].granted
            && var l := s.waiters[t].line;
            && (l.class_.Open? ==> s.Total() < s.size + RESERVE)
            && (!l.class_.Open? ==> s.Total() < s.size && !s.paused && s.Held(Open) <= 0 && MayGo(s, Open) == {})
            && (l.large ==> s.largeHeld < s.largeLimit)
            && (l.class_ in {Download, Upload} ==> MayGo(s, Metadata) == {})
            && (forall other <- MayGo(s, l.class_) :: t.number <= other.number)
  {
    NextIsWaiting(s);
    FirstIsLeastThatMayGo(s, Open);
    FirstIsLeastThatMayGo(s, Metadata);
    FirstIsLeastThatMayGo(s, Download);
    FirstIsLeastThatMayGo(s, Upload);
  }
}
