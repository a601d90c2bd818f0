/** How the pool finds its size, over whole runs: growth after successes, halving after throttles. */
module PoolSizing {
  import opened Wrappers
  import opened PoolRules
  import opened PoolAccounting
  import opened PoolHolders

  /** 0 + 1 + ... + (n - 1). */
  function Triangle(n: nat): nat {
    if n == 0 then 0 else Triangle(n - 1) + n - 1
  }

  lemma {:induction false} TriangleGrows(m: nat, n: nat)
    requires m < n
    ensures Triangle(m) + m <= Triangle(n)
    decreases n
  {
    if m < n - 1 {
      TriangleGrows(m, n - 1);
    }
  }

  /** A success made while there are as many holders as slots and somebody waits, below the ceiling. */
  ghost predicate IsCounted(w: World, timed: Timed) {
    && timed.event.Release? && timed.event.succeeded && timed.event.ticket in w.live
    && |Holders(w)| >= w.inner.size && (exists t <- w.inner.waiters :: !w.inner.waiters[t].granted) && w.inner.size < w.inner.ceiling
  }

  lemma BusyIff(w: World)
    requires Inv(w)
    ensures CountsAsBusy(w.inner) <==>
            |Holders(w)| >= w.inner.size && (exists t <- w.inner.waiters :: !w.inner.waiters[t].granted) && w.inner.size < w.inner.ceiling
  {
    CountsAreHolders(w);
    QueuedIff(w.inner);
    hide Inner.Total, Inner.Queued, LinesOk, Accounted, Holders;
  }

  ghost function Counted(w: World, events: seq<Timed>): nat
    requires Inv(w)
    decreases |events|
  {
    if events == [] then 0
    else
      StepKeeps(w, events[0].event, events[0].now);
      (if IsCounted(w, events[0]) then 1 else 0) + Counted(Step(w, events[0].event, events[0].now), events[1..])
  }

  /** Neither the limits change nor does a throttle halve. */
  predicate IsPlain(w: World, timed: Timed) {
    && !timed.event.SetLimits?
    && (timed.event.Throttled? ==> IsSameBurst(w.inner, timed.now))
  }

  /** Every success falls within what is remembered of one throttle. */
  ghost predicate IsCarefulSpan(w: World, events: seq<Timed>)
    requires Inv(w)
    decreases |events|
  {
    events == [] || (
      StepKeeps(w, events[0].event, events[0].now);
      && IsPlain(w, events[0])
      && (events[0].event.Release? && events[0].event.succeeded ==> w.inner.rememberedUntil.Some? && events[0].now < w.inner.rememberedUntil.value)
      && IsCarefulSpan(Step(w, events[0].event, events[0].now), events[1..]))
  }

  /** No throttle comes, and none is remembered any more when a success comes. */
  ghost predicate IsCarefreeSpan(w: World, events: seq<Timed>)
    requires Inv(w)
    decreases |events|
  {
    events == [] || (
      StepKeeps(w, events[0].event, events[0].now);
      && !events[0].event.SetLimits? && !events[0].event.Throttled?
      && (events[0].event.Release? && events[0].event.succeeded ==> w.inner.rememberedUntil.None? || w.inner.rememberedUntil.value <= events[0].now)
      && IsCarefreeSpan(Step(w, events[0].event, events[0].now), events[1..]))
  }

  /** What a step does to the size and to the successes counted towards the next slot. */
  lemma StepSizes(w: World, timed: Timed)
    requires Inv(w) && IsPlain(w, timed)
    ensures var u := Step(w, timed.event, timed.now).inner;
            if timed.event.Release? && timed.event.succeeded && timed.event.ticket in w.live
            then u.size == Grow(w.inner, timed.now).size && u.credit == Grow(w.inner, timed.now).credit
                 && u.rememberedUntil == Grow(w.inner, timed.now).rememberedUntil
            else u.size == w.inner.size && u.credit == w.inner.credit && (!timed.event.Throttled? ==> u.rememberedUntil == w.inner.rememberedUntil)
  {
    hide Inv, LinesOk, Grow;
    match timed.event {
      case Throttled(wait) =>
      case Unblock => UnblockKeepsRest(w, timed.now);
      case Release(t, succeeded) => ReleaseKeepsRest(w, t, succeeded, timed.now);
      case _ => StepKeepsRest(w, timed);
    }
  }

  /** What leaves the size and the wait alone. */
  lemma StepKeepsRest(w: World, timed: Timed)
    requires Inv(w) && !timed.event.Throttled? && !timed.event.Unblock? && !timed.event.Release? && !timed.event.SetLimits?
    ensures var u := Step(w, timed.event, timed.now).inner;
            u.size == w.inner.size && u.credit == w.inner.credit && u.rememberedUntil == w.inner.rememberedUntil && u.blockedUntil == w.inner.blockedUntil
  {
    hide Accounted, NextGrant, Quiet, HandOut, Grow, First, LinesOk, Sized;
    var s := w.inner;
    match timed.event
    case Arrive(class_, isLargeFile) => ArrivedKeepsRest(s, class_, isLargeFile, timed.now);
    case TryAcquire(class_, isLargeFile) => ArrivedKeepsRest(s, class_, isLargeFile, timed.now);
    case Collect(t) =>
    case GiveUp(t) => if t in s.waiters {
      var _ := DispatchGivenUp(s, t, timed.now);
      HandOutKeepsRest(GivenUp(s, t));
    }
    case SetPaused(paused) =>
      var _ := DispatchSame(s, WithPaused(s, paused), timed.now);
      HandOutKeepsRest(WithPaused(s, paused));
  }

  lemma UnblockKeepsRest(w: World, now: nat)
    requires Inv(w)
    ensures var u := Step(w, Unblock, now).inner;
            && u.size == w.inner.size && u.credit == w.inner.credit && u.rememberedUntil == w.inner.rememberedUntil
            && u.blockedUntil == if w.inner.Blocked(now) then w.inner.blockedUntil else None
  {
    hide Accounted, NextGrant, Quiet, HandOut, First, LinesOk, Sized;
    var s := w.inner.(blockedUntil := None);
    var _ := DispatchSame(w.inner, s, now);
    HandOutKeepsRest(s);
  }

  lemma ReleaseKeepsRest(w: World, t: Ticket, succeeded: bool, now: nat)
    requires Inv(w)
    ensures var u := Step(w, Release(t, succeeded), now).inner;
            && u.blockedUntil == w.inner.blockedUntil
            && if succeeded && t in w.live
               then u.size == Grow(w.inner, now).size && u.credit == Grow(w.inner, now).credit && u.rememberedUntil == Grow(w.inner, now).rememberedUntil
               else u.size == w.inner.size && u.credit == w.inner.credit && u.rememberedUntil == w.inner.rememberedUntil
  {
    hide Accounted, NextGrant, Quiet, HandOut, Grow, First, LinesOk, Sized;
    if t in w.live {
      GrowKeepsSized(w.inner, now);
      var _ := DispatchReleased(w.inner, w.live[t], succeeded, now);
      HandOutKeepsRest(Released(w.inner, w.live[t], succeeded, now));
    }
  }

  lemma ArrivedKeepsRest(s: Inner, class_: Class, isLargeFile: bool, now: nat)
    requires LinesOk(s)
    ensures var u := Arrived(s, class_, isLargeFile, now);
            u.size == s.size && u.credit == s.credit && u.rememberedUntil == s.rememberedUntil && u.blockedUntil == s.blockedUntil
  {
    AddKeepsLines(s, LineFor(class_, isLargeFile));
    HandOutKeepsRest(AddWaiter(s, LineFor(class_, isLargeFile)));
  }

  /** Each counted success of a careful span is one step towards the next slot, as many as there are slots. */
  lemma {:induction false} CarefulGrowth(w: World, events: seq<Timed>)
    requires Inv(w) && IsCarefulSpan(w, events) && w.inner.credit < w.inner.size
    ensures var u := Run(w, events).inner;
            && u.credit < u.size && w.inner.size <= u.size
            && Triangle(u.size) + u.credit == Triangle(w.inner.size) + w.inner.credit + Counted(w, events)
    decreases |events|
  {
    if events != [] {
      StepKeeps(w, events[0].event, events[0].now);
      StepSizes(w, events[0]);
      CarefulStep(w, events[0]);
      hide Inv, Step, Triangle, IsCounted;
      CarefulGrowth(Step(w, events[0].event, events[0].now), events[1..]);
    }
  }

  lemma CarefulStep(w: World, timed: Timed)
    requires Inv(w) && IsPlain(w, timed) && w.inner.credit < w.inner.size
    requires timed.event.Release? && timed.event.succeeded ==> w.inner.rememberedUntil.Some? && timed.now < w.inner.rememberedUntil.value
    ensures var u := Step(w, timed.event, timed.now).inner;
            && u.credit < u.size && w.inner.size <= u.size
            && Triangle(u.size) + u.credit == Triangle(w.inner.size) + w.inner.credit + if IsCounted(w, timed) then 1 else 0
  {
    hide Inv, Step, Grow, CountsAsBusy, Triangle, Holders;
    StepSizes(w, timed);
    BusyIff(w);
    if timed.event.Release? && timed.event.succeeded && timed.event.ticket in w.live {
      CarefulGrow(w.inner, timed.now);
    }
  }

  /** A success while a throttle is remembered is one step towards the next slot. */
  lemma CarefulGrow(s: Inner, now: nat)
    requires s.credit < s.size && s.rememberedUntil.Some? && now < s.rememberedUntil.value
    ensures var u := Grow(s, now);
            && u.credit < u.size && s.size <= u.size
            && Triangle(u.size) + u.credit == Triangle(s.size) + s.credit + if CountsAsBusy(s) then 1 else 0
  {
    hide CountsAsBusy;
  }

  /**
    Within one remembered throttle, from `m` slots and nothing counted yet: the pool has
    exactly `n` slots while the counted successes are from m + ... + (n - 1) on, and fewer
    than that and n more.
  */
  lemma GrowsByOnePerRound(w: World, events: seq<Timed>, n: nat)
    requires Inv(w) && IsCarefulSpan(w, events) && w.inner.credit == 0 && n >= w.inner.size
    ensures Run(w, events).inner.size == n <==>
            Triangle(n) - Triangle(w.inner.size) <= Counted(w, events) < Triangle(n + 1) - Triangle(w.inner.size)
  {
    CarefulGrowth(w, events);
    var size := Run(w, events).inner.size;
    if size < n {
      TriangleGrows(size, n);
    } else if n < size {
      TriangleGrows(n, size);
    }
  }

  /** With no throttle remembered when it comes, every counted success is one more slot. */
  lemma {:induction false} GrowsByOnePerSuccess(w: World, events: seq<Timed>)
    requires Inv(w) && IsCarefreeSpan(w, events)
    ensures Run(w, events).inner.size == w.inner.size + Counted(w, events)
    decreases |events|
  {
    if events != [] {
      StepKeeps(w, events[0].event, events[0].now);
      CarefreeStep(w, events[0]);
      hide Inv, Step, IsCounted;
      GrowsByOnePerSuccess(Step(w, events[0].event, events[0].now), events[1..]);
    }
  }

  lemma CarefreeStep(w: World, timed: Timed)
    requires Inv(w) && !timed.event.SetLimits? && !timed.event.Throttled?
    requires timed.event.Release? && timed.event.succeeded ==> w.inner.rememberedUntil.None? || w.inner.rememberedUntil.value <= timed.now
    ensures Step(w, timed.event, timed.now).inner.size == w.inner.size + if IsCounted(w, timed) then 1 else 0
  {
    hide Inv, Step, Grow, CountsAsBusy, Holders;
    StepSizes(w, timed);
    BusyIff(w);
    if timed.event.Release? && timed.event.succeeded {
      CarefreeGrow(w.inner, timed.now);
    }
  }

  /** With no throttle remembered any more a success made while all are busy is one more slot. */
  lemma CarefreeGrow(s: Inner, now: nat)
    requires s.rememberedUntil.None? || s.rememberedUntil.value <= now
    ensures Grow(s, now).size == s.size + if CountsAsBusy(s) then 1 else 0
  {
    hide CountsAsBusy, Forget;
    ForgetIsAsBusy(s, now);
  }

  lemma ForgetIsAsBusy(s: Inner, now: nat)
    ensures var u := Forget(s, now);
            && (CountsAsBusy(u) <==> CountsAsBusy(s)) && u.size == s.size
            && (s.rememberedUntil.None? || s.rememberedUntil.value <= now ==> u.rememberedUntil.None?)
  {
    if s.rememberedUntil.Some? && now >= s.rememberedUntil.value {
      var u := Forget(s, now);
      assert u.Total() == s.Total() && (u.Queued() <==> s.Queued());
    }
  }

  // ---------------------------------------------------------------- bursts of throttles

  /** How many of the throttles of a run halve the pool. */
  ghost function Halvings(w: World, events: seq<Timed>): nat
    requires Inv(w)
    decreases |events|
  {
    if events == [] then 0
    else
      StepKeeps(w, events[0].event, events[0].now);
      (if events[0].event.Throttled? && !IsSameBurst(w.inner, events[0].now) then 1 else 0)
      + Halvings(Step(w, events[0].event, events[0].now), events[1..])
  }

  /** Until the wait is found over; a throttle that comes meanwhile comes before its end and the grace after it. */
  ghost predicate IsBurst(w: World, events: seq<Timed>)
    requires Inv(w)
    decreases |events|
  {
    events == [] || (
      StepKeeps(w, events[0].event, events[0].now);
      && !events[0].event.Unblock?
      && (events[0].event.Throttled? && w.inner.blockedUntil.Some? ==> events[0].now < w.inner.blockedUntil.value + BURST_GRACE)
      && IsBurst(Step(w, events[0].event, events[0].now), events[1..]))
  }

  lemma StepKeepsWait(w: World, timed: Timed)
    requires Inv(w) && !timed.event.Unblock?
    ensures timed.event.Throttled? ==> Step(w, timed.event, timed.now).inner.blockedUntil.Some?
    ensures !timed.event.Throttled? ==> Step(w, timed.event, timed.now).inner.blockedUntil == w.inner.blockedUntil
  {
    hide Inv, LinesOk, Grow;
    match timed.event {
      case Throttled(wait) =>
      case SetLimits(ceiling, large) => LimitsKeepWait(w, ceiling, large, timed.now);
      case Release(t, succeeded) => ReleaseKeepsRest(w, t, succeeded, timed.now);
      case _ => StepKeepsRest(w, timed);
    }
  }

  lemma LimitsKeepWait(w: World, ceiling: nat, large: nat, now: nat)
    requires Inv(w)
    ensures Step(w, SetLimits(ceiling, large), now).inner.blockedUntil == w.inner.blockedUntil
  {
    hide Accounted, NextGrant, Quiet, HandOut, First, LinesOk, Sized;
    var _ := DispatchSame(w.inner, WithLimits(w.inner, ceiling, large), now);
    HandOutKeepsRest(WithLimits(w.inner, ceiling, large));
  }

  /** A burst of throttles halves once: the one that sets the wait, and no other. */
  lemma {:induction false} BurstHalvesOnce(w: World, events: seq<Timed>)
    requires Inv(w) && IsBurst(w, events)
    ensures Halvings(w, events) ==
            if w.inner.blockedUntil.None? && (exists i :: 0 <= i < |events| && events[i].event.Throttled?) then 1 else 0
    decreases |events|
  {
    if events != [] {
      var u := Step(w, events[0].event, events[0].now);
      StepKeeps(w, events[0].event, events[0].now);
      StepKeepsWait(w, events[0]);
      BurstHalvesOnce(u, events[1..]);
      hide Inv, Step;
      if i :| 0 <= i < |events[1..]| && events[1..][i].event.Throttled? {
        assert events[i + 1].event.Throttled?;
      }
      if j :| 1 <= j < |events| && events[j].event.Throttled? {
        assert events[1..][j - 1].event.Throttled?;
      }
    }
  }

  /**
    The end of the wait takes the grace with it: once that step ran, a throttle halves again,
    also one that comes within the grace.
  */
  lemma NoGraceAfterUnblock(w: World, now: nat, wait: Option<nat>, later: nat)
    requires Inv(w) && !w.inner.Blocked(now)
    ensures Inv(Step(w, Unblock, now))
    ensures Step(Step(w, Unblock, now), Throttled(wait), later).inner.size == if w.inner.size == 1 then 1 else w.inner.size / 2
  {
    hide Accounted, NextGrant, Quiet, HandOut, First, LinesOk;
    StepKeeps(w, Unblock, now);
    var s := w.inner.(blockedUntil := None);
    var _ := DispatchSame(w.inner, s, now);
    HandOutKeepsRest(s);
  }

  /** A pool begins with what it was asked for, within 1 and 256, with four large streams when so many may be, and nobody in it. */
  lemma NewPoolIs(start: nat, ceiling: nat)
    ensures var s := New(start, ceiling);
            && s.ceiling == (if ceiling < 1 then 1 else if ceiling > 256 then 256 else ceiling)
            && s.size == (if start < 1 then 1 else if start > s.ceiling then s.ceiling else start)
            && s.largeLimit == (if s.ceiling < 4 then s.ceiling else 4)
            && s.waiters == map[] && s.nextId == 0 && !s.paused && s.blockedUntil.None? && s.rememberedUntil.None? && s.credit == 0 && s.turn == Down
            && New(START, ceiling).size == (if s.ceiling < 16 then s.ceiling else 16)
  {
  }

  /** New limits hold from the step on: the size is cut to the ceiling, and grows no other way by it. */
  lemma LimitsAreSet(w: World, ceiling: nat, large: nat, now: nat)
    requires Inv(w)
    ensures var u := Step(w, SetLimits(ceiling, large), now).inner;
            && u.ceiling == (if ceiling < 1 then 1 else if ceiling > 256 then 256 else ceiling)
            && u.largeLimit == (if large < 1 then 1 else if large > u.ceiling then u.ceiling else large)
            && u.size == (if w.inner.size > u.ceiling then u.ceiling else w.inner.size)
  {
    hide Accounted, NextGrant, Quiet, HandOut, First, LinesOk, Sized;
    var _ := DispatchSame(w.inner, WithLimits(w.inner, ceiling, large), now);
    HandOutKeepsRest(WithLimits(w.inner, ceiling, large));
  }

  /** The pause is what was said last. */
  lemma PauseIsSet(w: World, paused: bool, now: nat)
    requires Inv(w)
    ensures Step(w, SetPaused(paused), now).inner.paused == paused
  {
    hide Accounted, NextGrant, Quiet, HandOut, First, LinesOk, Sized;
    var _ := DispatchSame(w.inner, WithPaused(w.inner, paused), now);
    HandOutKeepsRest(WithPaused(w.inner, paused));
  }

  /** The bounds of the size, in every reachable state. */
  lemma SizeStaysInBounds(start: nat, ceiling: nat, events: seq<Timed>)
    ensures Inv(World(New(start, ceiling), map[]))
    ensures var s := Run(World(New(start, ceiling), map[]), events).inner;
            1 <= s.size <= s.ceiling <= 256 && 1 <= s.largeLimit <= s.ceiling
  {
    hide Run, LinesOk, Accounted, Quiet;
    NewKeeps(start, ceiling);
    RunKeeps(World(New(start, ceiling), map[]), events);
  }
}
