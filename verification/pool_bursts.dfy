/** Bursts of throttles, told from what came and when: the pool is halved once for each. */
module PoolBursts {
  import opened Wrappers
  import opened PoolRules
  import opened PoolAccounting
  import opened PoolSizing

  /** The clock does not go back. */
  ghost predicate IsTimely(events: seq<Timed>) {
    forall i, j :: 0 <= i < j < |events| ==> events[i].now <= events[j].now
  }

  /** When the wait of a throttle is over. */
  function End(throttle: Timed): nat
    requires throttle.event.Throttled?
  {
    throttle.now + if throttle.event.wait.Some? then throttle.event.wait.value else 10_000_000_000
  }

  /** The end of the waits is found: the wait of every throttle before is over. */
  ghost predicate FindsAllOver(events: seq<Timed>, j: nat) {
    && j < |events| && events[j].event.Unblock?
    && forall h | 0 <= h < j && events[h].event.Throttled? :: End(events[h]) <= events[j].now
  }

  /** A throttle whose wait was not found over since. */
  ghost predicate IsSet(events: seq<Timed>, i: nat) {
    && i < |events| && events[i].event.Throttled?
    && forall j | i < j < |events| :: !FindsAllOver(events, j)
  }

  /** A throttle now is of no burst: the wait of each that is set ended a grace ago. */
  ghost predicate BeginsBurst(events: seq<Timed>, now: nat) {
    forall i: nat | IsSet(events, i) :: End(events[i]) + 1_000_000_000 <= now
  }

  ghost function Bursts(events: seq<Timed>): nat
    decreases |events|
  {
    if events == [] then 0
    else
      var before, last := events[..|events| - 1], events[|events| - 1];
      Bursts(before) + if last.event.Throttled? && BeginsBurst(before, last.now) then 1 else 0
  }

  // ---------------------------------------------------------------- the last event of a run

  lemma StillOver(events: seq<Timed>, last: Timed, j: nat)
    requires j < |events|
    ensures FindsAllOver(events + [last], j) <==> FindsAllOver(events, j)
  {
    assert forall h | 0 <= h <= j :: (events + [last])[h] == events[h];
  }

  /** What is set after one event more. */
  lemma SetAfter(events: seq<Timed>, last: Timed, i: nat)
    ensures IsSet(events + [last], i) <==>
              if i == |events| then last.event.Throttled?
              else IsSet(events, i) && !FindsAllOver(events + [last], |events|)
  {
    var longer := events + [last];
    hide FindsAllOver;
    forall j: nat | j < |events|
      ensures FindsAllOver(longer, j) <==> FindsAllOver(events, j)
    {
      StillOver(events, last, j);
    }
    if i < |events| {
      assert longer[i] == events[i];
      if IsSet(longer, i) {
        assert forall j: nat | i < j < |events| :: !FindsAllOver(longer, j);
      }
    }
  }

  // ---------------------------------------------------------------- the wait that is set

  /** The time the pool keeps is the latest end of the waits that are set. */
  ghost predicate IsLatestEnd(until: Option<nat>, events: seq<Timed>) {
    && (forall i: nat | IsSet(events, i) :: until.Some? && End(events[i]) <= until.value)
    && (until.Some? ==> exists i: nat :: IsSetUntil(events, i, until.value))
  }

  ghost predicate IsSetUntil(events: seq<Timed>, i: nat, end: nat) {
    IsSet(events, i) && End(events[i]) == end
  }

  /** The wait of a throttle that is not set any more is over. */
  lemma NotSetIsOver(events: seq<Timed>, i: nat, now: nat)
    requires i < |events| && events[i].event.Throttled? && !IsSet(events, i)
    requires forall timed <- events :: timed.now <= now
    ensures End(events[i]) <= now
  {
    var j :| i < j < |events| && FindsAllOver(events, j);
    assert events[j] in events;
  }

  lemma TimelyBefore(events: seq<Timed>, last: Timed)
    requires IsTimely(events + [last])
    ensures IsTimely(events) && forall timed <- events :: timed.now <= last.now
  {
    var longer := events + [last];
    forall i, j | 0 <= i < j < |events|
      ensures events[i].now <= events[j].now
    {
      assert longer[i].now <= longer[j].now;
    }
    forall timed <- events
      ensures timed.now <= last.now
    {
      var i :| 0 <= i < |events| && events[i] == timed;
      assert longer[i].now <= longer[|events|].now;
    }
  }

  /** The end of the waits is found exactly when the pool's time has come. */
  lemma FoundIff(until: Option<nat>, events: seq<Timed>, last: Timed)
    requires IsLatestEnd(until, events) && IsTimely(events + [last]) && last.event.Unblock?
    ensures FindsAllOver(events + [last], |events|) <==> !(until.Some? && last.now < until.value)
  {
    hide IsSet, IsTimely;
    TimelyBefore(events, last);
    var longer := events + [last];
    if until.Some? && last.now < until.value {
      var i: nat :| IsSetUntil(events, i, until.value);
      SetIsThrottle(events, i);
      assert longer[i] == events[i];
    } else {
      forall h: nat | h < |events| && longer[h].event.Throttled?
        ensures End(longer[h]) <= last.now
      {
        assert longer[h] == events[h];
        if !IsSet(events, h) {
          NotSetIsOver(events, h, last.now);
        }
      }
    }
  }

  lemma SetIsThrottle(events: seq<Timed>, i: nat)
    requires IsSet(events, i)
    ensures i < |events| && events[i].event.Throttled?
  {
  }

  /** What an event does to the time the pool keeps. */
  lemma StepWait(w: World, timed: Timed)
    requires Inv(w)
    ensures Step(w, timed.event, timed.now).inner.blockedUntil ==
            match timed.event
            case Throttled(_) =>
              Some(if w.inner.blockedUntil.Some? then Max(w.inner.blockedUntil.value, End(timed)) else End(timed))
            case Unblock => if w.inner.Blocked(timed.now) then w.inner.blockedUntil else None
            case _ => w.inner.blockedUntil
  {
    hide Inv, LinesOk;
    match timed.event {
      case Throttled(_) =>
      case Unblock => UnblockKeepsRest(w, timed.now);
      case _ => StepKeepsWait(w, timed);
    }
  }

  lemma LatestAfter(until: Option<nat>, events: seq<Timed>, last: Timed, then_: Option<nat>)
    requires IsLatestEnd(until, events) && IsTimely(events + [last])
    requires then_ == match last.event
                      case Throttled(_) => Some(if until.Some? then Max(until.value, End(last)) else End(last))
                      case Unblock => if until.Some? && last.now < until.value then until else None
                      case _ => until
    ensures IsLatestEnd(then_, events + [last])
  {
    hide IsSet, IsTimely, FindsAllOver;
    var longer := events + [last];
    if last.event.Unblock? {
      FoundIff(until, events, last);
    } else {
      LastFindsNothing(events, last);
    }
    forall i: nat
      ensures IsSet(longer, i) <==> if i == |events| then last.event.Throttled? else IsSet(events, i) && !FindsAllOver(longer, |events|)
      ensures IsSet(events, i) ==> i < |events| && longer[i] == events[i] && events[i].event.Throttled?
      ensures IsSet(longer, i) ==> i < |longer| && longer[i].event.Throttled?
    {
      SetAfter(events, last, i);
      if IsSet(events, i) {
        SetIsThrottle(events, i);
      }
      if IsSet(longer, i) {
        SetIsThrottle(longer, i);
      }
    }
    if then_.Some? {
      if until.Some? && then_ == until {
        var i: nat :| IsSetUntil(events, i, until.value);
        assert IsSetUntil(longer, i, until.value);
      } else {
        assert longer[|events|] == last && IsSetUntil(longer, |events|, End(last));
      }
    }
  }

  lemma LastFindsNothing(events: seq<Timed>, last: Timed)
    requires !last.event.Unblock?
    ensures !FindsAllOver(events + [last], |events|)
  {
  }

  /** Over every run from a pool with no wait: the time it keeps is the latest end of the waits that are set, and none when none is. */
  lemma {:induction false} WaitIsLatestEnd(w: World, events: seq<Timed>)
    requires Inv(w) && w.inner.blockedUntil.None? && IsTimely(events)
    ensures IsLatestEnd(Run(w, events).inner.blockedUntil, events)
    decreases |events|
  {
    hide Inv, Step, IsTimely;
    if events == [] {
      hide IsLatestEnd;
      NothingIsSet();
    } else {
      var before, last := events[..|events| - 1], events[|events| - 1];
      assert events == before + [last];
      TimelyBefore(before, last);
      WaitIsLatestEnd(w, before);
      RunOneMore(w, before, last);
      hide IsLatestEnd;
      StepWait(Run(w, before), last);
      LatestAfter(Run(w, before).inner.blockedUntil, before, last, Run(w, events).inner.blockedUntil);
    }
  }

  lemma NothingIsSet()
    ensures IsLatestEnd(None, [])
  {
  }

  // ---------------------------------------------------------------- what it does to the size

  /**
    A throttle after any run halves the pool exactly when it begins a burst: when the wait of each
    throttle before, not found over since, ended a grace ago.
  */
  lemma ThrottleHalvesIff(w: World, events: seq<Timed>, throttle: Timed)
    requires Inv(w) && w.inner.blockedUntil.None? && IsTimely(events) && throttle.event.Throttled?
    ensures Inv(Run(w, events))
    ensures Run(w, events + [throttle]).inner.size ==
            if BeginsBurst(events, throttle.now) then Halved(Run(w, events).inner.size) else Run(w, events).inner.size
  {
    hide Inv, Run, Step, BeginsBurst, IsLatestEnd;
    WaitIsLatestEnd(w, events);
    RunOneMore(w, events, throttle);
    BeginsIff(Run(w, events).inner.blockedUntil, events, throttle.now);
    HalvesIff(Run(w, events), throttle);
  }

  lemma BeginsIff(until: Option<nat>, events: seq<Timed>, now: nat)
    requires IsLatestEnd(until, events)
    ensures BeginsBurst(events, now) <==> !(until.Some? && now < until.value + BURST_GRACE)
  {
    hide IsSet;
  }

  lemma HalvesIff(w: World, throttle: Timed)
    requires Inv(w) && throttle.event.Throttled?
    ensures Step(w, throttle.event, throttle.now).inner.size == if IsSameBurst(w.inner, throttle.now) then w.inner.size else Halved(w.inner.size)
  {
    hide Inv, LinesOk;
  }

  /** What leaves the size to the throttles: no success and no change of the limits. */
  predicate LeavesSize(event: Event) {
    !event.SetLimits? && !(event.Release? && event.succeeded)
  }

  /** Halved so many times, rounded down. */
  function HalvedTimes(size: nat, k: nat): nat {
    if k == 0 then size else HalvedTimes(size, k - 1) / 2
  }

  /** Over every run with no success and unchanged limits, the size is what it was, halved once for each burst that began, and one at the least. */
  lemma {:induction false} EachBurstHalves(w: World, events: seq<Timed>)
    requires Inv(w) && w.inner.blockedUntil.None? && IsTimely(events) && forall timed <- events :: LeavesSize(timed.event)
    ensures Run(w, events).inner.size == Max(HalvedTimes(w.inner.size, Bursts(events)), 1)
    decreases |events|
  {
    hide Inv, Step, IsTimely, BeginsBurst;
    if events == [] {
      SizeIsPositive(w);
    } else {
      var before, last := events[..|events| - 1], events[|events| - 1];
      assert events == before + [last];
      TimelyBefore(before, last);
      EachBurstHalves(w, before);
      RunOneMore(w, before, last);
      SizeIsPositive(w);
      assert last in events;
      if last.event.Throttled? {
        ThrottleHalvesIff(w, before, last);
      } else {
        StepSizes(Run(w, before), last);
      }
    }
  }

  lemma SizeIsPositive(w: World)
    requires Inv(w)
    ensures w.inner.size >= 1
  {
  }
}
