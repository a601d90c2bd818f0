/** A throttle's wait: no slot goes to anybody before it is over, however often it is made longer. */
module PoolWaits {
  import opened Wrappers
  import opened PoolRules
  import opened PoolAccounting
  import opened PoolFairness
  import opened PoolSizing

  /** The wait a throttle sets is as long as it says, and a wait that is set is never made shorter. */
  lemma ThrottleSetsWait(w: World, wait: Option<nat>, now: nat)
    requires Inv(w)
    ensures var s := Step(w, Throttled(wait), now).inner;
            && s.blockedUntil.Some?
            && s.blockedUntil.value >= now + (if wait.Some? then wait.value else 10_000_000_000)
            && (w.inner.blockedUntil.Some? ==> s.blockedUntil.value >= w.inner.blockedUntil.value)
            && s.rememberedUntil == Some(s.blockedUntil.value + 300_000_000_000)
  {
    hide Inv;
  }

  /** While the wait goes on an event grants nothing, and the wait goes on. */
  lemma WaitGoesOn(w: World, timed: Timed, until: nat)
    requires Inv(w) && w.inner.blockedUntil.Some? && timed.now < until <= w.inner.blockedUntil.value
    ensures StepGrants(w, timed.event, timed.now) == []
    ensures var s := Step(w, timed.event, timed.now).inner; s.blockedUntil.Some? && until <= s.blockedUntil.value
  {
    match timed.event {
      case Throttled(wait) => ThrottleSetsWait(w, wait, timed.now);
      case Unblock => UnblockIsEarly(w, timed.now);
      case _ => StepKeepsWait(w, timed);
    }
    NothingIsDispatched(w, timed.event, timed.now);
  }

  lemma UnblockIsEarly(w: World, now: nat)
    requires Inv(w) && w.inner.Blocked(now)
    ensures Step(w, Unblock, now) == w
  {
  }

  lemma NothingIsDispatched(w: World, event: Event, now: nat)
    requires LinesOk(w.inner) && Sized(w.inner) && w.inner.Blocked(now)
    ensures StepGrants(w, event, now) == []
  {
    hide LinesOk, PoolRules.Grow, HandOutGrants;
    if Dispatched(w, event, now).Some? {
      DispatchedKeepsLines(w, event, now);
      DispatchedIsBlocked(w, event, now);
    }
    hide Dispatched;
  }

  lemma DispatchedIsBlocked(w: World, event: Event, now: nat)
    requires Dispatched(w, event, now).Some? && w.inner.Blocked(now) && Sized(w.inner)
    ensures Dispatched(w, event, now).value.Blocked(now)
  {
    hide PoolRules.Grow;
    GrowKeepsSized(w.inner, now);
  }

  /** Over every run before the wait's end, whatever comes in between: nothing is granted. */
  lemma {:induction false} NothingIsGrantedInAWait(w: World, events: seq<Timed>, until: nat)
    requires Inv(w) && w.inner.blockedUntil.Some? && until <= w.inner.blockedUntil.value
    requires forall timed <- events :: timed.now < until
    ensures RunGrants(w, events) == []
    decreases |events|
  {
    hide LinesOk, Accounted, Sized, Quiet, StepGrants, Step;
    if events != [] {
      assert events[0] in events;
      StepKeeps(w, events[0].event, events[0].now);
      WaitGoesOn(w, events[0], until);
      NothingIsGrantedInAWait(Step(w, events[0].event, events[0].now), events[1..], until);
    }
  }
}
