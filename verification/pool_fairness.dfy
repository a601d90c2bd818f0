/** In what order slots are granted, over whole runs. */
module PoolFairness {
  import opened Wrappers
  import opened PoolRules
  import opened PoolAccounting

  /** A grant, with the pool just before it. */
  datatype Grant = Grant(before: Inner, ticket: Ticket)
  {
    ghost predicate Ok() {
      LinesOk(before) && NextGrant(before).Some? && NextGrant(before).value.ticket == ticket && ticket in before.waiters
    }

    function ClassOf(): Class
      requires ticket in before.waiters
    {
      before.waiters[ticket].line.class_
    }

    predicate IsBackground() {
      ticket in before.waiters && ClassOf() in {Download, Upload}
    }
  }

  /** The grants of one handing out, in their order. */
  ghost function HandOutGrants(s: Inner): seq<Grant>
    requires LinesOk(s)
    decreases Waiting(s)
  {
    if NextGrant(s).None? then []
    else
      NextIsWaiting(s);
      GrantKeepsLines(s);
      [Grant(s, NextGrant(s).value.ticket)] + HandOutGrants(PoolRules.Grant(s, NextGrant(s).value))
  }

  /** The pool an event hands out slots from, if it does. */
  ghost function Dispatched(w: World, event: Event, now: nat): (u: Option<Inner>) {
    var s := w.inner;
    match event
    case Arrive(class_, isLargeFile) => Some(AddWaiter(s, LineFor(class_, isLargeFile)))
    case TryAcquire(class_, isLargeFile) => Some(AddWaiter(s, LineFor(class_, isLargeFile)))
    case Collect(t) => None
    case GiveUp(t) => if t in s.waiters then Some(GivenUp(s, t)) else None
    case Release(t, succeeded) => if t in w.live then Some(Released(s, w.live[t], succeeded, now)) else None
    case SetPaused(paused) => if s.paused == paused then None else Some(WithPaused(s, paused))
    case SetLimits(ceiling, large) => Some(WithLimits(s, ceiling, large))
    case Throttled(wait) => None
    case Unblock => if s.Blocked(now) then None else Some(s.(blockedUntil := None))
  }

  lemma DispatchedKeepsLines(w: World, event: Event, now: nat)
    requires LinesOk(w.inner) && Dispatched(w, event, now).Some?
    ensures LinesOk(Dispatched(w, event, now).value) && Dispatched(w, event, now).value.turn == w.inner.turn
  {
    hide LinesOk, Grow;
    var s, u := w.inner, Dispatched(w, event, now).value;
    match event {
      case Arrive(class_, isLargeFile) => AddKeepsLines(s, LineFor(class_, isLargeFile));
      case TryAcquire(class_, isLargeFile) => AddKeepsLines(s, LineFor(class_, isLargeFile));
      case GiveUp(t) =>
        RemoveKeepsLines(s, t);
        SameLines(RemoveWaiter(s, t), GivenUp(s, t));
      case Release(t, succeeded) =>
        GrowKeepsLines(s, now);
        SameLines(s, u);
      case _ => SameLines(s, u);
    }
  }

  ghost function StepGrants(w: World, event: Event, now: nat): seq<Grant>
    requires LinesOk(w.inner)
  {
    match Dispatched(w, event, now)
    case Some(u) => DispatchedKeepsLines(w, event, now); if u.Blocked(now) then [] else HandOutGrants(u)
    case None => []
  }

  ghost function RunGrants(w: World, events: seq<Timed>): seq<Grant>
    requires Inv(w)
    decreases |events|
  {
    if events == [] then []
    else
      StepKeeps(w, events[0].event, events[0].now);
      StepGrants(w, events[0].event, events[0].now) + RunGrants(Step(w, events[0].event, events[0].now), events[1..])
  }

  /** Whose turn it is after these grants: the other side's of the last background one. */
  function TurnAfter(turn: Direction, grants: seq<Grant>): Direction
    decreases |grants|
  {
    if grants == [] then turn
    else
      var last := grants[|grants| - 1];
      if last.IsBackground() then (if last.ClassOf().Download? then Up else Down) else TurnAfter(turn, grants[..|grants| - 1])
  }

  /** Every grant is the next one, with the turn the grants before it gave. */
  ghost predicate InTurn(turn: Direction, grants: seq<Grant>) {
    forall k :: 0 <= k < |grants| ==> grants[k].Ok() && grants[k].before.turn == TurnAfter(turn, grants[..k])
  }

  lemma {:induction false} TurnAfterConcat(turn: Direction, a: seq<Grant>, b: seq<Grant>)
    ensures TurnAfter(turn, a + b) == TurnAfter(TurnAfter(turn, a), b)
    decreases |b|
  {
    if b == [] {
      assert a + b == a;
    } else {
      TurnAfterConcat(turn, a, b[..|b| - 1]);
      assert (a + b)[..|a + b| - 1] == a + b[..|b| - 1];
    }
  }

  lemma InTurnConcat(turn: Direction, a: seq<Grant>, b: seq<Grant>)
    requires InTurn(turn, a) && InTurn(TurnAfter(turn, a), b)
    ensures InTurn(turn, a + b)
  {
    forall k | 0 <= k < |a + b|
      ensures (a + b)[k].Ok() && (a + b)[k].before.turn == TurnAfter(turn, (a + b)[..k])
    {
      if k < |a| {
        assert (a + b)[..k] == a[..k] && (a + b)[k] == a[k];
      } else {
        assert (a + b)[..k] == a + b[..k - |a|] && (a + b)[k] == b[k - |a|];
        TurnAfterConcat(turn, a, b[..k - |a|]);
      }
    }
  }

  lemma NextTurn(s: Inner)
    requires LinesOk(s) && NextGrant(s).Some?
    ensures NextGrant(s).value.ticket in s.waiters
    ensures TurnAfter(s.turn, [Grant(s, NextGrant(s).value.ticket)]) == NextGrant(s).value.turn
  {
    var t := NextGrant(s).value.ticket;
    NextIsWaiting(s);
    FirstIsLeastThatMayGo(s, Open);
    FirstIsLeastThatMayGo(s, Metadata);
    FirstIsLeastThatMayGo(s, Download);
    FirstIsLeastThatMayGo(s, Upload);
    assert [Grant(s, t)][..0] == [];
  }

  lemma {:induction false} HandOutInTurn(s: Inner)
    requires LinesOk(s)
    ensures InTurn(s.turn, HandOutGrants(s))
    ensures HandOut(s).turn == TurnAfter(s.turn, HandOutGrants(s))
    decreases Waiting(s)
  {
    if NextGrant(s).Some? {
      NextIsWaiting(s);
      GrantKeepsLines(s);
      NextTurn(s);
      var u := PoolRules.Grant(s, NextGrant(s).value);
      HandOutInTurn(u);
      FirstInTurn(s);
      InTurnConcat(s.turn, [Grant(s, NextGrant(s).value.ticket)], HandOutGrants(u));
      TurnAfterConcat(s.turn, [Grant(s, NextGrant(s).value.ticket)], HandOutGrants(u));
    }
  }

  lemma FirstInTurn(s: Inner)
    requires LinesOk(s) && NextGrant(s).Some?
    ensures InTurn(s.turn, [Grant(s, NextGrant(s).value.ticket)])
  {
    NextIsWaiting(s);
    assert [Grant(s, NextGrant(s).value.ticket)][..0] == [];
  }

  lemma StepInTurn(w: World, event: Event, now: nat)
    requires Inv(w)
    ensures InTurn(w.inner.turn, StepGrants(w, event, now))
    ensures Step(w, event, now).inner.turn == TurnAfter(w.inner.turn, StepGrants(w, event, now))
  {
    hide Accounted, NextGrant, HandOut, First, LinesOk, Grow, InTurn, TurnAfter, HandOutGrants, Dispatched, Step;
    match Dispatched(w, event, now) {
      case Some(u) =>
        DispatchedKeepsLines(w, event, now);
        if !u.Blocked(now) { HandOutInTurn(u); }
      case None =>
    }
    NothingInTurn(w.inner.turn);
    StepTurn(w, event, now);
  }

  lemma NothingInTurn(turn: Direction)
    ensures InTurn(turn, []) && TurnAfter(turn, []) == turn
  {
  }

  lemma StepTurn(w: World, event: Event, now: nat)
    requires Inv(w)
    ensures Dispatched(w, event, now).Some? ==> LinesOk(Dispatched(w, event, now).value)
    ensures Step(w, event, now).inner.turn ==
            match Dispatched(w, event, now)
            case Some(u) => Dispatch(u, now).turn
            case None => w.inner.turn
  {
    hide Accounted, NextGrant, Quiet, HandOut, First, LinesOk, Grow;
    if Dispatched(w, event, now).Some? {
      DispatchedKeepsLines(w, event, now);
    }
  }

  lemma {:induction false} RunInTurn(w: World, events: seq<Timed>)
    requires Inv(w)
    ensures InTurn(w.inner.turn, RunGrants(w, events))
    decreases |events|
  {
    if events != [] {
      var u := Step(w, events[0].event, events[0].now);
      StepKeeps(w, events[0].event, events[0].now);
      StepInTurn(w, events[0].event, events[0].now);
      RunInTurn(u, events[1..]);
      InTurnConcat(w.inner.turn, StepGrants(w, events[0].event, events[0].now), RunGrants(u, events[1..]));
    } else {
      NothingInTurn(w.inner.turn);
    }
  }

  lemma {:induction false} TurnOfLast(turn: Direction, grants: seq<Grant>, i: nat)
    requires i < |grants| && grants[i].IsBackground() && (forall k :: i < k < |grants| ==> !grants[k].IsBackground())
    ensures TurnAfter(turn, grants) == if grants[i].ClassOf().Download? then Up else Down
    decreases |grants|
  {
    if i < |grants| - 1 {
      TurnOfLast(turn, grants[..|grants| - 1], i);
    }
  }

  lemma ClassOfNext(s: Inner)
    requires LinesOk(s) && NextGrant(s).Some? && NextGrant(s).value.ticket in s.waiters
    requires s.waiters[NextGrant(s).value.ticket].line.class_ in {Download, Upload}
    requires MayGo(s, Download) != {} && MayGo(s, Upload) != {}
    ensures s.waiters[NextGrant(s).value.ticket].line.class_.Download? <==> s.turn.Down?
  {
    FirstIsLeastThatMayGo(s, Open);
    FirstIsLeastThatMayGo(s, Metadata);
    FirstIsLeastThatMayGo(s, Download);
    FirstIsLeastThatMayGo(s, Upload);
  }

  /**
    Over any run, of two background grants with none between them: when both a download and
    an upload could go at the second, it goes to the other of the two.
  */
  lemma BackgroundAlternates(w: World, events: seq<Timed>, i: nat, j: nat)
    requires Inv(w) && i < j < |RunGrants(w, events)|
    requires var grants := RunGrants(w, events);
             && grants[i].IsBackground() && grants[j].IsBackground() && (forall k :: i < k < j ==> !grants[k].IsBackground())
             && MayGo(grants[j].before, Download) != {} && MayGo(grants[j].before, Upload) != {}
    ensures RunGrants(w, events)[i].ClassOf() != RunGrants(w, events)[j].ClassOf()
  {
    var grants := RunGrants(w, events);
    RunInTurn(w, events);
    hide RunGrants, Inv;
    assert grants[j].Ok() && grants[j].before.turn == TurnAfter(w.inner.turn, grants[..j]);
    TurnOfLast(w.inner.turn, grants[..j], i);
    ClassOfNext(grants[j].before);
  }

  /**
    Over any run, whoever waits in the class of a grant and came before the one it goes to
    is a large one, held back by the large-stream limit at that grant.
  */
  lemma OvertakenOnlyByTheLimit(w: World, events: seq<Timed>, k: nat, other: Ticket)
    requires Inv(w) && k < |RunGrants(w, events)|
    requires var grant := RunGrants(w, events)[k];
             && grant.ticket in grant.before.waiters
             && other in grant.before.waiters && !grant.before.waiters[other].granted
             && grant.before.waiters[other].line.class_ == grant.ClassOf()
             && other.number < grant.ticket.number
    ensures var before := RunGrants(w, events)[k].before;
            before.waiters[other].line.large && before.largeHeld >= before.largeLimit
  {
    var grant := RunGrants(w, events)[k];
    GrantsAreNext(w, events, k);
    hide RunGrants, Inv;
    GrantIsWithinBounds(grant.before);
    assert other !in MayGo(grant.before, grant.ClassOf());
  }

  /** Every grant of a run is the next one by the rules. */
  lemma GrantsAreNext(w: World, events: seq<Timed>, k: nat)
    requires Inv(w) && k < |RunGrants(w, events)|
    ensures RunGrants(w, events)[k].Ok()
  {
    RunInTurn(w, events);
  }
}
