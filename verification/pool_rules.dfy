/**
  The transfer pool's rules, each lock region one step: who waits, who holds a slot, who is
  next, how the pool grows and shrinks.
*/
module PoolRules {
  import opened Wrappers

  const START: nat := 16
  const CEILING_MIN: nat := 1
  const CEILING_MAX: nat := 256
  const DEFAULT_LARGE: nat := 4
  /** What a file being opened may have beyond the size. */
  const RESERVE: nat := 2
  // Times are whole nanoseconds of the pool's clock.
  const SECOND: nat := 1_000_000_000
  const THROTTLE_MEMORY: nat := 300 * SECOND
  const BURST_GRACE: nat := SECOND
  const DEFAULT_THROTTLE_WAIT: nat := 10 * SECOND

  /** The kinds of work, the first served first. */
  datatype Class = Open | Metadata | Download | Upload

  datatype Direction = Down | Up

  /** Where a waiter stands in line: its class, and whether it counts against the large-stream limit. */
  datatype Line = Line(class_: Class, large: bool)

  /** A waiter's id: ids only grow. */
  datatype Ticket = Ticket(number: nat)

  datatype Waiter = Waiter(line: Line, granted: bool)

  datatype Inner = Inner(
    size: nat, ceiling: nat, largeLimit: nat, credit: nat,
    held: map<Class, int>, largeHeld: int,
    waiters: map<Ticket, Waiter>, line: map<Line, set<Ticket>>, nextId: nat,
    turn: Direction, paused: bool, blockedUntil: Option<nat>, rememberedUntil: Option<nat>)
  {
    function Held(class_: Class): int {
      if class_ in held then held[class_] else 0
    }

    function Total(): int {
      Held(Open) + Held(Metadata) + Held(Download) + Held(Upload)
    }

    function InLine(l: Line): set<Ticket> {
      if l in line then line[l] else {}
    }

    predicate Blocked(now: nat) {
      blockedUntil.Some? && now < blockedUntil.value
    }

    /** Somebody stands in one of the lines. */
    predicate Queued() {
      || InLine(Line(Open, false)) != {} || InLine(Line(Open, true)) != {}
      || InLine(Line(Metadata, false)) != {} || InLine(Line(Metadata, true)) != {}
      || InLine(Line(Download, false)) != {} || InLine(Line(Download, true)) != {}
      || InLine(Line(Upload, false)) != {} || InLine(Line(Upload, true)) != {}
    }
  }

  function Clamp(n: nat, low: nat, high: nat): nat
    requires low <= high
  {
    if n < low then low else if n > high then high else n
  }

  function Min(a: nat, b: nat): nat {
    if a <= b then a else b
  }

  function Max(a: nat, b: nat): nat {
    if a >= b then a else b
  }

  /** A transfer counts against the large-stream limit unless it is a file being opened. */
  function LineFor(class_: Class, isLargeFile: bool): Line {
    Line(class_, isLargeFile && class_ != Open)
  }

  function New(start: nat, ceiling: nat): Inner {
    var most := Clamp(ceiling, CEILING_MIN, CEILING_MAX);
    Inner(Clamp(start, 1, most), most, Clamp(DEFAULT_LARGE, 1, most), 0, map[], 0, map[], map[], 0, Down, false, None, None)
  }

  // ---------------------------------------------------------------- the waiters

  ghost predicate StandsRight(s: Inner, l: Line, t: Ticket) {
    t in s.InLine(l) <==> t in s.waiters && !s.waiters[t].granted && s.waiters[t].line == l
  }

  /** A waiter is in exactly one line exactly while it is not granted, and nobody else is in a line. */
  ghost predicate LinesOk(s: Inner) {
    && (forall l: Line, t: Ticket :: StandsRight(s, l, t))
    && (forall t <- s.waiters :: t.number < s.nextId && (s.waiters[t].line.large ==> s.waiters[t].line.class_ != Open))
  }

  function AddWaiter(s: Inner, l: Line): Inner {
    var t := Ticket(s.nextId);
    s.(nextId := s.nextId + 1, waiters := s.waiters[t := Waiter(l, false)], line := s.line[l := s.InLine(l) + {t}])
  }

  function RemoveWaiter(s: Inner, t: Ticket): Inner
    requires t in s.waiters
  {
    var waiter := s.waiters[t];
    var gone := s.(waiters := s.waiters - {t});
    if waiter.granted then gone else gone.(line := s.line[waiter.line := s.InLine(waiter.line) - {t}])
  }

  // ---------------------------------------------------------------- who is next

  lemma {:induction false} LeastExists(line: set<Ticket>) returns (least: Ticket)
    requires line != {}
    ensures least in line && forall t <- line :: least.number <= t.number
    decreases line
  {
    least :| least in line;
    if line - {least} != {} {
      var next := LeastExists(line - {least});
      if next.number < least.number {
        least := next;
      }
    }
  }

  /** The one who came first. */
  function Least(line: set<Ticket>): (least: Ticket)
    requires line != {}
    ensures least in line && forall t <- line :: least.number <= t.number
  {
    assert exists t :: t in line && forall u <- line :: t.number <= u.number by {
      var t := LeastExists(line);
    }
    var t :| t in line && forall u <- line :: t.number <= u.number;
    t
  }

  /** Who goes first in a class, the large ones left out while the limit is reached. */
  function First(s: Inner, class_: Class): Option<Ticket> {
    var small, large := s.InLine(Line(class_, false)), s.InLine(Line(class_, true));
    var isLargeFree := s.largeHeld < s.largeLimit;
    if small != {} && large != {} && isLargeFree then
      Some(if Least(small).number <= Least(large).number then Least(small) else Least(large))
    else if small != {} then Some(Least(small))
    else if large != {} && isLargeFree then Some(Least(large))
    else None
  }

  datatype Next = Next(ticket: Ticket, turn: Direction)

  /** Work in the background stands back: somebody opens a file, or is about to. */
  predicate Opening(s: Inner) {
    s.Held(Open) > 0 || First(s, Open).Some?
  }

  /** Whom the next free slot goes to, if to anybody, and whose turn it is then. */
  function NextGrant(s: Inner): Option<Next> {
    if s.Total() < s.size + RESERVE && First(s, Open).Some? then Some(Next(First(s, Open).value, s.turn))
    else if Opening(s) || s.paused || s.Total() >= s.size then None
    else if First(s, Metadata).Some? then Some(Next(First(s, Metadata).value, s.turn))
    else
      match (First(s, Download), First(s, Upload))
      case (Some(d), Some(u)) => if s.turn.Down? then Some(Next(d, Up)) else Some(Next(u, Down))
      case (Some(d), None) => Some(Next(d, Up))
      case (None, Some(u)) => Some(Next(u, Down))
      case (None, None) => None
  }

  function Grant(s: Inner, next: Next): Inner
    requires next.ticket in s.waiters
  {
    var l := s.waiters[next.ticket].line;
    s.(turn := next.turn,
       waiters := s.waiters[next.ticket := Waiter(l, true)],
       line := s.line[l := s.InLine(l) - {next.ticket}],
       held := s.held[l.class_ := s.Held(l.class_) + 1],
       largeHeld := if l.large then s.largeHeld + 1 else s.largeHeld)
  }

  ghost function Waiting(s: Inner): set<Ticket> {
    set t | t in s.waiters && !s.waiters[t].granted
  }

  lemma NextIsWaiting(s: Inner)
    requires LinesOk(s) && NextGrant(s).Some?
    ensures NextGrant(s).value.ticket in Waiting(s)
  {
    var t := NextGrant(s).value.ticket;
    var l: Line :| t in s.InLine(l);
    assert StandsRight(s, l, t);
  }

  lemma GrantKeepsLines(s: Inner)
    requires LinesOk(s) && NextGrant(s).Some?
    ensures NextGrant(s).value.ticket in s.waiters
    ensures LinesOk(Grant(s, NextGrant(s).value))
    ensures Waiting(Grant(s, NextGrant(s).value)) == Waiting(s) - {NextGrant(s).value.ticket}
  {
    NextIsWaiting(s);
    var next := NextGrant(s).value;
    var u := Grant(s, next);
    forall l: Line, t: Ticket
      ensures StandsRight(u, l, t)
    {
      assert StandsRight(s, l, t);
    }
    assert s.waiters[next.ticket].granted == false;
  }

  lemma SameLines(s: Inner, u: Inner)
    requires LinesOk(s) && u.waiters == s.waiters && u.line == s.line && u.nextId == s.nextId
    ensures LinesOk(u)
  {
    forall l: Line, t: Ticket
      ensures StandsRight(u, l, t)
    {
      assert StandsRight(s, l, t);
    }
  }

  /** Free slots go to whoever is next, until nobody is: each grant takes a waiter out of its line. */
  ghost function HandOut(s: Inner): Inner
    requires LinesOk(s)
    decreases Waiting(s)
  {
    if NextGrant(s).None? then s
    else
      NextIsWaiting(s);
      GrantKeepsLines(s);
      HandOut(Grant(s, NextGrant(s).value))
  }

  ghost function Dispatch(s: Inner, now: nat): Inner
    requires LinesOk(s)
  {
    if s.Blocked(now) then s else HandOut(s)
  }

  // ---------------------------------------------------------------- the pool's size

  predicate CountsAsBusy(s: Inner) {
    s.Total() >= s.size && s.Queued() && s.size < s.ceiling
  }

  function Forget(s: Inner, now: nat): Inner {
    if s.rememberedUntil.Some? && now >= s.rememberedUntil.value then s.(rememberedUntil := None, credit := 0) else s
  }

  /** One more slot after a success while work waits and all are busy; one a round while a throttle is remembered. */
  function Grow(s: Inner, now: nat): Inner {
    var u := Forget(s, now);
    if !CountsAsBusy(u) then u
    else if u.rememberedUntil.None? then u.(size := u.size + 1)
    else if u.credit + 1 >= u.size then u.(credit := 0, size := u.size + 1)
    else u.(credit := u.credit + 1)
  }

  lemma ForgetKeepsLines(s: Inner, now: nat)
    ensures var u := Forget(s, now); u.waiters == s.waiters && u.line == s.line && u.nextId == s.nextId && u.turn == s.turn
  {
  }

  lemma GrowKeepsLines(s: Inner, now: nat)
    ensures var u := Grow(s, now); u.waiters == s.waiters && u.line == s.line && u.nextId == s.nextId && u.turn == s.turn
  {
    hide CountsAsBusy, Forget;
    ForgetKeepsLines(s, now);
  }

  predicate IsSameBurst(s: Inner, now: nat) {
    s.blockedUntil.Some? && now < s.blockedUntil.value + BURST_GRACE
  }

  function Halved(size: nat): nat {
    Max(size / 2, 1)
  }

  function Throttle(s: Inner, wait: nat, now: nat): Inner {
    var until := if s.blockedUntil.Some? then Max(s.blockedUntil.value, now + wait) else now + wait;
    var blocked := s.(blockedUntil := Some(until), rememberedUntil := Some(until + THROTTLE_MEMORY));
    if IsSameBurst(s, now) then blocked else blocked.(size := Halved(s.size), credit := 0)
  }

  // ---------------------------------------------------------------- the steps

  /** The pool, and the slots that are held: each by the id its waiter had. */
  datatype World = World(inner: Inner, live: map<Ticket, Line>)

  datatype Event =
    | Arrive(class_: Class, isLargeFile: bool)          // the first poll of a future
    | Collect(ticket: Ticket)                            // a later poll
    | GiveUp(ticket: Ticket)                             // a future dropped before it was done
    | TryAcquire(class_: Class, isLargeFile: bool)
    | Release(ticket: Ticket, succeeded: bool)
    | SetPaused(paused: bool)
    | SetLimits(ceiling: nat, large: nat)
    | Throttled(wait: Option<nat>)
    | Unblock                                            // the end of a throttle's wait

  /** The waiter is taken out, and its slot is the caller's when it was granted one. */
  function TakeGranted(w: World, t: Ticket): World
    requires t in w.inner.waiters
  {
    var waiter := w.inner.waiters[t];
    if waiter.granted then World(RemoveWaiter(w.inner, t), w.live[t := waiter.line]) else w
  }

  function GiveBack(s: Inner, l: Line): Inner {
    s.(held := s.held[l.class_ := s.Held(l.class_) - 1], largeHeld := if l.large then s.largeHeld - 1 else s.largeHeld)
  }

  lemma HandOutKeepsWaiters(s: Inner)
    requires LinesOk(s)
    ensures LinesOk(HandOut(s)) && HandOut(s).waiters.Keys == s.waiters.Keys && NextGrant(HandOut(s)).None?
    decreases Waiting(s)
  {
    if NextGrant(s).Some? {
      NextIsWaiting(s);
      GrantKeepsLines(s);
      HandOutKeepsWaiters(Grant(s, NextGrant(s).value));
    }
  }

  lemma AddKeepsLines(s: Inner, l: Line)
    requires LinesOk(s) && (l.large ==> l.class_ != Open)
    ensures LinesOk(AddWaiter(s, l))
  {
    var u := AddWaiter(s, l);
    forall k: Line, t: Ticket
      ensures StandsRight(u, k, t)
    {
      assert StandsRight(s, k, t);
    }
  }

  lemma RemoveKeepsLines(s: Inner, t: Ticket)
    requires LinesOk(s) && t in s.waiters
    ensures LinesOk(RemoveWaiter(s, t))
  {
    var u := RemoveWaiter(s, t);
    forall k: Line, other: Ticket
      ensures StandsRight(u, k, other)
    {
      assert StandsRight(s, k, other);
    }
  }

  /** A waiter comes and slots are handed out; none while a throttle's wait goes on. */
  ghost function Arrived(s: Inner, class_: Class, isLargeFile: bool, now: nat): (u: Inner)
    requires LinesOk(s)
    ensures LinesOk(u) && u.waiters.Keys == s.waiters.Keys + {Ticket(s.nextId)}
  {
    var l := LineFor(class_, isLargeFile);
    AddKeepsLines(s, l);
    HandOutKeepsWaiters(AddWaiter(s, l));
    Dispatch(AddWaiter(s, l), now)
  }

  /** The pool before slots are handed out again. */
  function WithPaused(s: Inner, paused: bool): Inner {
    s.(paused := paused)
  }

  function WithLimits(s: Inner, ceiling: nat, large: nat): Inner {
    var most := Clamp(ceiling, CEILING_MIN, CEILING_MAX);
    s.(ceiling := most, size := Min(s.size, most), largeLimit := Clamp(large, 1, most))
  }

  function Released(s: Inner, l: Line, succeeded: bool, now: nat): Inner {
    GiveBack(if succeeded then Grow(s, now) else s, l)
  }

  function GivenUp(s: Inner, t: Ticket): Inner
    requires t in s.waiters
  {
    if s.waiters[t].granted then GiveBack(RemoveWaiter(s, t), s.waiters[t].line) else RemoveWaiter(s, t)
  }

  /** Slots are handed out after a change that moved no waiter. */
  ghost function DispatchSame(s: Inner, u: Inner, now: nat): (v: Inner)
    requires LinesOk(s) && u.waiters == s.waiters && u.line == s.line && u.nextId == s.nextId
    ensures LinesOk(u) && v == Dispatch(u, now)
  {
    SameLines(s, u);
    Dispatch(u, now)
  }

  ghost function DispatchReleased(s: Inner, l: Line, succeeded: bool, now: nat): (v: Inner)
    requires LinesOk(s)
    ensures LinesOk(Released(s, l, succeeded, now)) && v == Dispatch(Released(s, l, succeeded, now), now)
  {
    hide Grow;
    GrowKeepsLines(s, now);
    DispatchSame(s, Released(s, l, succeeded, now), now)
  }

  ghost function DispatchGivenUp(s: Inner, t: Ticket, now: nat): (v: Inner)
    requires LinesOk(s) && t in s.waiters
    ensures LinesOk(GivenUp(s, t)) && v == Dispatch(GivenUp(s, t), now)
  {
    RemoveKeepsLines(s, t);
    SameLines(RemoveWaiter(s, t), GivenUp(s, t));
    Dispatch(GivenUp(s, t), now)
  }

  /** What an event does; an id nobody waits or holds a slot with is no event of the pool. */
  ghost function Step(w: World, event: Event, now: nat): World
    requires LinesOk(w.inner)
  {
    var s := w.inner;
    match event
    case Arrive(class_, isLargeFile) => TakeGranted(w.(inner := Arrived(s, class_, isLargeFile, now)), Ticket(s.nextId))
    case Collect(t) => if t in s.waiters then TakeGranted(w, t) else w
    case GiveUp(t) => if t in s.waiters then w.(inner := DispatchGivenUp(s, t, now)) else w
    case TryAcquire(class_, isLargeFile) =>
      var t := Ticket(s.nextId);
      var u := Arrived(s, class_, isLargeFile, now);
      World(RemoveWaiter(u, t), if u.waiters[t].granted then w.live[t := u.waiters[t].line] else w.live)
    case Release(t, succeeded) =>
      if t in w.live then World(DispatchReleased(s, w.live[t], succeeded, now), w.live - {t}) else w
    case SetPaused(paused) => if s.paused == paused then w else w.(inner := DispatchSame(s, WithPaused(s, paused), now))
    case SetLimits(ceiling, large) => w.(inner := DispatchSame(s, WithLimits(s, ceiling, large), now))
    case Throttled(wait) => w.(inner := Throttle(s, if wait.Some? then wait.value else DEFAULT_THROTTLE_WAIT, now))
    case Unblock => if s.Blocked(now) then w else w.(inner := DispatchSame(s, s.(blockedUntil := None), now))
  }
}
