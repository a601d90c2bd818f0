/** The transfer pool itself: its fields change in place, one lock region at a time. */
module Pool {
  import opened Wrappers
  import opened PoolRules
  import opened PoolAccounting
  import opened PoolMeter

  /** What the meter shows each way: the bytes of the last three seconds, and what the average is of. */
  datatype Shown = Shown(recent: Counts, downAverage: Option<Average>, upAverage: Option<Average>)

  class TransferPool {
    var size: nat
    var ceiling: nat
    var largeLimit: nat
    var credit: nat
    var held: map<Class, int>
    var largeHeld: int
    var waiters: map<Ticket, Waiter>
    var line: map<Line, set<Ticket>>
    var nextId: nat
    var turn: Direction
    var paused: bool
    var blockedUntil: Option<nat>
    var rememberedUntil: Option<nat>
    var moved: seq<Bucket>
    var movedTotal: Counts
    /** The slots given out and not given back. */
    ghost var live: map<Ticket, Line>
    /** Every move there was. */
    ghost var log: seq<Move>

    function State(): Inner
      reads this`size, this`ceiling, this`largeLimit, this`credit, this`held, this`largeHeld, this`waiters, this`line, this`nextId,
            this`turn, this`paused, this`blockedUntil, this`rememberedUntil
    {
      Inner(size, ceiling, largeLimit, credit, held, largeHeld, waiters, line, nextId, turn, paused, blockedUntil, rememberedUntil)
    }

    ghost function Now(): World
      reads this
    {
      World(State(), live)
    }

    /** The meter holds what the log of moves leaves, and all its bytes. */
    ghost predicate Metering()
      reads this`moved, this`movedTotal, this`log
    {
      && moved == Buckets(log)
      && movedTotal == Counts(BytesAfter(log, Down, -1), BytesAfter(log, Up, -1))
      && InTime(log)
    }

    constructor (start: nat, most: nat)
      ensures Inv(Now()) && Metering() && Now() == World(New(start, most), map[]) && log == []
    {
      hide Inv;
      ceiling := Clamp(most, CEILING_MIN, CEILING_MAX);
      size := Clamp(start, 1, Clamp(most, CEILING_MIN, CEILING_MAX));
      largeLimit := Clamp(DEFAULT_LARGE, 1, Clamp(most, CEILING_MIN, CEILING_MAX));
      credit, held, largeHeld, waiters, line, nextId := 0, map[], 0, map[], map[], 0;
      turn, paused, blockedUntil, rememberedUntil := Down, false, None, None;
      moved, movedTotal, live, log := [], NOTHING, map[], [];
      new;
      NewKeeps(start, most);
    }

    // -------------------------------------------------------------- waiters and slots

    method Add(l: Line) returns (t: Ticket)
      modifies this`nextId, this`waiters, this`line
      ensures t == Ticket(old(nextId)) && State() == AddWaiter(old(State()), l)
    {
      t := Ticket(nextId);
      nextId := nextId + 1;
      waiters := waiters[t := Waiter(l, false)];
      line := line[l := (if l in line then line[l] else {}) + {t}];
    }

    method Remove(t: Ticket)
      requires t in waiters
      modifies this`waiters, this`line
      ensures State() == RemoveWaiter(old(State()), t)
    {
      var waiter := waiters[t];
      waiters := waiters - {t};
      if !waiter.granted {
        line := line[waiter.line := (if waiter.line in line then line[waiter.line] else {}) - {t}];
      }
    }

    method GrantSlot(t: Ticket)
      requires t in waiters
      modifies this`waiters, this`line, this`held, this`largeHeld
      ensures State() == Grant(old(State()), Next(t, turn))
    {
      var l := waiters[t].line;
      waiters := waiters[t := Waiter(l, true)];
      line := line[l := (if l in line then line[l] else {}) - {t}];
      held := held[l.class_ := (if l.class_ in held then held[l.class_] else 0) + 1];
      if l.large {
        largeHeld := largeHeld + 1;
      }
    }

    method GiveSlotBack(l: Line)
      modifies this`held, this`largeHeld
      ensures State() == GiveBack(old(State()), l)
    {
      held := held[l.class_ := (if l.class_ in held then held[l.class_] else 0) - 1];
      if l.large {
        largeHeld := largeHeld - 1;
      }
    }

    /** One turn of the loop: a slot to whoever is next, if there is anybody. */
    method GrantNext() returns (more: bool)
      requires LinesOk(State())
      modifies this`turn, this`waiters, this`line, this`held, this`largeHeld
      ensures more <==> NextGrant(old(State())).Some?
      ensures more ==> NextGrant(old(State())).value.ticket in old(waiters) && State() == Grant(old(State()), NextGrant(old(State())).value)
      ensures !more ==> State() == old(State())
    {
      hide LinesOk, First;
      ghost var was := State();
      if NextGrant(was).Some? {
        NextIsWaiting(was);
      }
      var total := State().Total();
      var opening := First(State(), Open);
      if total < size + RESERVE && opening.Some? {
        GrantSlot(opening.value);
        return true;
      }
      if State().Held(Open) > 0 || opening.Some? || paused || total >= size {
        return false;
      }
      var metadata := First(State(), Metadata);
      if metadata.Some? {
        GrantSlot(metadata.value);
        return true;
      }
      var down, up := First(State(), Download), First(State(), Upload);
      if down.None? && up.None? {
        return false;
      }
      var toDown := down.Some? && (up.None? || turn.Down?);
      turn := if toDown then Up else Down;
      GrantSlot(if toDown then down.value else up.value);
      return true;
    }

    /** Grants slots one by one until nobody is next. */
    method DispatchSlots(now: nat)
      requires LinesOk(State())
      modifies this`turn, this`waiters, this`line, this`held, this`largeHeld
      ensures State() == Dispatch(old(State()), now)
    {
      if blockedUntil.Some? && now < blockedUntil.value {
        return;
      }
      var more := true;
      while more
        invariant LinesOk(State()) && HandOut(State()) == HandOut(old(State()))
        invariant !more ==> NextGrant(State()).None?
        invariant size == old(size) && ceiling == old(ceiling) && blockedUntil == old(blockedUntil)
        decreases Waiting(State()), more
      {
        ghost var was := State();
        more := GrantNext();
        if more {
          NextIsWaiting(was);
          GrantKeepsLines(was);
          assert Waiting(State()) < Waiting(was);
        }
        hide LinesOk, NextGrant;
      }
    }

    method Enter(class_: Class, isLargeFile: bool, now: nat) returns (t: Ticket)
      requires LinesOk(State())
      modifies this`nextId, this`turn, this`waiters, this`line, this`held, this`largeHeld
      ensures t == Ticket(old(nextId)) && t in waiters
      ensures State() == Arrived(old(State()), class_, isLargeFile, now)
    {
      hide LinesOk, Dispatch;
      ghost var was := State();
      AddKeepsLines(was, LineFor(class_, isLargeFile));
      t := Add(LineFor(class_, isLargeFile));
      DispatchSlots(now);
      assert State() == Arrived(was, class_, isLargeFile, now);
      assert State().waiters.Keys == was.waiters.Keys + {t};
    }

    /** A waiter that was granted a slot is collected. */
    method TakeIfGranted(t: Ticket) returns (taken: bool)
      requires t in waiters
      modifies this`live, this`waiters, this`line
      ensures Now() == TakeGranted(old(Now()), t)
      ensures taken == old(waiters[t].granted) && (taken ==> t in live && t !in waiters) && (!taken ==> t in waiters && !waiters[t].granted)
    {
      taken := waiters[t].granted;
      if taken {
        live := live[t := waiters[t].line];
        RemovedIsGone(State(), t);
        Remove(t);
      }
    }

    /** A waiter that does not wait: it goes, with its slot when it was granted one. */
    method TakeOrLeave(t: Ticket) returns (taken: bool)
      requires t in waiters
      modifies this`live, this`waiters, this`line
      ensures Now() == TakenOrGone(old(Now()), t)
      ensures taken == old(waiters[t].granted) && live == if taken then old(live)[t := old(waiters[t].line)] else old(live)
    {
      taken := waiters[t].granted;
      if taken {
        live := live[t := waiters[t].line];
      }
      Remove(t);
    }

    method Leave(t: Ticket)
      requires t in waiters
      modifies this`waiters, this`line, this`held, this`largeHeld
      ensures State() == GivenUp(old(State()), t)
    {
      var waiter := waiters[t];
      Remove(t);
      if waiter.granted {
        GiveSlotBack(waiter.line);
      }
    }

    method Count(l: Line, succeeded: bool, now: nat)
      modifies this`size, this`credit, this`rememberedUntil, this`held, this`largeHeld
      ensures State() == Released(old(State()), l, succeeded, now)
    {
      hide PoolRules.Grow, GiveBack;
      if succeeded {
        GrowAfterSuccess(now);
      }
      GiveSlotBack(l);
    }

    /**
      A poll of a future that waits for a slot: the first one puts it in line. A future that
      is ready is not polled again, so the waiter of a later poll is known.
    */
    method Poll(id: Option<Ticket>, class_: Class, isLargeFile: bool, now: nat) returns (t: Ticket, ready: bool)
      requires Inv(Now()) && Metering() && (id.Some? ==> id.value in waiters)
      modifies this
      ensures Inv(Now()) && Metering() && log == old(log)
      ensures t == if id.Some? then id.value else Ticket(old(nextId))
      ensures Now() == Step(old(Now()), if id.Some? then Collect(id.value) else Arrive(class_, isLargeFile), now)
      ensures ready ==> t in live && t !in waiters
      ensures !ready ==> t in waiters && !waiters[t].granted
    {
      hide Inv, LinesOk, Metering, Step, TakeGranted, Arrived, LineFor;
      StepKeeps(Now(), if id.Some? then Collect(id.value) else Arrive(class_, isLargeFile), now);
      PollStep(Now(), id, class_, isLargeFile, now);
      if id.Some? {
        t := id.value;
      } else {
        t := Enter(class_, isLargeFile, now);
      }
      ready := TakeIfGranted(t);
    }

    /** A slot at once or none: nobody waits here. */
    method TryAcquire(class_: Class, isLargeFile: bool, now: nat) returns (slot: Option<Ticket>)
      requires Inv(Now()) && Metering()
      modifies this
      ensures Inv(Now()) && Metering() && log == old(log)
      ensures Now() == Step(old(Now()), PoolRules.TryAcquire(class_, isLargeFile), now)
      ensures slot.Some? <==> Ticket(old(nextId)) in live
      ensures slot.Some? ==> slot.value == Ticket(old(nextId))
    {
      hide Inv, LinesOk, Metering, Step, TakenOrGone, Arrived, LineFor;
      StepKeeps(Now(), PoolRules.TryAcquire(class_, isLargeFile), now);
      TryUnfolds(Now(), class_, isLargeFile, now);
      NewTicket(Now());
      var t := Enter(class_, isLargeFile, now);
      var taken := TakeOrLeave(t);
      slot := if taken then Some(t) else None;
    }

    /** A future that waits is dropped: a slot it was granted goes back, and another class may go first now. */
    method DropWaiting(t: Ticket, now: nat)
      requires Inv(Now()) && Metering() && t in waiters
      modifies this
      ensures Inv(Now()) && Metering() && log == old(log)
      ensures Now() == Step(old(Now()), GiveUp(t), now)
      ensures old(waiters[t].granted) ==> old(State().Held(waiters[t].line.class_)) >= 1
      ensures old(waiters[t].granted && waiters[t].line.large) ==> old(largeHeld) >= 1
    {
      hide Inv, LinesOk, Dispatch, Metering, Step, GivenUp;
      StepKeeps(Now(), GiveUp(t), now);
      GiveUpAccounts(Now(), t);
      GiveUpStep(Now(), t, now);
      Leave(t);
      DispatchSlots(now);
    }

    /** A slot is given back; what went through makes the pool grow. No count goes below nothing. */
    method Release(ghost t: Ticket, l: Line, succeeded: bool, now: nat)
      requires Inv(Now()) && Metering() && t in live && live[t] == l
      modifies this
      ensures Inv(Now()) && Metering() && log == old(log)
      ensures Now() == Step(old(Now()), PoolRules.Release(t, succeeded), now)
      ensures old(State().Held(l.class_)) >= 1 && (l.large ==> old(largeHeld) >= 1)
    {
      hide Inv, LinesOk, Dispatch, Metering, Step, Released;
      StepKeeps(Now(), PoolRules.Release(t, succeeded), now);
      ReleaseAccounts(Now(), t, succeeded, now);
      ReleaseStep(Now(), t, succeeded, now);
      Count(l, succeeded, now);
      live := live - {t};
      DispatchSlots(now);
    }

    // -------------------------------------------------------------- the pool's size

    method GrowAfterSuccess(now: nat)
      modifies this`size, this`credit, this`rememberedUntil
      ensures State() == PoolRules.Grow(old(State()), now)
    {
      hide Inner.Queued, Inner.Total;
      if rememberedUntil.Some? && now >= rememberedUntil.value {
        rememberedUntil := None;
        credit := 0;
      }
      var busy := State().Total() >= size;
      if !busy || !State().Queued() || size >= ceiling {
        return;
      }
      if rememberedUntil.None? {
        size := size + 1;
        return;
      }
      credit := credit + 1;
      if credit >= size {
        credit := 0;
        size := size + 1;
      }
    }

    method SetPaused(isPaused: bool, now: nat) returns (before: bool)
      requires Inv(Now()) && Metering()
      modifies this
      ensures Inv(Now()) && Metering() && log == old(log) && before == old(paused)
      ensures Now() == Step(old(Now()), PoolRules.SetPaused(isPaused), now)
    {
      hide Inv, LinesOk, Dispatch, Metering, Step;
      StepKeeps(Now(), PoolRules.SetPaused(isPaused), now);
      SetPausedStep(Now(), isPaused, now);
      before := paused;
      if paused != isPaused {
        paused := isPaused;
        DispatchSlots(now);
      }
    }

    method SetLimits(most: nat, large: nat, now: nat)
      requires Inv(Now()) && Metering()
      modifies this
      ensures Inv(Now()) && Metering() && log == old(log)
      ensures Now() == Step(old(Now()), PoolRules.SetLimits(most, large), now)
    {
      hide Inv, LinesOk, Dispatch, Metering, Step;
      StepKeeps(Now(), PoolRules.SetLimits(most, large), now);
      SetLimitsStep(Now(), most, large, now);
      Limit(most, large);
      DispatchSlots(now);
    }

    /** OneDrive answered that it is asked too much: nothing goes out for a while, and once a burst the pool halves. */
    method Throttled(wait: Option<nat>, now: nat)
      requires Inv(Now()) && Metering()
      modifies this
      ensures Inv(Now()) && Metering() && log == old(log)
      ensures Now() == Step(old(Now()), PoolRules.Throttled(wait), now)
    {
      hide Inv, LinesOk, Metering, Step, Throttle;
      StepKeeps(Now(), PoolRules.Throttled(wait), now);
      ThrottledStep(Now(), wait, now);
      Block(if wait.Some? then wait.value else DEFAULT_THROTTLE_WAIT, now);
    }

    method Block(wait: nat, now: nat)
      modifies this`size, this`credit, this`blockedUntil, this`rememberedUntil
      ensures State() == Throttle(old(State()), wait, now)
    {
      var isSameBurst := blockedUntil.Some? && now < blockedUntil.value + BURST_GRACE;
      var until := now + wait;
      if blockedUntil.Some? {
        until := Max(blockedUntil.value, until);
      }
      blockedUntil := Some(until);
      rememberedUntil := Some(until + THROTTLE_MEMORY);
      if !isSameBurst {
        size := Halved(size);
        credit := 0;
      }
    }

    method Limit(most: nat, large: nat)
      modifies this`ceiling, this`size, this`largeLimit
      ensures State() == WithLimits(old(State()), most, large)
    {
      ceiling := Clamp(most, CEILING_MIN, CEILING_MAX);
      size := Min(size, ceiling);
      largeLimit := Clamp(large, 1, ceiling);
    }

    /** The end of a throttle's wait. */
    method Unblock(now: nat)
      requires Inv(Now()) && Metering()
      modifies this
      ensures Inv(Now()) && Metering() && log == old(log)
      ensures Now() == Step(old(Now()), PoolRules.Unblock, now)
    {
      hide Inv, LinesOk, Dispatch, Metering, Step;
      StepKeeps(Now(), PoolRules.Unblock, now);
      UnblockStep(Now(), now);
      if !(blockedUntil.Some? && now < blockedUntil.value) {
        blockedUntil := None;
        DispatchSlots(now);
      }
    }

    // -------------------------------------------------------------- the rate meter

    method Moved(direction: Direction, bytes: nat, now: nat)
      requires Metering() && forall m <- log :: m.at <= BucketOf(now)
      modifies this`moved, this`movedTotal, this`log
      ensures Metering()
      ensures log == old(log) + if bytes == 0 then [] else [Move(direction, bytes, BucketOf(now))]
    {
      hide Buckets, InTime, BytesAfter;
      if bytes == 0 {
        assert log + [] == log;
        return;
      }
      ghost var move := Move(direction, bytes, BucketOf(now));
      MeteredMore(log, move);
      movedTotal := movedTotal.Plus(direction, bytes);
      AddBytes(direction, bytes, BucketOf(now));
      log := log + [move];
    }

    method AddBytes(direction: Direction, bytes: nat, bucket: nat)
      modifies this`moved
      ensures moved == Trimmed(Added(old(moved), Move(direction, bytes, bucket)), bucket)
    {
      if moved != [] && moved[|moved| - 1].at == bucket {
        moved := moved[|moved| - 1 := Bucket(bucket, moved[|moved| - 1].counts.Plus(direction, bytes))];
      } else {
        moved := moved + [Bucket(bucket, NOTHING.Plus(direction, bytes))];
      }
      ghost var added := moved;
      while moved != [] && moved[0].at + KEEP <= bucket
        invariant Trimmed(moved, bucket) == Trimmed(added, bucket)
        decreases |moved|
      {
        moved := moved[1..];
      }
    }

    /** The bytes of a window and the first and last bucket of it that moved any, by one pass over the buckets. */
    method Read(direction: Direction, bucket: nat, span: nat) returns (reading: Reading)
      requires Metering() && span <= KEEP && forall m <- log :: m.at <= bucket
      ensures reading == ReadLog(log, direction, bucket, span)
    {
      hide Buckets, ReadLog;
      BucketsReadAsLog(log, direction, bucket, span);
      reading := NO_READING;
      var i := 0;
      while i < |moved|
        invariant 0 <= i <= |moved|
        invariant reading == ReadBuckets(moved[..i], direction, bucket, span)
      {
        var b := moved[i];
        if b.at + span > bucket && b.counts.Of(direction) > 0 {
          if reading.first.None? {
            reading := reading.(first := Some(b.at));
          }
          reading := reading.(last := b.at, sum := reading.sum + b.counts.Of(direction));
        }
        i := i + 1;
        assert moved[..i][..i - 1] == moved[..i - 1];
      }
      assert moved[..i] == moved;
    }

    /** What the meter shows is what the full log of moves would show. */
    method Show(now: nat) returns (shown: Shown)
      requires Metering() && forall m <- log :: m.at <= BucketOf(now)
      ensures shown.recent.down == BytesAfter(log, Down, now / 250_000_000 - 12) && shown.recent.up == BytesAfter(log, Up, now / 250_000_000 - 12)
      ensures IsAverageOf(log, Down, now, shown.downAverage) && IsAverageOf(log, Up, now, shown.upAverage)
    {
      hide Buckets, ReadLog, ReadBuckets, AverageFrom, IsAverageOf, BytesAfter;
      SumIsBytes(log, Down, BucketOf(now), SPEED);
      SumIsBytes(log, Up, BucketOf(now), SPEED);
      AverageIsOfTheLog(log, Down, now);
      AverageIsOfTheLog(log, Up, now);
      var bucket := BucketOf(now);
      var down := Read(Down, bucket, SPEED);
      var up := Read(Up, bucket, SPEED);
      var downLong := Read(Down, bucket, KEEP);
      var upLong := Read(Up, bucket, KEEP);
      shown := Shown(Counts(down.sum, up.sum), AverageFrom(downLong, now), AverageFrom(upLong, now));
    }
  }

  lemma MeteredMore(log: seq<Move>, move: Move)
    requires InTime(log) && move.bytes > 0 && forall m <- log :: m.at <= move.at
    ensures var more := log + [move];
            && InTime(more)
            && Buckets(more) == Trimmed(Added(Buckets(log), move), move.at)
            && forall d: Direction :: BytesAfter(more, d, -1) == BytesAfter(log, d, -1) + if d == move.direction then move.bytes else 0
  {
  }

  lemma RemovedIsGone(s: Inner, t: Ticket)
    requires t in s.waiters
    ensures t !in RemoveWaiter(s, t).waiters
  {
  }

  lemma NewTicket(w: World)
    requires Inv(w)
    ensures Ticket(w.inner.nextId) !in w.live && Ticket(w.inner.nextId) !in w.inner.waiters
  {
  }

  // ---------------------------------------------------------------- each step by itself

  lemma PollStep(w: World, id: Option<Ticket>, class_: Class, isLargeFile: bool, now: nat)
    requires Inv(w) && (id.Some? ==> id.value in w.inner.waiters)
    ensures LinesOk(w.inner) && Ticket(w.inner.nextId) !in w.inner.waiters
    ensures id.Some? ==> Step(w, Collect(id.value), now) == TakeGranted(w, id.value)
    ensures id.None? ==> Step(w, Arrive(class_, isLargeFile), now) == TakeGranted(w.(inner := Arrived(w.inner, class_, isLargeFile, now)), Ticket(w.inner.nextId))
  {
  }

  lemma GiveUpStep(w: World, t: Ticket, now: nat)
    requires Inv(w) && t in w.inner.waiters
    ensures LinesOk(GivenUp(w.inner, t)) && Step(w, GiveUp(t), now) == w.(inner := Dispatch(GivenUp(w.inner, t), now))
  {
    var _ := DispatchGivenUp(w.inner, t, now);
    hide LinesOk, Dispatch, GivenUp, Accounted, Quiet;
  }

  lemma ReleaseStep(w: World, t: Ticket, succeeded: bool, now: nat)
    requires Inv(w) && t in w.live
    ensures LinesOk(Released(w.inner, w.live[t], succeeded, now))
    ensures Step(w, PoolRules.Release(t, succeeded), now) == World(Dispatch(Released(w.inner, w.live[t], succeeded, now), now), w.live - {t})
  {
    hide LinesOk, Dispatch, PoolRules.Grow, Accounted, Quiet;
    GrowKeepsSized(w.inner, now);
    ReleaseKeeps(w, t, succeeded, now);
    var _ := DispatchSame(w.inner, Released(w.inner, w.live[t], succeeded, now), now);
  }

  lemma SetPausedStep(w: World, isPaused: bool, now: nat)
    requires Inv(w)
    ensures LinesOk(WithPaused(w.inner, isPaused))
    ensures Step(w, PoolRules.SetPaused(isPaused), now) ==
            if isPaused == w.inner.paused then w else w.(inner := Dispatch(WithPaused(w.inner, isPaused), now))
  {
    SameLines(w.inner, WithPaused(w.inner, isPaused));
    hide LinesOk, Dispatch, Accounted, Quiet;
  }

  lemma SetLimitsStep(w: World, most: nat, large: nat, now: nat)
    requires Inv(w)
    ensures LinesOk(WithLimits(w.inner, most, large))
    ensures Step(w, PoolRules.SetLimits(most, large), now) == w.(inner := Dispatch(WithLimits(w.inner, most, large), now))
  {
    SameLines(w.inner, WithLimits(w.inner, most, large));
    hide LinesOk, Dispatch, Accounted, Quiet;
  }

  lemma ThrottledStep(w: World, wait: Option<nat>, now: nat)
    requires Inv(w)
    ensures LinesOk(w.inner)
    ensures Step(w, PoolRules.Throttled(wait), now) == w.(inner := Throttle(w.inner, if wait.Some? then wait.value else DEFAULT_THROTTLE_WAIT, now))
  {
  }

  lemma UnblockStep(w: World, now: nat)
    requires Inv(w)
    ensures LinesOk(w.inner.(blockedUntil := None))
    ensures Step(w, PoolRules.Unblock, now) == if w.inner.Blocked(now) then w else w.(inner := Dispatch(w.inner.(blockedUntil := None), now))
  {
    SameLines(w.inner, w.inner.(blockedUntil := None));
    hide LinesOk, Dispatch, Accounted, Quiet;
  }
}
