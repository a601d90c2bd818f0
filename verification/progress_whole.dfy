/** Whole runs of the progress controller, and what the invariant means for what the user sees. */
module ProgressWhole {
  import opened Wrappers
  import opened Sequences
  import opened ProgressRules
  import opened ProgressInvariant
  import opened ProgressRuns
  import opened ProgressEvents

  // ---------------------------------------------------------------- everything ends

  ghost function JobsOf(s: State, order: seq<Path>): set<Job> {
    set p | p in order && p in s.entries && s.entries[p].job.Some? :: s.entries[p].job.value
  }

  lemma OneMoreJob(s: State, before: seq<Path>, path: Path)
    ensures JobsOf(s, before + [path]) == JobsOf(s, before) + if path in s.entries then JobSet(s.entries[path].job) else {}
  {
  }

  lemma IsStillLive(s: State, before: seq<Path>, path: Path)
    requires OwnJobs(s) && path !in before && path in s.entries && s.entries[path].job.Some?
    ensures s.entries[path].job.value in Live(s) - JobsOf(s, before)
  {
  }

  lemma {:induction false} EndEntriesKeeps(s: State, order: seq<Path>, how: Ending)
    requires JobsOk(s) && NoDuplicates(order)
    ensures var u := EndEntries(s, order, how);
            u == s.(calls := u.calls, shown := u.shown) && CallsOk(u.calls, s.nextJob, Live(s) - JobsOf(s, order))
  {
    hide CallsOk, Live, JobsOf, OwnJobs;
    if order == [] {
      NobodyEnded(s);
    } else {
      var before, path := order[..|order| - 1], order[|order| - 1];
      assert order == before + [path] && path !in before;
      EndEntriesKeeps(s, before, how);
      OneMoreJob(s, before, path);
      var u := EndEntries(s, before, how);
      if path in s.entries && s.entries[path].job.Some? {
        var job := s.entries[path].job.value;
        IsStillLive(s, before, path);
        EndKeeps(u.calls, s.nextJob, Live(s) - JobsOf(s, before), job, how);
        assert Live(s) - JobsOf(s, before) - {job} == Live(s) - JobsOf(s, order);
      } else {
        assert Live(s) - JobsOf(s, before) == Live(s) - JobsOf(s, order);
      }
    }
  }

  lemma NobodyEnded(s: State)
    ensures Live(s) - JobsOf(s, []) == Live(s)
  {
  }

  lemma AllOf(s: State, order: seq<Path>)
    requires Enumerates(order, s.entries) && OwnJobs(s)
    ensures Live(s) - JobsOf(s, order) == JobSet(s.overflowJob)
  {
  }

  /** Every job still registered ends, each once, and nothing is left. */
  lemma EndAllKeeps(s: State, order: seq<Path>, how: Ending)
    requires Inv(s) && Enumerates(order, s.entries)
    ensures var u := EndAll(s, order, how); Inv(u) && Live(u) == {} && u.entries == map[] && u.nextJob == s.nextJob
  {
    hide CallsOk, InOrder, ListsOk, ShownOk;
    var u := EndEntries(s, order, how);
    EndEntriesKeeps(s, order, how);
    AllOf(s, order);
    if s.overflowJob.Some? {
      EndKeeps(u.calls, s.nextJob, {s.overflowJob.value}, s.overflowJob.value, how);
      assert {s.overflowJob.value} - {s.overflowJob.value} == {};
    }
    NothingLeft(EndAll(s, order, how));
  }

  lemma NothingLeft(s: State)
    requires s.entries == map[] && s.visible == [] && s.overflow == [] && s.overflowJob.None?
    ensures ListsOk(s) && FullBeforeOverflow(s) && ShownOk(s) && InOrder(s) && SumOk(s) && OwnJobs(s) && Live(s) == {}
  {
  }

  // ---------------------------------------------------------------- one event, and whole runs

  /** The orders are those the tables give: after the rows were seen, or before the event. */
  ghost predicate Possible(s: State, event: Event, now: int) {
    match event
    case TransfersChanged(rows, order) => Enumerates(order, SeeRows(s, rows, now).entries)
    case TimePassed(order) => Enumerates(order, s.entries)
    case TransferFailed(_, _) => true
    case EnabledChanged(isEnabled, rows, order) =>
      Enumerates(order, if isEnabled then SeeRows(s.(enabled := true), rows, now).entries else s.entries)
    case ServiceStopped(_, order) => Enumerates(order, s.entries)
  }

  lemma SwitchKeeps(s: State, isEnabled: bool, now: int)
    requires Inv(s) && SeenBy(s, now)
    ensures Inv(s.(enabled := isEnabled)) && SeenBy(s.(enabled := isEnabled), now)
  {
  }

  lemma FailedKeeps(s: State, path: Path, reason: string, now: int)
    requires Inv(s) && SeenBy(s, now)
    ensures Inv(FinishPath(s, path, Failure(reason))) && SeenBy(FinishPath(s, path, Failure(reason)), now)
  {
    FinishKeeps(s, path, Failure(reason));
    FinishedIsGone(s, path, Failure(reason));
    hide Inv, FinishPath;
  }

  lemma StepKeeps(s: State, event: Event, now: int)
    requires Inv(s) && SeenBy(s, now) && Possible(s, event, now)
    ensures Inv(Step(s, event, now)) && SeenBy(Step(s, event, now), now)
  {
    hide Inv, SeenBy, Reconcile, CheckNow, FinishPath, EndAll, Enumerates, SeeRows;
    match event
    case TransfersChanged(rows, order) => ReconcileKeeps(s, rows, order, now);
    case TimePassed(order) => CheckKeeps(s, order, now);
    case TransferFailed(path, reason) => FailedKeeps(s, path, reason, now);
    case EnabledChanged(isEnabled, rows, order) =>
      SwitchKeeps(s, isEnabled, now);
      var u := s.(enabled := isEnabled);
      if isEnabled {
        ReconcileKeeps(u, rows, order, now);
      } else {
        EndAllKeeps(u, order, Killed);
        NobodySeen(EndAll(u, order, Killed), now);
      }
    case ServiceStopped(reason, order) =>
      EndAllKeeps(s, order, Failure(reason));
      NobodySeen(EndAll(s, order, Failure(reason)), now);
  }

  lemma NobodySeen(s: State, now: int)
    requires s.entries == map[]
    ensures SeenBy(s, now)
  {
  }

  datatype Timed = Timed(event: Event, now: int)

  /** The clock does not go back, and each event is one that may come. */
  ghost predicate PossibleRun(s: State, events: seq<Timed>, from: int)
    decreases |events|
  {
    events != [] ==>
      && from <= events[0].now
      && Possible(s, events[0].event, events[0].now)
      && PossibleRun(Step(s, events[0].event, events[0].now), events[1..], events[0].now)
  }

  function Run(s: State, events: seq<Timed>): State
    decreases |events|
  {
    if events == [] then s else Run(Step(s, events[0].event, events[0].now), events[1..])
  }

  lemma SeenLater(s: State, from: int, now: int)
    requires SeenBy(s, from) && from <= now
    ensures SeenBy(s, now)
  {
  }

  lemma {:induction false} RunKeeps(s: State, events: seq<Timed>, from: int)
    requires Inv(s) && SeenBy(s, from) && PossibleRun(s, events, from)
    ensures Inv(Run(s, events))
    decreases |events|
  {
    hide Inv, SeenBy, Step, Possible;
    if events != [] {
      SeenLater(s, from, events[0].now);
      StepKeeps(s, events[0].event, events[0].now);
      RunKeeps(Step(s, events[0].event, events[0].now), events[1..], events[0].now);
    }
  }

  lemma StartIsOk(from: int)
    ensures Inv(START) && SeenBy(START, from)
  {
  }

  // ---------------------------------------------------------------- what it means

  /**
    In every reachable state: at most five jobs are visible, the rest are summed only while
    five are, and every job ever registered is still shown or was ended and unregistered once.
  */
  lemma WhatIsShown(events: seq<Timed>, from: int, job: Job)
    requires PossibleRun(START, events, from)
    ensures var s := Run(START, events);
            && |s.visible| <= 5 && (s.overflow != [] ==> |s.visible| == 5)
            && (s.overflowJob.Some? <==> s.overflow != [])
            && (s.overflowJob.Some? ==> s.overflowJob.value in s.shown && s.shown[s.overflowJob.value] == Sum(s.entries, s.overflow))
            && (forall p :: p in s.visible <==> p in s.entries && s.entries[p].job.Some?)
            && (forall p :: p in s.overflow <==> p in s.entries && s.entries[p].inOverflow)
            && (job.number < s.nextJob ==> if job in Live(s) then History(s.calls, job) == [Registered(job)] else EndedOnce(History(s.calls, job), job))
            && (job.number >= s.nextJob ==> History(s.calls, job) == [])
  {
    hide Run, PossibleRun, Sum, InOrder, History, EndedOnce;
    StartIsOk(from);
    RunKeeps(START, events, from);
  }

  /** Whoever has a job was seen before whoever is only summed, and both before whoever is not shown. */
  lemma EarliestAreShown(events: seq<Timed>, from: int, p: Path, q: Path)
    requires PossibleRun(START, events, from)
    requires var s := Run(START, events);
             && p in s.entries && q in s.entries && p != q
             && ((s.entries[p].job.Some? && s.entries[q].job.None?) || (s.entries[p].inOverflow && !s.entries[q].IsShown()))
    ensures var s := Run(START, events); s.entries[p].seqNumber < s.entries[q].seqNumber && s.entries[p].firstSeen <= s.entries[q].firstSeen
  {
    hide Run, PossibleRun, JobsOk, ListsOk, SumOk, ShownOk;
    StartIsOk(from);
    RunKeeps(START, events, from);
  }

  lemma {:induction false} SeeRowsAre(s: State, rows: seq<Row>, now: int, p: Path)
    ensures var u := SeeRows(s, rows, now);
            && (p in u.entries <==> p in s.entries || IsIn(rows, p))
            && (p in u.entries ==> (u.entries[p].IsShown() <==> p in s.entries && s.entries[p].IsShown()))
            && (p in u.entries ==> if IsIn(rows, p) then !u.entries[p].pendingRemoval else p in s.entries && u.entries[p] == s.entries[p])
  {
    hide SeeRow, IsIn;
    if rows == [] {
      NoRowIn(p);
    } else {
      var before, last := rows[..|rows| - 1], rows[|rows| - 1];
      assert rows == before + [last];
      SeeRowsAre(s, before, now, p);
      OneRowMore(before, last, p);
      SeeRowIs(SeeRows(s, before, now), last, now, p);
    }
  }

  lemma SeeRowIs(s: State, row: Row, now: int, p: Path)
    ensures var u := SeeRow(s, row, now);
            && (p in u.entries <==> p in s.entries || row.path == p)
            && (p in u.entries ==> (u.entries[p].IsShown() <==> p in s.entries && s.entries[p].IsShown()))
            && (p in u.entries ==> if row.path == p then !u.entries[p].pendingRemoval else p in s.entries && u.entries[p] == s.entries[p])
  {
  }

  lemma NoRowIn(p: Path)
    ensures !IsIn([], p)
  {
  }

  lemma OneRowMore(rows: seq<Row>, row: Row, p: Path)
    ensures IsIn(rows + [row], p) <==> IsIn(rows, p) || row.path == p
  {
  }

  lemma {:induction false} LeaveAllAre(s: State, paths: seq<Path>, now: int, p: Path)
    ensures var u := LeaveAll(s, paths, now);
            && (p in u.entries <==> p in s.entries && (p in paths ==> s.entries[p].IsShown()))
            && (p in u.entries ==> u.entries[p].IsShown() == s.entries[p].IsShown() && (u.entries[p].pendingRemoval <==> s.entries[p].pendingRemoval || p in paths))
  {
    if paths != [] {
      LeaveAllAre(s, paths[..|paths| - 1], now, p);
      assert paths == paths[..|paths| - 1] + [paths[|paths| - 1]];
    }
  }

  lemma {:induction false} GoneAre(s: State, order: seq<Path>, rows: seq<Row>, p: Path)
    ensures p in Gone(s, order, rows) <==> p in order && p in s.entries && !IsIn(rows, p) && !s.entries[p].pendingRemoval
  {
    if order != [] {
      GoneAre(s, order[..|order| - 1], rows, p);
      assert order == order[..|order| - 1] + [order[|order| - 1]];
    }
  }

  /** After the transfers changed: those listed are there, and of those that left exactly the ones that were shown, held. */
  lemma ListedOrHeld(s: State, rows: seq<Row>, order: seq<Path>, now: int, p: Path)
    requires ListsOk(s) && s.enabled && Enumerates(order, SeeRows(s, rows, now).entries)
    ensures var u := Reconcile(s, rows, order, now);
            && (p in u.entries <==> IsIn(rows, p) || (p in s.entries && s.entries[p].IsShown()))
            && (p in u.entries ==> (u.entries[p].pendingRemoval <==> !IsIn(rows, p)))
  {
    var seen := SeeRows(s, rows, now);
    SeeRowsAre(s, rows, now, p);
    GoneAre(seen, order, rows, p);
    LeaveAllAre(seen, Gone(seen, order, rows), now, p);
    UpdateChangesNoEntry(LeaveAll(seen, Gone(seen, order, rows), now));
    hide UpdateOverflow, SeeRows, LeaveAll, Gone, IsIn;
  }

  lemma {:induction false} ExpiredAre(s: State, order: seq<Path>, now: int, p: Path)
    ensures p in Expired(s, order, now) <==> p in order && p in s.entries && s.entries[p].pendingRemoval && now >= s.entries[p].graceEnds
  {
    if order != [] {
      ExpiredAre(s, order[..|order| - 1], now, p);
      assert order == order[..|order| - 1] + [order[|order| - 1]];
    }
  }

  /** After a check: nobody who has run long enough is left out, and nobody whose grace ended is held; all others are there still. */
  lemma NothingDueIsLeft(s: State, order: seq<Path>, now: int, p: Path)
    requires Inv(s) && s.enabled && Enumerates(order, s.entries)
    ensures var u := CheckNow(s, order, now);
            && (p in u.entries <==> p in s.entries && !(s.entries[p].pendingRemoval && now >= s.entries[p].graceEnds))
            && (p in u.entries && !u.entries[p].IsShown() ==> now - u.entries[p].firstSeen < 2000)
            && (p in u.entries && u.entries[p].IsShown() && !s.entries[p].IsShown() ==> now - u.entries[p].firstSeen >= 2000)
  {
    var due := Due(s, order, now);
    DueAre(s, order, now);
    hide Due, PromoteAll, FinishAll, Expired, SortedBySeq, JobsOk, ShownOk, SumOk, InOrder;
    PromoteAllKeeps(s, due, |due|, now);
    assert due[..|due|] == due;
    var promoted := PromoteAll(s, due);
    FinishedAreGone(promoted, Expired(promoted, order, now), Success);
    ExpiredAre(promoted, order, now, p);
  }
}
