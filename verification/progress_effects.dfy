/** What the user is told of each transfer: how its job ended, what it shows, and how long it is held. */
module ProgressEffects {
  import opened Wrappers
  import opened Sequences
  import opened ProgressRules
  import opened ProgressInvariant
  import opened ProgressRuns
  import opened ProgressEvents
  import opened ProgressWhole

  /** A job that is not registered any more is told of nothing again. */
  lemma UpdateTellsOthers(s: State, job: Job)
    requires job.number < s.nextJob && s.overflowJob != Some(job)
    ensures History(UpdateOverflow(s).calls, job) == History(s.calls, job) && UpdateOverflow(s).nextJob >= s.nextJob
  {
    hide History, Sum;
    if s.overflow == [] && s.overflowJob.Some? {
      HistoryOfEnd(s.calls, s.overflowJob.value, Success, job);
    } else if s.overflow != [] && s.overflowJob.None? {
      HistoryConcat(s.calls, [Registered(Job(s.nextJob))], job);
      HistoryOfOne(Registered(Job(s.nextJob)), job);
    }
  }

  lemma PromoteTellsOthers(s: State, job: Job)
    requires job.number < s.nextJob && s.overflowJob != Some(job)
    ensures History(PromoteFromOverflow(s).calls, job) == History(s.calls, job)
  {
    hide History, UpdateOverflow;
    if s.overflow != [] && |s.visible| < MAX_VISIBLE && s.overflow[0] in s.entries {
      HistoryConcat(s.calls, [Registered(Job(s.nextJob))], job);
      HistoryOfOne(Registered(Job(s.nextJob)), job);
      UpdateTellsOthers(GiveJob(s.(overflow := s.overflow[1..]), s.overflow[0]), job);
    }
  }

  /** What a job is told when it ends so. */
  function EndedSo(job: Job, how: Ending): seq<Call> {
    [Registered(job), Ended(job, how), Unregistered(job)]
  }

  lemma LiveJob(s: State, path: Path)
    requires JobsOk(s) && path in s.entries && s.entries[path].job.Some?
    ensures var job := s.entries[path].job.value;
            History(s.calls, job) == [Registered(job)] && job.number < s.nextJob && s.overflowJob != Some(job)
  {
  }

  /** A transfer with a job of its own that ends is told how: that it went through, or why it failed. */
  lemma FinishSaysHow(s: State, path: Path, how: Ending)
    requires Inv(s) && path in s.entries && s.entries[path].job.Some?
    ensures History(FinishPath(s, path, how).calls, s.entries[path].job.value) == EndedSo(s.entries[path].job.value, how)
  {
    hide History, PromoteFromOverflow, ListsOk, InOrder, ShownOk, SumOk, JobsOk;
    var job := s.entries[path].job.value;
    LiveJob(s, path);
    HistoryOfEnd(s.calls, job, how, job);
    PromoteTellsOthers(End(s.(entries := s.entries - {path}), job, how).(visible := RemoveOne(s.visible, path)), job);
  }

  lemma {:induction false} EndEntriesSays(s: State, order: seq<Path>, how: Ending, job: Job)
    requires JobsOk(s) && NoDuplicates(order)
    ensures History(EndEntries(s, order, how).calls, job) ==
            History(s.calls, job) + if job in JobsOf(s, order) then [Ended(job, how), Unregistered(job)] else []
  {
    hide History, JobsOf, CallsOk, Live;
    if order == [] {
      NobodyIn(s);
    } else {
      var before, path := order[..|order| - 1], order[|order| - 1];
      assert order == before + [path] && path !in before;
      EndEntriesSays(s, before, how, job);
      OneMoreJob(s, before, path);
      if path in s.entries && s.entries[path].job.Some? {
        IsStillLive(s, before, path);
        HistoryOfEnd(EndEntries(s, before, how).calls, s.entries[path].job.value, how, job);
      }
    }
  }

  lemma NobodyIn(s: State)
    ensures JobsOf(s, []) == {}
  {
  }

  lemma AllAreIn(s: State, order: seq<Path>)
    requires Enumerates(order, s.entries)
    ensures JobsOf(s, order) == EntryJobs(s.entries)
  {
  }

  lemma LiveIs(s: State, job: Job)
    requires JobsOk(s) && job in Live(s)
    ensures History(s.calls, job) == [Registered(job)]
    ensures job in EntryJobs(s.entries) || s.overflowJob == Some(job)
    ensures s.overflowJob == Some(job) ==> job !in EntryJobs(s.entries)
  {
  }

  /** When the service stops every job there is, the summed one too, is told so; when the switch is turned off every one is ended without a word. */
  lemma EndAllSaysHow(s: State, order: seq<Path>, how: Ending, job: Job)
    requires Inv(s) && Enumerates(order, s.entries) && job in Live(s)
    ensures History(EndAll(s, order, how).calls, job) == EndedSo(job, how)
  {
    hide History, Live, JobsOf, EntryJobs, ListsOk, InOrder, ShownOk, SumOk, JobsOk;
    LiveIs(s, job);
    EndEntriesSays(s, order, how, job);
    AllAreIn(s, order);
    if s.overflowJob.Some? {
      EndEntriesKeepsJob(s, order, how);
      HistoryOfEnd(EndEntries(s, order, how).calls, s.overflowJob.value, how, job);
    }
  }

  lemma EndEntriesKeepsJob(s: State, order: seq<Path>, how: Ending)
    requires JobsOk(s) && NoDuplicates(order)
    ensures EndEntries(s, order, how).overflowJob == s.overflowJob
  {
  }

  // ---------------------------------------------------------------- when a grace ends

  /** The job of another transfer is told nothing when one ends, and is nobody's else. */
  lemma FinishTellsOthers(s: State, path: Path, how: Ending, job: Job)
    requires ListsOk(s) && job.number < s.nextJob && s.overflowJob != Some(job)
    requires path in s.entries ==> s.entries[path].job != Some(job)
    ensures var u := FinishPath(s, path, how);
            && History(u.calls, job) == History(s.calls, job) && job.number < u.nextJob && u.overflowJob != Some(job)
            && forall p <- s.entries :: p != path && s.entries[p].job == Some(job) ==> p in u.entries && u.entries[p].job == Some(job)
  {
    hide History, UpdateOverflow, PromoteFromOverflow;
    if path in s.entries {
      var u := s.(entries := s.entries - {path});
      if s.entries[path].job.Some? {
        var v := End(u, s.entries[path].job.value, how).(visible := RemoveOne(s.visible, path));
        HistoryOfEnd(s.calls, s.entries[path].job.value, how, job);
        PromoteTellsOthers(v, job);
        PromoteKeepsJobs(v, job);
      } else if s.entries[path].inOverflow {
        UpdateTellsOthers(u.(overflow := RemoveOne(s.overflow, path)), job);
        UpdateKeepsJobs(u.(overflow := RemoveOne(s.overflow, path)), job);
      }
    }
  }

  lemma UpdateKeepsJobs(s: State, job: Job)
    requires job.number < s.nextJob && s.overflowJob != Some(job)
    ensures UpdateOverflow(s).overflowJob != Some(job) && job.number < UpdateOverflow(s).nextJob && UpdateOverflow(s).entries == s.entries
  {
    hide Sum;
  }

  lemma PromoteKeepsJobs(s: State, job: Job)
    requires job.number < s.nextJob && s.overflowJob != Some(job)
    requires s.overflow != [] && s.overflow[0] in s.entries ==> s.entries[s.overflow[0]].job.None?
    ensures var u := PromoteFromOverflow(s);
            && u.overflowJob != Some(job) && job.number < u.nextJob
            && forall p <- s.entries :: s.entries[p].job == Some(job) ==> p in u.entries && u.entries[p].job == Some(job)
  {
    hide UpdateOverflow;
    if s.overflow != [] && |s.visible| < MAX_VISIBLE && s.overflow[0] in s.entries {
      UpdateKeepsJobs(GiveJob(s.(overflow := s.overflow[1..]), s.overflow[0]), job);
    }
  }

  /** A transfer's own job is told nothing while others get theirs. */
  lemma {:induction false} PromoteAllTellsOthers(s: State, due: seq<Path>, k: nat, now: int, path: Path)
    requires Inv(s) && k <= |due| && SortedBySeq(s, due) && (forall p :: p in due <==> p in s.entries && IsDue(s.entries[p], now))
    requires path in s.entries && s.entries[path].job.Some?
    ensures var u, job := PromoteAll(s, due[..k]), s.entries[path].job.value;
            && Inv(u) && path in u.entries && u.entries[path] == s.entries[path] && History(u.calls, job) == History(s.calls, job)
  {
    hide Inv, Promote, SortedBySeq, NowShown, History, IsDue;
    PromoteAllKeeps(s, due, k, now);
    if k > 0 {
      var u := PromoteAll(s, due[..k - 1]);
      assert due[..k][..k - 1] == due[..k - 1];
      PromoteAllTellsOthers(s, due, k - 1, now, path);
      PromoteAllKeeps(s, due, k - 1, now);
      NextOfDue(s, u, due, k - 1, now);
      InvHasJobs(u, path);
      PromotedTellsOthers(u, due[k - 1], path);
    }
  }

  lemma InvHasJobs(s: State, path: Path)
    requires Inv(s) && path in s.entries && s.entries[path].job.Some?
    ensures ListsOk(s) && JobsOk(s)
    ensures s.entries[path].job.value.number < s.nextJob && s.overflowJob != s.entries[path].job && History(s.calls, s.entries[path].job.value) == [Registered(s.entries[path].job.value)]
  {
    LiveJob(s, path);
    hide ListsOk, ShownOk, InOrder, SumOk;
  }

  lemma PromotedTellsOthers(s: State, other: Path, path: Path)
    requires path in s.entries && s.entries[path].job.Some? && s.entries[path].job.value.number < s.nextJob && s.overflowJob != s.entries[path].job
    requires other in s.entries && !s.entries[other].IsShown()
    ensures var u, job := Promote(s, other), s.entries[path].job.value;
            path in u.entries && u.entries[path] == s.entries[path] && History(u.calls, job) == History(s.calls, job)
  {
    hide History, UpdateOverflow;
    var job := s.entries[path].job.value;
    if |s.visible| < MAX_VISIBLE {
      HistoryConcat(s.calls, [Registered(Job(s.nextJob))], job);
      HistoryOfOne(Registered(Job(s.nextJob)), job);
    } else {
      var u := s.(entries := s.entries[other := s.entries[other].(inOverflow := true)], overflow := s.overflow + [other]);
      UpdateTellsOthers(u, job);
      UpdateKeepsJobs(u, job);
    }
  }

  /** Of the transfers that are finished each is told how it ended, once, and no other is told anything. */
  lemma {:induction false} FinishAllSaysHow(s: State, paths: seq<Path>, how: Ending, path: Path)
    requires Inv(s) && path in s.entries && s.entries[path].job.Some?
    ensures var u, job := FinishAll(s, paths, how), s.entries[path].job.value;
            && Inv(u) && job.number < u.nextJob && u.overflowJob != Some(job)
            && if path in paths then History(u.calls, job) == EndedSo(job, how)
               else History(u.calls, job) == [Registered(job)] && path in u.entries && u.entries[path].job == Some(job)
  {
    hide Inv, FinishPath, History, ListsOk, JobsOk;
    FinishAllKeeps(s, paths, how);
    if paths == [] {
      InvHasJobs(s, path);
    } else {
      var before, last := paths[..|paths| - 1], paths[|paths| - 1];
      assert paths == before + [last];
      var u, job := FinishAll(s, before, how), s.entries[path].job.value;
      FinishAllSaysHow(s, before, how, path);
      InvHasLists(u);
      if last == path && path !in before {
        FinishSaysHow(u, path, how);
        FinishEndsJob(u, path, how);
      } else {
        if last in u.entries && u.entries[last].job.Some? {
          InvHasJobs(u, last);
          OtherHasItsOwn(u, path, last, job);
        }
        FinishTellsOthers(u, last, how, job);
      }
    }
  }

  lemma InvHasLists(s: State)
    requires Inv(s)
    ensures ListsOk(s)
  {
  }

  /** A job that ended is nobody's, and two transfers have not one job. */
  lemma OtherHasItsOwn(s: State, path: Path, last: Path, job: Job)
    requires Inv(s) && last in s.entries && s.entries[last].job.Some?
    requires History(s.calls, s.entries[last].job.value) == [Registered(s.entries[last].job.value)]
    requires (exists how :: History(s.calls, job) == EndedSo(job, how)) || (path in s.entries && s.entries[path].job == Some(job) && path != last)
    ensures s.entries[last].job != Some(job)
  {
    if how :| History(s.calls, job) == EndedSo(job, how) {
      assert |EndedSo(job, how)| == 3;
    }
    hide ListsOk, ShownOk, InOrder, SumOk, History, CallsOk;
  }

  lemma FinishEndsJob(s: State, path: Path, how: Ending)
    requires Inv(s) && path in s.entries && s.entries[path].job.Some?
    ensures var u, job := FinishPath(s, path, how), s.entries[path].job.value; job.number < u.nextJob && u.overflowJob != Some(job)
  {
    InvHasJobs(s, path);
    hide History, JobsOk, InOrder, ShownOk, SumOk, PromoteFromOverflow;
    var job := s.entries[path].job.value;
    var u := s.(entries := s.entries - {path});
    PromoteKeepsJobs(End(u, job, how).(visible := RemoveOne(s.visible, path)), job);
  }

  /** When the time passed: a transfer that left, and whose second and a half is over, is told that it went through, and no other transfer's job is told anything. */
  lemma CheckSaysHow(s: State, order: seq<Path>, now: int, path: Path)
    requires Inv(s) && s.enabled && Enumerates(order, s.entries) && path in s.entries && s.entries[path].job.Some?
    ensures var job := s.entries[path].job.value;
            History(CheckNow(s, order, now).calls, job) ==
            if s.entries[path].pendingRemoval && now >= s.entries[path].graceEnds then [Registered(job), Ended(job, Success), Unregistered(job)] else [Registered(job)]
  {
    var due := Due(s, order, now);
    DueAre(s, order, now);
    hide Inv, Due, PromoteAll, FinishAll, Expired, SortedBySeq, NowShown, History, IsDue;
    PromoteAllTellsOthers(s, due, |due|, now, path);
    assert due[..|due|] == due;
    var promoted := PromoteAll(s, due);
    ExpiredAre(promoted, order, now, path);
    FinishAllSaysHow(promoted, Expired(promoted, order, now), Success, path);
  }

  // ---------------------------------------------------------------- what is shown, and how long

  predicate EachOnce(rows: seq<Row>) {
    forall i, j :: 0 <= i < j < |rows| ==> rows[i].path != rows[j].path
  }

  /** A listed transfer has the progress its row says, and one never seen before is seen now. */
  lemma {:induction false} SeeRowsShow(s: State, rows: seq<Row>, now: int, i: nat)
    requires EachOnce(rows) && i < |rows|
    ensures var u, row := SeeRows(s, rows, now), rows[i];
            && row.path in u.entries && u.entries[row.path].progress == row.progress
            && u.entries[row.path].firstSeen == if row.path in s.entries then s.entries[row.path].firstSeen else now
  {
    hide SeeRow, IsIn;
    var before, last := rows[..|rows| - 1], rows[|rows| - 1];
    SeeRowShows(SeeRows(s, before, now), last, now, rows[i].path);
    if i < |rows| - 1 {
      SeeRowsShow(s, before, now, i);
      assert before[i] == rows[i] && rows[i].path != last.path;
    } else {
      SeeRowsAre(s, before, now, last.path);
      NotListedBefore(rows);
    }
  }

  lemma SeeRowShows(s: State, row: Row, now: int, p: Path)
    ensures var u := SeeRow(s, row, now);
            if p != row.path then p in s.entries ==> p in u.entries && u.entries[p] == s.entries[p]
            else p in u.entries && u.entries[p].progress == row.progress
                 && u.entries[p].firstSeen == if p in s.entries then s.entries[p].firstSeen else now
  {
  }

  lemma NotListedBefore(rows: seq<Row>)
    requires EachOnce(rows) && rows != []
    ensures !IsIn(rows[..|rows| - 1], rows[|rows| - 1].path)
  {
  }

  /** Leaving changes nothing of an entry but that it is held, from now for a second and a half. */
  lemma {:induction false} LeaveAllHolds(s: State, paths: seq<Path>, now: int, p: Path)
    ensures var u := LeaveAll(s, paths, now);
            p in u.entries ==>
              && p in s.entries && u.entries[p].progress == s.entries[p].progress && u.entries[p].firstSeen == s.entries[p].firstSeen
              && u.entries[p].graceEnds == if p in paths then now + REMOVAL_GRACE else s.entries[p].graceEnds
  {
    if paths != [] {
      LeaveAllHolds(s, paths[..|paths| - 1], now, p);
      LeaveAllAre(s, paths[..|paths| - 1], now, p);
      assert paths == paths[..|paths| - 1] + [paths[|paths| - 1]];
    }
  }

  /** After the transfers changed: what is listed shows its row, and what left just now is held for its grace, while a grace that ran already runs on. */
  lemma ReconcileShows(s: State, rows: seq<Row>, order: seq<Path>, now: int, p: Path)
    requires Inv(s) && s.enabled && EachOnce(rows) && Enumerates(order, SeeRows(s, rows, now).entries) && p in Reconcile(s, rows, order, now).entries
    ensures var entry := Reconcile(s, rows, order, now).entries[p];
            && (forall row <- rows :: row.path == p ==> entry.progress == row.progress && entry.firstSeen == if p in s.entries then s.entries[p].firstSeen else now)
            && (!IsIn(rows, p) ==>
                  && p in s.entries && entry.progress == s.entries[p].progress
                  && entry.graceEnds == if s.entries[p].pendingRemoval then s.entries[p].graceEnds else now + 1500)
  {
    var seen := SeeRows(s, rows, now);
    var gone := Gone(seen, order, rows);
    SeeRowsAre(s, rows, now, p);
    GoneAre(seen, order, rows, p);
    LeaveAllHolds(seen, gone, now, p);
    UpdateChangesNoEntry(LeaveAll(seen, gone, now));
    forall row <- rows | row.path == p
      ensures IsIn(rows, p) && seen.entries[p].progress == row.progress && seen.entries[p].firstSeen == if p in s.entries then s.entries[p].firstSeen else now
    {
      var i :| 0 <= i < |rows| && rows[i] == row;
      SeeRowsShow(s, rows, now, i);
    }
    hide UpdateOverflow, SeeRows, LeaveAll, Gone, IsIn, Inv;
  }

  // ---------------------------------------------------------------- the sum

  /** One summed transfer alone shows its own progress, and none nothing. */
  lemma SumOfOne(entries: map<Path, Entry>, path: Path)
    requires path in entries
    ensures Sum(entries, [path]) == entries[path].progress && Sum(entries, []) == Progress(0, 0)
  {
    var paths := [path];
    assert paths[..0] == [] && path in paths && |paths| - 1 == 0 && paths[0] == path;
    assert Done(entries, paths) == Done(entries, []) + entries[path].progress.done;
    if entries[path].progress.total == 0 {
      assert TotalOf(entries, path) == 0;
    }
  }

  /** One more adds what it has done and its total; the total is none when one of theirs is not known, and then alone. */
  lemma SumOfOneMore(entries: map<Path, Entry>, paths: seq<Path>, path: Path)
    requires path in entries && forall p <- paths :: p in entries
    ensures Sum(entries, paths + [path]).done == Sum(entries, paths).done + entries[path].progress.done
    ensures (forall p <- paths + [path] :: entries[p].progress.total > 0) ==>
              Sum(entries, paths + [path]).total == Sum(entries, paths).total + entries[path].progress.total
    ensures (exists p <- paths + [path] :: entries[p].progress.total == 0) ==> Sum(entries, paths + [path]).total == 0
  {
    assert (paths + [path])[..|paths|] == paths;
    assert forall p <- paths :: p in paths + [path];
    assert path in paths + [path];
    if p :| p in paths + [path] && entries[p].progress.total == 0 {
      assert TotalOf(entries, p) == 0;
    }
  }
}
