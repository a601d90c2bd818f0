/** The progress controller: its entries and lists change in place, and the tracker is told of each job. */
module Progress {
  import opened Wrappers
  import opened ProgressRules

  class DownloadProgressController {
    var enabled: bool
    var entries: map<Path, Entry>
    var nextSeq: nat
    var visible: seq<Path>
    var overflow: seq<Path>
    var overflowJob: Option<Job>
    /** Jobs made so far, what each shows, and what the tracker was told. */
    var nextJob: nat
    var shown: map<Job, Progress>
    var calls: seq<Call>

    function Now(): State
      reads this
    {
      State(enabled, entries, nextSeq, visible, overflow, overflowJob, nextJob, shown, calls)
    }

    constructor ()
      ensures Now() == START
    {
      enabled, entries, nextSeq, visible, overflow, overflowJob := true, map[], 0, [], [], None;
      nextJob, shown, calls := 0, map[], [];
    }

    method MakeJob(progress: Progress) returns (job: Job)
      modifies this`nextJob, this`calls, this`shown
      ensures job == Job(old(nextJob)) && Now() == NewJob(old(Now()), progress)
    {
      job := Job(nextJob);
      nextJob := nextJob + 1;
      calls := calls + [Registered(job)];
      shown := shown[job := progress];
    }

    method EndJob(job: Job, how: Ending)
      modifies this`calls, this`shown
      ensures Now() == End(old(Now()), job, how)
    {
      calls := calls + [Ended(job, how)];
      calls := calls + [Unregistered(job)];
      shown := shown - {job};
    }

    method UpdateOverflowJob()
      modifies this`nextJob, this`calls, this`shown, this`overflowJob
      ensures Now() == UpdateOverflow(old(Now()))
    {
      if overflow == [] {
        if overflowJob.Some? {
          EndJob(overflowJob.value, Success);
          overflowJob := None;
        }
        return;
      }
      var sum := SumOfOverflow();
      if overflowJob.None? {
        var job := MakeJob(sum);
        overflowJob := Some(job);
      } else {
        shown := shown[overflowJob.value := sum];
      }
    }

    method SumOfOverflow() returns (sum: Progress)
      ensures sum == Sum(entries, overflow)
    {
      var doneSum, totalSum, totalKnown := 0, 0, true;
      var i := 0;
      while i < |overflow|
        invariant 0 <= i <= |overflow|
        invariant doneSum == Done(entries, overflow[..i]) && totalSum == Total(entries, overflow[..i])
        invariant totalKnown <==> forall path <- overflow[..i] :: TotalOf(entries, path) > 0
      {
        var path := overflow[i];
        if path in entries {
          doneSum := doneSum + entries[path].progress.done;
        }
        if TotalOf(entries, path) > 0 {
          totalSum := totalSum + TotalOf(entries, path);
        } else {
          totalKnown := false;
        }
        i := i + 1;
        assert overflow[..i] == overflow[..i - 1] + [path];
        assert overflow[..i][..i - 1] == overflow[..i - 1];
      }
      assert overflow[..i] == overflow;
      sum := Progress(doneSum, if totalKnown then totalSum else 0);
    }

    method GiveOwnJob(path: Path)
      requires path in entries
      modifies this`entries, this`visible, this`nextJob, this`calls, this`shown
      ensures Now() == GiveJob(old(Now()), path)
    {
      var entry := entries[path];
      var job := MakeJob(entry.progress);
      entries := entries[path := entry.(job := Some(job), inOverflow := false)];
      visible := visible + [path];
    }

    method PromotePath(path: Path)
      modifies this
      ensures Now() == Promote(old(Now()), path)
    {
      if path !in entries {
        return;
      }
      if |visible| < MAX_VISIBLE {
        GiveOwnJob(path);
      } else {
        entries := entries[path := entries[path].(inOverflow := true)];
        overflow := overflow + [path];
        UpdateOverflowJob();
      }
    }

    method PromoteOneFromOverflow()
      modifies this
      ensures Now() == PromoteFromOverflow(old(Now()))
    {
      if overflow == [] || |visible| >= MAX_VISIBLE {
        return;
      }
      var path := overflow[0];
      overflow := overflow[1..];
      if path !in entries {
        return;
      }
      GiveOwnJob(path);
      UpdateOverflowJob();
    }

    method Finish(path: Path, how: Ending)
      modifies this
      ensures Now() == FinishPath(old(Now()), path, how)
    {
      hide UpdateOverflow, PromoteFromOverflow;
      if path !in entries {
        return;
      }
      var entry := entries[path];
      entries := entries - {path};
      if entry.job.Some? {
        EndJob(entry.job.value, how);
        visible := RemoveOne(visible, path);
        PromoteOneFromOverflow();
      } else if entry.inOverflow {
        overflow := RemoveOne(overflow, path);
        UpdateOverflowJob();
      }
    }

    method See(row: Row, now: int)
      modifies this
      ensures Now() == SeeRow(old(Now()), row, now)
    {
      if row.path !in entries {
        entries := entries[row.path := Entry(now, nextSeq, row.progress, None, false, false, 0)];
        nextSeq := nextSeq + 1;
        return;
      }
      var entry := entries[row.path];
      if entry.pendingRemoval {
        entry := entry.(pendingRemoval := false, graceEnds := 0);
      }
      entry := entry.(progress := row.progress);
      entries := entries[row.path := entry];
      if entry.job.Some? {
        shown := shown[entry.job.value := row.progress];
      }
    }

    method LeaveOne(path: Path, now: int)
      modifies this
      ensures Now() == Leave(old(Now()), path, now)
    {
      hide FinishPath;
      if path !in entries {
        return;
      }
      if entries[path].IsShown() {
        entries := entries[path := entries[path].(pendingRemoval := true, graceEnds := now + REMOVAL_GRACE)];
      } else {
        Finish(path, Success);
      }
    }

    method SeeAll(rows: seq<Row>, now: int)
      modifies this
      ensures Now() == SeeRows(old(Now()), rows, now)
    {
      hide SeeRow;
      var i := 0;
      while i < |rows|
        invariant 0 <= i <= |rows| && Now() == SeeRows(old(Now()), rows[..i], now)
      {
        See(rows[i], now);
        i := i + 1;
        assert rows[..i][..i - 1] == rows[..i - 1];
      }
      assert rows[..i] == rows;
    }

    method ListGone(rows: seq<Row>, order: seq<Path>) returns (gone: seq<Path>)
      ensures gone == Gone(Now(), order, rows)
    {
      gone := [];
      var i := 0;
      while i < |order|
        invariant 0 <= i <= |order| && gone == Gone(Now(), order[..i], rows)
      {
        if order[i] in entries && !IsIn(rows, order[i]) && !entries[order[i]].pendingRemoval {
          gone := gone + [order[i]];
        }
        i := i + 1;
        assert order[..i][..i - 1] == order[..i - 1];
      }
      assert order[..i] == order;
    }

    /** The transfers are what `rows` says; `order` is how the table of entries gives its paths then. */
    method ReconcileWith(rows: seq<Row>, order: seq<Path>, now: int)
      modifies this
      ensures Now() == Reconcile(old(Now()), rows, order, now)
    {
      hide SeeRows, Gone, Leave, UpdateOverflow;
      if !enabled {
        return;
      }
      SeeAll(rows, now);
      ghost var seen := Now();
      var gone := ListGone(rows, order);
      var i := 0;
      while i < |gone|
        invariant 0 <= i <= |gone| && Now() == LeaveAll(seen, gone[..i], now)
      {
        LeaveOne(gone[i], now);
        i := i + 1;
        assert gone[..i][..i - 1] == gone[..i - 1];
      }
      assert gone[..i] == gone;
      if overflow != [] {
        UpdateOverflowJob();
      }
    }

    method ListDue(order: seq<Path>, now: int) returns (due: seq<Path>)
      ensures due == Due(Now(), order, now)
    {
      due := [];
      var i := 0;
      while i < |order|
        invariant 0 <= i <= |order| && due == Due(Now(), order[..i], now)
      {
        ghost var before := due;
        if order[i] in entries && IsDue(entries[order[i]], now) {
          due := InsertBySeq(Now(), due, order[i]);
        }
        i := i + 1;
        assert order[..i][..i - 1] == order[..i - 1];
      }
      assert order[..i] == order;
    }

    method ListExpired(order: seq<Path>, now: int) returns (expired: seq<Path>)
      ensures expired == Expired(Now(), order, now)
    {
      expired := [];
      var i := 0;
      while i < |order|
        invariant 0 <= i <= |order| && expired == Expired(Now(), order[..i], now)
      {
        if order[i] in entries && entries[order[i]].pendingRemoval && now >= entries[order[i]].graceEnds {
          expired := expired + [order[i]];
        }
        i := i + 1;
        assert order[..i][..i - 1] == order[..i - 1];
      }
      assert order[..i] == order;
    }

    /** Those that have run for two seconds are shown, and those whose grace ended end. */
    method CheckAt(order: seq<Path>, now: int)
      modifies this
      ensures Now() == CheckNow(old(Now()), order, now)
    {
      hide Due, Promote, Expired, FinishPath;
      if !enabled {
        return;
      }
      ghost var was := Now();
      var due := ListDue(order, now);
      var i := 0;
      while i < |due|
        invariant 0 <= i <= |due| && Now() == PromoteAll(was, due[..i])
      {
        PromotePath(due[i]);
        i := i + 1;
        assert due[..i][..i - 1] == due[..i - 1];
      }
      assert due[..i] == due;
      ghost var promoted := Now();
      var expired := ListExpired(order, now);
      i := 0;
      while i < |expired|
        invariant 0 <= i <= |expired| && Now() == FinishAll(promoted, expired[..i], Success)
      {
        Finish(expired[i], Success);
        i := i + 1;
        assert expired[..i][..i - 1] == expired[..i - 1];
      }
      assert expired[..i] == expired;
    }

    /** The switch is off, or the service stopped: every job still registered ends now. */
    method EndEverything(order: seq<Path>, how: Ending)
      modifies this
      ensures Now() == EndAll(old(Now()), order, how)
    {
      ghost var was := Now();
      var i := 0;
      while i < |order|
        invariant 0 <= i <= |order| && Now() == EndEntries(was, order[..i], how)
        invariant entries == was.entries && overflowJob == was.overflowJob
      {
        if order[i] in entries && entries[order[i]].job.Some? {
          EndJob(entries[order[i]].job.value, how);
        }
        i := i + 1;
        assert order[..i][..i - 1] == order[..i - 1];
      }
      assert order[..i] == order;
      if overflowJob.Some? {
        EndJob(overflowJob.value, how);
        overflowJob := None;
      }
      entries, visible, overflow := map[], [], [];
    }

    /** An activity says that a transfer failed: one that is tracked ends so, whether it is still listed or held. */
    method Failed(path: Path, reason: string)
      modifies this
      ensures Now() == if old(enabled) then FinishPath(old(Now()), path, Failure(reason)) else old(Now())
    {
      hide FinishPath;
      if enabled {
        Finish(path, Failure(reason));
      }
    }

    /** When the timer is to fire next: the soonest end of a grace or of the wait to be shown; never when nobody waits. */
    method NextCheck(order: seq<Path>, now: int) returns (delay: Option<int>)
      requires forall p <- entries :: p in order
      ensures delay.None? <==> forall p <- entries, at: int :: !IsAwaitedAt(entries[p], at)
      ensures delay.Some? ==> 0 <= delay.value <= 2000
      ensures delay.Some? ==> forall p <- entries, at: int :: IsAwaitedAt(entries[p], at) ==> delay.value <= 0 || now + delay.value <= at
      ensures delay.Some? && 0 < delay.value < 2000 ==> exists p <- entries :: IsAwaitedAt(entries[p], now + delay.value)
    {
      var next: Option<int> := None;
      var i := 0;
      while i < |order|
        invariant 0 <= i <= |order|
        invariant next.None? <==> forall p <- order[..i] :: p in entries ==> !Waits(entries[p])
        invariant next.Some? ==> forall p <- order[..i] :: p in entries && Waits(entries[p]) ==> next.value <= WakesAt(entries[p])
        invariant next.Some? ==> exists p <- entries :: Waits(entries[p]) && next.value == WakesAt(entries[p])
      {
        var path := order[i];
        if path in entries && Waits(entries[path]) && (next.None? || WakesAt(entries[path]) < next.value) {
          next := Some(WakesAt(entries[path]));
        }
        i := i + 1;
        assert order[..i] == order[..i - 1] + [path];
      }
      assert order[..i] == order;
      AwaitedIff();
      hide Waits, WakesAt, IsAwaitedAt;
      if next.None? {
        return None;
      }
      assert exists p <- entries :: IsAwaitedAt(entries[p], next.value);
      var left := next.value - now;
      return Some(if left < 0 then 0 else if left > PROMOTE_AFTER then PROMOTE_AFTER else left);
    }
  }

  /** The time means something for the entry: its grace ends, or it has run for two seconds and is not shown. */
  ghost predicate IsAwaitedAt(entry: Entry, at: int) {
    if entry.pendingRemoval then at == entry.graceEnds else entry.job.None? && !entry.inOverflow && at == entry.firstSeen + 2000
  }

  lemma AwaitedIff()
    ensures forall entry: Entry, at :: IsAwaitedAt(entry, at) <==> Waits(entry) && at == WakesAt(entry)
  {
  }

  predicate Waits(entry: Entry) {
    entry.pendingRemoval || !entry.IsShown()
  }

  function WakesAt(entry: Entry): int {
    if entry.pendingRemoval then entry.graceEnds else entry.firstSeen + PROMOTE_AFTER
  }
}
