/** The events: the transfers changed, time passed, one failed, the switch, the service stopped. */
module ProgressEvents {
  import opened Wrappers
  import opened Sequences
  import opened ProgressRules
  import opened ProgressInvariant
  import opened ProgressRuns

  /** An order in which the table of entries may give its paths. */
  ghost predicate Enumerates(order: seq<Path>, entries: map<Path, Entry>) {
    NoDuplicates(order) && forall p :: p in order <==> p in entries
  }

  /** Apart from what is shown of it, the entry is as it was. */
  predicate SameEntry(a: Entry, b: Entry) {
    a.firstSeen == b.firstSeen && a.seqNumber == b.seqNumber && a.progress == b.progress && a.pendingRemoval == b.pendingRemoval && a.graceEnds == b.graceEnds
  }

  ghost predicate Mid(s: State, now: int) {
    InvBut(s) && Paired(s) && SeenBy(s, now)
  }

  // ---------------------------------------------------------------- the transfers changed

  lemma SeeNewRow(s: State, row: Row, now: int)
    requires Mid(s, now) && row.path !in s.entries
    ensures Mid(SeeRow(s, row, now), now)
  {
    var u := SeeRow(s, row, now);
    NewInLists(s, row, now);
    NewInOrder(s, row, now);
    hide ListsOk, InOrder, CallsOk;
    NewHasNoJob(s, u, row.path);
  }

  lemma NewInLists(s: State, row: Row, now: int)
    requires ListsOk(s) && row.path !in s.entries
    ensures ListsOk(SeeRow(s, row, now))
  {
  }

  lemma NewInOrder(s: State, row: Row, now: int)
    requires InOrder(s) && SeenBy(s, now) && ListsOk(s) && row.path !in s.entries
    ensures InOrder(SeeRow(s, row, now)) && SeenBy(SeeRow(s, row, now), now)
  {
    hide Numbered, ShownFirst, VisibleFirst, ListsOk;
    NewIsFirstSeen(s, row, now);
    NewIsNotSummed(s, row.path);
  }

  lemma NewIsFirstSeen(s: State, row: Row, now: int)
    requires InOrder(s) && SeenBy(s, now) && row.path !in s.entries
    ensures var u := SeeRow(s, row, now); Numbered(u.entries, u.nextSeq) && ShownFirst(u.entries) && VisibleFirst(u.entries)
  {
    var u := SeeRow(s, row, now);
    hide ListsOk, SummedInOrder;
    assert Numbered(u.entries, u.nextSeq) by { hide ShownFirst, VisibleFirst; }
    assert ShownFirst(u.entries) by { hide VisibleFirst; }
    assert VisibleFirst(u.entries) by { hide Numbered, ShownFirst; }
  }

  lemma NewIsNotSummed(s: State, path: Path)
    requires ListsOk(s) && path !in s.entries
    ensures path !in s.overflow
  {
  }

  lemma NewHasNoJob(s: State, u: State, path: Path)
    requires JobsOk(s) && path !in s.entries && path in u.entries && u.entries[path].job.None? && s.entries == u.entries - {path}
    requires u.calls == s.calls && u.nextJob == s.nextJob && u.overflowJob == s.overflowJob
    ensures JobsOk(u)
  {
    hide CallsOk;
    forall p <- s.entries
      ensures s.entries[p] == u.entries[p]
    {
    }
    assert EntryJobs(u.entries) == EntryJobs(s.entries) by {
      forall job | job in EntryJobs(s.entries)
        ensures job in EntryJobs(u.entries)
      {
        var p :| p in s.entries && s.entries[p].job == Some(job);
        assert u.entries[p].job == Some(job);
      }
    }
  }

  /** An entry that is shown as before, or not, and stands where it stood. */
  lemma EntryAgain(s: State, path: Path, entry: Entry)
    requires InvBut(s) && path in s.entries
    requires entry.firstSeen == s.entries[path].firstSeen && entry.seqNumber == s.entries[path].seqNumber
    requires entry.job == s.entries[path].job && entry.inOverflow == s.entries[path].inOverflow && (entry.pendingRemoval ==> entry.IsShown())
    ensures var u := s.(entries := s.entries[path := entry]); ListsOk(u) && FullBeforeOverflow(u) && JobsOk(u) && InOrder(u)
  {
    var u := s.(entries := s.entries[path := entry]);
    ListsAgain(s, path, entry);
    hide ListsOk, CallsOk;
    NumberedAgain(s.entries, s.nextSeq, path, entry);
    ShownAgain(s.entries, path, entry);
    VisibleAgain(s.entries, s.overflow, path, entry);
    SameJobs(s, u);
    hide Numbered, ShownFirst, VisibleFirst, SummedInOrder, JobsOk;
  }

  lemma ListsAgain(s: State, path: Path, entry: Entry)
    requires ListsOk(s) && path in s.entries
    requires entry.job == s.entries[path].job && entry.inOverflow == s.entries[path].inOverflow && (entry.pendingRemoval ==> entry.IsShown())
    ensures ListsOk(s.(entries := s.entries[path := entry]))
  {
  }

  lemma VisibleAgain(entries: map<Path, Entry>, overflow: seq<Path>, path: Path, entry: Entry)
    requires VisibleFirst(entries) && SummedInOrder(entries, overflow) && path in entries && entry.seqNumber == entries[path].seqNumber
    requires entry.job == entries[path].job && entry.inOverflow == entries[path].inOverflow
    ensures VisibleFirst(entries[path := entry]) && SummedInOrder(entries[path := entry], overflow)
  {
  }

  lemma SeeOldRow(s: State, row: Row, now: int)
    requires Mid(s, now) && row.path in s.entries
    ensures Mid(SeeRow(s, row, now), now)
  {
    hide ListsOk, JobsOk, InOrder, ShownOk;
    var u := SeeRow(s, row, now);
    SeenIsShown(s, row, now);
    EntryAgain(s, row.path, u.entries[row.path]);
    LikeTheEntries(s.(entries := u.entries), u);
    SeenAgain(s, u, row.path, now);
  }

  lemma SeenAgain(s: State, u: State, path: Path, now: int)
    requires SeenBy(s, now) && path in s.entries && path in u.entries && u.entries == s.entries[path := u.entries[path]]
    requires u.entries[path].firstSeen == s.entries[path].firstSeen
    ensures SeenBy(u, now)
  {
  }

  lemma LikeTheEntries(s: State, u: State)
    requires u == s.(shown := u.shown) && ListsOk(s) && JobsOk(s) && InOrder(s) && FullBeforeOverflow(s)
    ensures ListsOk(u) && JobsOk(u) && InOrder(u) && FullBeforeOverflow(u)
  {
  }

  lemma SeenIsShown(s: State, row: Row, now: int)
    requires ShownOk(s) && JobsOk(s) && row.path in s.entries
    ensures ShownOk(SeeRow(s, row, now))
  {
  }

  lemma {:induction false} SeeRowsKeeps(s: State, rows: seq<Row>, now: int)
    requires Mid(s, now)
    ensures Mid(SeeRows(s, rows, now), now)
  {
    hide Mid, SeeRow;
    if rows != [] {
      var u, row := SeeRows(s, rows[..|rows| - 1], now), rows[|rows| - 1];
      SeeRowsKeeps(s, rows[..|rows| - 1], now);
      if row.path in u.entries {
        SeeOldRow(u, row, now);
      } else {
        SeeNewRow(u, row, now);
      }
    }
  }

  lemma HeldKeeps(s: State, path: Path, now: int)
    requires Mid(s, now) && path in s.entries && s.entries[path].IsShown()
    ensures Mid(Leave(s, path, now), now)
  {
    hide ListsOk, JobsOk, InOrder, ShownOk;
    var u := Leave(s, path, now);
    EntryAgain(s, path, u.entries[path]);
    ShownIsKept(s, u, path);
    SeenAgain(s, u, path, now);
  }

  lemma ShownIsKept(s: State, u: State, path: Path)
    requires ShownOk(s) && path in s.entries && path in u.entries && u.entries == s.entries[path := u.entries[path]] && u.shown == s.shown
    requires u.entries[path].job == s.entries[path].job && u.entries[path].progress == s.entries[path].progress
    ensures ShownOk(u)
  {
  }

  lemma LeaveKeeps(s: State, path: Path, now: int)
    requires Mid(s, now)
    ensures Mid(Leave(s, path, now), now)
  {
    hide InvBut;
    if path in s.entries {
      if s.entries[path].IsShown() {
        HeldKeeps(s, path, now);
      } else {
        FinishUnshown(s, path, Success);
      }
    }
  }

  lemma {:induction false} LeaveAllKeeps(s: State, paths: seq<Path>, now: int)
    requires Mid(s, now)
    ensures Mid(LeaveAll(s, paths, now), now)
  {
    hide Mid, Leave;
    if paths != [] {
      LeaveAllKeeps(s, paths[..|paths| - 1], now);
      LeaveKeeps(LeaveAll(s, paths[..|paths| - 1], now), paths[|paths| - 1], now);
    }
  }

  lemma InvIsMid(s: State, now: int)
    requires Inv(s) && SeenBy(s, now)
    ensures Mid(s, now)
  {
  }

  lemma SumAtEnd(s: State, now: int)
    requires Mid(s, now)
    ensures var u := if s.overflow != [] then UpdateOverflow(s) else s; Inv(u) && SeenBy(u, now)
  {
    hide InvBut;
    if s.overflow != [] {
      SumIsKept(s);
    }
  }

  lemma ReconcileKeeps(s: State, rows: seq<Row>, order: seq<Path>, now: int)
    requires Inv(s) && SeenBy(s, now)
    ensures Inv(Reconcile(s, rows, order, now)) && SeenBy(Reconcile(s, rows, order, now), now)
  {
    hide Inv, SeenBy, Mid, SeeRows, LeaveAll, Gone, UpdateOverflow;
    InvIsMid(s, now);
    SeeRowsKeeps(s, rows, now);
    var seen := SeeRows(s, rows, now);
    LeaveAllKeeps(seen, Gone(seen, order, rows), now);
    SumAtEnd(LeaveAll(seen, Gone(seen, order, rows), now), now);
  }

  // ---------------------------------------------------------------- the time passed

  ghost predicate SortedBySeq(s: State, paths: seq<Path>) {
    forall i, j :: 0 <= i < j < |paths| ==> paths[i] in s.entries && paths[j] in s.entries && s.entries[paths[i]].seqNumber < s.entries[paths[j]].seqNumber
  }

  lemma {:induction false} InsertedIsSorted(s: State, paths: seq<Path>, path: Path)
    requires path in s.entries && (forall p <- paths :: p in s.entries) && path !in paths && SortedBySeq(s, paths)
    requires forall p <- s.entries, q <- s.entries :: p != q ==> s.entries[p].seqNumber != s.entries[q].seqNumber
    ensures SortedBySeq(s, InsertBySeq(s, paths, path))
  {
    if paths != [] {
      var before, last := paths[..|paths| - 1], paths[|paths| - 1];
      assert last in paths;
      if s.entries[path].seqNumber < s.entries[last].seqNumber {
        InsertedIsSorted(s, before, path);
        InsertedAre(s, before, path);
        forall p <- InsertBySeq(s, before, path)
          ensures p in s.entries && s.entries[p].seqNumber < s.entries[last].seqNumber
        {
          if p in before {
            var i :| 0 <= i < |before| && before[i] == p;
          }
        }
      }
    }
  }

  lemma {:induction false} DueAre(s: State, order: seq<Path>, now: int)
    requires NoDuplicates(order)
    requires forall p <- s.entries, q <- s.entries :: p != q ==> s.entries[p].seqNumber != s.entries[q].seqNumber
    ensures SortedBySeq(s, Due(s, order, now))
    ensures forall p :: p in Due(s, order, now) <==> p in order && p in s.entries && IsDue(s.entries[p], now)
  {
    if order != [] {
      var before, path := order[..|order| - 1], order[|order| - 1];
      DueAre(s, before, now);
      assert order == before + [path] && path !in before;
      if path in s.entries && IsDue(s.entries[path], now) {
        InsertedIsSorted(s, Due(s, before, now), path);
        InsertedAre(s, Due(s, before, now), path);
      }
      hide InsertBySeq, SortedBySeq;
    }
  }

  /** What promoting changes of the entries: these are shown, and nothing else of any. */
  ghost predicate NowShown(s: State, u: State, paths: seq<Path>) {
    && u.entries.Keys == s.entries.Keys
    && (forall p <- s.entries :: SameEntry(u.entries[p], s.entries[p]) && (u.entries[p].IsShown() <==> s.entries[p].IsShown() || p in paths))
  }

  lemma UpdateChangesNoEntry(s: State)
    ensures UpdateOverflow(s).entries == s.entries
  {
  }

  lemma PromoteShows(s: State, path: Path)
    requires path in s.entries
    ensures NowShown(s, Promote(s, path), [path])
  {
    UpdateChangesNoEntry(s.(entries := s.entries[path := s.entries[path].(inOverflow := true)], overflow := s.overflow + [path]));
    hide UpdateOverflow;
  }

  lemma ShownThen(s: State, u: State, v: State, paths: seq<Path>, path: Path)
    requires NowShown(s, u, paths) && NowShown(u, v, [path])
    ensures NowShown(s, v, paths + [path])
  {
  }

  /** The next of those due was seen before all that are still not shown. */
  lemma NextOfDue(s: State, u: State, due: seq<Path>, k: nat, now: int)
    requires Inv(s) && k < |due| && NowShown(s, u, due[..k]) && SortedBySeq(s, due)
    requires forall p :: p in due <==> p in s.entries && IsDue(s.entries[p], now)
    ensures IsNextShown(u, due[k])
  {
    hide JobsOk, ShownOk, SumOk;
    assert due[k] in due;
    NotBefore(s, due, k);
    forall q <- u.entries | q != due[k] && !u.entries[q].IsShown()
      ensures u.entries[due[k]].seqNumber < u.entries[q].seqNumber
    {
      LaterIsAfter(s, due, k, q, now);
    }
    hide ListsOk, InOrder;
  }

  lemma NotBefore(s: State, due: seq<Path>, k: nat)
    requires SortedBySeq(s, due) && k < |due|
    ensures due[k] !in due[..k]
  {
  }

  lemma LaterIsAfter(s: State, due: seq<Path>, k: nat, q: Path, now: int)
    requires ListsOk(s) && InOrder(s) && k < |due| && SortedBySeq(s, due)
    requires forall p :: p in due <==> p in s.entries && IsDue(s.entries[p], now)
    requires q in s.entries && q != due[k] && !s.entries[q].IsShown() && q !in due[..k]
    ensures due[k] in s.entries && s.entries[due[k]].seqNumber < s.entries[q].seqNumber
  {
  }

  lemma {:induction false} PromoteAllKeeps(s: State, due: seq<Path>, k: nat, now: int)
    requires Inv(s) && k <= |due| && SortedBySeq(s, due)
    requires forall p :: p in due <==> p in s.entries && IsDue(s.entries[p], now)
    ensures Inv(PromoteAll(s, due[..k])) && NowShown(s, PromoteAll(s, due[..k]), due[..k])
  {
    hide Inv, Promote, SortedBySeq, NowShown;
    if k == 0 {
      assert NowShown(s, s, []) by { NothingShown(s); }
    } else {
      var u := PromoteAll(s, due[..k - 1]);
      PromoteAllKeeps(s, due, k - 1, now);
      NextOfDue(s, u, due, k - 1, now);
      assert due[..k][..k - 1] == due[..k - 1];
      PromoteKeeps(u, due[k - 1]);
      PromoteShows(u, due[k - 1]);
      ShownThen(s, u, Promote(u, due[k - 1]), due[..k - 1], due[k - 1]);
      assert due[..k] == due[..k - 1] + [due[k - 1]];
    }
  }

  lemma NothingShown(s: State)
    ensures NowShown(s, s, [])
  {
  }

  lemma CheckKeeps(s: State, order: seq<Path>, now: int)
    requires Inv(s) && SeenBy(s, now) && Enumerates(order, s.entries)
    ensures Inv(CheckNow(s, order, now)) && SeenBy(CheckNow(s, order, now), now)
  {
    if s.enabled {
      var due := Due(s, order, now);
      DueAre(s, order, now);
      hide Inv, Due, PromoteAll, FinishAll, Expired, SortedBySeq, NowShown;
      PromoteAllKeeps(s, due, |due|, now);
      assert due[..|due|] == due;
      var promoted := PromoteAll(s, due);
      FinishAllKeeps(promoted, Expired(promoted, order, now), Success);
      StillSeen(s, promoted, due, now);
      FinishedAreGone(promoted, Expired(promoted, order, now), Success);
      LeftAreSeen(promoted, CheckNow(s, order, now), now);
    }
  }

  lemma StillSeen(s: State, u: State, paths: seq<Path>, now: int)
    requires SeenBy(s, now) && NowShown(s, u, paths)
    ensures SeenBy(u, now)
  {
  }

  /** What finishing changes of the entries: these are gone, and nothing else of any but how it is shown. */
  ghost predicate Left(s: State, u: State, gone: seq<Path>) {
    && (forall p :: p in u.entries <==> p in s.entries && p !in gone)
    && (forall p <- u.entries :: SameEntry(u.entries[p], s.entries[p]) && u.entries[p].IsShown() == s.entries[p].IsShown())
  }

  lemma LeftAreSeen(s: State, u: State, now: int)
    requires SeenBy(s, now) && (forall p <- u.entries :: p in s.entries && u.entries[p].firstSeen == s.entries[p].firstSeen)
    ensures SeenBy(u, now)
  {
  }

  /** The first of the summed has a job of its own now, and nothing else of any entry changed. */
  lemma FreeSlotLeaves(v: State)
    requires v.overflow != [] ==> v.overflow[0] in v.entries && v.entries[v.overflow[0]].IsShown()
    ensures Left(v, PromoteFromOverflow(v), [])
  {
    if v.overflow != [] && |v.visible| < MAX_VISIBLE {
      UpdateChangesNoEntry(GiveJob(v.(overflow := v.overflow[1..]), v.overflow[0]));
    }
    hide UpdateOverflow;
  }

  lemma EntryLeaves(s: State, v: State, path: Path)
    requires path in s.entries && v.entries == s.entries - {path}
    ensures Left(s, v, [path])
  {
  }

  lemma LeftAndSame(s: State, v: State, w: State, path: Path)
    requires Left(s, v, [path]) && Left(v, w, [])
    ensures Left(s, w, [path])
  {
  }

  lemma VisibleIsGone(s: State, path: Path, how: Ending)
    requires ListsOk(s) && path in s.entries && s.entries[path].job.Some?
    ensures Left(s, FinishPath(s, path, how), [path])
  {
    hide ListsOk, PromoteFromOverflow, Left;
    var v := End(s.(entries := s.entries - {path}), s.entries[path].job.value, how).(visible := RemoveOne(s.visible, path));
    if s.overflow != [] {
      NextHasRow(s, path);
    }
    EntryLeaves(s, v, path);
    FreeSlotLeaves(v);
    LeftAndSame(s, v, PromoteFromOverflow(v), path);
  }

  lemma FinishedIsGone(s: State, path: Path, how: Ending)
    requires Inv(s)
    ensures Left(s, FinishPath(s, path, how), [path])
  {
    hide ListsOk, ShownOk, JobsOk, InOrder, UpdateOverflow, PromoteFromOverflow;
    if path in s.entries {
      var u := s.(entries := s.entries - {path});
      if s.entries[path].job.Some? {
        VisibleIsGone(s, path, how);
      } else {
        UpdateChangesNoEntry(u.(overflow := RemoveOne(s.overflow, path)));
        EntryLeaves(s, FinishPath(s, path, how), path);
      }
    }
  }

  lemma NextHasRow(s: State, path: Path)
    requires ListsOk(s) && path in s.entries && s.entries[path].job.Some? && s.overflow != []
    ensures s.overflow[0] in s.entries - {path} && s.entries[s.overflow[0]].inOverflow
  {
  }

  lemma LeftThen(s: State, u: State, v: State, gone: seq<Path>, path: Path)
    requires Left(s, u, gone) && Left(u, v, [path])
    ensures Left(s, v, gone + [path])
  {
  }

  lemma NobodyLeft(s: State)
    ensures Left(s, s, [])
  {
  }

  lemma {:induction false} FinishedAreGone(s: State, paths: seq<Path>, how: Ending)
    requires Inv(s)
    ensures Left(s, FinishAll(s, paths, how), paths)
    ensures forall p <- FinishAll(s, paths, how).entries :: p in s.entries && FinishAll(s, paths, how).entries[p].firstSeen == s.entries[p].firstSeen
  {
    hide Inv, FinishPath, Left;
    if paths == [] {
      NobodyLeft(s);
    } else {
      var before, last := paths[..|paths| - 1], paths[|paths| - 1];
      FinishedAreGone(s, before, how);
      FinishAllKeeps(s, before, how);
      FinishedIsGone(FinishAll(s, before, how), last, how);
      LeftThen(s, FinishAll(s, before, how), FinishPath(FinishAll(s, before, how), last, how), before, last);
      assert paths == before + [last];
    }
    LeftKeepTimes(s, FinishAll(s, paths, how), paths);
  }

  lemma LeftKeepTimes(s: State, u: State, gone: seq<Path>)
    requires Left(s, u, gone)
    ensures forall p <- u.entries :: p in s.entries && u.entries[p].firstSeen == s.entries[p].firstSeen
  {
  }
}
