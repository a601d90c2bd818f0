/** Every event keeps it, over any run on a clock that does not go back. */
module ProgressRuns {
  import opened Wrappers
  import opened Sequences
  import opened ProgressRules
  import opened ProgressInvariant

  /** All but that five are visible before any are summed, and the sum itself. */
  ghost predicate InvLess(s: State) {
    ListsOk(s) && ShownOk(s) && JobsOk(s) && InOrder(s)
  }

  predicate Paired(s: State) {
    s.overflowJob.Some? <==> s.overflow != []
  }

  /** Whoever is shown next was seen before the others that are not. */
  ghost predicate IsNextShown(s: State, path: Path) {
    path in s.entries && !s.entries[path].IsShown() && forall q <- s.entries :: q != path && !s.entries[q].IsShown() ==> s.entries[path].seqNumber < s.entries[q].seqNumber
  }

  // ---------------------------------------------------------------- a job of its own

  lemma GiveJobLists(s: State, path: Path)
    requires path in s.entries && s.entries[path].job.None? && path !in s.visible && path !in s.overflow && |s.visible| < MAX_VISIBLE
    requires NoDuplicates(s.visible) && NoDuplicates(s.overflow)
    requires forall p :: p in s.visible <==> p in s.entries && s.entries[p].job.Some?
    requires forall p :: p != path ==> (p in s.overflow <==> p in s.entries && s.entries[p].inOverflow)
    requires forall p <- s.entries :: s.entries[p].job.Some? ==> !s.entries[p].inOverflow
    requires forall p <- s.entries :: s.entries[p].pendingRemoval ==> s.entries[p].IsShown()
    ensures ListsOk(GiveJob(s, path))
  {
  }

  lemma GiveJobJobs(s: State, path: Path)
    requires JobsOk(s) && path in s.entries && s.entries[path].job.None?
    ensures JobsOk(GiveJob(s, path))
  {
    hide CallsOk;
    NextIsNotLive(s.calls, s.nextJob, Live(s));
    RegisterKeeps(s.calls, s.nextJob, Live(s));
    var u := GiveJob(s, path);
    assert EntryJobs(u.entries) == EntryJobs(s.entries) + {Job(s.nextJob)} by {
      assert u.entries[path].job == Some(Job(s.nextJob));
      forall p | p in s.entries && p != path
        ensures u.entries[p] == s.entries[p]
      {
      }
      forall job | job in EntryJobs(s.entries)
        ensures job in EntryJobs(u.entries)
      {
        var p :| p in s.entries && s.entries[p].job == Some(job);
        assert u.entries[p].job == Some(job);
      }
    }
    assert Live(u) == Live(s) + {Job(s.nextJob)};
  }

  lemma GiveJobShown(s: State, path: Path)
    requires JobsOk(s) && ShownOk(s) && path in s.entries && s.entries[path].job.None?
    ensures ShownOk(GiveJob(s, path))
  {
  }

  lemma PromoteKeeps(s: State, path: Path)
    requires Inv(s) && IsNextShown(s, path)
    ensures Inv(Promote(s, path))
  {
    if |s.visible| < MAX_VISIBLE {
      hide JobsOk, ShownOk, Sum, InOrder;
      GiveJobLists(s, path);
      GiveJobJobs(s, path);
      GiveJobShown(s, path);
      VisibleInOrder(s, path);
    } else {
      var u := s.(entries := s.entries[path := s.entries[path].(inOverflow := true)], overflow := s.overflow + [path]);
      MarkKeeps(s, u, path);
      SumIsKept(u);
      hide *;
    }
  }

  lemma VisibleInOrder(s: State, path: Path)
    requires InOrder(s) && IsNextShown(s, path) && s.overflow == []
    requires forall p <- s.entries :: !s.entries[p].inOverflow
    ensures InOrder(GiveJob(s, path))
  {
  }

  lemma MarkKeeps(s: State, u: State, path: Path)
    requires InvBut(s) && IsNextShown(s, path) && |s.visible| == MAX_VISIBLE
    requires u == s.(entries := s.entries[path := s.entries[path].(inOverflow := true)], overflow := s.overflow + [path])
    ensures InvBut(u)
  {
    hide CallsOk, InOrder, ListsOk;
    MarkLists(s, u, path);
    MarkOrder(s, u, path);
    SameJobs(s, u);
  }

  lemma MarkLists(s: State, u: State, path: Path)
    requires ListsOk(s) && path in s.entries && !s.entries[path].IsShown()
    requires u == s.(entries := s.entries[path := s.entries[path].(inOverflow := true)], overflow := s.overflow + [path])
    ensures ListsOk(u)
  {
  }

  lemma MarkOrder(s: State, u: State, path: Path)
    requires InOrder(s) && ListsOk(s) && IsNextShown(s, path)
    requires u == s.(entries := s.entries[path := s.entries[path].(inOverflow := true)], overflow := s.overflow + [path])
    ensures InOrder(u)
  {
    hide Numbered, ShownFirst, VisibleFirst, SummedInOrder, ListsOk;
    var entry := s.entries[path].(inOverflow := true);
    NumberedAgain(s.entries, s.nextSeq, path, entry);
    NextBecomesShown(s, path, entry);
    NextIsSummed(s, path, entry);
    NextIsLast(s, path, entry);
  }

  lemma NextBecomesShown(s: State, path: Path, entry: Entry)
    requires ShownFirst(s.entries) && IsNextShown(s, path) && entry.seqNumber == s.entries[path].seqNumber && entry.IsShown()
    ensures ShownFirst(s.entries[path := entry])
  {
  }

  lemma NextIsSummed(s: State, path: Path, entry: Entry)
    requires ShownFirst(s.entries) && VisibleFirst(s.entries) && IsNextShown(s, path)
    requires entry.seqNumber == s.entries[path].seqNumber && entry.job.None?
    ensures VisibleFirst(s.entries[path := entry])
  {
  }

  lemma NextIsLast(s: State, path: Path, entry: Entry)
    requires ShownFirst(s.entries) && SummedInOrder(s.entries, s.overflow) && ListsOk(s) && IsNextShown(s, path) && entry.seqNumber == s.entries[path].seqNumber
    ensures SummedInOrder(s.entries[path := entry], s.overflow + [path])
  {
  }

  lemma SameJobs(s: State, u: State)
    requires JobsOk(s) && u.calls == s.calls && u.nextJob == s.nextJob && u.overflowJob == s.overflowJob && u.entries.Keys == s.entries.Keys
    requires forall p <- s.entries :: u.entries[p].job == s.entries[p].job
    ensures JobsOk(u)
  {
  }

  // ---------------------------------------------------------------- a path ends

  lemma SumWithout(s: State, path: Path, paths: seq<Path>)
    requires path !in paths
    ensures Sum(s.entries - {path}, paths) == Sum(s.entries, paths)
  {
    DoneWithout(s, path, paths);
  }

  lemma {:induction false} DoneWithout(s: State, path: Path, paths: seq<Path>)
    requires path !in paths
    ensures Done(s.entries - {path}, paths) == Done(s.entries, paths) && Total(s.entries - {path}, paths) == Total(s.entries, paths)
    ensures forall p <- paths :: TotalOf(s.entries - {path}, p) == TotalOf(s.entries, p)
  {
    if paths != [] {
      DoneWithout(s, path, paths[..|paths| - 1]);
      assert paths == paths[..|paths| - 1] + [paths[|paths| - 1]];
      assert paths[|paths| - 1] != path;
    }
  }

  /** The path and its job, if it has one, are gone. */
  lemma EndedLists(s: State, path: Path, how: Ending)
    requires ListsOk(s) && path in s.entries && s.entries[path].job.Some?
    ensures var u := End(s.(entries := s.entries - {path}), s.entries[path].job.value, how).(visible := RemoveOne(s.visible, path));
            ListsOk(u) && |u.visible| == |s.visible| - 1
  {
    RemoveOneIs(s.visible, path);
  }

  lemma EndedJobs(s: State, path: Path, how: Ending)
    requires JobsOk(s) && ShownOk(s) && path in s.entries && s.entries[path].job.Some?
    ensures var u := End(s.(entries := s.entries - {path}), s.entries[path].job.value, how);
            JobsOk(u) && ShownOk(u)
  {
    hide CallsOk;
    var job := s.entries[path].job.value;
    var u := End(s.(entries := s.entries - {path}), job, how);
    EndKeeps(s.calls, s.nextJob, Live(s), job, how);
    assert EntryJobs(u.entries) == EntryJobs(s.entries) - {job} by {
      forall other | other in EntryJobs(s.entries) && other != job
        ensures other in EntryJobs(u.entries)
      {
        var p :| p in s.entries && s.entries[p].job == Some(other);
        assert u.entries[p].job == Some(other);
      }
    }
    assert Live(u) == Live(s) - {job};
  }

  /** An entry that goes leaves the others in order. */
  lemma GoneInOrder(s: State, u: State, path: Path)
    requires InOrder(s) && ListsOk(s) && u.entries == s.entries - {path} && u.nextSeq == s.nextSeq
    requires u.overflow == if path in s.overflow then RemoveOne(s.overflow, path) else s.overflow
    ensures InOrder(u)
  {
    EntriesInOrder(s.entries, s.nextSeq, path);
    if path in s.overflow {
      OverflowSorted(s);
      RemoveOneKeepsOrder(s, s.overflow, path);
      OverflowWithout(s, path);
    }
    hide ListsOk, Numbered, ShownFirst, VisibleFirst;
  }

  lemma EntriesInOrder(entries: map<Path, Entry>, nextSeq: nat, path: Path)
    requires Numbered(entries, nextSeq) && ShownFirst(entries) && VisibleFirst(entries)
    ensures Numbered(entries - {path}, nextSeq) && ShownFirst(entries - {path}) && VisibleFirst(entries - {path})
  {
  }

  lemma OverflowSorted(s: State)
    requires InOrder(s) && ListsOk(s)
    ensures forall p <- s.overflow :: p in s.entries
    ensures forall i, j :: 0 <= i < j < |s.overflow| ==> s.entries[s.overflow[i]].seqNumber < s.entries[s.overflow[j]].seqNumber
  {
  }

  lemma OverflowWithout(s: State, path: Path)
    requires ListsOk(s) && path in s.overflow
    ensures forall p <- RemoveOne(s.overflow, path) :: p != path
  {
    RemoveOneIs(s.overflow, path);
  }

  /** The first of the summed gets the slot that came free. */
  lemma FirstGetsJob(s: State)
    requires InvLess(s) && s.overflow != [] && |s.visible| == MAX_VISIBLE - 1
    ensures InvBut(GiveJob(s.(overflow := s.overflow[1..]), s.overflow[0]))
  {
    var path := s.overflow[0];
    var u := s.(overflow := s.overflow[1..]);
    FirstLists(s);
    hide ListsOk, InOrder;
    SameJobs(s, u);
    hide JobsOk;
    GiveJobJobs(u, path);
    GiveJobShown(u, path);
    FirstInOrder(s);
  }

  lemma FirstLists(s: State)
    requires ListsOk(s) && s.overflow != [] && |s.visible| == MAX_VISIBLE - 1
    ensures s.overflow[0] in s.entries && s.entries[s.overflow[0]].job.None?
    ensures ListsOk(GiveJob(s.(overflow := s.overflow[1..]), s.overflow[0]))
  {
  }

  lemma FirstInOrder(s: State)
    requires InOrder(s) && ListsOk(s) && s.overflow != [] && s.overflow[0] in s.entries
    ensures InOrder(GiveJob(s.(overflow := s.overflow[1..]), s.overflow[0]))
  {
    var path := s.overflow[0];
    FirstIsLeast(s);
    hide ListsOk;
    OneMoreVisible(s, path);
  }

  lemma FirstIsLeast(s: State)
    requires SummedInOrder(s.entries, s.overflow) && ListsOk(s) && s.overflow != [] && s.overflow[0] in s.entries
    ensures s.entries[s.overflow[0]].inOverflow
    ensures forall q <- s.entries :: q != s.overflow[0] && s.entries[q].inOverflow ==> s.entries[s.overflow[0]].seqNumber < s.entries[q].seqNumber
  {
  }

  lemma OneMoreVisible(s: State, path: Path)
    requires InOrder(s) && s.overflow != [] && path in s.entries && path == s.overflow[0] && s.entries[path].inOverflow
    requires forall q <- s.entries :: q != path && s.entries[q].inOverflow ==> s.entries[path].seqNumber < s.entries[q].seqNumber
    ensures InOrder(GiveJob(s.(overflow := s.overflow[1..]), path))
  {
    hide Numbered, ShownFirst, VisibleFirst, SummedInOrder;
    var entry := s.entries[path].(job := Some(Job(s.nextJob)), inOverflow := false);
    NumberedAgain(s.entries, s.nextSeq, path, entry);
    ShownAgain(s.entries, path, entry);
    FirstBecomesVisible(s.entries, path, entry);
    RestInOrder(s.entries, s.overflow, path, entry);
  }

  lemma NumberedAgain(entries: map<Path, Entry>, nextSeq: nat, path: Path, entry: Entry)
    requires Numbered(entries, nextSeq) && path in entries && entry.seqNumber == entries[path].seqNumber && entry.firstSeen == entries[path].firstSeen
    ensures Numbered(entries[path := entry], nextSeq)
  {
  }

  lemma ShownAgain(entries: map<Path, Entry>, path: Path, entry: Entry)
    requires ShownFirst(entries) && path in entries && entry.seqNumber == entries[path].seqNumber && entry.IsShown() == entries[path].IsShown()
    ensures ShownFirst(entries[path := entry])
  {
  }

  lemma FirstBecomesVisible(entries: map<Path, Entry>, path: Path, entry: Entry)
    requires VisibleFirst(entries) && path in entries && entry.seqNumber == entries[path].seqNumber && !entry.inOverflow
    requires forall q <- entries :: q != path && entries[q].inOverflow ==> entries[path].seqNumber < entries[q].seqNumber
    ensures VisibleFirst(entries[path := entry])
  {
  }

  lemma RestInOrder(entries: map<Path, Entry>, overflow: seq<Path>, path: Path, entry: Entry)
    requires SummedInOrder(entries, overflow) && overflow != [] && path in entries && entry.seqNumber == entries[path].seqNumber
    ensures SummedInOrder(entries[path := entry], overflow[1..]) && SummedInOrder(entries[path := entry], overflow)
  {
  }

  lemma FreeSlotIsTaken(s: State)
    requires InvLess(s) && Paired(s) && (s.overflow != [] ==> |s.visible| == MAX_VISIBLE - 1)
    ensures Inv(PromoteFromOverflow(s))
  {
    hide InvLess, InvBut;
    if s.overflow == [] {
      NothingSummed(s);
    } else {
      FirstOfLess(s);
      FirstGetsJob(s);
      SumIsKept(GiveJob(s.(overflow := s.overflow[1..]), s.overflow[0]));
    }
  }

  lemma FirstOfLess(s: State)
    requires InvLess(s) && s.overflow != [] && |s.visible| == MAX_VISIBLE - 1
    ensures s.overflow[0] in s.entries
  {
  }

  lemma NothingSummed(s: State)
    requires InvLess(s) && Paired(s) && s.overflow == []
    ensures Inv(s)
  {
  }

  lemma FinishVisible(s: State, path: Path, how: Ending)
    requires InvBut(s) && Paired(s) && path in s.entries && s.entries[path].job.Some?
    ensures Inv(FinishPath(s, path, how))
  {
    var job := s.entries[path].job.value;
    var u := End(s.(entries := s.entries - {path}), job, how).(visible := RemoveOne(s.visible, path));
    NotSummed(s, path);
    hide ListsOk, JobsOk, InOrder, ShownOk, Inv;
    EndedLists(s, path, how);
    EndedJobs(s, path, how);
    SameJobs(End(s.(entries := s.entries - {path}), job, how), u);
    SameShown(End(s.(entries := s.entries - {path}), job, how), u);
    GoneInOrder(s, u, path);
    FreeSlotIsTaken(u);
  }

  lemma NotSummed(s: State, path: Path)
    requires ListsOk(s) && path in s.entries && (s.entries[path].job.Some? || !s.entries[path].inOverflow)
    ensures path !in s.overflow
  {
  }

  lemma SameShown(s: State, u: State)
    requires ShownOk(s) && u.entries == s.entries && u.shown == s.shown
    ensures ShownOk(u)
  {
  }

  lemma FinishSummed(s: State, path: Path, how: Ending)
    requires InvBut(s) && path in s.entries && s.entries[path].job.None? && s.entries[path].inOverflow
    ensures Inv(FinishPath(s, path, how))
  {
    var u := s.(entries := s.entries - {path}, overflow := RemoveOne(s.overflow, path));
    SummedLists(s, u, path);
    hide ListsOk, InOrder, Inv, CallsOk;
    GoneInOrder(s, u, path);
    JobsWithout(s, u, path);
    hide JobsOk;
    SumIsKept(u);
  }

  lemma SummedLists(s: State, u: State, path: Path)
    requires ListsOk(s) && FullBeforeOverflow(s) && path in s.entries && s.entries[path].job.None? && s.entries[path].inOverflow
    requires u == s.(entries := s.entries - {path}, overflow := RemoveOne(s.overflow, path))
    ensures path in s.overflow && ListsOk(u) && FullBeforeOverflow(u)
  {
    RemoveOneIs(s.overflow, path);
  }

  lemma JobsWithout(s: State, u: State, path: Path)
    requires JobsOk(s) && path in s.entries && s.entries[path].job.None?
    requires u.entries == s.entries - {path} && u.calls == s.calls && u.nextJob == s.nextJob && u.overflowJob == s.overflowJob
    ensures JobsOk(u)
  {
    hide CallsOk;
    assert EntryJobs(u.entries) == EntryJobs(s.entries) by {
      forall job | job in EntryJobs(s.entries)
        ensures job in EntryJobs(u.entries)
      {
        var p :| p in s.entries && s.entries[p].job == Some(job);
        assert u.entries[p].job == Some(job);
      }
    }
  }

  /** One that was never shown is forgotten, and nothing that is shown changes. */
  lemma FinishUnshown(s: State, path: Path, how: Ending)
    requires InvBut(s) && path in s.entries && !s.entries[path].IsShown()
    ensures InvBut(FinishPath(s, path, how)) && (SumOk(s) ==> SumOk(FinishPath(s, path, how)))
    ensures FinishPath(s, path, how) == s.(entries := s.entries - {path})
  {
    var u := s.(entries := s.entries - {path});
    NotSummed(s, path);
    hide ListsOk, InOrder, JobsOk, Sum;
    UnshownLists(s, path);
    SumWithout(s, path, s.overflow);
    GoneInOrder(s, u, path);
    JobsWithout(s, u, path);
  }

  lemma UnshownLists(s: State, path: Path)
    requires ListsOk(s) && path in s.entries && !s.entries[path].IsShown()
    ensures ListsOk(s.(entries := s.entries - {path}))
  {
  }

  lemma FinishKeeps(s: State, path: Path, how: Ending)
    requires Inv(s)
    ensures Inv(FinishPath(s, path, how))
  {
    hide InvBut, Sum;
    if path in s.entries {
      if s.entries[path].job.Some? {
        FinishVisible(s, path, how);
      } else if s.entries[path].inOverflow {
        FinishSummed(s, path, how);
      } else {
        FinishUnshown(s, path, how);
      }
    }
  }

  lemma {:induction false} FinishAllKeeps(s: State, paths: seq<Path>, how: Ending)
    requires Inv(s)
    ensures Inv(FinishAll(s, paths, how))
  {
    hide Inv, FinishPath;
    if paths != [] {
      FinishAllKeeps(s, paths[..|paths| - 1], how);
      FinishKeeps(FinishAll(s, paths[..|paths| - 1], how), paths[|paths| - 1], how);
    }
  }
}
