/**
  What every event keeps: the lists are the entries', each job is told of once from its
  start to its end and shows its transfer, and the earliest seen are the ones shown.
*/
module ProgressInvariant {
  import opened Wrappers
  import opened Sequences
  import opened ProgressRules

  /** The visible list is the entries with a job, the overflow list those marked so. */
  ghost predicate ListsOk(s: State) {
    && NoDuplicates(s.visible) && NoDuplicates(s.overflow) && |s.visible| <= MAX_VISIBLE
    && (forall p :: p in s.visible <==> p in s.entries && s.entries[p].job.Some?)
    && (forall p :: p in s.overflow <==> p in s.entries && s.entries[p].inOverflow)
    && (forall p <- s.entries :: s.entries[p].job.Some? ==> !s.entries[p].inOverflow)
    && (forall p <- s.entries :: s.entries[p].pendingRemoval ==> s.entries[p].IsShown())
  }

  predicate FullBeforeOverflow(s: State) {
    s.overflow != [] ==> |s.visible| == MAX_VISIBLE
  }

  /** The summed job is there exactly while somebody is in it, and shows their sum. */
  predicate SumOk(s: State) {
    && (s.overflowJob.Some? <==> s.overflow != [])
    && (s.overflowJob.Some? ==> s.overflowJob.value in s.shown && s.shown[s.overflowJob.value] == Sum(s.entries, s.overflow))
  }

  ghost predicate ShownOk(s: State) {
    forall p <- s.entries :: s.entries[p].job.Some? ==> s.entries[p].job.value in s.shown && s.shown[s.entries[p].job.value] == s.entries[p].progress
  }

  // ---------------------------------------------------------------- what jobs are told

  ghost function EntryJobs(entries: map<Path, Entry>): set<Job> {
    set p | p in entries && entries[p].job.Some? :: entries[p].job.value
  }

  function JobSet(job: Option<Job>): set<Job> {
    if job.Some? then {job.value} else {}
  }

  ghost predicate OwnJobs(s: State) {
    && (forall p <- s.entries, q <- s.entries :: s.entries[p].job.Some? && s.entries[p].job == s.entries[q].job ==> p == q)
    && (s.overflowJob.Some? ==> s.overflowJob.value !in EntryJobs(s.entries))
  }

  function Of(call: Call): Job {
    call.job
  }

  function History(calls: seq<Call>, job: Job): seq<Call> {
    if calls == [] then [] else History(calls[..|calls| - 1], job) + if Of(calls[|calls| - 1]) == job then [calls[|calls| - 1]] else []
  }

  /** A job is registered, then ends once, and is unregistered once. */
  predicate EndedOnce(history: seq<Call>, job: Job) {
    |history| == 3 && history[0] == Registered(job) && history[1].Ended? && history[1].job == job && history[2] == Unregistered(job)
  }

  ghost predicate CallsOk(calls: seq<Call>, nextJob: nat, live: set<Job>) {
    && (forall job: Job :: job.number >= nextJob ==> History(calls, job) == [] && job !in live)
    && (forall job <- live :: History(calls, job) == [Registered(job)])
    && (forall job: Job :: job.number < nextJob && job !in live ==> EndedOnce(History(calls, job), job))
  }

  ghost function Live(s: State): set<Job> {
    EntryJobs(s.entries) + JobSet(s.overflowJob)
  }

  ghost predicate JobsOk(s: State) {
    OwnJobs(s) && CallsOk(s.calls, s.nextJob, Live(s))
  }

  lemma {:induction false} HistoryConcat(a: seq<Call>, b: seq<Call>, job: Job)
    ensures History(a + b, job) == History(a, job) + History(b, job)
    decreases |b|
  {
    if b == [] {
      assert a + b == a;
    } else {
      HistoryConcat(a, b[..|b| - 1], job);
      assert (a + b)[..|a + b| - 1] == a + b[..|b| - 1];
    }
  }

  lemma HistoryOfOne(call: Call, job: Job)
    ensures History([call], job) == if Of(call) == job then [call] else []
  {
    assert [call][..0] == [];
  }

  lemma RegisterKeeps(calls: seq<Call>, nextJob: nat, live: set<Job>)
    requires CallsOk(calls, nextJob, live)
    ensures CallsOk(calls + [Registered(Job(nextJob))], nextJob + 1, live + {Job(nextJob)})
  {
    forall job: Job
      ensures History(calls + [Registered(Job(nextJob))], job) == History(calls, job) + if job == Job(nextJob) then [Registered(job)] else []
    {
      HistoryConcat(calls, [Registered(Job(nextJob))], job);
      HistoryOfOne(Registered(Job(nextJob)), job);
    }
    hide History;
  }

  lemma HistoryOfEnd(calls: seq<Call>, ended: Job, how: Ending, job: Job)
    ensures History(calls + [Ended(ended, how), Unregistered(ended)], job) ==
            History(calls, job) + if job == ended then [Ended(ended, how), Unregistered(ended)] else []
  {
    var last := [Ended(ended, how), Unregistered(ended)];
    HistoryConcat(calls, last, job);
    HistoryConcat([last[0]], [last[1]], job);
    HistoryOfOne(last[0], job);
    HistoryOfOne(last[1], job);
    assert [last[0]] + [last[1]] == last;
  }

  lemma EndKeeps(calls: seq<Call>, nextJob: nat, live: set<Job>, ended: Job, how: Ending)
    requires CallsOk(calls, nextJob, live) && ended in live
    ensures CallsOk(calls + [Ended(ended, how), Unregistered(ended)], nextJob, live - {ended})
  {
    hide History;
    var after := calls + [Ended(ended, how), Unregistered(ended)];
    forall job: Job
      ensures job == ended ==> EndedOnce(History(after, job), job)
      ensures job != ended ==> History(after, job) == History(calls, job)
    {
      HistoryOfEnd(calls, ended, how, job);
    }
    hide EndedOnce;
  }

  // ---------------------------------------------------------------- who is shown

  /** First seen earlier is numbered earlier. */
  ghost predicate Numbered(entries: map<Path, Entry>, nextSeq: nat) {
    && (forall p <- entries :: entries[p].seqNumber < nextSeq)
    && (forall p <- entries, q <- entries :: p != q ==> entries[p].seqNumber != entries[q].seqNumber)
    && (forall p <- entries, q <- entries :: entries[p].seqNumber < entries[q].seqNumber ==> entries[p].firstSeen <= entries[q].firstSeen)
  }

  /** The shown were seen before the others. */
  ghost predicate ShownFirst(entries: map<Path, Entry>) {
    forall p <- entries, q <- entries :: entries[p].IsShown() && !entries[q].IsShown() ==> entries[p].seqNumber < entries[q].seqNumber
  }

  /** Those with a job of their own were seen before the summed. */
  ghost predicate VisibleFirst(entries: map<Path, Entry>) {
    forall p <- entries, q <- entries :: entries[p].job.Some? && entries[q].inOverflow ==> entries[p].seqNumber < entries[q].seqNumber
  }

  ghost predicate SummedInOrder(entries: map<Path, Entry>, overflow: seq<Path>) {
    forall i, j :: 0 <= i < j < |overflow| && overflow[i] in entries && overflow[j] in entries ==> entries[overflow[i]].seqNumber < entries[overflow[j]].seqNumber
  }

  ghost predicate InOrder(s: State) {
    Numbered(s.entries, s.nextSeq) && ShownFirst(s.entries) && VisibleFirst(s.entries) && SummedInOrder(s.entries, s.overflow)
  }

  ghost predicate SeenBy(s: State, now: int) {
    forall p <- s.entries :: s.entries[p].firstSeen <= now
  }

  /** All but that the summed job may have to be brought up to date. */
  ghost predicate InvBut(s: State) {
    ListsOk(s) && FullBeforeOverflow(s) && ShownOk(s) && JobsOk(s) && InOrder(s)
  }

  ghost predicate Inv(s: State) {
    InvBut(s) && SumOk(s)
  }

  // ---------------------------------------------------------------- lists

  lemma {:induction false} RemoveOneIs(paths: seq<Path>, path: Path)
    requires NoDuplicates(paths) && path in paths
    ensures NoDuplicates(RemoveOne(paths, path)) && |RemoveOne(paths, path)| == |paths| - 1
    ensures forall p :: p in RemoveOne(paths, path) <==> p in paths && p != path
    ensures forall i :: 0 <= i < |paths| - 1 ==> RemoveOne(paths, path)[i] == paths[i] || RemoveOne(paths, path)[i] == paths[i + 1]
  {
    assert paths == [paths[0]] + paths[1..];
    assert paths[0] !in paths[1..];
    if paths[0] != path {
      RemoveOneIs(paths[1..], path);
      assert paths[0] !in RemoveOne(paths[1..], path);
    }
  }

  ghost predicate StandInOrder(s: State, paths: seq<Path>) {
    && (forall p <- paths :: p in s.entries)
    && forall i, j :: 0 <= i < j < |paths| ==> s.entries[paths[i]].seqNumber < s.entries[paths[j]].seqNumber
  }

  ghost predicate IsBefore(s: State, path: Path, others: seq<Path>) {
    path in s.entries && forall p <- others :: p in s.entries && s.entries[path].seqNumber < s.entries[p].seqNumber
  }

  lemma InOrderSplits(s: State, paths: seq<Path>)
    requires paths != []
    ensures StandInOrder(s, paths) <==> IsBefore(s, paths[0], paths[1..]) && StandInOrder(s, paths[1..])
  {
    var first, others := paths[0], paths[1..];
    assert paths == [first] + others;
    if StandInOrder(s, paths) {
      forall k | 0 <= k < |others|
        ensures others[k] in s.entries && s.entries[first].seqNumber < s.entries[others[k]].seqNumber
      {
        assert others[k] == paths[k + 1];
      }
    }
    if IsBefore(s, first, others) && StandInOrder(s, others) {
      forall i, j | 0 <= i < j < |paths|
        ensures s.entries[paths[i]].seqNumber < s.entries[paths[j]].seqNumber
      {
        assert paths[j] == others[j - 1];
      }
    }
  }

  lemma BeforeFewer(s: State, path: Path, others: seq<Path>, fewer: seq<Path>)
    requires IsBefore(s, path, others) && forall p <- fewer :: p in others
    ensures IsBefore(s, path, fewer)
  {
  }

  /** What is left after one is removed stands in the order it stood in. */
  lemma {:induction false} RemoveOneKeepsOrder(s: State, paths: seq<Path>, path: Path)
    requires StandInOrder(s, paths)
    ensures StandInOrder(s, RemoveOne(paths, path)) && forall p <- RemoveOne(paths, path) :: p in paths
  {
    hide StandInOrder, IsBefore;
    if paths != [] {
      InOrderSplits(s, paths);
      if paths[0] != path {
        var rest := RemoveOne(paths[1..], path);
        RemoveOneKeepsOrder(s, paths[1..], path);
        BeforeFewer(s, paths[0], paths[1..], rest);
        assert RemoveOne(paths, path) == [paths[0]] + rest && ([paths[0]] + rest)[1..] == rest;
        InOrderSplits(s, [paths[0]] + rest);
      }
    }
  }

  // ---------------------------------------------------------------- the summed job

  lemma SumIsKept(s: State)
    requires InvBut(s)
    ensures Inv(UpdateOverflow(s))
    ensures UpdateOverflow(s).entries == s.entries && UpdateOverflow(s).overflow == s.overflow && UpdateOverflow(s).visible == s.visible
  {
    var u := UpdateOverflow(s);
    hide InOrder, ListsOk, Sum;
    SumInOrder(s, u);
    SumJobs(s);
    SumShown(s);
  }

  lemma SumInOrder(s: State, u: State)
    requires InOrder(s) && ListsOk(s) && u.entries == s.entries && u.overflow == s.overflow && u.visible == s.visible && u.nextSeq == s.nextSeq
    ensures InOrder(u) && ListsOk(u)
  {
  }

  lemma SumJobs(s: State)
    requires JobsOk(s)
    ensures JobsOk(UpdateOverflow(s))
  {
    hide Sum, CallsOk, EntryJobs;
    var u := UpdateOverflow(s);
    if s.overflow == [] && s.overflowJob.Some? {
      EndKeeps(s.calls, s.nextJob, Live(s), s.overflowJob.value, Success);
      assert Live(u) == Live(s) - {s.overflowJob.value};
    } else if s.overflow != [] && s.overflowJob.None? {
      NextIsNotLive(s.calls, s.nextJob, Live(s));
      RegisterKeeps(s.calls, s.nextJob, Live(s));
      assert Live(u) == Live(s) + {Job(s.nextJob)};
    }
  }

  lemma NextIsNotLive(calls: seq<Call>, nextJob: nat, live: set<Job>)
    requires CallsOk(calls, nextJob, live)
    ensures Job(nextJob) !in live
  {
  }

  lemma SumShown(s: State)
    requires JobsOk(s) && ShownOk(s)
    ensures ShownOk(UpdateOverflow(s))
  {
    hide Sum, CallsOk;
    NextIsNotLive(s.calls, s.nextJob, Live(s));
  }
}
