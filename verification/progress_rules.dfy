/** Which transfers are shown as jobs: five of their own, the rest summed in one, each held a moment after it leaves. */
module ProgressRules {
  import opened Wrappers

  const PROMOTE_AFTER: int := 2000
  const REMOVAL_GRACE: int := 1500
  const MAX_VISIBLE: nat := 5

  type Path = string

  datatype Job = Job(number: nat)

  datatype Ending = Success | Failure(reason: string) | Killed

  /** What the tracker and the jobs are told, in order. */
  datatype Call =
    | Registered(job: Job)
    | Ended(job: Job, how: Ending)
    | Unregistered(job: Job)

  datatype Progress = Progress(done: nat, total: nat)

  datatype Entry = Entry(firstSeen: int, seqNumber: nat, progress: Progress, job: Option<Job>, inOverflow: bool, pendingRemoval: bool, graceEnds: int)
  {
    predicate IsShown() {
      job.Some? || inOverflow
    }
  }

  /** A row of the transfers, in their own order. */
  datatype Row = Row(path: Path, progress: Progress)

  datatype State = State(
    enabled: bool,
    entries: map<Path, Entry>,
    nextSeq: nat,
    visible: seq<Path>,
    overflow: seq<Path>,
    overflowJob: Option<Job>,
    nextJob: nat,
    shown: map<Job, Progress>,
    calls: seq<Call>)

  const START: State := State(true, map[], 0, [], [], None, 0, map[], [])

  function RemoveOne(paths: seq<Path>, path: Path): seq<Path> {
    if paths == [] then []
    else if paths[0] == path then paths[1..]
    else [paths[0]] + RemoveOne(paths[1..], path)
  }

  // ---------------------------------------------------------------- jobs

  /** A new job is registered, and shows this much. */
  function NewJob(s: State, progress: Progress): State {
    s.(nextJob := s.nextJob + 1, calls := s.calls + [Registered(Job(s.nextJob))], shown := s.shown[Job(s.nextJob) := progress])
  }

  function Shows(s: State, job: Job, progress: Progress): State {
    s.(shown := s.shown[job := progress])
  }

  function End(s: State, job: Job, how: Ending): State {
    s.(calls := s.calls + [Ended(job, how), Unregistered(job)], shown := s.shown - {job})
  }

  /** The sum of the transfers that have no job of their own; its total is 0 when one of theirs is not known. */
  function Done(entries: map<Path, Entry>, paths: seq<Path>): nat {
    if paths == [] then 0
    else Done(entries, paths[..|paths| - 1]) + if paths[|paths| - 1] in entries then entries[paths[|paths| - 1]].progress.done else 0
  }

  function TotalOf(entries: map<Path, Entry>, path: Path): nat {
    if path in entries then entries[path].progress.total else 0
  }

  function Total(entries: map<Path, Entry>, paths: seq<Path>): nat {
    if paths == [] then 0 else Total(entries, paths[..|paths| - 1]) + TotalOf(entries, paths[|paths| - 1])
  }

  function Sum(entries: map<Path, Entry>, paths: seq<Path>): Progress {
    Progress(Done(entries, paths), if forall path <- paths :: TotalOf(entries, path) > 0 then Total(entries, paths) else 0)
  }

  function UpdateOverflow(s: State): State {
    if s.overflow == [] then
      if s.overflowJob.Some? then End(s, s.overflowJob.value, Success).(overflowJob := None) else s
    else if s.overflowJob.None? then
      NewJob(s, Sum(s.entries, s.overflow)).(overflowJob := Some(Job(s.nextJob)))
    else
      Shows(s, s.overflowJob.value, Sum(s.entries, s.overflow))
  }

  // ---------------------------------------------------------------- one path

  function GiveJob(s: State, path: Path): State
    requires path in s.entries
  {
    var entry := s.entries[path];
    NewJob(s, entry.progress).(entries := s.entries[path := entry.(job := Some(Job(s.nextJob)), inOverflow := false)], visible := s.visible + [path])
  }

  function Promote(s: State, path: Path): State {
    if path !in s.entries then s
    else if |s.visible| < MAX_VISIBLE then GiveJob(s, path)
    else UpdateOverflow(s.(entries := s.entries[path := s.entries[path].(inOverflow := true)], overflow := s.overflow + [path]))
  }

  function PromoteFromOverflow(s: State): State {
    if s.overflow == [] || |s.visible| >= MAX_VISIBLE then s
    else
      var u := s.(overflow := s.overflow[1..]);
      if s.overflow[0] !in s.entries then u else UpdateOverflow(GiveJob(u, s.overflow[0]))
  }

  function FinishPath(s: State, path: Path, how: Ending): State {
    if path !in s.entries then s
    else
      var entry := s.entries[path];
      var u := s.(entries := s.entries - {path});
      if entry.job.Some? then
        PromoteFromOverflow(End(u, entry.job.value, how).(visible := RemoveOne(s.visible, path)))
      else if entry.inOverflow then
        UpdateOverflow(u.(overflow := RemoveOne(s.overflow, path)))
      else u
  }

  // ---------------------------------------------------------------- the transfers changed

  function SeeRow(s: State, row: Row, now: int): State {
    if row.path !in s.entries then
      s.(entries := s.entries[row.path := Entry(now, s.nextSeq, row.progress, None, false, false, 0)], nextSeq := s.nextSeq + 1)
    else
      var entry := s.entries[row.path];
      var seen := entry.(progress := row.progress, pendingRemoval := false, graceEnds := if entry.pendingRemoval then 0 else entry.graceEnds);
      var u := s.(entries := s.entries[row.path := seen]);
      if entry.job.Some? then Shows(u, entry.job.value, row.progress) else u
  }

  function SeeRows(s: State, rows: seq<Row>, now: int): State {
    if rows == [] then s else SeeRow(SeeRows(s, rows[..|rows| - 1], now), rows[|rows| - 1], now)
  }

  predicate IsIn(rows: seq<Row>, path: Path) {
    exists row <- rows :: row.path == path
  }

  /** A path that left: one that is shown is held, and one that never was is forgotten. */
  function Leave(s: State, path: Path, now: int): State {
    if path !in s.entries then s
    else if s.entries[path].IsShown() then
      s.(entries := s.entries[path := s.entries[path].(pendingRemoval := true, graceEnds := now + REMOVAL_GRACE)])
    else FinishPath(s, path, Success)
  }

  function LeaveAll(s: State, paths: seq<Path>, now: int): State {
    if paths == [] then s else Leave(LeaveAll(s, paths[..|paths| - 1], now), paths[|paths| - 1], now)
  }

  function Gone(s: State, order: seq<Path>, rows: seq<Row>): seq<Path> {
    if order == [] then []
    else
      var path := order[|order| - 1];
      Gone(s, order[..|order| - 1], rows) + if path in s.entries && !IsIn(rows, path) && !s.entries[path].pendingRemoval then [path] else []
  }

  /** `order` is the order in which the table of entries gives its paths. */
  function Reconcile(s: State, rows: seq<Row>, order: seq<Path>, now: int): State {
    if !s.enabled then s
    else
      var seen := SeeRows(s, rows, now);
      var left := LeaveAll(seen, Gone(seen, order, rows), now);
      if left.overflow != [] then UpdateOverflow(left) else left
  }

  // ---------------------------------------------------------------- the time passed

  predicate IsDue(entry: Entry, now: int) {
    !entry.pendingRemoval && !entry.IsShown() && now - entry.firstSeen >= PROMOTE_AFTER
  }

  function InsertBySeq(s: State, paths: seq<Path>, path: Path): seq<Path>
    requires path in s.entries && forall p <- paths :: p in s.entries
  {
    if paths != [] && s.entries[path].seqNumber < s.entries[paths[|paths| - 1]].seqNumber then
      InsertBySeq(s, paths[..|paths| - 1], path) + [paths[|paths| - 1]]
    else paths + [path]
  }

  lemma {:induction false} InsertedAre(s: State, paths: seq<Path>, path: Path)
    requires path in s.entries && forall p <- paths :: p in s.entries
    ensures forall p :: p in InsertBySeq(s, paths, path) <==> p in paths || p == path
    ensures |InsertBySeq(s, paths, path)| == |paths| + 1
  {
    if paths != [] && s.entries[path].seqNumber < s.entries[paths[|paths| - 1]].seqNumber {
      InsertedAre(s, paths[..|paths| - 1], path);
      assert paths == paths[..|paths| - 1] + [paths[|paths| - 1]];
    }
  }

  /** Those that have run long enough and are not shown, the earliest seen first. */
  function Due(s: State, order: seq<Path>, now: int): (due: seq<Path>)
    ensures forall p <- due :: p in s.entries
  {
    if order == [] then []
    else
      var path := order[|order| - 1];
      var before := Due(s, order[..|order| - 1], now);
      if path in s.entries && IsDue(s.entries[path], now) then InsertedAre(s, before, path); InsertBySeq(s, before, path) else before
  }

  function PromoteAll(s: State, paths: seq<Path>): State {
    if paths == [] then s else Promote(PromoteAll(s, paths[..|paths| - 1]), paths[|paths| - 1])
  }

  function Expired(s: State, order: seq<Path>, now: int): seq<Path> {
    if order == [] then []
    else
      var path := order[|order| - 1];
      Expired(s, order[..|order| - 1], now) + if path in s.entries && s.entries[path].pendingRemoval && now >= s.entries[path].graceEnds then [path] else []
  }

  function FinishAll(s: State, paths: seq<Path>, how: Ending): State {
    if paths == [] then s else FinishPath(FinishAll(s, paths[..|paths| - 1], how), paths[|paths| - 1], how)
  }

  function CheckNow(s: State, order: seq<Path>, now: int): State {
    if !s.enabled then s
    else
      var promoted := PromoteAll(s, Due(s, order, now));
      FinishAll(promoted, Expired(promoted, order, now), Success)
  }

  // ---------------------------------------------------------------- everything ends

  /** The jobs of the entries end, in the order of the table. */
  function EndEntries(s: State, order: seq<Path>, how: Ending): State {
    if order == [] then s
    else
      var u := EndEntries(s, order[..|order| - 1], how);
      var path := order[|order| - 1];
      if path in s.entries && s.entries[path].job.Some? then End(u, s.entries[path].job.value, how) else u
  }

  function EndAll(s: State, order: seq<Path>, how: Ending): State {
    var u := EndEntries(s, order, how);
    var v := if s.overflowJob.Some? then End(u, s.overflowJob.value, how) else u;
    v.(entries := map[], visible := [], overflow := [], overflowJob := None)
  }

  // ---------------------------------------------------------------- events

  /** Each with the order in which the table of entries gave its paths. */
  datatype Event =
    | TransfersChanged(rows: seq<Row>, order: seq<Path>)
    | TimePassed(order: seq<Path>)
    | TransferFailed(path: Path, reason: string)
    | EnabledChanged(isEnabled: bool, rows: seq<Row>, order: seq<Path>)
    | ServiceStopped(reason: string, order: seq<Path>)

  function Step(s: State, event: Event, now: int): State {
    match event
    case TransfersChanged(rows, order) => Reconcile(s, rows, order, now)
    case TimePassed(order) => CheckNow(s, order, now)
    case TransferFailed(path, reason) => if s.enabled then FinishPath(s, path, Failure(reason)) else s
    case EnabledChanged(isEnabled, rows, order) =>
      var u := s.(enabled := isEnabled);
      if isEnabled then Reconcile(u, rows, order, now) else EndAll(u, order, Killed)
    case ServiceStopped(reason, order) => EndAll(s, order, Failure(reason))
  }
}
