/** The overlay plugin's cache of directories: which sync root each lies in, each answer backed by a watch. */
module OverlayRules {
  import opened Wrappers

  type Path = string

  datatype Watch = Watch(number: nat)

  datatype Inode = Inode(number: nat)

  datatype Directory = Directory(watch: Watch, root: Option<Path>, lastUse: nat)

  /** `kernel`: the watches held, one for each inode; a path is one of the directory it leads to. */
  datatype Engine = Engine(
    limit: nat,
    directories: map<Path, Directory>,
    pathsByWatch: map<Watch, seq<Path>>,
    clock: nat,
    kernel: map<Inode, Watch>,
    nextWatch: nat)

  function New(limit: nat): Engine {
    Engine(if limit < 2 then 2 else limit, map[], map[], 0, map[], 0)
  }

  /** What the disk says while a call runs: the sync root a directory lies in, and the inode a path leads to, if a watch of it is granted. */
  datatype Disk = Disk(rootOf: Path -> Option<Path>, inodeOf: Path -> Option<Inode>)
  {
    /** A root is a directory of its own: the climb from it ends where it starts. */
    ghost predicate Sound() {
      forall dir: Path :: rootOf(dir).Some? ==> rootOf(rootOf(dir).value) == rootOf(dir)
    }
  }

  predicate IsInside(path: Path, dir: Path) {
    path == dir || (var prefix := if dir != "" && dir[|dir| - 1] == '/' then dir else dir + "/"; |path| >= |prefix| && path[..|prefix|] == prefix)
  }

  // ---------------------------------------------------------------- forgetting

  function Without(paths: seq<Path>, gone: set<Path>): seq<Path> {
    if paths == [] then []
    else if paths[0] in gone then Without(paths[1..], gone)
    else [paths[0]] + Without(paths[1..], gone)
  }

  /** These directories go, and each watch nobody has any more. */
  function Drop(s: Engine, gone: set<Path>): Engine {
    s.(directories := s.directories - gone,
       pathsByWatch := map w | w in s.pathsByWatch && Without(s.pathsByWatch[w], gone) != [] :: Without(s.pathsByWatch[w], gone),
       kernel := map i | i in s.kernel && !(s.kernel[i] in s.pathsByWatch && Without(s.pathsByWatch[s.kernel[i]], gone) == []) :: s.kernel[i])
  }

  predicate Names(s: Engine, path: Path, root: Path) {
    path in s.directories && s.directories[path].root == Some(root)
  }

  /** What goes with a directory: itself, and, when it is a root, every directory that names it. */
  function GoneWith(s: Engine, dir: Path): set<Path> {
    set p | p in s.directories && dir in s.directories && (p == dir || (Names(s, dir, dir) && Names(s, p, dir)))
  }

  function Forget(s: Engine, dir: Path): Engine {
    Drop(s, GoneWith(s, dir))
  }

  function GoneWithAll(s: Engine, doomed: set<Path>): set<Path> {
    set p, d | p in s.directories && d in doomed && p in GoneWith(s, d) :: p
  }

  /** The directory lies below one of these or names it as its root. */
  predicate Depends(s: Engine, dirs: set<Path>, path: Path) {
    path in s.directories && exists dir <- dirs :: IsInside(path, dir) || Names(s, path, dir)
  }

  function Doomed(s: Engine, dirs: set<Path>): set<Path> {
    set p | p in s.directories && Depends(s, dirs, p)
  }

  /** These directories left: what lies below them, or names them, is forgotten. */
  function ForgetTrees(s: Engine, dirs: set<Path>): Engine {
    Drop(s, GoneWithAll(s, Doomed(s, dirs)))
  }

  // ---------------------------------------------------------------- the least recently used

  ghost predicate IsOldest(s: Engine, oldest: Path) {
    oldest in s.directories && forall p <- s.directories :: s.directories[oldest].lastUse <= s.directories[p].lastUse
  }

  lemma {:induction false} OldestIn(s: Engine, among: set<Path>) returns (oldest: Path)
    requires among <= s.directories.Keys && among != {}
    ensures oldest in among && forall p <- among :: s.directories[oldest].lastUse <= s.directories[p].lastUse
    decreases among
  {
    var one :| one in among;
    var rest := among - {one};
    assert among == rest + {one};
    if rest == {} {
      oldest := one;
    } else {
      var next := OldestIn(s, rest);
      oldest := if s.directories[next].lastUse < s.directories[one].lastUse then next else one;
    }
  }

  ghost function Oldest(s: Engine): (oldest: Path)
    requires s.directories != map[]
    ensures IsOldest(s, oldest)
  {
    assert exists p :: IsOldest(s, p) by {
      var p := OldestIn(s, s.directories.Keys);
      assert IsOldest(s, p);
    }
    var p :| IsOldest(s, p);
    p
  }

  lemma ForgetIsLess(s: Engine, dir: Path)
    requires dir in s.directories
    ensures |Forget(s, dir).directories| < |s.directories|
  {
  }

  lemma SmallerSet(a: set<Path>, b: set<Path>)
    requires a < b
    ensures |a| < |b|
  {
    assert b == a + (b - a) && a !! (b - a);
    assert b - a == {} ==> b <= a;
  }

  /** The least recently used go until there is room for one more. */
  ghost function MakeRoom(s: Engine): Engine
    requires s.limit > 0
    decreases |s.directories|
  {
    if |s.directories| < s.limit then s
    else
      ForgetIsLess(s, Oldest(s));
      MakeRoom(Forget(s, Oldest(s)))
  }

  // ---------------------------------------------------------------- asking

  function Use(s: Engine, dir: Path): Engine
    requires dir in s.directories
  {
    var u := s.(clock := s.clock + 1, directories := s.directories[dir := s.directories[dir].(lastUse := s.clock + 1)]);
    var root := s.directories[dir].root;
    if root.Some? && root.value in s.directories && root.value != dir then
      u.(clock := s.clock + 2, directories := u.directories[root.value := u.directories[root.value].(lastUse := s.clock + 2)])
    else u
  }

  /** The watch of an inode: the one there is, or a new one. */
  function WatchOf(s: Engine, inode: Inode): Watch {
    if inode in s.kernel then s.kernel[inode] else Watch(s.nextWatch)
  }

  function AddWatch(s: Engine, inode: Inode): Engine {
    if inode in s.kernel then s else s.(kernel := s.kernel[inode := Watch(s.nextWatch)], nextWatch := s.nextWatch + 1)
  }

  function PathsOf(s: Engine, watch: Watch): seq<Path> {
    if watch in s.pathsByWatch then s.pathsByWatch[watch] else []
  }

  /** The directory with a watch of its inode, and its root as the disk says it then. */
  function Insert(s: Engine, dir: Path, inode: Inode, root: Option<Path>): Engine {
    var watch := WatchOf(s, inode);
    AddWatch(s, inode).(directories := s.directories[dir := Directory(watch, root, 0)], pathsByWatch := s.pathsByWatch[watch := PathsOf(s, watch) + [dir]])
  }

  ghost function SetOf(paths: seq<Path>): set<Path> {
    set p | p in paths
  }

  /** The cached answer of a root, made now if there is none. */
  ghost function AskRoot(s: Engine, disk: Disk, root: Path): (Engine, bool)
    requires s.limit > 0
  {
    if root in s.directories then (Use(s, root), true)
    else
      var room := MakeRoom(s);
      match disk.inodeOf(root)
      case None => (room, false)
      case Some(inode) => (Use(Insert(room, root, inode, disk.rootOf(root)), root), true)
  }

  /** The cached answer of a directory: its entry, its watch, and those of the root it names. */
  ghost function Ask(s: Engine, disk: Disk, dir: Path): (Engine, bool)
    requires s.limit > 0
  {
    if dir in s.directories then (Use(s, dir), true)
    else
      var room := MakeRoom(s);
      match disk.inodeOf(dir)
      case None => (room, false)
      case Some(inode) =>
        var root := disk.rootOf(dir);
        var own := Use(Insert(room, dir, inode, root), dir);
        if root.None? || root.value == dir then (own, true)
        else
          MakeRoomKeepsLimit(s);
          var (rooted, _) := AskRoot(own, disk, root.value);
          if dir !in rooted.directories then (rooted, false)
          else (Use(rooted.(directories := rooted.directories[dir := rooted.directories[dir].(root := root)]), dir), true)
  }

  lemma {:induction false} MakeRoomKeepsLimit(s: Engine)
    requires s.limit > 0
    ensures MakeRoom(s).limit == s.limit && |MakeRoom(s).directories| < s.limit
    decreases |s.directories|
  {
    if |s.directories| >= s.limit {
      ForgetIsLess(s, Oldest(s));
      MakeRoomKeepsLimit(Forget(s, Oldest(s)));
    }
  }

  // ---------------------------------------------------------------- marks that changed

  /** The answers that these marks can change are worked out again. */
  function WorkedOut(s: Engine, disk: Disk, changed: set<Path>): Engine {
    s.(directories := map p | p in s.directories :: if Depends(s, changed, p) then s.directories[p].(root := disk.rootOf(p)) else s.directories[p])
  }

  ghost function RootsNamed(s: Engine, disk: Disk, changed: set<Path>): set<Path> {
    set p | p in s.directories && Depends(s, changed, p) && disk.rootOf(p).Some? && disk.rootOf(p).value != p :: disk.rootOf(p).value
  }

  ghost function AskRoots(s: Engine, disk: Disk, roots: seq<Path>): (u: Engine)
    requires s.limit > 0
    ensures u.limit == s.limit
  {
    if roots == [] then s
    else
      var before := AskRoots(s, disk, roots[..|roots| - 1]);
      AskRootKeepsLimit(before, disk, roots[|roots| - 1]);
      AskRoot(before, disk, roots[|roots| - 1]).0
  }

  lemma AskRootKeepsLimit(s: Engine, disk: Disk, root: Path)
    requires s.limit > 0
    ensures AskRoot(s, disk, root).0.limit == s.limit
  {
    MakeRoomKeepsLimit(s);
  }

  /** `roots` are the roots the answers name then, in the order their table gives them. */
  ghost function ResolveAgain(s: Engine, disk: Disk, changed: set<Path>, roots: seq<Path>): Engine
    requires s.limit > 0
  {
    AskRoots(WorkedOut(s, disk, changed), disk, roots)
  }

  // ---------------------------------------------------------------- what the kernel tells

  /** What a watch tells of its directory, and that so much happened that some was not told; what it tells of files is not here. */
  datatype Notice = Gone(watch: Watch) | MarkChanged(watch: Watch) | Overflow

  /** The directories that left: their paths lead to them no more. */
  function GoneOf(s: Engine, notices: seq<Notice>): set<Path> {
    set n, p | n in notices && n.Gone? && p in PathsOf(s, n.watch) :: p
  }

  function MarkedOf(s: Engine, notices: seq<Notice>): set<Path> {
    set n, p | n in notices && n.MarkChanged? && p in PathsOf(s, n.watch) :: p
  }

  /** What is forgotten when the notices are read: before any answer is worked out again. */
  function Forgotten(s: Engine, notices: seq<Notice>): Engine {
    ForgetTrees(s, GoneOf(s, notices))
  }

  /** The directories whose marks may have changed: all, when some was not told. */
  function Suspect(s: Engine, notices: seq<Notice>): set<Path> {
    if Overflow in notices then Forgotten(s, notices).directories.Keys else MarkedOf(s, notices)
  }

  /** All that was told is read in one call. */
  ghost function ReadAll(s: Engine, disk: Disk, notices: seq<Notice>, roots: seq<Path>): Engine
    requires s.limit > 0
  {
    ResolveAgain(Forgotten(s, notices), disk, Suspect(s, notices), roots)
  }
}
